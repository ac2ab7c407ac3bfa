/** Which chunk malloc takes: the exact rules, stated on the table of binned chunks, dv and top. */
module Choices {
  import opened Config
  import opened Bins

  ghost predicate HasFit(t: Table, nb: int) {
    exists p {:trigger t[p]} | p in t :: t[p] >= nb
  }

  /** p is a smallest binned chunk with room for nb. */
  ghost predicate LeastFit(t: Table, nb: int, p: Addr) {
    && p in t && t[p] >= nb
    && forall c {:trigger t[c]} | c in t && t[c] >= nb :: t[p] <= t[c]
  }

  /** A smallbin has a chunk of size nb, or one that is too little larger to be split. */
  ghost predicate HasExact(t: Table, nb: int) {
    HasSize(t, nb) || (IsSmall(nb + 8) && HasSize(t, nb + 8))
  }

  /** A request of nb bytes that counts as small: an exact fit, then dv, then the best binned fit, then top. */
  ghost predicate SmallChoice(t: Table, dv: Addr, dvsize: nat, top: Addr, nb: nat, p: Addr) {
    if HasExact(t, nb) then p in t && t[p] == if HasSize(t, nb) then nb else nb + 8
    else if nb <= dvsize then p == dv
    else if HasFit(t, nb) then LeastFit(t, nb, p)
    else p == top
  }

  /** Some binned chunk fits better than dv. */
  ghost predicate BeatsDv(t: Table, dvsize: nat, nb: int) {
    exists c {:trigger t[c]} | c in t :: nb <= t[c] && (dvsize < nb || t[c] < dvsize)
  }

  /** A large request: the best fit among binned chunks and dv, and top only if none of them fits. */
  ghost predicate LargeChoice(t: Table, dv: Addr, dvsize: nat, top: Addr, nb: nat, p: Addr) {
    if BeatsDv(t, dvsize, nb) then LeastFit(t, nb, p)
    else if nb <= dvsize then p == dv
    else p == top
  }
}
