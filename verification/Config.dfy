/** Word size, alignment, request padding and the words that the allocator keeps in memory.

    The word size is symbolic: every result holds for 4-byte and for 8-byte size_t.  The rest of
    the configuration is FOOTERS=0, INSECURE=0, USE_LOCKS=0 and abort on error. */
module Config {
  type WordSize = w: nat | w == 4 || w == 8 witness 8

  const W: WordSize                         // SIZE_T_SIZE
  const ALIGN: nat := 2 * W                 // MALLOC_ALIGNMENT
  const MIN_CHUNK: nat := 4 * W             // MIN_CHUNK_SIZE
  const OVERHEAD: nat := W                  // CHUNK_OVERHEAD without footers
  const TOP_FOOT: nat := 10 * W             // TOP_FOOT_SIZE
  const WORD_BITS: nat := 8 * W             // SIZE_T_BITSIZE
  const MOD: nat := if W == 4 then 0x1_0000_0000 else 0x1_0000_0000_0000_0000   // 2 ^ WORD_BITS
  const MIN_LARGE: nat := 256               // MIN_LARGE_SIZE
  const NBINS: nat := 32                    // NSMALLBINS and NTREEBINS
  const MAX_SMALL_REQUEST: nat := MIN_LARGE - 1 - (ALIGN - 1) - OVERHEAD
  const MIN_REQUEST: nat := MIN_CHUNK - OVERHEAD - 1
  const MAX_REQUEST: nat := MOD - 4 * MIN_CHUNK

  type Addr = int
  const NULL: Addr := 0

  /** The head word of a chunk: size, CINUSE_BIT and PINUSE_BIT. */
  datatype Head = Head(size: nat, cinuse: bool, pinuse: bool)

  /** FENCEPOST_HEAD: a chunk of one word that is in use and whose predecessor is in use. */
  const FENCE: Head := Head(W, true, true)

  /** The head word behind top: TOP_FOOT_SIZE with both bits clear. */
  const TAIL: Head := Head(TOP_FOOT, false, false)

  /** One field of every chunk-sized overlay in memory, indexed by the chunk's address. */
  type Words = imap<Addr, int>
  type Heads = imap<Addr, Head>

  /** Reading and writing the word at an address. */
  function At(m: Words, a: Addr): int {
    if a in m then m[a] else 0
  }

  function Put(m: Words, a: Addr, x: int): Words {
    m[a := x]
  }

  function HeadAt(m: Heads, a: Addr): Head {
    if a in m then m[a] else Head(0, false, false)
  }

  function PutHead(m: Heads, a: Addr, h: Head): Heads {
    m[a := h]
  }

  /** Unsigned subtraction and negation wrap around. */
  function Wrap(x: int): (r: nat)
    ensures r < MOD
  {
    x % MOD
  }

  /** is_aligned; written so that the verifier sees a constant divisor. */
  predicate Aligned(x: int) {
    if W == 4 then x % 8 == 0 else x % 16 == 0
  }

  /** (x + ALIGN-1) & ~(ALIGN-1), for an ALIGN that is a power of two. */
  function AlignUp(x: nat): (r: nat)
    ensures Aligned(r) && x <= r < x + ALIGN
  {
    if W == 4 then (x + 7) / 8 * 8 else (x + 15) / 16 * 16
  }

  /** pad_request */
  function PadRequest(bytes: nat): (nb: nat)
    ensures Aligned(nb) && bytes + OVERHEAD <= nb < bytes + OVERHEAD + ALIGN
  {
    AlignUp(bytes + OVERHEAD)
  }

  /** request2size */
  function Request2Size(bytes: nat): (nb: nat)
    ensures Aligned(nb) && MIN_CHUNK <= nb && bytes + OVERHEAD <= nb
    ensures MIN_CHUNK < nb ==> nb < bytes + OVERHEAD + ALIGN
  {
    if bytes < MIN_REQUEST then MIN_CHUNK else PadRequest(bytes)
  }

  /** Names a fact that a quantified invariant promises, so that the verifier looks it up. */
  lemma Recall(fact: bool)
  {
  }
}
