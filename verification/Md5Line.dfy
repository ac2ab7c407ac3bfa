/** The lines that md5sum writes and reads: a digest, a mark for binary mode, and a file name. */
module Md5Line {
  import opened Md5

  const NUL: char := 0 as char

  /** hex_digit */
  function HexDigit(c: char): (d: int)
    ensures -1 <= d < 16
  {
    if '0' <= c <= '9' then c as int - '0' as int
    else if 'a' <= c <= 'f' then c as int - 'a' as int + 10
    else -1
  }

  function Digit(d: nat): (c: char)
    requires d < 16
    ensures HexDigit(c) == d
  {
    if d < 10 then (d + '0' as int) as char else (d - 10 + 'a' as int) as char
  }

  /** "%02x" */
  function TwoDigits(b: Byte): string {
    [Digit(b / 16), Digit(b % 16)]
  }

  function Hex(digest: seq<Byte>): (s: string)
    ensures |s| == 2 * |digest|
  {
    if digest == [] then [] else Hex(digest[..|digest| - 1]) + TwoDigits(digest[|digest| - 1])
  }

  /** A line of md5sum, up to its last character. */
  function Front(digest: seq<Byte>, binary: bool, name: string): string {
    Hex(digest) + " " + (if binary then "*" else " ") + name
  }

  /** print_digest */
  method PrintDigest(p: seq<Byte>) returns (md5code: string)
    ensures md5code == Hex(p)
  {
    md5code := [];
    var i := 0;
    while i < |p|
      invariant 0 <= i <= |p| && md5code == Hex(p[..i])
    {
      assert p[..i + 1][..i] == p[..i];
      md5code := md5code + TwoDigits(p[i]);
      i := i + 1;
    }
    assert p[..i] == p;
  }

  /** The character at i of a string that ends with a NUL */
  function At(s: string, i: nat): char {
    if i < |s| then s[i] else NUL
  }

  /** strlen */
  function StrLen(s: string): (n: nat)
    ensures n <= |s| && (n < |s| ==> s[n] == NUL) && forall i | 0 <= i < n :: s[i] != NUL
  {
    if s == [] || s[0] == NUL then 0 else 1 + StrLen(s[1..])
  }

  lemma {:induction false} StrLenIs(s: string, n: nat)
    requires n <= |s| && (n < |s| ==> s[n] == NUL) && forall i | 0 <= i < n :: s[i] != NUL
    ensures StrLen(s) == n
  {
    if n > 0 {
      StrLenIs(s[1..], n - 1);
    }
  }

  /** buf holds a line with a digest and a name of 1 to 254 characters, and one character more. */
  ghost predicate IsLine(buf: string, digest: seq<Byte>, binary: bool, name: string) {
    && |digest| == 16 && 1 <= |name| <= 254 && |Front(digest, binary, name)| < |buf|
    && buf[..|Front(digest, binary, name)|] == Front(digest, binary, name)
    && StrLen(buf) == |Front(digest, binary, name)| + 1
  }

  ghost predicate NoLine(buf: string) {
    forall d, binary, name {:trigger IsLine(buf, d, binary, name)} :: !IsLine(buf, d, binary, name)
  }

  /** The loop of get_md5_line */
  method ReadDigest(buf: string) returns (ok: bool, digest: seq<Byte>)
    ensures ok ==> |digest| == 16 && 32 <= |buf| && buf[..32] == Hex(digest)
    ensures !ok ==> NoLine(buf)
  {
    LineDigits(buf);
    hide IsLine;
    digest := [];
    var i := 0;
    while i < 16
      invariant 0 <= i <= 16 && |digest| == i && |Hex(digest)| <= |buf| && buf[..2 * i] == Hex(digest)
    {
      var d1 := HexDigit(At(buf, 2 * i));
      if d1 == -1 {
        return false, digest;
      }
      var d2 := HexDigit(At(buf, 2 * i + 1));
      if d2 == -1 {
        return false, digest;
      }
      DigitIs(d1, buf[2 * i]);
      DigitIs(d2, buf[2 * i + 1]);
      digest := digest + [d1 * 16 + d2];
      assert digest[..i] == digest[..|digest| - 1];
      assert buf[..2 * i + 2] == buf[..2 * i] + TwoDigits(d1 * 16 + d2);
      i := i + 1;
    }
    ok := true;
  }

  /** get_md5_line, for what fgets has read: 0 for anything else, 1 for a text file, 2 for a binary one. */
  method GetMd5Line(buf: string) returns (rc: int, digest: seq<Byte>, file: string)
    ensures rc == 0 || ((rc == 1 || rc == 2) && IsLine(buf, digest, rc == 2, file))
    ensures rc == 0 ==> NoLine(buf)
  {
    file := [];
    var ok;
    ok, digest := ReadDigest(buf);
    FrontIs(buf);
    if !ok || At(buf, 32) != ' ' {
      return 0, digest, file;
    }
    if At(buf, 33) == ' ' {
      rc := 1;
    } else if At(buf, 33) == '*' {
      rc := 2;
    } else {
      return 0, digest, file;
    }
    var n := StrLen(buf[34..]);
    Behind(buf, digest);
    if n < 2 || n > 255 {
      return 0, digest, file;
    }
    file := buf[34..34 + n - 1];
    assert buf[..34 + n - 1] == Front(digest, rc == 2, file);
  }

  lemma DigitIs(d: int, c: char)
    requires d == HexDigit(c) && d != -1
    ensures Digit(d) == c
  {
  }

  /** In a line, the first 32 characters are digits. */
  lemma LineDigits(buf: string)
    ensures forall d, binary, name, k {:trigger IsLine(buf, d, binary, name), At(buf, k)} |
      IsLine(buf, d, binary, name) && 0 <= k < 32 :: HexDigit(At(buf, k)) != -1
  {
    forall d, binary, name, k {:trigger IsLine(buf, d, binary, name), At(buf, k)} |
      IsLine(buf, d, binary, name) && 0 <= k < 32 ensures HexDigit(At(buf, k)) != -1
    {
      HexAt(d, k);
      assert Front(d, binary, name)[k] == Hex(d)[k];
      assert buf[k] == Front(d, binary, name)[k];
    }
  }

  lemma {:induction false} HexAt(digest: seq<Byte>, k: nat)
    requires k < 2 * |digest|
    ensures HexDigit(Hex(digest)[k]) == if k % 2 == 0 then digest[k / 2] / 16 else digest[k / 2] % 16
  {
    var n := |digest| - 1;
    if k < 2 * n {
      HexAt(digest[..n], k);
    }
  }

  /** What a line has behind its digits. */
  lemma FrontIs(buf: string)
    ensures forall d, binary, name | IsLine(buf, d, binary, name) ::
      At(buf, 32) == ' ' && At(buf, 33) == if binary then '*' else ' '
  {
    forall d, binary, name | IsLine(buf, d, binary, name)
      ensures At(buf, 32) == ' ' && At(buf, 33) == if binary then '*' else ' '
    {
      assert buf[32] == Front(d, binary, name)[32] && buf[33] == Front(d, binary, name)[33];
    }
  }

  lemma {:induction false} StrLenBehind(s: string, k: nat)
    requires k <= |s| && forall i | 0 <= i < k :: s[i] != NUL
    ensures StrLen(s) == k + StrLen(s[k..])
  {
    if k > 0 {
      assert s[1..][k - 1..] == s[k..];
      StrLenBehind(s[1..], k - 1);
    } else {
      assert s[0..] == s;
    }
  }

  lemma Behind(buf: string, digest: seq<Byte>)
    requires |digest| == 16 && |buf| >= 34 && buf[..32] == Hex(digest) && buf[32] != NUL && buf[33] != NUL
    ensures StrLen(buf) == 34 + StrLen(buf[34..])
  {
    forall i | 0 <= i < 34 ensures buf[i] != NUL {
      if i < 32 {
        HexAt(digest, i);
        assert buf[i] == Hex(digest)[i];
      }
    }
    StrLenBehind(buf, 34);
  }

  /** Neither newlines nor NULs */
  predicate Plain(s: string) {
    forall i {:trigger s[i]} | 0 <= i < |s| :: s[i] != '\n' && s[i] != NUL
  }

  /** What fgets puts into a buffer of size bytes: up to a newline, and at most size - 1 characters. */
  function Fgets(content: string, size: nat): string {
    if content == [] || size <= 1 then []
    else if content[0] == '\n' then "\n"
    else [content[0]] + Fgets(content[1..], size - 1)
  }

  lemma {:induction false} FgetsLine(s: string, rest: string, size: nat)
    requires |s| + 2 <= size && Plain(s)
    ensures Fgets(s + "\n" + rest, size) == s + "\n"
  {
    var content := s + "\n" + rest;
    if s != [] {
      assert content[1..] == s[1..] + "\n" + rest;
      FgetsLine(s[1..], rest, size - 1);
      assert s == [s[0]] + s[1..];
    }
  }

  /** A line determines its digest, mark and name. */
  lemma LineUnique(buf: string, d: seq<Byte>, b: bool, n: string, e: seq<Byte>, c: bool, m: string)
    requires IsLine(buf, d, b, n) && IsLine(buf, e, c, m)
    ensures d == e && b == c && n == m
  {
    FrontIs(buf);
    assert |n| == |m|;
    assert Front(d, b, n) == Front(e, c, m);
    forall i | 0 <= i < 16 ensures d[i] == e[i] {
      HexAt(d, 2 * i);
      HexAt(d, 2 * i + 1);
      HexAt(e, 2 * i);
      HexAt(e, 2 * i + 1);
      assert Front(d, b, n)[2 * i] == Hex(d)[2 * i] && Front(e, c, m)[2 * i] == Hex(e)[2 * i];
      assert Front(d, b, n)[2 * i + 1] == Hex(d)[2 * i + 1] && Front(e, c, m)[2 * i + 1] == Hex(e)[2 * i + 1];
    }
    assert n == Front(d, b, n)[34..] && m == Front(e, c, m)[34..];
  }

  /** What md5sum prints for a file is read back as it was. */
  method RoundTrip(digest: seq<Byte>, binary: bool, name: string, rest: string)
    returns (rc: int, digest': seq<Byte>, name': string)
    requires |digest| == 16 && 1 <= |name| <= 254 && Plain(name)
    ensures rc == (if binary then 2 else 1) && digest' == digest && name' == name
  {
    var md5code := PrintDigest(digest);
    var front := md5code + " " + (if binary then "*" else " ") + name;
    FrontPlain(digest, binary, name);
    FgetsLine(front, rest, 1024);
    var buf := Fgets(front + "\n" + rest, 1024);
    StrLenIs(buf, |buf|);
    assert IsLine(buf, digest, binary, name);
    rc, digest', name' := GetMd5Line(buf);
    LineRead(buf, digest, binary, name, rc, digest', name');
  }

  lemma {:induction false} FgetsCut(s: string, rest: string, size: nat)
    requires 1 <= size <= |s| + 1 && Plain(s)
    ensures Fgets(s + rest, size) == s[..size - 1]
  {
    var content := s + rest;
    if size > 1 {
      assert content[1..] == s[1..] + rest;
      FgetsCut(s[1..], rest, size - 1);
      assert s[..size - 1] == [s[0]] + s[1..][..size - 2];
    }
  }

  lemma {:induction false} FgetsEnd(s: string, size: nat)
    requires |s| < size && Plain(s)
    ensures Fgets(s, size) == s
  {
    if s != [] {
      FgetsEnd(s[1..], size - 1);
      assert s == [s[0]] + s[1..];
    }
  }

  /** What fgets reads of the last line of a file, with its newline or without. */
  lemma LastRead(front: string, tail: string)
    requires Plain(front) && tail in {"", "\n"}
    ensures var buf := Fgets(front + tail, 1024);
      buf == (if |front| >= 1023 then front[..1023] else front + tail) && StrLen(buf) == |buf|
  {
    if |front| >= 1023 {
      FgetsCut(front, tail, 1024);
    } else if tail == "" {
      assert front + tail == front;
      FgetsEnd(front, 1024);
    } else {
      assert front + tail == front + "\n" + "";
      FgetsLine(front, "", 1024);
    }
    var buf := Fgets(front + tail, 1024);
    StrLenIs(buf, |buf|);
  }

  /** The last line of a file: the name is read as it was if and only if it has the length that the reader
      admits and the line ends with a newline.  Without one, the last character of the name is lost. */
  method LastLine(digest: seq<Byte>, binary: bool, name: string, tail: string)
    returns (rc: int, digest': seq<Byte>, name': string)
    requires |digest| == 16 && Plain(name) && tail in {"", "\n"}
    ensures rc != 0 && name' == name <==> 1 <= |name| <= 254 && tail == "\n"
    ensures tail == "" && 2 <= |name| <= 255 ==> rc != 0 && name' == name[..|name| - 1]
    ensures rc != 0 ==> rc == (if binary then 2 else 1) && digest' == digest
  {
    var front := Front(digest, binary, name);
    FrontPlain(digest, binary, name);
    LastRead(front, tail);
    var buf := Fgets(front + tail, 1024);
    rc, digest', name' := GetMd5Line(buf);
    if 1 <= |name| <= 254 && tail == "\n" {
      LineRead(buf, digest, binary, name, rc, digest', name');
    } else if 2 <= |name| <= 255 && tail == "" {
      assert Front(digest, binary, name[..|name| - 1]) == front[..|front| - 1];
      LineRead(buf, digest, binary, name[..|name| - 1], rc, digest', name');
    }
  }

  lemma LineRead(buf: string, d: seq<Byte>, b: bool, n: string, rc: int, e: seq<Byte>, m: string)
    requires IsLine(buf, d, b, n) && (rc == 0 ==> NoLine(buf))
    requires rc == 0 || ((rc == 1 || rc == 2) && IsLine(buf, e, rc == 2, m))
    ensures rc == (if b then 2 else 1) && e == d && m == n
  {
    if rc != 0 {
      LineUnique(buf, d, b, n, e, rc == 2, m);
    }
  }

  lemma FrontPlain(digest: seq<Byte>, binary: bool, name: string)
    requires |digest| == 16 && Plain(name)
    ensures Plain(Front(digest, binary, name))
  {
    var f := Front(digest, binary, name);
    forall k | 0 <= k < |f| ensures f[k] != '\n' && f[k] != NUL {
      if k < 32 {
        HexAt(digest, k);
        assert f[k] == Hex(digest)[k];
      } else if k >= 34 {
        assert f[k] == name[k - 34];
      }
    }
  }
}
