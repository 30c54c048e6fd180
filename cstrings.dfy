/** NUL-terminated character buffers and the two in-place string helpers of
    the sampler: the ASCII uppercaser and the trailing line-end strip that
    `read_first_line` applies after `fgets`. */
module CStrings {

  const NUL: char := '\0'

  /** The text of a C string: characters only, never a terminator. */
  type CText = s: string | NUL !in s

  /** `strlen` from position `i`: the index of the first NUL at or after `i`,
      or the end of the buffer when there is none. */
  function CLengthFrom(b: seq<char>, i: nat): (n: nat)
    requires i <= |b|
    ensures i <= n <= |b|
    ensures n < |b| ==> b[n] == NUL
    ensures forall j :: i <= j < n ==> b[j] != NUL
    decreases |b| - i
  {
    if i == |b| || b[i] == NUL then i else CLengthFrom(b, i + 1)
  }

  /** `strlen(b)`: the length of the C string the buffer holds. */
  function CLength(b: seq<char>): (n: nat)
    ensures n <= |b|
    ensures n < |b| ==> b[n] == NUL
    ensures forall j :: 0 <= j < n ==> b[j] != NUL
  {
    CLengthFrom(b, 0)
  }

  /** The C string a buffer holds: everything before its first NUL. */
  function CPrefix(b: seq<char>): (p: CText)
    ensures p == b[..CLength(b)]
  {
    b[..CLength(b)]
  }

  /** Text written into a buffer and terminated reads back as that text. */
  lemma CPrefixOfText(s: CText, rest: seq<char>)
    ensures CPrefix(s + [NUL] + rest) == s
  {
    var b := s + [NUL] + rest;
    assert b[|s|] == NUL;
    assert forall j :: 0 <= j < |s| ==> b[j] == s[j];
    assert b[..|s|] == s;
  }

  // ---------------------------------------------------------------- upcase

  predicate IsLowerAscii(c: char) {
    'a' <= c <= 'z'
  }

  /** The per-character step of `upcase_ascii`. */
  function UpcaseChar(c: char): char {
    if IsLowerAscii(c) then (c as int - 'a' as int + 'A' as int) as char else c
  }

  /** Every character of `s` passed through the uppercaser. */
  function Upcased(s: seq<char>): (r: seq<char>)
    ensures |r| == |s|
    ensures forall i :: 0 <= i < |s| ==>
      if 'a' <= s[i] <= 'z' then 'A' <= r[i] <= 'Z' && r[i] as int - s[i] as int == 'A' as int - 'a' as int
      else r[i] == s[i]
  {
    seq(|s|, i requires 0 <= i < |s| => UpcaseChar(s[i]))
  }

  lemma UpcasedIdempotent(s: seq<char>)
    ensures Upcased(Upcased(s)) == Upcased(s)
  {
  }

  /** Uppercasing leaves no lower-case ASCII letter and keeps C text C text. */
  lemma UpcasedHasNoLower(s: seq<char>)
    ensures forall i :: 0 <= i < |s| ==> !IsLowerAscii(Upcased(s)[i])
    ensures NUL !in s ==> NUL !in Upcased(s)
  {
  }

  /** The whole buffer after `upcase_ascii`: the C string uppercased, the
      terminator and everything after it as before. */
  function UpcaseCString(b: seq<char>): (r: seq<char>)
    ensures |r| == |b|
  {
    var n := CLength(b);
    Upcased(b[..n]) + b[n..]
  }

  /** Uppercasing a terminated buffer uppercases the string it holds and
      nothing past its terminator. */
  lemma UpcaseCStringText(b: seq<char>)
    requires NUL in b
    ensures CPrefix(UpcaseCString(b)) == Upcased(CPrefix(b))
    ensures UpcaseCString(b)[CLength(b)..] == b[CLength(b)..]
  {
    var n := CLength(b);
    var u := Upcased(CPrefix(b));
    UpcasedHasNoLower(CPrefix(b));
    assert UpcaseCString(b) == u + [NUL] + b[n + 1..];
    CPrefixOfText(u, b[n + 1..]);
  }

  /** `upcase_ascii`: a NULL pointer is left alone; otherwise every lower-case
      ASCII letter before the terminator is replaced in place. */
  method UpcaseAscii(s: array?<char>)
    requires s != null ==> NUL in s[..]
    modifies s
    ensures s != null ==> s[..] == UpcaseCString(old(s[..]))
  {
    if s == null {
      return;
    }
    ghost var n := CLength(s[..]);
    var p := 0;
    while s[p] != NUL
      invariant 0 <= p <= n
      invariant forall i :: 0 <= i < p ==> s[i] == UpcaseChar(old(s[i]))
      invariant forall i :: p <= i < s.Length ==> s[i] == old(s[i])
      decreases n - p
    {
      if 'a' <= s[p] <= 'z' {
        s[p] := (s[p] as int - 'a' as int + 'A' as int) as char;
      }
      p := p + 1;
    }
    assert s[..] == Upcased(old(s[..])[..n]) + old(s[..])[n..];
  }

  // ----------------------------------------------------------- line strip

  predicate IsLineEnd(c: char) {
    c == '\n' || c == '\r'
  }

  /** How long the first `n` characters of `s` are once trailing '\n' and
      '\r' are dropped: the longest such prefix that does not end in one. */
  function TrimmedLength(s: seq<char>, n: nat): (k: nat)
    requires n <= |s|
    ensures k <= n
    ensures k == 0 || !IsLineEnd(s[k - 1])
    ensures forall j :: k <= j < n ==> IsLineEnd(s[j])
  {
    if n > 0 && IsLineEnd(s[n - 1]) then TrimmedLength(s, n - 1) else n
  }

  /** The whole buffer after the strip: its C string cut back to the trimmed
      length, each removed line end overwritten by NUL, the rest as before. */
  function StripLineEndBuffer(b: seq<char>): (r: seq<char>)
    ensures |r| == |b|
  {
    var n := CLength(b);
    var k := TrimmedLength(b, n);
    seq(|b|, i requires 0 <= i < |b| => if k <= i < n then NUL else b[i])
  }

  /** After the strip the buffer holds exactly the line without its trailing
      line ends. */
  lemma StripLineEndBufferText(b: seq<char>)
    requires NUL in b
    ensures CPrefix(StripLineEndBuffer(b)) == b[..TrimmedLength(b, CLength(b))]
  {
    var r := StripLineEndBuffer(b);
    var k := TrimmedLength(b, CLength(b));
    var t: CText := b[..k];
    assert r == t + [NUL] + r[k + 1..] by {
      assert r[..k] == t;
      assert r == r[..k] + [r[k]] + r[k + 1..];
    }
    CPrefixOfText(t, r[k + 1..]);
  }

  /** The strip writes NUL over the trailing line ends and nothing else: the
      characters before them and everything from the old terminator on are
      untouched. */
  lemma StripLineEndBufferKeeps(b: seq<char>)
    requires NUL in b
    ensures var r, n, k := StripLineEndBuffer(b), CLength(b), TrimmedLength(b, CLength(b));
      && r[..k] == b[..k]
      && (forall i :: k <= i < n ==> r[i] == NUL && IsLineEnd(b[i]))
      && r[n..] == b[n..]
  {
  }

  /** The loop of `read_first_line` that walks back from the terminator,
      overwriting each trailing '\n' or '\r' with NUL. */
  method StripLineEnd(out: array<char>)
    requires NUL in out[..]
    modifies out
    ensures out[..] == StripLineEndBuffer(old(out[..]))
  {
    ghost var b := out[..];
    ghost var n0 := CLength(b);
    var n := CLength(out[..]);
    while n > 0 && IsLineEnd(out[n - 1])
      invariant 0 <= n <= n0
      invariant TrimmedLength(b, n) == TrimmedLength(b, n0)
      invariant forall i :: 0 <= i < n ==> out[i] == b[i]
      invariant forall i :: n <= i < n0 ==> out[i] == NUL
      invariant forall i :: n0 <= i < out.Length ==> out[i] == b[i]
    {
      n := n - 1;
      out[n] := NUL;
    }
    assert forall i :: 0 <= i < out.Length ==> out[..][i] == StripLineEndBuffer(b)[i];
  }

  /** What `fopen` and `fgets` did: the file would not open (with its errno),
      `fgets` returned NULL, or `fgets` stored a NUL-terminated line in the
      buffer. */
  datatype LineSource = OpenFailed(errno: nat) | ReadFailed | LineRead

  /** errno's EIO on Linux. */
  const EIO: int := 5

  /** `read_first_line` after its I/O: 0 and the stripped line on success,
      the negated errno or -EIO on failure with the buffer left alone. */
  method ReadFirstLine(src: LineSource, out: array<char>) returns (rc: int)
    requires src.LineRead? ==> NUL in out[..]
    modifies out
    ensures src.OpenFailed? ==> rc == -(src.errno as int) && out[..] == old(out[..])
    ensures src.ReadFailed? ==> rc == -EIO && out[..] == old(out[..])
    ensures src.LineRead? ==> rc == 0 && out[..] == StripLineEndBuffer(old(out[..]))
  {
    match src
    case OpenFailed(e) =>
      rc := -(e as int);
    case ReadFailed =>
      rc := -EIO;
    case LineRead =>
      rc := 0;
      StripLineEnd(out);
  }
}
