/** Byte strings, as std::string holds them: one `char` per byte, with the searches the server uses. */
module Text {

  datatype Option<+T> = None | Some(value: T)

  /** The values of a size_t are the numbers below this. */
  const TWO_64: nat := 0x1_0000_0000_0000_0000
  type Size = n: nat | n < TWO_64
  /** The longest std::string. */
  const MAX_STRING: nat := 0x7FFF_FFFF_FFFF_FFFF
  /** The longest body a request may announce or upload. */
  const MAX_CONT_LEN: nat := 1046364747436

  /** How much the server reads at once, from a connection as from a script. */
  const READ_SIZE: nat := 4096

  const CRLF: string := "\r\n"
  const BLANK_LINE: string := "\r\n\r\n"

  /** Unsigned 64-bit arithmetic. */
  function Wrap(n: nat): Size { n % TWO_64 }

  lemma WrapOnce(n: nat)
    requires n < 2 * TWO_64
    ensures Wrap(n) == if n < TWO_64 then n else n - TWO_64
  {}

  lemma WrapSum(a: nat, b: nat)
    ensures Wrap(Wrap(a) + b) == Wrap(a + b)
  {}

  function Min(a: nat, b: nat): nat { if a < b then a else b }

  /** `p` occurs in `s` at position `i`. */
  predicate At(s: string, p: string, i: int) {
    0 <= i && i + |p| <= |s| && s[i..i + |p|] == p
  }

  /** std::string::find: the first occurrence of `p` at or after `from`. */
  function Find(s: string, p: string, from: nat): (r: Option<nat>)
    ensures r.Some? ==> from <= r.value && r.value + |p| <= |s|
    decreases |s| - from
  {
    if from + |p| > |s| then None
    else if At(s, p, from) then Some(from)
    else if from == |s| then None
    else Find(s, p, from + 1)
  }

  /** `r` is the answer of a search: nothing at or after `from`, or an occurrence with none before it. */
  ghost predicate IsFirst(s: string, p: string, from: nat, r: Option<nat>) {
    match r
    case None => forall j :: from <= j ==> !At(s, p, j)
    case Some(i) => from <= i && At(s, p, i) && forall j :: from <= j < i ==> !At(s, p, j)
  }

  /** Find answers the search, and nothing else does. */
  lemma {:induction false} FindIsFirst(s: string, p: string, from: nat)
    ensures IsFirst(s, p, from, Find(s, p, from))
    ensures forall r :: IsFirst(s, p, from, r) ==> r == Find(s, p, from)
    decreases |s| - from
  {
    if from + |p| <= |s| && !At(s, p, from) && from < |s| {
      FindIsFirst(s, p, from + 1);
    }
  }

  lemma FindAt(s: string, p: string, from: nat)
    requires Find(s, p, from).Some?
    ensures At(s, p, Find(s, p, from).value)
  {
    FindIsFirst(s, p, from);
    hide Find, At;
  }

  lemma FindLe(s: string, p: string, from: nat, i: nat)
    requires from <= i && At(s, p, i)
    ensures Find(s, p, from).Some? && Find(s, p, from).value <= i
  {
    FindIsFirst(s, p, from);
    hide Find, At;
  }

  /** Occurrences inside a prefix are unaffected by what follows it. */
  lemma AtPrefix(s: string, t: string, p: string, i: int)
    requires i + |p| <= |s|
    ensures At(s, p, i) == At(s + t, p, i)
  {
    if 0 <= i {
      assert (s + t)[i..i + |p|] == s[i..i + |p|];
    }
  }

  /** A first occurrence stays the first one when bytes arrive behind it. */
  lemma FindExtend(s: string, t: string, p: string, from: nat)
    requires Find(s, p, from).Some?
    ensures Find(s + t, p, from) == Find(s, p, from)
  {
    FindIsFirst(s, p, from);
    FindIsFirst(s + t, p, from);
    hide Find, At;
    var i := Find(s, p, from).value;
    AtPrefix(s, t, p, i);
    forall j | from <= j < i ensures !At(s + t, p, j) {
      AtPrefix(s, t, p, j);
    }
    assert IsFirst(s + t, p, from, Some(i));
  }

  /** An occurrence that ends inside a prefix is already found there. */
  lemma FindInPrefix(s: string, t: string, p: string, from: nat)
    requires Find(s + t, p, from).Some?
    requires Find(s + t, p, from).value + |p| <= |s|
    ensures Find(s, p, from) == Find(s + t, p, from)
  {
    FindIsFirst(s, p, from);
    FindIsFirst(s + t, p, from);
    hide Find, At;
    AtPrefix(s, t, p, Find(s + t, p, from).value);
    if Find(s, p, from).Some? {
      FindExtend(s, t, p, from);
    }
  }

  lemma AtFits(s: string, p: string, i: nat)
    requires At(s, p, i)
    ensures i + |p| <= |s|
  {}

  lemma SliceOfSlice(s: string, lo: nat, hi: nat, i: nat, j: nat)
    requires lo <= hi <= |s| && i <= j && lo + j <= hi
    ensures s[lo..hi][i..j] == s[lo + i..lo + j]
  {
    var a, b := s[lo..hi][i..j], s[lo + i..lo + j];
    assert |a| == |b|;
    forall k | 0 <= k < |a| ensures a[k] == b[k] {
      assert a[k] == s[lo..hi][i + k];
      assert b[k] == s[lo + i + k];
    }
  }

  lemma HeadExtend(a: string, b: string, hi: nat)
    requires hi <= |a|
    ensures (a + b)[..hi] == a[..hi]
  {}

  lemma SliceExtend(a: string, b: string, lo: nat, hi: nat)
    requires lo <= hi <= |a|
    ensures (a + b)[lo..hi] == a[lo..hi]
  {}

  lemma TailExtend(a: string, b: string, lo: nat)
    requires lo <= |a|
    ensures (a + b)[lo..] == a[lo..] + b
  {}

  lemma Glue(s: string, a: nat, b: nat, c: nat)
    requires a <= b <= c <= |s|
    ensures s[a..b] + s[b..c] == s[a..c]
  {}

  lemma ThreeParts(s: string, a: nat, b: nat)
    requires a <= b <= |s|
    ensures s == s[..a] + (s[a..b] + s[b..])
  {}

  /** `t` is a slice of `s` that begins at `lo`. */
  ghost predicate SliceOf(t: string, s: string, lo: nat) {
    lo + |t| <= |s| && s[lo..lo + |t|] == t
  }

  /** Occurrences inside a slice are occurrences in the whole. */
  lemma AtSlice(s: string, t: string, lo: nat, p: string, j: nat)
    requires SliceOf(t, s, lo) && j + |p| <= |t|
    ensures At(t, p, j) == At(s, p, lo + j)
  {
    SliceOfSlice(s, lo, lo + |t|, j, j + |p|);
  }

  /** A slice that ends before the first occurrence does holds none. */
  lemma NoneInSlice(s: string, t: string, lo: nat, p: string)
    requires SliceOf(t, s, lo) && Find(s, p, 0).Some? && lo + |t| < Find(s, p, 0).value + |p|
    ensures Find(t, p, 0) == None
  {
    hide Find, At, SliceOf;
    var f := Find(t, p, 0);
    if f.Some? {
      FindAt(t, p, 0);
      AtSlice(s, t, lo, p, f.value);
      FindLe(s, p, 0, lo + f.value);
      assert false;
    }
  }

  lemma FindSliced(s: string, t: string, lo: nat, p: string, i: nat)
    requires SliceOf(t, s, lo) && At(s, p, i) && lo <= i && i + |p| <= lo + |t|
    ensures Find(t, p, 0).Some? && lo + Find(t, p, 0).value <= i
  {
    hide Find, At, SliceOf;
    AtSlice(s, t, lo, p, i - lo);
    FindLe(t, p, 0, i - lo);
  }

  /** A slice that holds the first occurrence holds it first. */
  lemma FindInSlice(s: string, t: string, lo: nat, p: string)
    requires SliceOf(t, s, lo) && Find(s, p, 0).Some?
    requires lo <= Find(s, p, 0).value && Find(s, p, 0).value + |p| <= lo + |t|
    ensures Find(t, p, 0) == Some(Find(s, p, 0).value - lo)
  {
    hide Find, At, SliceOf;
    var i := Find(s, p, 0).value;
    FindAt(s, p, 0);
    AtSlice(s, t, lo, p, i - lo);
    FindLe(t, p, 0, i - lo);
    FindAt(t, p, 0);
    var f := Find(t, p, 0).value;
    AtSlice(s, t, lo, p, f);
    FindLe(s, p, 0, lo + f);
  }

  lemma AtChar(s: string, p: string, i: nat, k: nat)
    requires At(s, p, i) && k < |p|
    ensures s[i + k] == p[k]
  {
    assert s[i..i + |p|][k] == s[i + k];
  }

  lemma FirstLine(line: string, tail: string)
    requires '\r' !in line
    ensures Find(line + CRLF + tail, CRLF, 0) == Some(|line|)
    ensures (line + CRLF + tail)[..|line|] == line
  {
    var s := line + CRLF + tail;
    FindIsFirst(s, CRLF, 0);
    hide Find;
    assert s[|line|..|line| + 2] == CRLF;
    assert At(s, CRLF, |line|);
    forall j | 0 <= j < |line| ensures !At(s, CRLF, j) {
      assert s[j] == line[j];
      assert j + 2 <= |s| ==> s[j..j + 2][0] == s[j];
    }
    assert IsFirst(s, CRLF, 0, Some(|line|));
  }

  /** An occurrence is the first one if no byte before it is like its first byte. */
  lemma FindChar(s: string, p: string, from: nat, i: nat)
    requires |p| > 0 && from <= i && At(s, p, i) && forall j :: from <= j < i && j < |s| ==> s[j] != p[0]
    ensures Find(s, p, from) == Some(i)
  {
    FindIsFirst(s, p, from);
    hide Find;
    forall j | from <= j < i ensures !At(s, p, j) {
      if At(s, p, j) {
        AtChar(s, p, j, 0);
      }
    }
    assert IsFirst(s, p, from, Some(i));
  }

  lemma NoChar(s: string, p: string, from: nat)
    requires |p| > 0 && forall j :: from <= j < |s| ==> s[j] != p[0]
    ensures Find(s, p, from) == None
  {
    FindIsFirst(s, p, from);
    hide Find;
    if Find(s, p, from).Some? {
      AtChar(s, p, Find(s, p, from).value, 0);
    }
  }

  /** The first byte `c` is found behind bytes that are not `c`. */
  lemma FirstByte(s: string, c: char, tail: string)
    requires c !in s
    ensures Find(s + [c] + tail, [c], 0) == Some(|s|)
    ensures (s + [c] + tail)[..|s|] == s && (s + [c] + tail)[|s| + 1..] == tail
  {
    hide Find;
    var all := s + [c] + tail;
    assert all[|s|..|s| + 1] == [c];
    FindChar(all, [c], 0, |s|);
  }

  lemma BlankAtOnce(line: string, rest: string)
    requires '\r' !in line
    ensures Find(line + BLANK_LINE + rest, BLANK_LINE, 0) == Some(|line|)
  {
    var s := line + BLANK_LINE + rest;
    assert s[|line|..|line| + 4] == BLANK_LINE;
    FindChar(s, BLANK_LINE, 0, |line|);
  }

  /** A blank line behind a line that it does not touch. */
  lemma BlankBehindLine(line: string, t: string, i: nat)
    requires '\r' !in line && t != "" && t[0] != '\r' && Find(t, BLANK_LINE, 0) == Some(i)
    ensures Find(line + CRLF + t, BLANK_LINE, 0) == Some(|line| + 2 + i)
  {
    hide Find, At, SliceOf, IsFirst;
    var front := line + CRLF;
    FrontLine(line, t);
    FirstBehind(front + t, t, |front|, BLANK_LINE, i);
  }

  lemma FrontLine(line: string, t: string)
    requires '\r' !in line && t != "" && t[0] != '\r'
    ensures var front := line + CRLF;
            && SliceOf(t, front + t, |front|) && |front + t| == |front| + |t|
            && var f := Find(front + t, BLANK_LINE, 0);
            f.Some? ==> |front| <= f.value
  {
    SuffixSlice(line + CRLF, t);
    hide Find, SliceOf;
    var f := Find(line + CRLF + t, BLANK_LINE, 0);
    if f.Some? && f.value < |line| + 2 {
      FindAt(line + CRLF + t, BLANK_LINE, 0);
      NotInLine(line, t, f.value);
    }
  }

  /** Nothing before a suffix: the first occurrence is the suffix's first one. */
  lemma FirstBehind(s: string, t: string, n: nat, p: string, i: nat)
    requires SliceOf(t, s, n) && n + |t| == |s| && Find(t, p, 0) == Some(i)
    requires Find(s, p, 0).Some? ==> n <= Find(s, p, 0).value
    ensures Find(s, p, 0) == Some(n + i)
  {
    hide Find, At, SliceOf;
    FindAt(t, p, 0);
    AtSlice(s, t, n, p, i);
    FindLe(s, p, 0, n + i);
    FindAt(s, p, 0);
    var f := Find(s, p, 0).value;
    AtSlice(s, t, n, p, f - n);
    FindLe(t, p, 0, f - n);
  }

  lemma SuffixSlice(a: string, t: string)
    ensures SliceOf(t, a + t, |a|)
  {}

  lemma NotInLine(line: string, t: string, j: nat)
    requires '\r' !in line && t != "" && t[0] != '\r' && j < |line| + 2
    ensures !At(line + CRLF + t, BLANK_LINE, j)
  {
    var s := line + CRLF + t;
    assert j < |line| ==> s[j] == line[j];
    assert s[|line|] == CRLF[0] && s[|line| + 1] == CRLF[1] && s[|line| + 2] == t[0];
    if At(s, BLANK_LINE, j) {
      AtChar(s, BLANK_LINE, j, 0);
      AtChar(s, BLANK_LINE, j, 2);
      assert false;
    }
  }

  /** Searching behind a front is searching what is behind it. */
  lemma {:induction false} FindBehind(front: string, t: string, p: string, n: nat)
    requires Find(t, p, 0) == Some(n)
    ensures Find(front + t, p, |front|) == Some(|front| + n)
  {
    hide Find, SliceOf;
    SuffixSlice(front, t);
    FindInSuffix(front + t, t, |front|, p, n);
  }

  lemma FindInSuffix(s: string, t: string, k: nat, p: string, n: nat)
    requires SliceOf(t, s, k) && |s| == k + |t| && Find(t, p, 0) == Some(n)
    ensures Find(s, p, k) == Some(k + n)
  {
    hide Find, At, SliceOf;
    FindAt(t, p, 0);
    AtFits(t, p, n);
    AtSlice(s, t, k, p, n);
    FindLe(s, p, k, k + n);
    FindAt(s, p, k);
    AtSlice(s, t, k, p, Find(s, p, k).value - k);
    FindLe(t, p, 0, Find(s, p, k).value - k);
  }

  /** The bytes of a list of pieces, in order. */
  function Concat(pieces: seq<string>): string {
    if pieces == [] then "" else pieces[0] + Concat(pieces[1..])
  }

  lemma {:induction false} ConcatAppend(a: seq<string>, b: seq<string>)
    ensures Concat(a + b) == Concat(a) + Concat(b)
    decreases |a|
  {
    if a == [] {
      assert a + b == b;
    } else {
      assert (a + b)[1..] == a[1..] + b;
      ConcatAppend(a[1..], b);
    }
  }

  lemma TwoPieces(a: string, b: string)
    ensures Concat([a, b]) == a + b
  {
    assert [a, b][1..] == [b] && [b][1..] == [];
    assert Concat([b]) == b + "" == b;
  }

  /** Pieces as successive reads return them: none empty, none longer than the reader's buffer. */
  predicate ReadsUpTo(parts: seq<string>, size: nat) {
    forall i :: 0 <= i < |parts| ==> 0 < |parts[i]| <= size
  }

  /** The same bytes, read one by one. */
  function Singles(s: string): seq<string> { seq(|s|, i requires 0 <= i < |s| => [s[i]]) }

  lemma {:induction false} SinglesConcat(s: string)
    ensures Concat(Singles(s)) == s && ReadsUpTo(Singles(s), 1)
    decreases |s|
  {
    if s != "" {
      SinglesConcat(s[1..]);
      assert Singles(s)[1..] == Singles(s[1..]);
      assert [s[0]] + s[1..] == s;
    }
  }

  /** Single bytes, then one large read, then single bytes again. */
  lemma PiecesOf(a: string, big: string, rest: string, pieces: seq<string>)
    requires pieces == Singles(a) + ([big] + Singles(rest)) && 0 < |big| <= READ_SIZE
    ensures Concat(pieces) == a + (big + rest) && ReadsUpTo(pieces, READ_SIZE)
  {
    SinglesConcat(a);
    SinglesConcat(rest);
    ConcatAppend(Singles(a), [big] + Singles(rest));
    assert ([big] + Singles(rest))[1..] == Singles(rest);
  }

  /** Lines with their newlines. */
  function Unlines(lines: seq<string>): string {
    if lines == [] then "" else Unlines(lines[..|lines| - 1]) + lines[|lines| - 1] + "\n"
  }

  lemma {:induction false} UnlinesAppend(a: seq<string>, b: seq<string>)
    ensures Unlines(a + b) == Unlines(a) + Unlines(b)
    decreases |b|
  {
    if b == [] {
      assert a + b == a;
    } else {
      var n := |b| - 1;
      assert (a + b)[..|a + b| - 1] == a + b[..n];
      UnlinesAppend(a, b[..n]);
    }
  }

  /** The bytes before the first newline hold none. */
  lemma LineHasNoNewline(s: string)
    requires Find(s, "\n", 0).Some?
    ensures '\n' !in s[..Find(s, "\n", 0).value]
    ensures s[..Find(s, "\n", 0).value] + "\n" + s[Find(s, "\n", 0).value + 1..] == s
  {
    FindIsFirst(s, "\n", 0);
    var i := Find(s, "\n", 0).value;
    hide Find;
    AtChar(s, "\n", i, 0);
    forall j | 0 <= j < i ensures s[j] != '\n' {
      assert !At(s, "\n", j);
      assert s[j..j + 1] == [s[j]];
    }
  }

  lemma NoNewline(s: string)
    requires Find(s, "\n", 0) == None
    ensures '\n' !in s
  {
    FindIsFirst(s, "\n", 0);
    hide Find;
    forall j | 0 <= j < |s| ensures s[j] != '\n' {
      assert !At(s, "\n", j);
      assert s[j..j + 1] == [s[j]];
    }
  }

  predicate IsDigit(c: char) { '0' <= c <= '9' }

  predicate IsAlnum(c: char) { IsDigit(c) || 'a' <= c <= 'z' || 'A' <= c <= 'Z' }

  predicate IsBlank(c: char) { c == ' ' || c == '\t' }

  /** isspace in the C locale. */
  predicate IsSpace(c: char) { c == ' ' || 9 <= c as int <= 13 }

  /** isxdigit, with the digit's value. */
  function HexVal(c: char): (r: Option<nat>)
    ensures r.Some? ==> r.value < 16
  {
    if IsDigit(c) then Some(c as int - '0' as int)
    else if 'a' <= c <= 'f' then Some(c as int - 'a' as int + 10)
    else if 'A' <= c <= 'F' then Some(c as int - 'A' as int + 10)
    else None
  }

  // The parts of a hexadecimal number as std::stoul and std::strtol read it.

  function SkipSpace(s: string): string {
    if s != "" && IsSpace(s[0]) then SkipSpace(s[1..]) else s
  }

  /** The longest prefix of hexadecimal digits. */
  function HexPrefix(s: string): (r: string)
    ensures forall i :: 0 <= i < |r| ==> HexVal(r[i]).Some?
  {
    if s == "" || HexVal(s[0]).None? then "" else [s[0]] + HexPrefix(s[1..])
  }

  function HexValue(s: string): nat
    requires forall i :: 0 <= i < |s| ==> HexVal(s[i]).Some?
  {
    if s == "" then 0 else 16 * HexValue(s[..|s| - 1]) + HexVal(s[|s| - 1]).value
  }

  function DropSign(s: string): string {
    if s != "" && (s[0] == '-' || s[0] == '+') then s[1..] else s
  }

  /** strtoul skips "0x" only when a digit follows it. */
  function DropPrefix(s: string): string {
    if |s| >= 3 && s[0] == '0' && (s[1] == 'x' || s[1] == 'X') && HexVal(s[2]).Some? then s[2..] else s
  }

  function ToLowerChar(c: char): char {
    if 'A' <= c <= 'Z' then (c as int + 32) as char else c
  }

  /** str_tolower in the C locale. */
  function ToLower(s: string): string {
    seq(|s|, i requires 0 <= i < |s| => ToLowerChar(s[i]))
  }
}
