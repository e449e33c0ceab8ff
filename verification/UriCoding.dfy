/**
 * Percent-encoded request targets (section 2.1 of RFC 3986): the validator and the two decoders of the request line.
 */
module UriCoding {
  import opened Text

  const MAX_URI: nat := 8000
  const NUL: char := 0 as char
  const URI_CHARS: string := "-._~/&=:@!$()*+,;%?"

  predicate IsUriChar(c: char) { IsAlnum(c) || c in URI_CHARS }

  /** `s` holds an escape with both its digits at `i`. */
  predicate IsEscape(s: string, i: nat) {
    i + 2 < |s| && s[i] == '%' && HexVal(s[i + 1]).Some? && HexVal(s[i + 2]).Some?
  }

  /** Only URI characters, and every '%' begins an escape. */
  predicate WellEscaped(s: string) {
    forall i :: 0 <= i < |s| ==> IsUriChar(s[i]) && (s[i] == '%' ==> IsEscape(s, i))
  }

  predicate AcceptsURI(s: string) { s != "" && |s| <= MAX_URI && s[0] == '/' && WellEscaped(s) }

  /** The byte an escape stands for. */
  function EscapedByte(s: string, i: nat): char
    requires IsEscape(s, i)
  {
    (16 * HexVal(s[i + 1]).value + HexVal(s[i + 2]).value) as char
  }

  predicate Forbidden(c: char) { c as int < 0x20 || c as int == 0x7F || c == '\\' }

  /** None where decodeURI throws. */
  function DecodeURI(s: string): (r: Option<string>)
    requires WellEscaped(s)
    decreases |s|
  {
    if s == "" then Some("")
    else if s[0] == '%' then
      assert IsEscape(s, 0);
      var c := EscapedByte(s, 0);
      SuffixWellEscaped(s, 3);
      if Forbidden(c) then None else Cons(c, DecodeURI(s[3..]))
    else
      SuffixWellEscaped(s, 1);
      Cons(s[0], DecodeURI(s[1..]))
  }

  function Cons(c: char, r: Option<string>): Option<string> {
    if r == None then None else Some([c] + r.value)
  }

  lemma SuffixWellEscaped(s: string, k: nat)
    requires WellEscaped(s) && k <= |s|
    ensures WellEscaped(s[k..])
  {
    forall i | 0 <= i < |s[k..]| ensures IsUriChar(s[k..][i]) && (s[k..][i] == '%' ==> IsEscape(s[k..], i)) {
      assert s[k..][i] == s[i + k];
      assert s[i + k] == '%' ==> IsEscape(s, i + k);
    }
  }

  function Percents(s: string): nat {
    if s == "" then 0 else (if s[0] == '%' then 1 else 0) + Percents(s[1..])
  }

  predicate BadEscape(s: string, i: nat) { IsEscape(s, i) && Forbidden(EscapedByte(s, i)) }

  /** Some escape of `s` stands for a byte the server rejects. */
  ghost predicate HasForbidden(s: string) { exists i: nat :: BadEscape(s, i) }

  /**
   * An accepted URI is rejected exactly for a forbidden escape; otherwise the result is clean and two bytes shorter per
   * escape.
   */
  lemma {:induction false} DecodeMeaning(s: string)
    requires WellEscaped(s)
    ensures DecodeURI(s) == None <==> HasForbidden(s)
    ensures DecodeURI(s).Some? ==>
              var r := DecodeURI(s).value;
              |r| == |s| - 2 * Percents(s) && forall i :: 0 <= i < |r| ==> !Forbidden(r[i])
    decreases |s|
  {
    if s != "" {
      var k := if s[0] == '%' then 3 else 1;
      if s[0] == '%' {
        assert IsEscape(s, 0);
        EscapeCounts(s);
      } else {
        UriCharAllowed(s[0]);
      }
      SuffixWellEscaped(s, k);
      DecodeMeaning(s[k..]);
      ForbiddenSuffix(s, k);
    }
  }

  lemma UriCharAllowed(c: char)
    requires IsUriChar(c)
    ensures !Forbidden(c)
  {}

  lemma EscapeCounts(s: string)
    requires IsEscape(s, 0)
    ensures Percents(s) == 1 + Percents(s[3..])
  {
    assert s[1] != '%' && s[2] != '%';
    assert s[1..][0] == s[1] && s[1..][1..] == s[2..];
    assert s[2..][0] == s[2] && s[2..][1..] == s[3..];
    assert Percents(s[2..]) == Percents(s[3..]);
    assert Percents(s[1..]) == Percents(s[2..]);
  }

  lemma BadInSuffix(s: string, k: nat, i: nat)
    requires k <= |s|
    ensures BadEscape(s[k..], i) == BadEscape(s, i + k)
  {}

  lemma ForbiddenSuffix(s: string, k: nat)
    requires WellEscaped(s) && s != "" && k == (if s[0] == '%' then 3 else 1) && k <= |s|
    ensures HasForbidden(s) <==> BadEscape(s, 0) || HasForbidden(s[k..])
  {
    var t := s[k..];
    if HasForbidden(s) {
      var i: nat :| BadEscape(s, i);
      NoEscapeInside(s, k, i);
      hide BadEscape, WellEscaped;
      if i >= k {
        BadInSuffix(s, k, i - k);
      }
    }
    if HasForbidden(t) {
      var i: nat :| BadEscape(t, i);
      hide BadEscape, WellEscaped;
      BadInSuffix(s, k, i);
    }
  }

  lemma NoEscapeInside(s: string, k: nat, i: nat)
    requires WellEscaped(s) && s != "" && k == (if s[0] == '%' then 3 else 1) && BadEscape(s, i)
    ensures i == 0 || k <= i
  {
    if s[0] == '%' {
      assert IsEscape(s, 0);
    }
  }

  // ---------------------------------------------------------------------------
  // The methods
  // ---------------------------------------------------------------------------

  method ValidateEncodedURI(str: string) returns (ok: bool)
    ensures ok <==> AcceptsURI(str)
  {
    if str == "" || |str| > MAX_URI {
      return false;
    }
    if str[0] != '/' {
      return false;
    }
    var i := 0;
    while i < |str|
      invariant 0 <= i
      invariant forall j :: 0 <= j < i && j < |str| ==> IsUriChar(str[j]) && (str[j] == '%' ==> IsEscape(str, j))
    {
      if !IsUriChar(str[i]) {
        return false;
      }
      if str[i] == '%' {
        if i + 2 >= |str| || HexVal(str[i + 1]) == None || HexVal(str[i + 2]) == None {
          assert !IsEscape(str, i);
          return false;
        }
        assert IsEscape(str, i);
        i := i + 2;
      }
      i := i + 1;
    }
    return true;
  }

  /** Every access to `str` is in bounds on an accepted URI. */
  method DecodeURIBytes(str: string) returns (r: Option<string>)
    requires WellEscaped(str)
    ensures r == DecodeURI(str)
  {
    var res := "";
    var i := 0;
    assert str[0..] == str;
    BeforeNothing(DecodeURI(str));
    while i < |str|
      invariant 0 <= i <= |str| && WellEscaped(str[i..])
      invariant DecodeURI(str) == Before(res, DecodeURI(str[i..]))
    {
      var rest := str[i..];
      if str[i] == '%' {
        assert IsEscape(rest, 0);
        var c := (16 * HexVal(str[i + 1]).value + HexVal(str[i + 2]).value) as char;
        assert c == EscapedByte(rest, 0);
        if Forbidden(c) {
          return None;
        }
        assert rest[3..] == str[i + 3..];
        SuffixWellEscaped(rest, 3);
        BeforeCons(res, c, DecodeURI(str[i + 3..]));
        res := res + [c];
        i := i + 2;
      } else {
        assert rest[1..] == str[i + 1..];
        SuffixWellEscaped(rest, 1);
        BeforeCons(res, str[i], DecodeURI(str[i + 1..]));
        res := res + [str[i]];
      }
      i := i + 1;
    }
    assert res + "" == res;
    return Some(res);
  }

  function Before(a: string, r: Option<string>): Option<string> {
    if r == None then None else Some(a + r.value)
  }

  lemma BeforeNothing(r: Option<string>)
    ensures Before("", r) == r
  {
    assert r.Some? ==> "" + r.value == r.value;
  }

  lemma BeforeCons(a: string, c: char, r: Option<string>)
    ensures Before(a, Cons(c, r)) == Before(a + [c], r)
  {
    if r.Some? {
      assert a + ([c] + r.value) == (a + [c]) + r.value;
    }
  }

  // ---------------------------------------------------------------------------
  // Queries are decoded without being validated
  // ---------------------------------------------------------------------------

  /** str[i]: the terminating NUL behind the last character, and `beyond` for whatever lies behind the NUL. */
  function CharAt(s: string, i: nat, beyond: char): char {
    if i < |s| then s[i] else if i == |s| then NUL else beyond
  }

  /** The byte strtol makes of two characters: leading space and a sign are skipped, anything else ends the number. */
  function HexPair(a: char, b: char): (n: nat)
    ensures n < 256
  {
    if HexVal(a).Some? then
      if HexVal(b).Some? then 16 * HexVal(a).value + HexVal(b).value else HexVal(a).value
    else if HexVal(b).None? then 0
    else if IsSpace(a) || a == '+' then HexVal(b).value
    else if a == '-' then (256 - HexVal(b).value) % 256
    else 0
  }

  /** What std::strtol(…, 16) makes of a text, narrowed to a byte. */
  function StrtolByte(text: string): nat {
    var s := SkipSpace(text);
    var n := HexValue(HexPrefix(DropPrefix(DropSign(s)))) % 256;
    if s != "" && s[0] == '-' then (256 - n) % 256 else n
  }

  lemma HexValueOfTwo(a: char, b: char)
    requires HexVal(a).Some? && HexVal(b).Some?
    ensures HexValue([a]) == HexVal(a).value && HexValue([a, b]) == 16 * HexVal(a).value + HexVal(b).value
  {
    assert [a][..0] == "" && [a, b][..1] == [a];
  }

  lemma NoNumber(s: string)
    requires |s| <= 2 && (s == "" || (HexVal(s[0]).None? && !IsSpace(s[0]) && s[0] != '-' && s[0] != '+'))
    ensures StrtolByte(s) == 0
  {
    assert SkipSpace(s) == s && DropSign(s) == s && DropPrefix(s) == s && HexPrefix(s) == "";
  }

  lemma OneDigit(b: char)
    ensures HexPrefix([b]) == if HexVal(b).Some? then [b] else ""
    ensures HexVal(b).Some? ==> HexValue([b]) == HexVal(b).value
    ensures HexPrefix("") == "" && HexValue("") == 0
  {
    assert [b][1..] == "" && [b][..0] == "";
  }

  lemma DigitFirst(a: char, b: char)
    requires HexVal(a).Some?
    ensures HexPair(a, b) == StrtolByte([a, b])
  {
    var s := [a, b];
    assert s[1..] == [b];
    OneDigit(a);
    OneDigit(b);
    if HexVal(b).Some? {
      HexValueOfTwo(a, b);
    }
    hide HexValue;
    assert SkipSpace(s) == DropSign(s) == DropPrefix(s) == s;
    assert HexPrefix(s) == [a] + HexPrefix([b]);
    assert [a] + [b] == s && [a] + "" == [a];
  }

  lemma SpaceFirst(a: char, b: char)
    requires IsSpace(a)
    ensures HexPair(a, b) == StrtolByte([a, b])
  {
    var s := [a, b];
    assert s[1..] == [b] && [b][1..] == "" && SkipSpace("") == "" && DropSign("") == "" && DropPrefix("") == "";
    OneDigit(b);
    hide HexValue, HexPrefix;
    assert SkipSpace(s) == SkipSpace([b]);
    assert DropPrefix([b]) == [b];
  }

  lemma SignFirst(a: char, b: char)
    requires a == '-' || a == '+'
    ensures HexPair(a, b) == StrtolByte([a, b])
  {
    var s := [a, b];
    OneDigit(b);
    hide HexValue, HexPrefix;
    assert SkipSpace(s) == s && DropSign(s) == [b] && DropPrefix([b]) == [b];
  }

  /** The two characters of an escape are read as std::strtol reads them. */
  lemma HexPairIsStrtol(a: char, b: char)
    ensures HexPair(a, b) == StrtolByte([a, b])
  {
    if HexVal(a).Some? {
      DigitFirst(a, b);
    } else if IsSpace(a) {
      SpaceFirst(a, b);
    } else if a == '-' || a == '+' {
      SignFirst(a, b);
    } else {
      hide StrtolByte;
      NoNumber([a, b]);
    }
  }

  /** A number that begins with NUL is no number: the character behind it does not matter. */
  lemma NulEndsNumber(b: char)
    ensures HexPair(NUL, b) == 0
  {}

  /** None where decodeQuery throws: an escape that stands for NUL. */
  function DecodeQuery(s: string): Option<string>
    decreases |s|
  {
    if s == "" then Some("")
    else if s[0] == '%' then
      var c := HexPair(CharAt(s, 1, NUL), CharAt(s, 2, NUL));
      if c == 0 then None else Cons(c as char, DecodeQuery(if |s| >= 3 then s[3..] else ""))
    else Cons(if s[0] == '+' then ' ' else s[0], DecodeQuery(s[1..]))
  }

  /**
   * The loop of decodeQuery. For a percent sign at the end it reads the NUL behind the string and one byte behind that,
   * `beyond`, which may be anything: the result is the same.
   */
  method DecodeQueryBytes(str: string, beyond: char) returns (r: Option<string>)
    ensures r == DecodeQuery(str)
  {
    var res := "";
    var i := 0;
    assert str[0..] == str;
    BeforeNothing(DecodeQuery(str));
    while i < |str|
      invariant 0 <= i
      invariant DecodeQuery(str) == Before(res, DecodeQuery(if i < |str| then str[i..] else ""))
    {
      var rest := str[i..];
      if str[i] == '%' {
        var c := HexPair(CharAt(str, i + 1, beyond), CharAt(str, i + 2, beyond));
        assert c == HexPair(CharAt(rest, 1, NUL), CharAt(rest, 2, NUL)) by {
          NulEndsNumber(CharAt(str, i + 2, beyond));
          NulEndsNumber(CharAt(rest, 2, NUL));
        }
        if c == 0 {
          return None;
        }
        BeforeCons(res, c as char, DecodeQuery(if |rest| >= 3 then rest[3..] else ""));
        assert i + 3 < |str| ==> rest[3..] == str[i + 3..];
        res := res + [c as char];
        i := i + 2;
      } else {
        var c := if str[i] == '+' then ' ' else str[i];
        BeforeCons(res, c, DecodeQuery(rest[1..]));
        assert rest[1..] == str[i + 1..];
        res := res + [c];
      }
      i := i + 1;
    }
    assert res + "" == res;
    return Some(res);
  }

  function PlusToSpace(s: string): string {
    seq(|s|, i requires 0 <= i < |s| => if s[i] == '+' then ' ' else s[i])
  }

  /** Without escapes the decoded query has one character for each of the raw ones. */
  lemma {:induction false} PlainQuery(s: string)
    requires '%' !in s
    ensures DecodeQuery(s) == Some(PlusToSpace(s))
    decreases |s|
  {
    if s == "" {
      assert PlusToSpace(s) == "";
    } else {
      assert s[0] in s;
      PlainQuery(s[1..]);
      assert [if s[0] == '+' then ' ' else s[0]] + PlusToSpace(s[1..]) == PlusToSpace(s);
    }
  }

  // ---------------------------------------------------------------------------
  // Encoding a path
  // ---------------------------------------------------------------------------

  /** '/' and the unreserved characters of section 2.3 of RFC 3986. */
  predicate Unreserved(c: char) { IsAlnum(c) || c in "-._~/" }

  function UpperHex(d: nat): (c: char)
    requires d < 16
    ensures HexVal(c) == Some(d) && IsAlnum(c)
  {
    if d < 10 then ('0' as int + d) as char else ('A' as int + d - 10) as char
  }

  function EncodeByte(c: char): string
    requires c as int < 256
  {
    if Unreserved(c) then [c] else ['%', UpperHex(c as int / 16), UpperHex(c as int % 16)]
  }

  /** The percent-encoding of a path's bytes. */
  function EncodePath(path: string): string
    requires forall i :: 0 <= i < |path| ==> path[i] as int < 256
  {
    if path == "" then "" else EncodeByte(path[0]) + EncodePath(path[1..])
  }

  lemma EncodeByteStep(c: char, tail: string)
    requires c as int < 256 && !Forbidden(c) && WellEscaped(tail)
    ensures WellEscaped(EncodeByte(c) + tail)
    ensures DecodeURI(EncodeByte(c) + tail) == Cons(c, DecodeURI(tail))
  {
    var e := EncodeByte(c);
    var s := e + tail;
    forall i | 0 <= i < |s| ensures IsUriChar(s[i]) && (s[i] == '%' ==> IsEscape(s, i)) {
      if i >= |e| {
        assert s[i] == tail[i - |e|];
        assert tail[i - |e|] == '%' ==> IsEscape(tail, i - |e|);
      }
    }
    if Unreserved(c) {
      assert s[1..] == tail;
    } else {
      assert s[3..] == tail;
      assert EscapedByte(s, 0) == c;
    }
  }

  /** A space becomes a plus sign, and every byte that is not unreserved an escape. */
  function EncodeQueryByte(c: char): string
    requires c as int < 256
  {
    if c == ' ' then "+" else EncodeByte(c)
  }

  function EncodeQuery(query: string): string
    requires forall i :: 0 <= i < |query| ==> query[i] as int < 256
  {
    if query == "" then "" else EncodeQueryByte(query[0]) + EncodeQuery(query[1..])
  }

  lemma EncodeQueryStep(c: char, tail: string)
    requires 0 < c as int < 256
    ensures DecodeQuery(EncodeQueryByte(c) + tail) == Cons(c, DecodeQuery(tail))
  {
    var e := EncodeQueryByte(c);
    var s := e + tail;
    if c == ' ' || Unreserved(c) {
      assert s[1..] == tail;
    } else {
      assert s[3..] == tail && s[1] == e[1] && s[2] == e[2];
    }
  }

  /** Decoding the encoding of a query that holds no NUL gives the query back. */
  lemma {:induction false} EncodeDecodeQuery(query: string)
    requires forall i :: 0 <= i < |query| ==> 0 < query[i] as int < 256
    ensures DecodeQuery(EncodeQuery(query)) == Some(query)
    decreases |query|
  {
    if query != "" {
      EncodeDecodeQuery(query[1..]);
      EncodeQueryStep(query[0], EncodeQuery(query[1..]));
      assert [query[0]] + query[1..] == query;
    }
  }

  /** Decoding the percent-encoding of a path without forbidden bytes gives the path back. */
  lemma {:induction false} EncodeDecode(path: string)
    requires forall i :: 0 <= i < |path| ==> path[i] as int < 256 && !Forbidden(path[i])
    ensures WellEscaped(EncodePath(path)) && DecodeURI(EncodePath(path)) == Some(path)
    decreases |path|
  {
    if path != "" {
      EncodeDecode(path[1..]);
      EncodeByteStep(path[0], EncodePath(path[1..]));
      assert [path[0]] + path[1..] == path;
    }
  }

  /** An absolute path of that kind passes the validator, unless its encoding is too long. */
  lemma EncodedPathAccepted(path: string)
    requires forall i :: 0 <= i < |path| ==> path[i] as int < 256 && !Forbidden(path[i])
    requires path != "" && path[0] == '/'
    ensures AcceptsURI(EncodePath(path)) <==> |EncodePath(path)| <= MAX_URI
  {
    EncodeDecode(path);
    assert EncodePath(path)[0] == '/';
  }
}
