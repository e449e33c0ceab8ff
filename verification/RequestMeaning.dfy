/** What a well-formed request is parsed to: the parser as the inverse of an encoder. */
module RequestMeaning {
  import opened Http
  import opened Text
  import opened UriCoding
  import opened RequestParser
  import opened RequestReads

  // ---------------------------------------------------------------------------
  // Decimal numerals
  // ---------------------------------------------------------------------------

  function Digit(d: nat): char
    requires d < 10
  {
    ('0' as int + d) as char
  }

  /** The decimal numeral of a number, without leading zeros. */
  function Decimal(n: nat): string {
    if n < 10 then [Digit(n)] else Decimal(n / 10) + [Digit(n % 10)]
  }

  function Zeros(k: nat): string { seq(k, _ => '0') }

  /** `s` is a numeral of `n`: leading zeros may stand in front. */
  ghost predicate IsNumeral(s: string, n: nat) { exists k: nat :: s == Zeros(k) + Decimal(n) }

  lemma {:induction false} ZerosRead(k: nat)
    ensures |Zeros(k)| == k && (forall i :: 0 <= i < k ==> IsDigit(Zeros(k)[i])) && DecValue(Zeros(k)) == 0
    decreases k
  {
    if k > 0 {
      ZerosRead(k - 1);
      assert Zeros(k)[..k - 1] == Zeros(k - 1);
    }
  }

  lemma DecValueSnoc(s: string, d: nat)
    requires d < 10 && forall i :: 0 <= i < |s| ==> IsDigit(s[i])
    ensures DecValue(s + [Digit(d)]) == 10 * DecValue(s) + d
  {
    assert (s + [Digit(d)])[..|s|] == s;
  }

  /** Every numeral is accepted and read as its number. */
  lemma {:induction false} NumeralReads(k: nat, n: nat)
    ensures IsNumber(Zeros(k) + Decimal(n)) && DecValue(Zeros(k) + Decimal(n)) == n
    decreases n
  {
    hide DecValue, Zeros;
    ZerosRead(k);
    if n < 10 {
      DecValueSnoc(Zeros(k), n);
    } else {
      NumeralReads(k, n / 10);
      DecValueSnoc(Zeros(k) + Decimal(n / 10), n % 10);
      assert Zeros(k) + Decimal(n / 10) + [Digit(n % 10)] == Zeros(k) + Decimal(n);
    }
  }

  lemma NumeralSnoc(s: string, n: nat, d: nat)
    requires IsNumeral(s, n) && d < 10
    ensures IsNumeral(s + [Digit(d)], 10 * n + d)
  {
    var k: nat :| s == Zeros(k) + Decimal(n);
    if n == 0 {
      assert Zeros(k + 1) == Zeros(k) + "0";
      assert s + [Digit(d)] == Zeros(k + 1) + Decimal(d);
    } else {
      assert (10 * n + d) / 10 == n && (10 * n + d) % 10 == d;
      assert s + [Digit(d)] == Zeros(k) + Decimal(10 * n + d);
    }
  }

  lemma DigitIsNumeral(d: nat)
    requires d < 10
    ensures IsNumeral([Digit(d)], d)
  {
    assert [Digit(d)] == Zeros(0) + Decimal(d);
  }

  /** And everything that is accepted is a numeral. */
  lemma {:induction false} NumberIsNumeral(s: string)
    requires IsNumber(s)
    ensures IsNumeral(s, DecValue(s))
    decreases |s|
  {
    hide IsNumeral, DecValue;
    var front, last := s[..|s| - 1], s[|s| - 1];
    assert IsDigit(last);
    var d := last as int - '0' as int;
    assert s == front + [Digit(d)];
    DecValueSnoc(front, d);
    if front == "" {
      ZerosRead(0);
      assert Zeros(0) == "" == front;
      DigitIsNumeral(d);
      assert s == [Digit(d)];
    } else {
      NumberIsNumeral(front);
      NumeralSnoc(front, DecValue(front), d);
    }
  }

  lemma NumberReads(s: string)
    ensures IsNumber(s) ==> IsNumeral(s, DecValue(s))
    ensures forall n :: IsNumeral(s, n) ==> IsNumber(s) && DecValue(s) == n
  {
    if IsNumber(s) {
      NumberIsNumeral(s);
    }
    forall n | IsNumeral(s, n) ensures IsNumber(s) && DecValue(s) == n {
      var k: nat :| s == Zeros(k) + Decimal(n);
      NumeralReads(k, n);
    }
  }

  // ---------------------------------------------------------------------------
  // Requests and their encoding
  // ---------------------------------------------------------------------------

  datatype Field = Field(name: string, blanks: string, value: string)

  function Key(f: Field): string { ToLower(f.name) }

  predicate IsTokenChar(c: char) { IsAlnum(c) || c in HEADER_KEY_CHARS }

  predicate IsValueChar(c: char) { ' ' <= c <= '~' || c == '\t' }

  /** A line by its parts: a name, blanks behind the colon, and a value that does not begin with a blank. */
  predicate IsField(f: Field) {
    && f.name != "" && ':' !in f.name && '\r' !in f.name && '\r' !in f.value
    && (forall i :: 0 <= i < |f.blanks| ==> IsBlank(f.blanks[i])) && (f.value == "" || !IsBlank(f.value[0]))
  }

  /** The name is made of header characters, and the value is printable. */
  predicate IsValid(f: Field) {
    && (forall i :: 0 <= i < |f.name| ==> IsTokenChar(f.name[i]))
    && (forall i :: 0 <= i < |f.value| ==> IsValueChar(f.value[i]))
  }

  predicate AreFields(fields: seq<Field>) { forall i :: 0 <= i < |fields| ==> IsField(fields[i]) }

  function TextOf(f: Field): string { f.name + ":" + (f.blanks + f.value) }

  function Section(fields: seq<Field>): string {
    if fields == [] then "" else TextOf(fields[0]) + CRLF + Section(fields[1..])
  }

  datatype Request = Request(
    method_: string, path: string, query: Option<string>, version: string, fields: seq<Field>)

  predicate IsPath(s: string) { forall i :: 0 <= i < |s| ==> s[i] as int < 256 && !Forbidden(s[i]) }

  predicate IsQuery(s: string) { forall i :: 0 <= i < |s| ==> 0 < s[i] as int < 256 }

  /** What can be encoded: the method is a word, the path and the query are bytes, the version ends with its line. */
  predicate IsRequest(r: Request) {
    && ' ' !in r.method_ && '\r' !in r.method_ && IsPath(r.path) && (r.query.Some? ==> IsQuery(r.query.value))
    && '\r' !in r.version && AreFields(r.fields)
  }

  function Target(r: Request): string
    requires IsRequest(r)
  {
    EncodePath(r.path) + if r.query.Some? then "?" + EncodeQuery(r.query.value) else ""
  }

  function LineOf(r: Request): string
    requires IsRequest(r)
  {
    r.method_ + " " + (Target(r) + " " + r.version)
  }

  function Encode(r: Request): string
    requires IsRequest(r)
  {
    LineOf(r) + CRLF + (Section(r.fields) + CRLF)
  }

  // ---------------------------------------------------------------------------
  // The request line
  // ---------------------------------------------------------------------------

  /** The code with which a request line is refused, or 0. */
  function LineCode(r: Request): int
    requires IsRequest(r)
  {
    if !IsMethod(r.method_) then NOT_IMPLEMENTED
    else if |Target(r)| > MAX_URI then URI_TOO_LONG
    else if |LineOf(r)| > MAX_REQUEST_LINE || r.path == "" || r.path[0] != '/' then BAD_REQUEST
    else if !IsHttpVersion(r.version) then VERSION_NOT_SUPPORTED
    else 0
  }

  function QueryOf(r: Request): string { if r.query.Some? then r.query.value else "" }

  lemma {:induction false} EncodedPathChars(path: string)
    requires IsPath(path)
    ensures forall i :: 0 <= i < |EncodePath(path)| ==> EncodePath(path)[i] !in {' ', '\r', '?'}
    ensures EncodePath(path) == "" <==> path == ""
    ensures path != "" ==> (EncodePath(path)[0] == '/' <==> path[0] == '/')
    decreases |path|
  {
    if path != "" {
      EncodedPathChars(path[1..]);
    }
  }

  lemma {:induction false} EncodedQueryChars(query: string)
    requires IsQuery(query)
    ensures forall i :: 0 <= i < |EncodeQuery(query)| ==> EncodeQuery(query)[i] !in {' ', '\r'}
    ensures EncodeQuery(query) == "" <==> query == ""
    decreases |query|
  {
    if query != "" {
      EncodedQueryChars(query[1..]);
    }
  }

  lemma TargetChars(r: Request)
    requires IsRequest(r)
    ensures ' ' !in Target(r) && '\r' !in Target(r)
  {
    EncodedPathChars(r.path);
    if r.query.Some? {
      EncodedQueryChars(r.query.value);
    }
  }

  lemma PathAccepted(path: string)
    requires IsPath(path)
    ensures var e := EncodePath(path);
            && WellEscaped(e) && DecodeURI(e) == Some(path)
            && (AcceptsURI(e) <==> |e| <= MAX_URI && path != "" && path[0] == '/')
  {
    EncodedPathChars(path);
    EncodeDecode(path);
    hide EncodePath, DecodeURI, WellEscaped;
  }

  lemma QueryReads(query: string)
    requires IsQuery(query)
    ensures DecodeQuery(EncodeQuery(query)) == Some(query) && (EncodeQuery(query) == "" <==> query == "")
  {
    EncodedQueryChars(query);
    EncodeDecodeQuery(query);
  }

  lemma TargetParts(r: Request)
    requires IsRequest(r)
    ensures match r.query
            case None => Find(Target(r), "?", 0) == None && Target(r) == EncodePath(r.path)
            case Some(q) =>
              var mark := |EncodePath(r.path)|;
              && mark < |Target(r)| && Find(Target(r), "?", 0) == Some(mark)
              && Target(r)[..mark] == EncodePath(r.path) && Target(r)[mark + 1..] == EncodeQuery(q)
  {
    hide Find, EncodePath, EncodeQuery;
    EncodedPathChars(r.path);
    var path := EncodePath(r.path);
    if r.query.Some? {
      FirstByte(path, '?', EncodeQuery(r.query.value));
      assert path + "?" + EncodeQuery(r.query.value) == Target(r);
    } else {
      assert path + "" == path;
      NoChar(path, "?", 0);
    }
  }

  lemma TargetMeans(h: Head, r: Request)
    requires IsRequest(r) && |Target(r)| <= MAX_URI && h.query == ""
    ensures ParseTarget(h, Target(r)) ==
            if r.path == "" || r.path[0] != '/' then Fail(h, BAD_REQUEST) else h.(uri := r.path, query := QueryOf(r))
  {
    hide Find, Target, EncodePath, EncodeQuery, DecodeURI, DecodeQuery, WellEscaped, AcceptsURI, IsPath;
    TargetParts(r);
    PathAccepted(r.path);
    if r.query.Some? {
      QueryReads(r.query.value);
    }
  }

  lemma NoBlankLine(line: string)
    requires '\r' !in line
    ensures DropBlankLines(line) == line
  {}

  lemma WordParts(a: string, b: string, c: string)
    requires ' ' !in b
    ensures var line, end := a + " " + (b + " " + c), |a| + 1 + |b|;
            && end < |line| && line[..|a|] == a && line[|a| + 1..end] == b && line[end..end + 1] == " "
            && line[end + 1..] == c && forall j :: |a| + 1 <= j < end ==> line[j] != ' '
  {
    var line, end := a + " " + (b + " " + c), |a| + 1 + |b|;
    forall j | |a| + 1 <= j < end ensures line[j] != ' ' {
      assert line[j] == b[j - |a| - 1];
    }
  }

  lemma TwoSpaces(a: string, b: string, c: string)
    requires ' ' !in a && ' ' !in b
    ensures var line, end := a + " " + (b + " " + c), |a| + 1 + |b|;
            && end < |line| && Find(line, " ", 0) == Some(|a|) && line[..|a|] == a
            && Find(line, " ", |a| + 1) == Some(end) && line[|a| + 1..end] == b && line[end + 1..] == c
  {
    hide Find;
    WordParts(a, b, c);
    FirstByte(a, ' ', b + " " + c);
    SpaceFound(a + " " + (b + " " + c), |a| + 1, |a| + 1 + |b|);
  }

  lemma SpaceFound(line: string, from: nat, end: nat)
    requires from <= end < |line| && line[end..end + 1] == " " && forall j :: from <= j < end ==> line[j] != ' '
    ensures Find(line, " ", from) == Some(end)
  {
    FindChar(line, " ", from, end);
  }

  lemma LineChars(r: Request)
    requires IsRequest(r)
    ensures '\r' !in LineOf(r)
  {
    TargetChars(r);
    hide Target;
  }

  /** A request line is refused with the right code, or its fields are what it was made of. */
  lemma LineMeans(r: Request)
    requires IsRequest(r)
    ensures var h := ParseSL(FreshHead(), LineOf(r));
            if LineCode(r) != 0 then h.state == ERROR && h.errorCode == LineCode(r)
            else h == FreshHead().(method_ := r.method_, uri := r.path, query := QueryOf(r), httpV := r.version)
  {
    hide Find, ParseRest, DropBlankLines, Target, LineOf, IsMethod, IsHttpVersion;
    LineParts(r);
    NoBlankLine(LineOf(r));
    var h := FreshHead().(method_ := r.method_);
    if IsMethod(r.method_) {
      RestMeans(h, r);
    }
  }

  lemma LineParts(r: Request)
    requires IsRequest(r)
    ensures var line, m, t := LineOf(r), |r.method_|, |Target(r)|;
            && '\r' !in line && m + 1 + t < |line| && Find(line, " ", 0) == Some(m) && line[..m] == r.method_
            && Find(line, " ", m + 1) == Some(m + 1 + t) && line[m + 1..m + 1 + t] == Target(r)
            && line[m + 1 + t + 1..] == r.version
  {
    hide Find, Target;
    TargetChars(r);
    TwoSpaces(r.method_, Target(r), r.version);
    LineChars(r);
  }

  lemma RestMeans(h: Head, r: Request)
    requires IsRequest(r) && h == FreshHead().(method_ := r.method_) && IsMethod(r.method_)
    ensures var g := ParseRest(h, LineOf(r), |r.method_| + 1);
            if LineCode(r) != 0 then g.state == ERROR && g.errorCode == LineCode(r)
            else g == h.(uri := r.path, query := QueryOf(r), httpV := r.version)
  {
    hide Find, Target, LineOf, ParseTarget, IsMethod, IsHttpVersion;
    LineParts(r);
    if |Target(r)| <= MAX_URI {
      TargetMeans(h, r);
    }
  }

  // ---------------------------------------------------------------------------
  // The header lines
  // ---------------------------------------------------------------------------

  /** The value of the first field with this name. */
  function First(fields: seq<Field>, key: string): Option<string> {
    if fields == [] then None else if Key(fields[0]) == key then Some(fields[0].value) else First(fields[1..], key)
  }

  function ValueOf(fields: seq<Field>, key: string): string {
    if First(fields, key).Some? then First(fields, key).value else ""
  }

  /** The names of the fields, each with its first value. */
  ghost predicate AreHeaders(headers: map<string, string>, fields: seq<Field>) {
    forall key :: (key in headers <==> First(fields, key).Some?)
                  && (key in headers ==> headers[key] == First(fields, key).value)
  }

  /** A line is too long, holds a character that is not allowed, or is a second host or content length. */
  predicate IsBadField(fields: seq<Field>, i: nat)
    requires i < |fields|
  {
    || |fields[i].name| + |fields[i].value| > MAX_HEADER_LINE || !IsValid(fields[i])
    || (Key(fields[i]) in {"host", "content-length"} && ValueOf(fields[..i], Key(fields[i])) != "")
  }

  predicate HasBadField(fields: seq<Field>) { exists i :: 0 <= i < |fields| && IsBadField(fields, i) }

  lemma FieldChars(f: Field)
    requires IsField(f)
    ensures TextOf(f) != "" && '\r' !in TextOf(f)
  {
    assert forall i :: 0 <= i < |f.blanks| ==> f.blanks[i] != '\r';
  }

  /** Lower case makes no difference to what a name may hold. */
  lemma KeyIsValid(f: Field)
    ensures (ValidHeader(Key(f), f.value) <==> IsValid(f)) && |Key(f)| == |f.name|
  {
    forall i | 0 <= i < |f.name| ensures IsTokenChar(Key(f)[i]) <==> IsTokenChar(f.name[i]) {
      LowerToken(f.name[i]);
    }
    assert ValidHeader(Key(f), f.value) ==> forall i :: 0 <= i < |f.name| ==> IsTokenChar(Key(f)[i]);
  }

  lemma LowerToken(c: char)
    ensures IsTokenChar(ToLowerChar(c)) <==> IsTokenChar(c)
  {}

  /** The lines of a block, from the second on each behind a line break. */
  function Block(fields: seq<Field>): string
    decreases |fields|, 0
  {
    if fields == [] then "" else TextOf(fields[0]) + Behind(fields[1..])
  }

  function Behind(fields: seq<Field>): string
    decreases |fields|, 1
  {
    if fields == [] then "" else CRLF + Block(fields)
  }

  lemma {:induction false} SectionIsBlock(fields: seq<Field>)
    ensures Section(fields) == if fields == [] then "" else Block(fields) + CRLF
    decreases |fields|
  {
    hide TextOf;
    if fields != [] {
      SectionIsBlock(fields[1..]);
      if fields[1..] == [] {
        assert TextOf(fields[0]) + CRLF + "" == TextOf(fields[0]) + "" + CRLF;
      } else {
        assert TextOf(fields[0]) + CRLF + (Block(fields[1..]) + CRLF)
            == TextOf(fields[0]) + (CRLF + Block(fields[1..])) + CRLF;
      }
    }
  }

  /** Blanks end before a value, a line break or the end of the block. */
  lemma {:induction false} BlanksSkipped(s: string, i: nat, n: nat)
    requires i + n <= |s| && forall j :: i <= j < i + n ==> IsBlank(s[j])
    requires i + n == |s| || !IsBlank(s[i + n])
    ensures SkipWhitespace(s, i) == i + n
    decreases n
  {
    if n > 0 {
      assert IsBlank(s[i]);
      BlanksSkipped(s, i + 1, n - 1);
    }
  }

  /** Where the parts of a line are. */
  lemma FieldParts(front: string, f: Field, behind: string)
    requires IsField(f) && (behind == "" || CRLF <= behind)
    ensures var s, i := front + TextOf(f) + behind, |front|;
            var colon := i + |f.name|;
            var v := colon + 1 + |f.blanks|;
            var end := v + |f.value|;
            && i < |s| && end == i + |TextOf(f)| <= |s| && s[i..colon] == f.name && s[colon..colon + 1] == ":"
            && s[v..end] == f.value && (forall j :: i <= j < colon ==> s[j] == f.name[j - i])
            && (forall j :: colon + 1 <= j < v ==> s[j] == f.blanks[j - colon - 1])
            && (forall j :: v <= j < end ==> s[j] == f.value[j - v])
            && (if behind == "" then end == |s| else s[end..end + 2] == CRLF && end + 2 <= |s|)
            && (end < |s| ==> s[end] == '\r')
  {
    var s := front + TextOf(f) + behind;
    assert s == front + f.name + ":" + f.blanks + f.value + behind;
  }

  lemma ColonFound(front: string, f: Field, behind: string)
    requires IsField(f) && (behind == "" || CRLF <= behind)
    ensures Find(front + TextOf(f) + behind, ":", |front|) == Some(|front| + |f.name|)
  {
    hide Find, TextOf;
    FieldParts(front, f, behind);
    FieldChars(f);
    FindChar(front + TextOf(f) + behind, ":", |front|, |front| + |f.name|);
  }

  lemma ValueBegins(front: string, f: Field, behind: string)
    requires IsField(f) && (behind == "" || CRLF <= behind)
    ensures var s, v := front + TextOf(f) + behind, |front| + |f.name| + 1;
            v <= |s| && SkipWhitespace(s, v) == v + |f.blanks|
  {
    hide TextOf, SkipWhitespace;
    FieldParts(front, f, behind);
    BlanksSkipped(front + TextOf(f) + behind, |front| + |f.name| + 1, |f.blanks|);
  }

  lemma ValueEnds(front: string, f: Field, behind: string)
    requires IsField(f) && (behind == "" || CRLF <= behind)
    ensures var s, v := front + TextOf(f) + behind, |front| + |f.name| + 1 + |f.blanks|;
            Find(s, CRLF, v) == if behind == "" then None else Some(v + |f.value|)
  {
    hide Find, TextOf;
    var s, v := front + TextOf(f) + behind, |front| + |f.name| + 1 + |f.blanks|;
    FieldParts(front, f, behind);
    FieldChars(f);
    if behind == "" {
      NoChar(s, CRLF, v);
    } else {
      FindChar(s, CRLF, v, v + |f.value|);
    }
  }

  /** A line is read as its key and its value. */
  lemma FieldReads(front: string, f: Field, behind: string)
    requires IsField(f) && (behind == "" || CRLF <= behind)
    ensures var s := front + TextOf(f) + behind;
            && |front| < |s|
            && NextLine(s, |front|)
               == Line(Key(f), f.value, |front| + |TextOf(f)| + if behind == "" then 0 else 2)
  {
    hide Find, TextOf, ToLower, SkipWhitespace;
    FieldParts(front, f, behind);
    ColonFound(front, f, behind);
    ValueBegins(front, f, behind);
    ValueEnds(front, f, behind);
  }

  // ---------------------------------------------------------------------------
  // The fields of a block
  // ---------------------------------------------------------------------------

  /** The fields one after the other, as the parser takes them. */
  function Folded(h: Head, fields: seq<Field>): Head
    decreases |fields|
  {
    if fields == [] then h
    else
      var key, value := Key(fields[0]), fields[0].value;
      if IsRepeated(h.headers, key) || |key| + |value| > MAX_HEADER_LINE then Fail(h, BAD_REQUEST)
      else
        var next := h.(headers := Insert(h.headers, key, value));
        if IsValid(fields[0]) then Folded(next, fields[1..]) else Fail(next, BAD_REQUEST)
  }

  lemma {:induction false} LinesAreFolded(h: Head, front: string, fields: seq<Field>)
    requires AreFields(fields)
    ensures ParseLines(h, front + Block(fields), |front|) == Folded(h, fields)
    decreases |fields|
  {
    hide NextLine, ParseLines, TextOf, Key, IsField, IsValid, ValidHeader, IsRepeated, Insert;
    if fields == [] {
      assert front + "" == front;
      NothingLeft(h, front);
    } else {
      var f, rest := fields[0], fields[1..];
      var behind := Behind(rest);
      assert front + Block(fields) == front + TextOf(f) + behind;
      FieldReads(front, f, behind);
      KeyIsValid(f);
      LineTaken(h, front + Block(fields), |front|);
      var next := front + TextOf(f) + CRLF;
      if rest == [] {
        assert front + TextOf(f) + "" == front + TextOf(f);
        LineEnds(h, fields);
        if !(IsRepeated(h.headers, Key(f)) || |Key(f)| + |f.value| > MAX_HEADER_LINE) {
          NothingLeft(h.(headers := Insert(h.headers, Key(f), f.value)), front + TextOf(f));
        }
      } else {
        assert front + Block(fields) == next + Block(rest);
        LinesAreFolded(h.(headers := Insert(h.headers, Key(f), f.value)), next, rest);
      }
    }
  }

  lemma LineEnds(h: Head, fields: seq<Field>)
    requires fields != [] && fields[1..] == []
    ensures Folded(h, fields) ==
            (if IsRepeated(h.headers, Key(fields[0])) || |Key(fields[0])| + |fields[0].value| > MAX_HEADER_LINE then
               Fail(h, BAD_REQUEST)
             else
               var next := h.(headers := Insert(h.headers, Key(fields[0]), fields[0].value));
               if IsValid(fields[0]) then next else Fail(next, BAD_REQUEST))
  {}

  lemma LineTaken(h: Head, cont: string, i: nat)
    requires i < |cont| && NextLine(cont, i).Line?
    ensures var l := NextLine(cont, i);
            ParseLines(h, cont, i) ==
            if IsRepeated(h.headers, l.key) || |l.key| + |l.value| > MAX_HEADER_LINE then Fail(h, BAD_REQUEST)
            else
              var next := h.(headers := Insert(h.headers, l.key, l.value));
              if ValidHeader(l.key, l.value) then ParseLines(next, cont, l.next) else Fail(next, BAD_REQUEST)
  {
    hide NextLine, ValidHeader, IsRepeated, Insert;
  }

  lemma {:induction false} FirstSnoc(fields: seq<Field>, f: Field, key: string)
    ensures First(fields + [f], key) ==
            if First(fields, key).Some? then First(fields, key)
            else if Key(f) == key then Some(f.value) else None
    decreases |fields|
  {
    hide Key;
    if fields == [] {
      assert ([] + [f])[1..] == [];
    } else {
      assert (fields + [f])[1..] == fields[1..] + [f];
      FirstSnoc(fields[1..], f, key);
    }
  }

  lemma HeadersSnoc(headers: map<string, string>, fields: seq<Field>, f: Field)
    requires AreHeaders(headers, fields)
    ensures AreHeaders(Insert(headers, Key(f), f.value), fields + [f])
    ensures IsRepeated(headers, Key(f)) <==>
            Key(f) in {"host", "content-length"} && ValueOf(fields, Key(f)) != ""
  {
    hide First, Key;
    forall key ensures First(fields + [f], key) ==
                       if First(fields, key).Some? then First(fields, key)
                       else if Key(f) == key then Some(f.value) else None
    {
      FirstSnoc(fields, f, key);
    }
  }

  /** All fields are taken if none is bad; then the headers are the first values of the names. */
  lemma {:induction false} FoldedMeans(h: Head, before: seq<Field>, fields: seq<Field>)
    requires AreHeaders(h.headers, before) && h.state != ERROR
    requires forall i :: 0 <= i < |before| ==> !IsBadField(before + fields, i)
    ensures var g := Folded(h, fields);
            if HasBadField(before + fields) then g.state == ERROR && g.errorCode == BAD_REQUEST
            else g == h.(headers := g.headers) && AreHeaders(g.headers, before + fields)
    decreases |fields|
  {
    hide Key, AreHeaders, IsRepeated, Insert, IsBadField, IsValid;
    if fields == [] {
      assert before + fields == before;
    } else {
      var f, all := fields[0], before + fields;
      assert all == before + [f] + fields[1..] && all[|before|] == f && all[..|before|] == before;
      HeadersSnoc(h.headers, before, f);
      BadField(all, |before|);
      if !IsBadField(all, |before|) {
        FoldedMeans(h.(headers := Insert(h.headers, Key(f), f.value)), before + [f], fields[1..]);
      }
    }
  }

  lemma BadField(fields: seq<Field>, i: nat)
    requires i < |fields|
    ensures IsBadField(fields, i) <==>
            || |Key(fields[i])| + |fields[i].value| > MAX_HEADER_LINE || !IsValid(fields[i])
            || (Key(fields[i]) in {"host", "content-length"} && ValueOf(fields[..i], Key(fields[i])) != "")
  {}

  /** The lines of a block give their fields, or 400 if one of them is bad. */
  lemma LinesMean(h: Head, fields: seq<Field>)
    requires AreFields(fields) && h.headers == map[] && h.state != ERROR
    ensures var g := ParseLines(h, Block(fields), 0);
            if HasBadField(fields) then g.state == ERROR && g.errorCode == BAD_REQUEST
            else g == h.(headers := g.headers) && AreHeaders(g.headers, fields)
  {
    hide ParseLines, Folded, Block, HasBadField, IsField;
    assert "" + Block(fields) == Block(fields) && [] + fields == fields;
    LinesAreFolded(h, "", fields);
    FoldedMeans(h, [], fields);
  }

  // ---------------------------------------------------------------------------
  // The header block
  // ---------------------------------------------------------------------------

  /** A host without its port. */
  function HostName(host: string): string {
    match Find(host, ":", 0)
    case None => host
    case Some(colon) => host[..colon]
  }

  predicate MentionsChunked(coding: string) { Find(ToLower(coding), "chunked", 0).Some? }

  /** The value is a numeral of a length that is accepted. */
  ghost predicate IsLength(value: string) { exists n: nat :: n <= MAX_CONT_LEN && IsNumeral(value, n) }

  /** The code with which a header block is refused, or 0. */
  ghost function BlockCode(fields: seq<Field>, version: string, hostOk: string -> bool): int {
    var coding, length := ValueOf(fields, "transfer-encoding"), ValueOf(fields, "content-length");
    var host := ValueOf(fields, "host");
    if HasBadField(fields) || (coding != "" && length != "") then BAD_REQUEST
    else if coding != "" && version == "HTTP/1.0" then NOT_IMPLEMENTED
    else if coding != "" && !MentionsChunked(coding) then BAD_REQUEST
    else if (host == "" && version == "HTTP/1.1") || (host != "" && !hostOk(HostName(host))) then BAD_REQUEST
    else if length != "" && !IsLength(length) then BAD_REQUEST
    else 0
  }

  /** The names with their first values, the host without its port. */
  ghost predicate AreServed(headers: map<string, string>, fields: seq<Field>) {
    forall key :: (key in headers <==> First(fields, key).Some?)
                  && (key in headers ==>
                        var value := First(fields, key).value;
                        headers[key] == if key == "host" then HostName(value) else value)
  }

  /** What a block that is not refused says. */
  ghost predicate Says(fields: seq<Field>, h: Head) {
    var length := ValueOf(fields, "content-length");
    && AreServed(h.headers, fields) && h.contentType == ValueOf(fields, "content-type")
    && (h.chunked <==> ValueOf(fields, "transfer-encoding") != "")
    && if length == "" then h.contentLength == 0 else IsNumeral(length, h.contentLength)
  }

  lemma Looked(headers: map<string, string>, fields: seq<Field>, key: string)
    requires AreHeaders(headers, fields)
    ensures Get(headers, key) == ValueOf(fields, key)
  {}

  lemma LengthMeans(h: Head, length: string)
    requires Get(h.headers, "content-length") == length && h.state != ERROR
    ensures var g := CheckContLen(h);
            if length == "" then g == h
            else if IsLength(length) then
              g == h.(contentLength := g.contentLength) && IsNumeral(length, g.contentLength)
            else g == Fail(h, BAD_REQUEST)
  {
    hide IsNumeral, IsNumber, DecValue;
    NumberReads(length);
  }

  /** With a host that has lost its port the other headers are the same. */
  lemma HostMeans(h: Head, fields: seq<Field>, hostOk: string -> bool)
    requires AreHeaders(h.headers, fields)
    ensures var g := CheckHost(h, hostOk);
            var host := ValueOf(fields, "host");
            if (host == "" && h.httpV == "HTTP/1.1") || (host != "" && !hostOk(HostName(host))) then
              g.state == ERROR && g.errorCode == BAD_REQUEST
            else
              && g == h.(headers := g.headers) && AreServed(g.headers, fields)
              && Get(g.headers, "content-length") == ValueOf(fields, "content-length")
  {
    hide Find;
    Looked(h.headers, fields, "host");
    Looked(h.headers, fields, "content-length");
    NoPort();
  }

  lemma NoPort()
    ensures HostName("") == ""
  {
    NoChar("", ":", 0);
  }

  /** A header block is refused with the right code, or says what its fields say. */
  lemma BlockMeans(h: Head, fields: seq<Field>, hostOk: string -> bool)
    requires AreFields(fields) && h == FreshHead().(state := HEADERS, method_ := h.method_, uri := h.uri,
                                                    query := h.query, httpV := h.httpV)
    ensures var g := ParseHeader(h, Block(fields), hostOk);
            var code := BlockCode(fields, h.httpV, hostOk);
            if code != 0 then g.state == ERROR && g.errorCode == code
            else
              && g == h.(headers := g.headers, contentLength := g.contentLength, contentType := g.contentType,
                         chunked := g.chunked)
              && Says(fields, g)
  {
    hide ParseLines, Block, HasBadField, AreHeaders, CheckHost, CheckContLen, AreServed, IsNumeral, IsLength, HostName;
    hide Get, ValueOf, IsField, First, ToLower, Find;
    LinesMean(h, fields);
    if !HasBadField(fields) {
      var h1 := ParseLines(h, Block(fields), 0);
      Looked(h1.headers, fields, "content-length");
      Looked(h1.headers, fields, "transfer-encoding");
      Looked(h1.headers, fields, "content-type");
      var ct := ValueOf(fields, "content-type");
      var h2 := CheckTransferEnc(if ct != "" then h1.(contentType := ct) else h1);
      if h2.state != ERROR {
        HostMeans(h2, fields, hostOk);
        if CheckHost(h2, hostOk).state != ERROR {
          LengthMeans(CheckHost(h2, hostOk), ValueOf(fields, "content-length"));
        }
      }
    }
  }

  // ---------------------------------------------------------------------------
  // Whole requests
  // ---------------------------------------------------------------------------

  /** The code with which a request is refused, or 0. */
  ghost function Code(r: Request, hostOk: string -> bool): int
    requires IsRequest(r)
  {
    if LineCode(r) != 0 then LineCode(r) else BlockCode(r.fields, r.version, hostOk)
  }

  /** The parser's fields are those of the request, and a body is expected exactly if one is announced. */
  ghost predicate IsParsed(r: Request, h: Head) {
    && h.method_ == r.method_ && h.uri == r.path && h.query == QueryOf(r) && h.httpV == r.version
    && Says(r.fields, h) && h.errorCode == 0 && !h.threw
    && h.state == (if h.contentLength == 0 && !h.chunked then COMPLETE else BODY)
    && (h.mpFlag <==> h.state == BODY && Find(h.contentType, "multipart/form-data", 0).Some?)
  }

  lemma {:induction false} BlankBehindBlock(fields: seq<Field>, body: string)
    requires AreFields(fields) && fields != []
    ensures Find(Block(fields) + BLANK_LINE + body, BLANK_LINE, 0) == Some(|Block(fields)|)
    ensures Block(fields) != "" && Block(fields)[0] != '\r'
    decreases |fields|
  {
    hide Find, TextOf, IsField;
    var f, rest := fields[0], fields[1..];
    FieldChars(f);
    if rest == [] {
      assert Block(fields) == TextOf(f) + "" == TextOf(f);
      BlankAtOnce(TextOf(f), body);
    } else {
      var t := Block(rest) + BLANK_LINE + body;
      BlankBehindBlock(rest, body);
      assert Block(fields) + BLANK_LINE + body == TextOf(f) + CRLF + t;
      BlankBehindLine(TextOf(f), t, |Block(rest)|);
    }
  }

  /** Where the header block of a request ends. */
  lemma SectionEnds(fields: seq<Field>, body: string)
    requires AreFields(fields)
    ensures var tail, end := Section(fields) + CRLF + body, FindBlockEnd(Section(fields) + CRLF + body);
            && end.EndAt? && end.pos + end.skip == |Section(fields)| + 2 && tail[..end.pos] == Block(fields)
            && tail[end.pos + end.skip..] == body
  {
    hide Find, IsField, TextOf, Block;
    SectionIsBlock(fields);
    var tail := Section(fields) + CRLF + body;
    if fields == [] {
      assert tail == CRLF + body;
      EmptyBlock();
    } else {
      BlankBehindBlock(fields, body);
      assert tail == Block(fields) + BLANK_LINE + body;
      assert tail[0] == Block(fields)[0];
    }
  }

  lemma EmptyBlock()
    ensures Block([]) == ""
  {}

  /** Reads of this size do not come near the limit. */
  predicate Fits(r: Request, body: string, size: nat)
    requires IsRequest(r)
  {
    var block := |Section(r.fields)| + 2;
    && 0 < size && block <= MAX_HEADER_SIZE
    && (block + |body| <= MAX_HEADER_SIZE || block + size <= MAX_HEADER_SIZE + 1)
  }

  /** The parser behind the request line, which then takes the header block. */
  lemma BlockTaken(p: Parser, r: Request, body: string, size: nat, hostOk: string -> bool)
    requires IsRequest(r) && Fits(r, body, size)
    requires p == FRESH_PARSER.(head := FreshHead().(state := HEADERS, method_ := r.method_, uri := r.path,
                                                     query := QueryOf(r), httpV := r.version))
    ensures var q := IdealHeaders(p, Section(r.fields) + CRLF + body, hostOk);
            var code := BlockCode(r.fields, r.version, hostOk);
            if code != 0 then q.head.state == ERROR && q.head.errorCode == code && !q.head.threw
            else IsParsed(r, q.head) && (q.head.state == COMPLETE ==> q.buffer == body)
  {
    hide FindBlockEnd, Find, ParseHeader, DriveHeaders, Block, Section, IsField, BlockCode, Says;
    var tail := Section(r.fields) + CRLF + body;
    var end := FindBlockEnd(tail);
    SectionEnds(r.fields, body);
    var e := end.pos + end.skip;
    BlockEndPrefix(tail, e);
    assert tail[..e][..end.pos] == tail[..end.pos] && tail[..e][e..] == "";
    ParsedBlock(p, tail[..e], hostOk);
    BlockMeans(p.head, r.fields, hostOk);
    HeaderKeeps(p.head, Block(r.fields), hostOk);
    assert "" + body == body;
    var h := ParseHeader(p.head, Block(r.fields), hostOk);
    if h.state != ERROR {
      HeadOfParsed(p, h, tail[..e]);
      SaysAlike(r.fields, h, Parsed(p, h, tail[..e], "").head);
    }
  }

  lemma HeadOfParsed(p: Parser, h: Head, y: string)
    requires h.state != ERROR
    ensures var q := Parsed(p, h, y, "");
            var waits := h.contentLength != 0 || h.chunked;
            && q.head == h.(state := if waits then BODY else COMPLETE,
                            mpFlag := h.mpFlag || (waits && Find(h.contentType, "multipart/form-data", 0).Some?))
            && (!waits ==> q.buffer == "")
  {
    hide Find;
  }

  lemma SaysAlike(fields: seq<Field>, h: Head, g: Head)
    requires g == h.(state := g.state, mpFlag := g.mpFlag)
    ensures Says(fields, h) <==> Says(fields, g)
  {}

  lemma LineIsFirst(r: Request, body: string)
    requires IsRequest(r)
    ensures var whole := Encode(r) + body;
            && Find(whole, CRLF, 0) == Some(|LineOf(r)|) && whole[..|LineOf(r)|] == LineOf(r)
            && whole[|LineOf(r)| + 2..] == Section(r.fields) + CRLF + body
  {
    hide Find, Section, LineOf, IsField;
    var line, tail := LineOf(r), Section(r.fields) + CRLF + body;
    LineChars(r);
    FirstLine(line, tail);
    assert Encode(r) + body == line + CRLF + tail;
  }

  lemma NotNear(r: Request, body: string, size: nat)
    requires IsRequest(r) && Fits(r, body, size)
    ensures !NearLimit(Encode(r) + body, size)
  {
    hide Find, FindBlockEnd, Section, LineOf, IsField, Encode, ParseSL;
    LineIsFirst(r, body);
    SectionEnds(r.fields, body);
  }

  /**
   * However a request is cut into reads, the parser ends with exactly its fields, or with the code it deserves. Bytes
   * behind a request that has no body are left in the buffer.
   */
  lemma RequestMeans(r: Request, body: string, pieces: seq<string>, size: nat, hostOk: string -> bool)
    requires IsRequest(r) && Concat(pieces) == Encode(r) + body && ReadsUpTo(pieces, size) && Fits(r, body, size)
    ensures var p := FeedAll(FRESH_PARSER, pieces, hostOk);
            if Code(r, hostOk) != 0 then p.head.state == ERROR && p.head.errorCode == Code(r, hostOk) && !p.head.threw
            else IsParsed(r, p.head) && (p.head.state == COMPLETE ==> p.buffer == body)
  {
    hide FeedAll, ParseSL, Find, Encode, LineOf, Section, IsField, NearLimit, Fits, LineCode, BlockCode, IsParsed;
    hide IdealHeaders, ReadsUpTo, Concat;
    NotNear(r, body, size);
    FreshReach(pieces, size, hostOk);
    LineIsFirst(r, body);
    LineMeans(r);
    LineKeeps(FreshHead(), LineOf(r));
    if LineCode(r) == 0 {
      var h := ParseSL(FreshHead(), LineOf(r));
      BlockTaken(FRESH_PARSER.(head := h.(state := HEADERS)), r, body, size, hostOk);
      ParsedState(r, IdealLine(FRESH_PARSER, Encode(r) + body, hostOk).head);
    }
    CoreHead(FeedAll(FRESH_PARSER, pieces, hostOk));
  }

  lemma ParsedState(r: Request, h: Head)
    ensures IsParsed(r, h) ==> h.state in {COMPLETE, BODY}
  {}

  lemma CoreHead(p: Parser)
    ensures Core(p).head == p.head && (p.head.state != BODY ==> Core(p) == p)
  {}

  /** What of the bytes behind the header block is handed out as body by the read that brings them, and what is kept. */
  predicate IsDealt(p: Parser, behind: string) {
    match p.head.state
    case COMPLETE => p.buffer == behind
    case BODY =>
      if p.head.chunked then p.body == p.buffer == behind
      else
        var n := Min(p.head.contentLength, |behind|);
        p.body == behind[..n] && p.buffer == behind[n..]
    case _ => false
  }

  /** A request in one read: the announced length is the body, what is behind it stays in the buffer. */
  lemma BodyMeans(r: Request, behind: string, hostOk: string -> bool)
    requires IsRequest(r) && Code(r, hostOk) == 0 && |Section(r.fields)| + 2 + |behind| <= MAX_HEADER_SIZE
    ensures var p := Feed(FRESH_PARSER, Encode(r) + behind, hostOk);
            IsParsed(r, p.head) && IsDealt(p, behind)
  {
    hide FindBlockEnd, Find, ParseHeader, ParseSL, DriveHeaders, Parsed, Block, Section, LineOf, Encode, IsField;
    hide BlockCode, LineCode, IsParsed, IsDealt, FeedAll, Feed, Concat;
    var whole, tail := Encode(r) + behind, Section(r.fields) + CRLF + behind;
    var h := ParseSL(FreshHead(), LineOf(r));
    var p := FRESH_PARSER.(head := h.(state := HEADERS));
    LineIsFirst(r, behind);
    LineMeans(r);
    LineKeeps(FreshHead(), LineOf(r));
    FeedFresh(whole, |LineOf(r)|, hostOk);
    SectionEnds(r.fields, behind);
    ParsedBlock(p, tail, hostOk);
    BlockMeans(p.head, r.fields, hostOk);
    Dealt(p, ParseHeader(p.head, Block(r.fields), hostOk), tail, behind);
    OneRead(r, behind, hostOk);
  }

  lemma Dealt(p: Parser, h: Head, tail: string, behind: string)
    requires h.state != ERROR
    ensures IsDealt(Parsed(p, h, tail, behind), behind)
  {
    hide Find;
  }

  lemma OneRead(r: Request, behind: string, hostOk: string -> bool)
    requires IsRequest(r) && Code(r, hostOk) == 0 && |Section(r.fields)| + 2 + |behind| <= MAX_HEADER_SIZE
    ensures IsParsed(r, Feed(FRESH_PARSER, Encode(r) + behind, hostOk).head)
  {
    hide FindBlockEnd, Find, Section, LineOf, Encode, IsField, BlockCode, LineCode, IsParsed, Feed;
    var whole := Encode(r) + behind;
    assert whole != "" by { hide *; EncodingIsLong(r); }
    assert [whole][1..] == [];
    assert Concat([whole]) == whole + "" == whole;
    RequestMeans(r, behind, [whole], |whole|, hostOk);
    assert FeedAll(FRESH_PARSER, [whole], hostOk) == Feed(FRESH_PARSER, whole, hostOk);
  }

  lemma EncodingIsLong(r: Request)
    requires IsRequest(r)
    ensures Encode(r) != ""
  {}

  /** A line break in front of a request is not skipped: it ends the first line, which is refused. */
  lemma LeadingLineBreak(tail: string, pieces: seq<string>, size: nat, hostOk: string -> bool)
    requires Concat(pieces) == CRLF + tail && ReadsUpTo(pieces, size)
    ensures var p := FeedAll(FRESH_PARSER, pieces, hostOk);
            p.head.state == ERROR && p.head.errorCode == BAD_REQUEST && !p.head.threw
  {
    hide FeedAll, ReadsUpTo, Concat, Find;
    FirstLine("", tail);
    assert "" + CRLF + tail == CRLF + tail;
    EmptyLine();
    FreshReach(pieces, size, hostOk);
    CoreHead(FeedAll(FRESH_PARSER, pieces, hostOk));
  }

  lemma EmptyLine()
    ensures ParseSL(FreshHead(), "") == Fail(FreshHead(), BAD_REQUEST)
  {
    NoChar("", " ", 0);
  }
}
