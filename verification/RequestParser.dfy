/** The incremental HTTP request parser: what one call does to the parser's fields, as functions of those fields. */
module RequestParser {
  import opened Http
  import opened Text
  import opened UriCoding

  const MAX_HEADER_SIZE: nat := 64000
  const MAX_HEADER_LINE: nat := 8000
  const MAX_REQUEST_LINE: nat := 8050

  const HEADER_KEY_CHARS: string := "!#$%&'*+-.^_|~`"

  /** Every field but the two byte strings; `threw` records an exception that left parseRequest. */
  datatype Head = Head(
    state: ParseState, method_: string, uri: string, query: string, httpV: string, headers: map<string, string>,
    contentLength: nat, contentType: string, errorCode: int, chunked: bool, mpFlag: bool, threw: bool)

  datatype Parser = Parser(head: Head, buffer: string, body: string)

  function FreshHead(): Head {
    Head(REQUEST_LINE, "", "", "", "", map[], 0, "", 0, false, false, false)
  }

  function Fail(h: Head, code: int): Head { h.(state := ERROR, errorCode := code) }

  /** getHeaderVal: "" for a header that is absent. */
  function Get(headers: map<string, string>, key: string): string {
    if key in headers then headers[key] else ""
  }

  predicate IsMethod(s: string) { s == "GET" || s == "POST" || s == "DELETE" }

  predicate IsHttpVersion(s: string) { s == "HTTP/1.1" || s == "HTTP/1.0" }

  // ---------------------------------------------------------------------------
  // The request line
  // ---------------------------------------------------------------------------

  function DropBlankLines(s: string): (r: string)
    ensures |r| <= |s|
  {
    if |s| >= 2 && s[0] == '\r' && s[1] == '\n' then DropBlankLines(s[2..]) else s
  }

  /** The target between the two spaces: decode the path and the query, or fail. */
  function ParseTarget(h: Head, target: string): Head {
    var mark := Find(target, "?", 0);
    var path := if mark.Some? then target[..mark.value] else target;
    var rawQuery := if mark.Some? then target[mark.value + 1..] else "";
    if !AcceptsURI(path) then Fail(h, BAD_REQUEST)
    else
      var uri := DecodeURI(path);
      if uri == None then Fail(h, BAD_REQUEST)
      else if rawQuery == "" then h.(uri := uri.value, query := "")
      else
        var q := DecodeQuery(rawQuery);
        if q == None then Fail(h.(uri := uri.value), BAD_REQUEST) else h.(uri := uri.value, query := q.value)
  }

  /** The target and the version, which begin at `from`. */
  function ParseRest(h: Head, cont: string, from: nat): Head
    requires from <= |cont|
  {
    var sp := Find(cont, " ", from);
    if sp == None then Fail(h, BAD_REQUEST)
    else
      var target := cont[from..sp.value];
      if |target| > MAX_URI then Fail(h, URI_TOO_LONG)
      else if |cont| > MAX_REQUEST_LINE then Fail(h, BAD_REQUEST)
      else
        var h1 := ParseTarget(h, target);
        if h1.state == ERROR then h1
        else
          var h2 := h1.(httpV := cont[sp.value + 1..]);
          if IsHttpVersion(h2.httpV) then h2 else Fail(h2, VERSION_NOT_SUPPORTED)
  }

  function ParseSL(h: Head, line: string): Head {
    var cont := DropBlankLines(line);
    var sp := Find(cont, " ", 0);
    if sp == None then Fail(h, BAD_REQUEST)
    else
      var h1 := h.(method_ := cont[..sp.value]);
      if IsMethod(h1.method_) then ParseRest(h1, cont, sp.value + 1) else Fail(h1, NOT_IMPLEMENTED)
  }

  // ---------------------------------------------------------------------------
  // The header block
  // ---------------------------------------------------------------------------

  function SkipWhitespace(s: string, i: nat): (r: nat)
    requires i <= |s|
    ensures i <= r <= |s|
    decreases |s| - i
  {
    if i < |s| && (s[i] == ' ' || s[i] == '\t') then SkipWhitespace(s, i + 1) else i
  }

  predicate ValidHeader(key: string, value: string) {
    && (forall i :: 0 <= i < |key| ==> IsAlnum(key[i]) || key[i] in HEADER_KEY_CHARS)
    && (forall i :: 0 <= i < |value| ==> ' ' <= value[i] <= '~' || value[i] == '\t')
  }

  datatype Line = BadLine | Line(key: string, value: string, next: nat)

  /** One header line from `i` on; `next` is where the following line begins, |cont| at the end. */
  function NextLine(cont: string, i: nat): (r: Line)
    requires i < |cont|
    ensures r.Line? ==> i < r.next <= |cont|
  {
    var colon := Find(cont, ":", i);
    if colon == None || colon.value == i then BadLine
    else
      var v := SkipWhitespace(cont, colon.value + 1);
      var end := Find(cont, CRLF, v);
      if end == None then Line(ToLower(cont[i..colon.value]), cont[v..], |cont|)
      else Line(ToLower(cont[i..colon.value]), cont[v..end.value], end.value + 2)
  }

  predicate IsRepeated(headers: map<string, string>, key: string) {
    (key == "host" && Get(headers, "host") != "") || (key == "content-length" && Get(headers, "content-length") != "")
  }

  /** std::map::insert keeps the value a key already has. */
  function Insert(headers: map<string, string>, key: string, value: string): map<string, string> {
    if key in headers then headers else headers[key := value]
  }

  function ParseLines(h: Head, cont: string, i: nat): Head
    requires i <= |cont|
    decreases |cont| - i
  {
    if i == |cont| then h
    else
      var line := NextLine(cont, i);
      if line.BadLine? || IsRepeated(h.headers, line.key) || |line.key| + |line.value| > MAX_HEADER_LINE then
        Fail(h, BAD_REQUEST)
      else
        var h1 := h.(headers := Insert(h.headers, line.key, line.value));
        if ValidHeader(line.key, line.value) then ParseLines(h1, cont, line.next) else Fail(h1, BAD_REQUEST)
  }

  function CheckTransferEnc(h: Head): Head {
    var te := Get(h.headers, "transfer-encoding");
    if te == "" then h
    else if h.httpV == "HTTP/1.0" then Fail(h, NOT_IMPLEMENTED)
    else if Find(ToLower(te), "chunked", 0) == None then Fail(h, BAD_REQUEST)
    else h.(chunked := true)
  }

  function CheckHost(h: Head, hostOk: string -> bool): Head {
    var host := Get(h.headers, "host");
    if host == "" then if h.httpV == "HTTP/1.1" then Fail(h, BAD_REQUEST) else h
    else
      var colon := Find(host, ":", 0);
      var name := if colon.Some? then host[..colon.value] else host;
      var h1 := if colon.Some? then h.(headers := h.headers["host" := name]) else h;
      if hostOk(name) then h1 else Fail(h1, BAD_REQUEST)
  }

  predicate IsNumber(s: string) { s != "" && forall i :: 0 <= i < |s| ==> IsDigit(s[i]) }

  function DecValue(s: string): nat
    requires forall i :: 0 <= i < |s| ==> IsDigit(s[i])
  {
    if s == "" then 0
    else
      assert IsDigit(s[|s| - 1]);
      10 * DecValue(s[..|s| - 1]) + (s[|s| - 1] as int - '0' as int)
  }

  /** Every failure ends as 400: the function catches the 413 that it raises itself, and std::stoll's overflow. */
  function CheckContLen(h: Head): Head {
    var cl := Get(h.headers, "content-length");
    if cl == "" then h
    else if !IsNumber(cl) || DecValue(cl) > MAX_CONT_LEN then Fail(h, BAD_REQUEST)
    else h.(contentLength := DecValue(cl))
  }

  function ParseHeader(h: Head, cont: string, hostOk: string -> bool): Head {
    var h1 := ParseLines(h, cont, 0);
    if h1.state == ERROR then h1
    else if Get(h1.headers, "content-length") != "" && Get(h1.headers, "transfer-encoding") != "" then
      Fail(h1, BAD_REQUEST)
    else
      var ct := Get(h1.headers, "content-type");
      var h2 := CheckTransferEnc(if ct != "" then h1.(contentType := ct) else h1);
      if h2.state == ERROR then h2
      else
        var h3 := CheckHost(h2, hostOk);
        if h3.state == ERROR then h3 else CheckContLen(h3)
  }

  // ---------------------------------------------------------------------------
  // parseRequest
  // ---------------------------------------------------------------------------

  /** Where the header block ends and how many bytes the blank line behind it takes. */
  datatype BlockEnd = NotYet | EndAt(pos: nat, skip: nat)

  function FindBlockEnd(buffer: string): (r: BlockEnd)
    ensures r.EndAt? ==> r.pos + r.skip <= |buffer| && 0 < r.skip
  {
    if |buffer| >= 2 && buffer[..2] == CRLF then EndAt(0, 2)
    else
      match Find(buffer, BLANK_LINE, 0)
      case None => NotYet
      case Some(i) => EndAt(i, 4)
  }

  function DriveBody(p: Parser): Parser {
    var h := if Find(p.head.contentType, "multipart/form-data", 0).Some? then p.head.(mpFlag := true) else p.head;
    if h.chunked then Parser(h, p.buffer, p.buffer)
    else
      var n := if h.contentLength < |p.buffer| then h.contentLength else |p.buffer|;
      Parser(h, p.buffer[n..], p.buffer[..n])
  }

  function DriveHeaders(p: Parser, hostOk: string -> bool): Parser {
    if |p.buffer| > MAX_HEADER_SIZE then p.(head := Fail(p.head, BAD_REQUEST).(threw := true))
    else
      match FindBlockEnd(p.buffer)
      case NotYet => p
      case EndAt(pos, skip) =>
        var h := ParseHeader(p.head, p.buffer[..pos], hostOk);
        if h.state == ERROR then p.(head := h)
        else
          var rest := p.buffer[pos + skip..];
          if h.contentLength == 0 && !h.chunked then p.(head := h.(state := COMPLETE), buffer := rest)
          else DriveBody(p.(head := h.(state := BODY), buffer := rest))
  }

  function DriveLine(p: Parser, hostOk: string -> bool): Parser {
    match Find(p.buffer, CRLF, 0)
    case None => p
    case Some(pos) =>
      var h := ParseSL(p.head, p.buffer[..pos]);
      if h.state == ERROR then p.(head := h)
      else DriveHeaders(p.(head := h.(state := HEADERS), buffer := p.buffer[pos + 2..]), hostOk)
  }

  function Drive(p: Parser, hostOk: string -> bool): Parser {
    match p.head.state
    case REQUEST_LINE => DriveLine(p, hostOk)
    case HEADERS => DriveHeaders(p, hostOk)
    case BODY => DriveBody(p)
    case _ => p
  }

  /** One call of parseRequest. */
  function Feed(p: Parser, data: string, hostOk: string -> bool): Parser {
    Drive(p.(buffer := p.buffer + data), hostOk)
  }

  function FeedAll(p: Parser, pieces: seq<string>, hostOk: string -> bool): Parser
    decreases |pieces|
  {
    if pieces == [] then p else FeedAll(Feed(p, pieces[0], hostOk), pieces[1..], hostOk)
  }

  const FRESH_PARSER: Parser := Parser(FreshHead(), "", "")

  // ---------------------------------------------------------------------------
  // Independence of input cuts
  // ---------------------------------------------------------------------------

  /** What two runs must agree on: everything, except the byte strings once a body is being read. */
  function Core(p: Parser): Parser {
    if p.head.state == BODY then p.(buffer := "", body := "") else p
  }

  /** More than 64000 bytes at once, although the header block ends within the first 64000. */
  predicate OverLimit(tail: string) {
    |tail| > MAX_HEADER_SIZE && FindBlockEnd(tail[..MAX_HEADER_SIZE]).EndAt?
  }

  /** One call on `data` would meet the size limit although smaller reads would find the header block first. */
  predicate ExceedsLimit(p: Parser, data: string) {
    var all := p.buffer + data;
    match p.head.state
    case REQUEST_LINE =>
      (match Find(all, CRLF, 0)
       case None => false
       case Some(pos) => ParseSL(p.head, all[..pos]).state != ERROR && OverLimit(all[pos + 2..]))
    case HEADERS => OverLimit(all)
    case _ => false
  }

  lemma BlockEndExtend(a: string, b: string)
    requires FindBlockEnd(a).EndAt?
    ensures FindBlockEnd(a + b) == FindBlockEnd(a)
  {
    hide Find;
    if |a| >= 2 && a[..2] == CRLF {
      assert (a + b)[..2] == a[..2];
    } else {
      FindExtend(a, b, BLANK_LINE, 0);
      assert |a| >= 4 && (a + b)[..2] == a[..2];
    }
  }

  /** Once a body is being read only the byte strings still change. */
  lemma BodyIsSettled(p: Parser, data: string, hostOk: string -> bool)
    requires p.head.state == BODY
    ensures var q := DriveBody(p);
            q.head.state == BODY && Core(Feed(q, data, hostOk)) == Core(q)
  {
    hide Find;
  }

  lemma OtherState(p: Parser, a: string, b: string, hostOk: string -> bool)
    requires p.head.state in {BODY, COMPLETE, ERROR}
    ensures Core(Feed(Feed(p, a, hostOk), b, hostOk)) == Core(Feed(p, a + b, hostOk))
    ensures Feed(p, a, hostOk).head.state == p.head.state
  {
    assert p.buffer + a + b == p.buffer + (a + b);
    hide Find;
  }

  /** From the header block on: two calls agree with one call on all the bytes. */
  lemma HeadersInTwo(p: Parser, y: string, b: string, hostOk: string -> bool)
    requires p.head.state == HEADERS && !OverLimit(y + b)
    ensures var q := DriveHeaders(p.(buffer := y), hostOk);
            && Core(Feed(q, b, hostOk)) == Core(DriveHeaders(p.(buffer := y + b), hostOk))
            && !ExceedsLimit(q, b)
  {
    hide ParseHeader, FindBlockEnd, DriveBody;
    if |y| <= MAX_HEADER_SIZE && FindBlockEnd(y).EndAt? {
      BlockEndExtend(y, b);
      if |y + b| > MAX_HEADER_SIZE {
        var z := (y + b)[..MAX_HEADER_SIZE];
        assert z == y + b[..MAX_HEADER_SIZE - |y|];
        BlockEndExtend(y, b[..MAX_HEADER_SIZE - |y|]);
        assert false;
      } else {
        BlockFound(p, y, b, hostOk);
      }
    }
  }

  lemma BlockFound(p: Parser, y: string, b: string, hostOk: string -> bool)
    requires p.head.state == HEADERS && |y + b| <= MAX_HEADER_SIZE
    requires FindBlockEnd(y).EndAt? && FindBlockEnd(y + b) == FindBlockEnd(y)
    ensures var q := DriveHeaders(p.(buffer := y), hostOk);
            && Core(Feed(q, b, hostOk)) == Core(DriveHeaders(p.(buffer := y + b), hostOk))
            && q.head.state in {BODY, COMPLETE, ERROR}
  {
    hide ParseHeader, FindBlockEnd, DriveBody;
    var end := FindBlockEnd(y);
    var h := ParseHeader(p.head, y[..end.pos], hostOk);
    assert (y + b)[..end.pos] == y[..end.pos];
    assert (y + b)[end.pos + end.skip..] == y[end.pos + end.skip..] + b;
    if h.state != ERROR && !(h.contentLength == 0 && !h.chunked) {
      var start := p.(head := h.(state := BODY), buffer := y[end.pos + end.skip..]);
      BodyIsSettled(start, b, hostOk);
      BodyHead(start, start.(buffer := start.buffer + b));
    }
  }

  lemma BodyHead(p: Parser, q: Parser)
    requires p.head == q.head
    ensures DriveBody(p).head == DriveBody(q).head && DriveBody(p).head.state == p.head.state
  {
    hide Find;
  }

  /** Two calls agree with one, and the bytes still to come meet the limit no earlier. */
  lemma FeedInTwo(p: Parser, a: string, b: string, hostOk: string -> bool)
    requires !ExceedsLimit(p, a + b)
    ensures Core(Feed(Feed(p, a, hostOk), b, hostOk)) == Core(Feed(p, a + b, hostOk))
    ensures !ExceedsLimit(Feed(p, a, hostOk), b)
  {
    var y := p.buffer + a;
    assert y + b == p.buffer + (a + b);
    hide OverLimit, DriveHeaders, ParseSL, Find, DriveBody;
    match p.head.state
    case REQUEST_LINE => LineInTwo(p.(buffer := y), y, b, hostOk);
    case HEADERS => HeadersInTwo(p, y, b, hostOk);
    case _ => OtherState(p, a, b, hostOk);
  }

  lemma LineInTwo(p: Parser, y: string, b: string, hostOk: string -> bool)
    requires p.head.state == REQUEST_LINE && p.buffer == y && !ExceedsLimit(p, b)
    ensures var q := DriveLine(p, hostOk);
            && Core(Feed(q, b, hostOk)) == Core(DriveLine(p.(buffer := y + b), hostOk))
            && !ExceedsLimit(q, b)
  {
    hide DriveHeaders, ParseSL, Find, OverLimit;
    if Find(y, CRLF, 0).Some? {
      FindExtend(y, b, CRLF, 0);
      var pos := Find(y, CRLF, 0).value;
      var h := ParseSL(p.head, y[..pos]);
      assert (y + b)[..pos] == y[..pos];
      assert (y + b)[pos + 2..] == y[pos + 2..] + b;
      if h.state != ERROR {
        HeadersInTwo(p.(head := h.(state := HEADERS)), y[pos + 2..], b, hostOk);
      }
    }
  }

  /** Feeding pieces one by one ends where one call on their concatenation ends. */
  lemma {:induction false} FeedPieces(p: Parser, pieces: seq<string>, hostOk: string -> bool)
    requires pieces != [] && !ExceedsLimit(p, Concat(pieces))
    ensures Core(FeedAll(p, pieces, hostOk)) == Core(Feed(p, Concat(pieces), hostOk))
    decreases |pieces|
  {
    hide ExceedsLimit, Feed, Core;
    if |pieces| == 1 {
      assert Concat(pieces[1..]) == "" && pieces[0] + "" == pieces[0];
    } else {
      var rest := Concat(pieces[1..]);
      FeedInTwo(p, pieces[0], rest, hostOk);
      FeedPieces(Feed(p, pieces[0], hostOk), pieces[1..], hostOk);
    }
  }

  /** A header block found within the limit is parsed without an exception leaving the parser. */
  lemma SmallTail(p: Parser, tail: string, b: string, hostOk: string -> bool)
    requires p.head.state == HEADERS && !p.head.threw && |tail| <= MAX_HEADER_SIZE && FindBlockEnd(tail).EndAt?
    ensures !Feed(DriveHeaders(p.(buffer := tail), hostOk), b, hostOk).head.threw
  {
    hide FindBlockEnd, ParseHeader, Find;
    HeaderKeeps(p.head, tail[..FindBlockEnd(tail).pos], hostOk);
  }

  /** Over the limit, two reads that split the bytes behind the limit do not end where one read ends. */
  lemma LimitDependsOnCut(whole: string, hostOk: string -> bool)
    requires ExceedsLimit(FRESH_PARSER, whole)
    ensures exists pieces :: pieces != [] && Concat(pieces) == whole
              && Core(FeedAll(FRESH_PARSER, pieces, hostOk)) != Core(Feed(FRESH_PARSER, whole, hostOk))
  {
    hide *;
    var pos := LimitShape(whole);
    var n := pos + 2 + MAX_HEADER_SIZE;
    var a, b := whole[..n], whole[n..];
    assert a + b == whole;
    FirstReadFinds(whole, pos, n, a, b, hostOk);
    OneReadThrows(whole, pos, hostOk);
    TwoReadsDiffer(FRESH_PARSER, a, b, hostOk);
  }

  lemma TwoReadsDiffer(p: Parser, a: string, b: string, hostOk: string -> bool)
    requires Feed(Feed(p, a, hostOk), b, hostOk).head.threw != Feed(p, a + b, hostOk).head.threw
    ensures exists pieces :: pieces != [] && Concat(pieces) == a + b
              && Core(FeedAll(p, pieces, hostOk)) != Core(Feed(p, a + b, hostOk))
  {
    hide Feed, FeedAll, Core, Concat;
    CoreThrew(Feed(p, a + b, hostOk));
    CoreThrew(Feed(Feed(p, a, hostOk), b, hostOk));
    TwoFeeds(p, a, b, hostOk);
    TwoPieces(a, b);
    assert [a, b] != [];
  }

  lemma CoreThrew(p: Parser)
    ensures Core(p).head.threw == p.head.threw
  {}

  lemma LimitShape(whole: string) returns (pos: nat)
    requires ExceedsLimit(FRESH_PARSER, whole)
    ensures Find(whole, CRLF, 0) == Some(pos) && pos + 2 + MAX_HEADER_SIZE < |whole|
    ensures ParseSL(FreshHead(), whole[..pos]).state != ERROR && OverLimit(whole[pos + 2..])
  {
    assert FRESH_PARSER.buffer + whole == whole;
    pos := Find(whole, CRLF, 0).value;
    hide Find, ParseSL, FindBlockEnd;
  }

  /** A call on a fresh parser whose bytes hold a good request line. */
  lemma FeedFresh(data: string, pos: nat, hostOk: string -> bool)
    requires Find(data, CRLF, 0) == Some(pos) && ParseSL(FreshHead(), data[..pos]).state != ERROR
    ensures var p := FRESH_PARSER.(head := ParseSL(FreshHead(), data[..pos]).(state := HEADERS));
            && Feed(FRESH_PARSER, data, hostOk) == DriveHeaders(p.(buffer := data[pos + 2..]), hostOk)
            && !p.head.threw
  {
    assert FRESH_PARSER.buffer + data == data;
    LineKeeps(FreshHead(), data[..pos]);
    hide Find, ParseSL, DriveHeaders;
  }

  lemma OneReadThrows(whole: string, pos: nat, hostOk: string -> bool)
    requires Find(whole, CRLF, 0) == Some(pos) && pos + 2 + MAX_HEADER_SIZE < |whole|
    requires ParseSL(FreshHead(), whole[..pos]).state != ERROR
    ensures Feed(FRESH_PARSER, whole, hostOk).head.threw
  {
    hide Feed, Find, ParseSL, FindBlockEnd, ParseHeader;
    FeedFresh(whole, pos, hostOk);
  }

  lemma FirstRead(whole: string, pos: nat, n: nat, a: string, b: string)
    requires Find(whole, CRLF, 0) == Some(pos) && pos + 2 <= n <= |whole| && a == whole[..n] && whole == a + b
    ensures Find(a, CRLF, 0) == Some(pos) && a[..pos] == whole[..pos] && a[pos + 2..] == whole[pos + 2..][..n - pos - 2]
  {
    hide Find;
    FindInPrefix(a, b, CRLF, 0);
  }

  lemma FirstReadFinds(whole: string, pos: nat, n: nat, a: string, b: string, hostOk: string -> bool)
    requires Find(whole, CRLF, 0) == Some(pos) && n == pos + 2 + MAX_HEADER_SIZE < |whole|
    requires ParseSL(FreshHead(), whole[..pos]).state != ERROR && OverLimit(whole[pos + 2..])
    requires a == whole[..n] && whole == a + b
    ensures !Feed(Feed(FRESH_PARSER, a, hostOk), b, hostOk).head.threw
  {
    hide Find, ParseSL, Feed;
    FirstRead(whole, pos, n, a, b);
    assert FindBlockEnd(a[pos + 2..]).EndAt? by { hide FindBlockEnd; }
    SmallFeed(a, pos, b, hostOk);
  }

  lemma SmallFeed(a: string, pos: nat, b: string, hostOk: string -> bool)
    requires Find(a, CRLF, 0) == Some(pos) && ParseSL(FreshHead(), a[..pos]).state != ERROR
    requires |a| - pos - 2 <= MAX_HEADER_SIZE && FindBlockEnd(a[pos + 2..]).EndAt?
    ensures !Feed(Feed(FRESH_PARSER, a, hostOk), b, hostOk).head.threw
  {
    FeedFresh(a, pos, hostOk);
    hide Find, ParseSL, FindBlockEnd, DriveHeaders, Feed;
    SmallTail(FRESH_PARSER.(head := ParseSL(FreshHead(), a[..pos]).(state := HEADERS)), a[pos + 2..], b, hostOk);
  }

  lemma TwoFeeds(p: Parser, a: string, b: string, hostOk: string -> bool)
    ensures FeedAll(p, [a, b], hostOk) == Feed(Feed(p, a, hostOk), b, hostOk)
  {
    hide Feed;
    assert [a, b][1..] == [b] && [b][1..] == [];
    var q := Feed(p, a, hostOk);
    assert FeedAll(q, [b], hostOk) == Feed(q, b, hostOk);
  }

  /**
   * From a fresh parser every cut of the same bytes gives the same result, exactly when a single call
   * does not meet the size limit with the end of the header block already inside the limit.
   */
  lemma CutIndependence(whole: string, hostOk: string -> bool)
    ensures (forall pieces :: pieces != [] && Concat(pieces) == whole ==>
               Core(FeedAll(FRESH_PARSER, pieces, hostOk)) == Core(Feed(FRESH_PARSER, whole, hostOk)))
            <==> !ExceedsLimit(FRESH_PARSER, whole)
  {
    hide Feed, FeedAll, Core, ExceedsLimit;
    if ExceedsLimit(FRESH_PARSER, whole) {
      LimitDependsOnCut(whole, hostOk);
    } else {
      forall pieces | pieces != [] && Concat(pieces) == whole
        ensures Core(FeedAll(FRESH_PARSER, pieces, hostOk)) == Core(Feed(FRESH_PARSER, whole, hostOk))
      {
        FeedPieces(FRESH_PARSER, pieces, hostOk);
      }
    }
  }

  /** Up to 64000 bytes in total no cut makes a difference. */
  lemma CutIndependenceUpToLimit(pieces: seq<string>, hostOk: string -> bool)
    requires pieces != [] && |Concat(pieces)| <= MAX_HEADER_SIZE
    ensures Core(FeedAll(FRESH_PARSER, pieces, hostOk)) == Core(Feed(FRESH_PARSER, Concat(pieces), hostOk))
  {
    assert FRESH_PARSER.buffer + Concat(pieces) == Concat(pieces);
    hide Find, FindBlockEnd, ParseSL;
    FeedPieces(FRESH_PARSER, pieces, hostOk);
  }

  // ---------------------------------------------------------------------------
  // Error codes
  // ---------------------------------------------------------------------------

  /** The codes a parser can carry: an oversized Content-Length is reported as 400, never as 413. */
  predicate PossibleCode(h: Head) {
    && (h.state == ERROR ==> h.errorCode in {BAD_REQUEST, URI_TOO_LONG, NOT_IMPLEMENTED, VERSION_NOT_SUPPORTED})
    && (h.state != ERROR ==> h.errorCode == 0)
  }

  /** The state stays or becomes ERROR, with a possible code, and no exception gets out. */
  predicate Sound(h: Head, g: Head) {
    && g.threw == h.threw
    && (g.state == h.state || g.state == ERROR)
    && (PossibleCode(h) && h.state != ERROR ==> PossibleCode(g))
  }

  /**
   * Parsing a header block changes the state, the error code, the headers and what is derived from them, and nothing
   * else.
   */
  predicate BlockKeeps(h: Head, g: Head) {
    && Sound(h, g)
    && g == h.(state := g.state, errorCode := g.errorCode, headers := g.headers, contentLength := g.contentLength,
               contentType := g.contentType, chunked := g.chunked)
  }

  /** Parsing the request line changes the state, the error code and the fields of the line, and nothing else. */
  predicate RequestLineKeeps(h: Head, g: Head) {
    && Sound(h, g)
    && g == h.(state := g.state, errorCode := g.errorCode, method_ := g.method_, uri := g.uri, query := g.query,
               httpV := g.httpV)
  }

  lemma {:induction false} LinesKeep(h: Head, cont: string, i: nat)
    requires i <= |cont|
    ensures BlockKeeps(h, ParseLines(h, cont, i))
    decreases |cont| - i
  {
    hide NextLine, ValidHeader;
    if i < |cont| {
      var line := NextLine(cont, i);
      if line.Line? {
        LinesKeep(h.(headers := Insert(h.headers, line.key, line.value)), cont, line.next);
      }
    }
  }

  lemma TransferEncKeeps(h: Head)
    ensures BlockKeeps(h, CheckTransferEnc(h))
  {
    hide Find, ToLower;
  }

  lemma HostKeeps(h: Head, hostOk: string -> bool)
    ensures BlockKeeps(h, CheckHost(h, hostOk))
  {
    hide Find;
  }

  lemma ContLenKeeps(h: Head)
    ensures BlockKeeps(h, CheckContLen(h))
  {
    hide DecValue, IsNumber;
  }

  lemma KeepsTrans(a: Head, b: Head, c: Head)
    requires BlockKeeps(a, b) && b.state != ERROR && BlockKeeps(b, c)
    ensures BlockKeeps(a, c)
  {}

  lemma HeaderKeeps(h: Head, cont: string, hostOk: string -> bool)
    ensures BlockKeeps(h, ParseHeader(h, cont, hostOk))
  {
    var h1 := ParseLines(h, cont, 0);
    LinesKeep(h, cont, 0);
    hide ParseLines, CheckTransferEnc, CheckHost, CheckContLen;
    if h1.state != ERROR {
      var ct := Get(h1.headers, "content-type");
      var t := if ct != "" then h1.(contentType := ct) else h1;
      assert BlockKeeps(h, t);
      TransferEncKeeps(t);
      var h2 := CheckTransferEnc(t);
      if h2.state != ERROR {
        KeepsTrans(h, t, h2);
        HostKeeps(h2, hostOk);
        var h3 := CheckHost(h2, hostOk);
        if h3.state != ERROR {
          KeepsTrans(h, h2, h3);
          ContLenKeeps(h3);
        }
      }
    }
  }

  lemma TargetKeeps(h: Head, target: string)
    ensures RequestLineKeeps(h, ParseTarget(h, target))
  {
    hide Find, AcceptsURI, DecodeURI, DecodeQuery;
  }

  lemma RestKeeps(h: Head, cont: string, from: nat)
    requires from <= |cont|
    ensures RequestLineKeeps(h, ParseRest(h, cont, from))
  {
    hide Find, ParseTarget;
    var sp := Find(cont, " ", from);
    if sp.Some? {
      TargetKeeps(h, cont[from..sp.value]);
    }
  }

  lemma LineKeeps(h: Head, line: string)
    ensures RequestLineKeeps(h, ParseSL(h, line))
  {
    hide Find, DropBlankLines, ParseRest;
    var cont := DropBlankLines(line);
    var sp := Find(cont, " ", 0);
    if sp.Some? {
      RestKeeps(h.(method_ := cont[..sp.value]), cont, sp.value + 1);
    }
  }

  lemma DriveHeadersCode(p: Parser, hostOk: string -> bool)
    requires p.head.state == HEADERS && PossibleCode(p.head)
    ensures PossibleCode(DriveHeaders(p, hostOk).head)
  {
    hide FindBlockEnd, ParseHeader, Find;
    if FindBlockEnd(p.buffer).EndAt? {
      HeaderKeeps(p.head, p.buffer[..FindBlockEnd(p.buffer).pos], hostOk);
    }
  }

  /** Every call keeps the error code among the possible ones, whatever arrives. */
  lemma FeedCode(p: Parser, data: string, hostOk: string -> bool)
    requires PossibleCode(p.head)
    ensures PossibleCode(Feed(p, data, hostOk).head)
  {
    hide Find, ParseSL, DriveHeaders;
    var q := p.(buffer := p.buffer + data);
    match p.head.state
    case REQUEST_LINE =>
      if Find(q.buffer, CRLF, 0).Some? {
        var pos := Find(q.buffer, CRLF, 0).value;
        var h := ParseSL(p.head, q.buffer[..pos]);
        LineKeeps(p.head, q.buffer[..pos]);
        if h.state != ERROR {
          DriveHeadersCode(q.(head := h.(state := HEADERS), buffer := q.buffer[pos + 2..]), hostOk);
        }
      }
    case HEADERS => DriveHeadersCode(q, hostOk);
    case _ =>
  }

  /** No sequence of reads makes a parser report anything else: an oversized Content-Length is a 400, never a 413. */
  lemma {:induction false} ReadsCode(p: Parser, pieces: seq<string>, hostOk: string -> bool)
    requires PossibleCode(p.head)
    ensures PossibleCode(FeedAll(p, pieces, hostOk).head)
    decreases |pieces|
  {
    hide Feed, PossibleCode;
    if pieces != [] {
      FeedCode(p, pieces[0], hostOk);
      ReadsCode(Feed(p, pieces[0], hostOk), pieces[1..], hostOk);
    }
  }

  lemma NeverPayloadTooLarge(pieces: seq<string>, hostOk: string -> bool)
    ensures FeedAll(FRESH_PARSER, pieces, hostOk).head.errorCode in
            {0, BAD_REQUEST, URI_TOO_LONG, NOT_IMPLEMENTED, VERSION_NOT_SUPPORTED}
    ensures FeedAll(FRESH_PARSER, pieces, hostOk).head.errorCode != PAYLOAD_TOO_LARGE
  {
    ReadsCode(FRESH_PARSER, pieces, hostOk);
  }
}
