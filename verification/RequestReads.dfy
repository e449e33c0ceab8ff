/** The request parser behind the kernel: reads of up to 4096 bytes, and when it matters how they are cut. */
module RequestReads {
  import opened Http
  import opened Text
  import opened UriCoding
  import opened RequestParser

  /** What any further bytes make of a parser that has left the header block behind. */
  function After(p: Parser, rest: string): Parser {
    if p.head.state == BODY then p.(buffer := "", body := "") else p.(buffer := p.buffer + rest)
  }

  /** The request line and the header block are behind; the multipart flag is set if the body calls for it. */
  predicate IsSettled(p: Parser) {
    && p.head.state in {BODY, COMPLETE, ERROR}
    && (p.head.state == BODY ==> DriveBody(p).head == p.head)
  }

  lemma SettledStep(p: Parser, data: string, hostOk: string -> bool)
    requires IsSettled(p)
    ensures IsSettled(Feed(p, data, hostOk))
    ensures forall rest :: After(Feed(p, data, hostOk), rest) == After(p, data + rest)
  {
    hide Find;
    forall rest ensures After(Feed(p, data, hostOk), rest) == After(p, data + rest) {
      assert p.buffer + data + rest == p.buffer + (data + rest);
    }
  }

  lemma {:induction false} SettledAll(p: Parser, pieces: seq<string>, hostOk: string -> bool)
    requires IsSettled(p)
    ensures Core(FeedAll(p, pieces, hostOk)) == After(p, Concat(pieces))
    decreases |pieces|
  {
    if pieces == [] {
      assert p.buffer + "" == p.buffer;
    } else {
      SettledStep(p, pieces[0], hostOk);
      SettledAll(Feed(p, pieces[0], hostOk), pieces[1..], hostOk);
      hide Feed, IsSettled, After;
    }
  }

  /** Where a parser in HEADERS should end: by its block if that ends within the limit, and at the limit otherwise. */
  function IdealHeaders(p: Parser, tail: string, hostOk: string -> bool): Parser {
    var end := FindBlockEnd(tail);
    if end.EndAt? && end.pos + end.skip <= MAX_HEADER_SIZE then
      After(DriveHeaders(p.(buffer := tail[..end.pos + end.skip]), hostOk), tail[end.pos + end.skip..])
    else if |tail| > MAX_HEADER_SIZE then Parser(Fail(p.head, BAD_REQUEST).(threw := true), tail, p.body)
    else p.(buffer := tail)
  }

  /** Where a parser in REQUEST_LINE should end. */
  function IdealLine(p: Parser, whole: string, hostOk: string -> bool): Parser {
    match Find(whole, CRLF, 0)
    case None => p.(buffer := whole)
    case Some(pos) =>
      var h := ParseSL(p.head, whole[..pos]);
      if h.state == ERROR then p.(head := h, buffer := whole)
      else IdealHeaders(p.(head := h.(state := HEADERS)), whole[pos + 2..], hostOk)
  }

  /** A block that ends so close to the limit that a read of up to `size` bytes may overshoot it. */
  predicate EndsNearLimit(tail: string, size: nat) {
    var end := FindBlockEnd(tail);
    && end.EndAt? && end.pos + end.skip <= MAX_HEADER_SIZE < |tail|
    && MAX_HEADER_SIZE + 1 < end.pos + end.skip + size
  }

  predicate NearLimit(whole: string, size: nat) {
    match Find(whole, CRLF, 0)
    case None => false
    case Some(pos) => ParseSL(FreshHead(), whole[..pos]).state != ERROR && EndsNearLimit(whole[pos + 2..], size)
  }

  /** The bytes of a block show where it ends, and fewer bytes do not. */
  lemma BlockEndPrefix(y: string, n: nat)
    requires FindBlockEnd(y).EndAt? && n <= |y|
    ensures FindBlockEnd(y[..n]) == if n < FindBlockEnd(y).pos + FindBlockEnd(y).skip then NotYet else FindBlockEnd(y)
  {
    hide Find;
    var end := FindBlockEnd(y);
    assert y == y[..n] + y[n..];
    if FindBlockEnd(y[..n]).EndAt? {
      BlockEndExtend(y[..n], y[n..]);
    } else if n >= end.pos + end.skip && end.skip == 4 {
      FindInPrefix(y[..n], y[n..], BLANK_LINE, 0);
    }
  }

  /** What parsing a block into `h` leaves, with `rest` behind the block. */
  function Parsed(p: Parser, h: Head, y: string, rest: string): Parser {
    if h.state == ERROR then p.(head := h, buffer := y)
    else if h.contentLength == 0 && !h.chunked then p.(head := h.(state := COMPLETE), buffer := rest)
    else DriveBody(p.(head := h.(state := BODY), buffer := rest))
  }

  lemma ParsedBlock(p: Parser, y: string, hostOk: string -> bool)
    requires |y| <= MAX_HEADER_SIZE && FindBlockEnd(y).EndAt?
    ensures var end := FindBlockEnd(y);
            DriveHeaders(p.(buffer := y), hostOk)
            == Parsed(p, ParseHeader(p.head, y[..end.pos], hostOk), y, y[end.pos + end.skip..])
  {
    hide FindBlockEnd, ParseHeader, DriveBody;
  }

  lemma ParsedSettles(p: Parser, h: Head, y: string, rest: string)
    ensures IsSettled(Parsed(p, h, y, rest))
  {
    hide Find;
  }

  lemma ParsedAlike(p: Parser, h: Head, y: string, r: string, s: string, y': string, r': string, s': string)
    requires y + s == y' + s' && r + s == r' + s'
    ensures After(Parsed(p, h, y, r), s) == After(Parsed(p, h, y', r'), s')
  {
    hide Find;
  }

  /** A block is parsed alike whatever has already arrived behind it. */
  lemma BlockSettles(p: Parser, y: string, rest: string, hostOk: string -> bool)
    requires p.head.state == HEADERS && |y| <= MAX_HEADER_SIZE && FindBlockEnd(y).EndAt?
    ensures IsSettled(DriveHeaders(p.(buffer := y), hostOk))
    ensures var end := FindBlockEnd(y);
            var e := end.pos + end.skip;
            After(DriveHeaders(p.(buffer := y), hostOk), rest)
            == After(DriveHeaders(p.(buffer := y[..e]), hostOk), y[e..] + rest)
  {
    var end := FindBlockEnd(y);
    var e := end.pos + end.skip;
    var h := ParseHeader(p.head, y[..end.pos], hostOk);
    hide FindBlockEnd, ParseHeader, DriveHeaders, Parsed, IsSettled, After;
    BlockEndPrefix(y, e);
    assert y[..e][..end.pos] == y[..end.pos];
    ParsedBlock(p, y, hostOk);
    ParsedBlock(p, y[..e], hostOk);
    ParsedSettles(p, h, y, y[e..]);
    PartsOf(y, e, rest);
    ParsedAlike(p, h, y, y[e..], rest, y[..e], y[..e][e..], y[e..] + rest);
  }

  lemma PartsOf(y: string, e: nat, rest: string)
    requires e <= |y|
    ensures y + rest == y[..e] + (y[e..] + rest) && y[e..] + rest == y[..e][e..] + (y[e..] + rest)
  {
    assert y[..e][e..] == "";
  }

  lemma IdealFound(p: Parser, y: string, rest: string, hostOk: string -> bool)
    requires p.head.state == HEADERS && |y| <= MAX_HEADER_SIZE && FindBlockEnd(y).EndAt?
    ensures IdealHeaders(p, y + rest, hostOk) == After(DriveHeaders(p.(buffer := y), hostOk), rest)
  {
    hide FindBlockEnd, DriveHeaders, After;
    var e := FindBlockEnd(y).pos + FindBlockEnd(y).skip;
    BlockEndExtend(y, rest);
    HeadExtend(y, rest, e);
    TailExtend(y, rest, e);
    BlockSettles(p, y, rest, hostOk);
  }

  /** A read that overshoots the limit throws, and rightly so unless the block ends near the limit. */
  lemma IdealThrown(p: Parser, b: string, data: string, rest: string, size: nat, hostOk: string -> bool)
    requires |b| <= MAX_HEADER_SIZE < |b + data| && |data| <= size && FindBlockEnd(b) == NotYet
    requires !EndsNearLimit(b + data + rest, size)
    ensures var tail := b + data + rest;
            IdealHeaders(p, tail, hostOk) == Parser(Fail(p.head, BAD_REQUEST).(threw := true), tail, p.body)
  {
    var tail := b + data + rest;
    if FindBlockEnd(tail).EndAt? {
      assert tail[..|b|] == b;
      BlockEndPrefix(tail, |b|);
    }
    hide FindBlockEnd, DriveHeaders;
  }

  lemma IdealWaits(p: Parser, tail: string, hostOk: string -> bool)
    requires |tail| <= MAX_HEADER_SIZE && FindBlockEnd(tail) == NotYet
    ensures IdealHeaders(p, tail, hostOk) == p.(buffer := tail)
  {}

  /** One read while the header block is being collected. */
  lemma HeadersStep(p: Parser, data: string, hostOk: string -> bool)
    requires p.head.state == HEADERS
    ensures var y := p.buffer + data;
            && Feed(p, data, hostOk) == DriveHeaders(p.(buffer := y), hostOk)
            && (|y| > MAX_HEADER_SIZE ==>
                  Feed(p, data, hostOk) == Parser(Fail(p.head, BAD_REQUEST).(threw := true), y, p.body))
            && (|y| <= MAX_HEADER_SIZE && FindBlockEnd(y) == NotYet ==> Feed(p, data, hostOk) == p.(buffer := y))
  {
    hide FindBlockEnd, ParseHeader;
  }

  /** Reads of at most `size` bytes end where they should unless the block ends near the limit. */
  lemma {:induction false} ReadsReach(p: Parser, pieces: seq<string>, size: nat, hostOk: string -> bool)
    requires p.head.state == HEADERS && |p.buffer| <= MAX_HEADER_SIZE && FindBlockEnd(p.buffer) == NotYet
    requires ReadsUpTo(pieces, size) && !EndsNearLimit(p.buffer + Concat(pieces), size)
    ensures Core(FeedAll(p, pieces, hostOk)) == IdealHeaders(p, p.buffer + Concat(pieces), hostOk)
    decreases |pieces|
  {
    hide FindBlockEnd, EndsNearLimit, Feed, IdealHeaders, DriveHeaders, IsSettled, After;
    if pieces == [] {
      assert p.buffer + Concat(pieces) == p.buffer;
      IdealWaits(p, p.buffer, hostOk);
    } else {
      var y, rest := p.buffer + pieces[0], Concat(pieces[1..]);
      var q := Feed(p, pieces[0], hostOk);
      assert p.buffer + Concat(pieces) == y + rest;
      HeadersStep(p, pieces[0], hostOk);
      if |y| > MAX_HEADER_SIZE {
        IdealThrown(p, p.buffer, pieces[0], rest, size, hostOk);
        ThrownStays(q, pieces[1..], hostOk);
      } else if FindBlockEnd(y).NotYet? {
        ReadsReach(q, pieces[1..], size, hostOk);
        SameIdeal(p, q, y + rest, hostOk);
      } else {
        BlockSettles(p, y, rest, hostOk);
        IdealFound(p, y, rest, hostOk);
        SettledAll(q, pieces[1..], hostOk);
      }
    }
  }

  lemma SameIdeal(p: Parser, q: Parser, tail: string, hostOk: string -> bool)
    requires q == p.(buffer := q.buffer)
    ensures IdealHeaders(p, tail, hostOk) == IdealHeaders(q, tail, hostOk)
  {
    hide FindBlockEnd, DriveHeaders, After;
  }

  lemma ThrownStays(p: Parser, pieces: seq<string>, hostOk: string -> bool)
    requires p.head.state == ERROR
    ensures Core(FeedAll(p, pieces, hostOk)) == p.(buffer := p.buffer + Concat(pieces))
  {
    SettledAll(p, pieces, hostOk);
  }

  /** One read while the request line is being collected. */
  lemma LineStep(p: Parser, data: string, hostOk: string -> bool)
    requires p.head.state == REQUEST_LINE
    ensures var y := p.buffer + data;
            var q := Feed(p, data, hostOk);
            match Find(y, CRLF, 0)
            case None => q == p.(buffer := y)
            case Some(pos) =>
              var h := ParseSL(p.head, y[..pos]);
              if h.state == ERROR then q == p.(head := h, buffer := y)
              else q == Feed(p.(head := h.(state := HEADERS), buffer := ""), y[pos + 2..], hostOk)
  {
    hide Find, ParseSL, DriveHeaders;
    var y := p.buffer + data;
    if Find(y, CRLF, 0).Some? {
      var pos := Find(y, CRLF, 0).value;
      assert "" + y[pos + 2..] == y[pos + 2..];
    }
  }

  /** The first bytes behind the request line come with it. */
  lemma FirstTail(p: Parser, t: string, pieces: seq<string>, size: nat, hostOk: string -> bool)
    requires p.head.state == HEADERS && p.buffer == "" && |t| <= size && ReadsUpTo(pieces, size)
    requires !EndsNearLimit(t + Concat(pieces), size)
    ensures Core(FeedAll(Feed(p, t, hostOk), pieces, hostOk)) == IdealHeaders(p, t + Concat(pieces), hostOk)
  {
    assert FindBlockEnd("") == NotYet;
    hide FindBlockEnd, EndsNearLimit, Feed, IdealHeaders;
    if t == "" {
      HeadersStep(p, t, hostOk);
      assert p.buffer + t == p.buffer && t + Concat(pieces) == Concat(pieces);
      ReadsReach(p, pieces, size, hostOk);
    } else {
      var all := [t] + pieces;
      assert all[1..] == pieces;
      assert "" + (t + Concat(pieces)) == t + Concat(pieces);
      ReadsReach(p, all, size, hostOk);
    }
  }

  lemma {:induction false} LinesReach(p: Parser, pieces: seq<string>, size: nat, hostOk: string -> bool)
    requires p.head.state == REQUEST_LINE && p.head == FreshHead() && Find(p.buffer, CRLF, 0) == None
    requires ReadsUpTo(pieces, size) && !NearLimit(p.buffer + Concat(pieces), size)
    ensures Core(FeedAll(p, pieces, hostOk)) == IdealLine(p, p.buffer + Concat(pieces), hostOk)
    decreases |pieces|
  {
    hide Find, Feed, ParseSL, IdealHeaders, EndsNearLimit;
    if pieces == [] {
      assert p.buffer + Concat(pieces) == p.buffer;
    } else {
      var y, rest := p.buffer + pieces[0], Concat(pieces[1..]);
      assert p.buffer + Concat(pieces) == y + rest;
      LineStep(p, pieces[0], hostOk);
      if Find(y, CRLF, 0) == None {
        LinesReach(p.(buffer := y), pieces[1..], size, hostOk);
        SameIdealLine(p, y, y + rest, hostOk);
      } else {
        LineFound(p, y, pieces, size, hostOk);
      }
    }
  }

  lemma SameIdealLine(p: Parser, y: string, whole: string, hostOk: string -> bool)
    ensures IdealLine(p, whole, hostOk) == IdealLine(p.(buffer := y), whole, hostOk)
  {
    hide Find, ParseSL, IdealHeaders;
    if Find(whole, CRLF, 0).Some? {
      var pos := Find(whole, CRLF, 0).value;
      var q := p.(head := ParseSL(p.head, whole[..pos]).(state := HEADERS));
      SameIdeal(q, q.(buffer := y), whole[pos + 2..], hostOk);
    }
  }

  lemma LineFound(p: Parser, y: string, pieces: seq<string>, size: nat, hostOk: string -> bool)
    requires p.head == FreshHead() && Find(p.buffer, CRLF, 0) == None && pieces != [] && y == p.buffer + pieces[0]
    requires ReadsUpTo(pieces, size) && Find(y, CRLF, 0).Some?
    requires !NearLimit(y + Concat(pieces[1..]), size)
    ensures Core(FeedAll(Feed(p, pieces[0], hostOk), pieces[1..], hostOk))
            == IdealLine(p, y + Concat(pieces[1..]), hostOk)
  {
    var rest := Concat(pieces[1..]);
    var pos := Find(y, CRLF, 0).value;
    var h := ParseSL(p.head, y[..pos]);
    ReadsBehind(pieces, size);
    hide *;
    LineStep(p, pieces[0], hostOk);
    LineEndsLate(p.buffer, pieces[0], pos);
    LineOfWhole(p, y, rest, pos, size, hostOk);
    if h.state == ERROR {
      ThrownStays(p.(head := h, buffer := y), pieces[1..], hostOk);
    } else {
      FirstTail(p.(head := h.(state := HEADERS), buffer := ""), y[pos + 2..], pieces[1..], size, hostOk);
    }
  }

  /** The request line found in the first bytes is the line of the whole. */
  lemma LineOfWhole(p: Parser, y: string, rest: string, pos: nat, size: nat, hostOk: string -> bool)
    requires Find(y, CRLF, 0) == Some(pos)
    ensures var h := ParseSL(p.head, y[..pos]);
            IdealLine(p, y + rest, hostOk) ==
            if h.state == ERROR then p.(head := h, buffer := y + rest)
            else IdealHeaders(p.(head := h.(state := HEADERS), buffer := ""), y[pos + 2..] + rest, hostOk)
    ensures NearLimit(y + rest, size) <==>
            ParseSL(FreshHead(), y[..pos]).state != ERROR && EndsNearLimit(y[pos + 2..] + rest, size)
  {
    hide Find, ParseSL, IdealHeaders, EndsNearLimit, FreshHead;
    LineInWhole(y, rest, pos);
    var q := p.(head := ParseSL(p.head, y[..pos]).(state := HEADERS));
    SameIdeal(q, q.(buffer := ""), y[pos + 2..] + rest, hostOk);
  }

  lemma LineInWhole(y: string, rest: string, pos: nat)
    requires Find(y, CRLF, 0) == Some(pos)
    ensures Find(y + rest, CRLF, 0) == Some(pos)
    ensures (y + rest)[..pos] == y[..pos] && (y + rest)[pos + 2..] == y[pos + 2..] + rest
  {
    FindExtend(y, rest, CRLF, 0);
    hide Find;
    HeadExtend(y, rest, pos);
    TailExtend(y, rest, pos + 2);
  }

  lemma ReadsBehind(pieces: seq<string>, size: nat)
    requires pieces != [] && ReadsUpTo(pieces, size)
    ensures |pieces[0]| <= size && ReadsUpTo(pieces[1..], size)
  {}

  lemma LineEndsLate(b: string, data: string, pos: nat)
    requires Find(b, CRLF, 0) == None && Find(b + data, CRLF, 0) == Some(pos)
    ensures |b| < pos + 2
  {
    hide Find;
    if pos + 2 <= |b| {
      FindInPrefix(b, data, CRLF, 0);
      assert false;
    }
  }

  /** From a fresh parser. */
  lemma FreshReach(pieces: seq<string>, size: nat, hostOk: string -> bool)
    requires ReadsUpTo(pieces, size) && !NearLimit(Concat(pieces), size)
    ensures Core(FeedAll(FRESH_PARSER, pieces, hostOk)) == IdealLine(FRESH_PARSER, Concat(pieces), hostOk)
  {
    assert FRESH_PARSER.buffer + Concat(pieces) == Concat(pieces);
    assert Find("", CRLF, 0) == None;
    hide Find, NearLimit, IdealLine, FeedAll;
    LinesReach(FRESH_PARSER, pieces, size, hostOk);
  }

  lemma NeverNearByBytes(whole: string)
    ensures !NearLimit(whole, 1)
  {
    hide Find, ParseSL, FindBlockEnd;
  }

  /** Byte by byte, every stream ends where it should. */
  lemma SinglesReach(whole: string, hostOk: string -> bool)
    ensures Core(FeedAll(FRESH_PARSER, Singles(whole), hostOk)) == IdealLine(FRESH_PARSER, whole, hostOk)
  {
    SinglesConcat(whole);
    NeverNearByBytes(whole);
    hide *;
    FreshReach(Singles(whole), 1, hostOk);
  }

  lemma {:induction false} FeedAllAppend(p: Parser, a: seq<string>, b: seq<string>, hostOk: string -> bool)
    ensures FeedAll(p, a + b, hostOk) == FeedAll(FeedAll(p, a, hostOk), b, hostOk)
    decreases |a|
  {
    hide Feed;
    if a == [] {
      assert a + b == b;
    } else {
      assert (a + b)[1..] == a[1..] + b;
      FeedAllAppend(Feed(p, a[0], hostOk), a[1..], b, hostOk);
    }
  }

  /** The parser once it has taken a good request line. */
  function LineTaken(line: string, buffer: string): Parser {
    Parser(ParseSL(FreshHead(), line).(state := HEADERS), buffer, "")
  }

  /** Byte by byte up to the block's last byte: the block is still being collected. */
  lemma BeforeBlockEnd(a: string, pos: nat, hostOk: string -> bool)
    requires Find(a, CRLF, 0) == Some(pos) && ParseSL(FreshHead(), a[..pos]).state != ERROR
    requires FindBlockEnd(a[pos + 2..]) == NotYet && |a[pos + 2..]| <= MAX_HEADER_SIZE
    ensures FeedAll(FRESH_PARSER, Singles(a), hostOk) == LineTaken(a[..pos], a[pos + 2..])
  {
    hide Find, ParseSL, FindBlockEnd, FeedAll, IdealHeaders, IdealLine, FreshHead;
    SinglesReach(a, hostOk);
    assert a + "" == a && a[pos + 2..] + "" == a[pos + 2..];
    LineOfWhole(FRESH_PARSER, a, "", pos, 1, hostOk);
    IdealWaits(LineTaken(a[..pos], ""), a[pos + 2..], hostOk);
  }

  /** A stream whose block ends near the limit, cut in front of the block's last byte. */
  lemma NearLimitParts(whole: string) returns (pos: nat, a: string, rest: string)
    requires NearLimit(whole, READ_SIZE)
    ensures whole == a + rest && rest != ""
    ensures Find(a, CRLF, 0) == Some(pos) && ParseSL(FreshHead(), a[..pos]).state != ERROR
    ensures var b := a[pos + 2..];
            && FindBlockEnd(b) == NotYet && |b| < MAX_HEADER_SIZE < |b| + |rest| && MAX_HEADER_SIZE < |b| + READ_SIZE
            && FindBlockEnd(b + rest).EndAt? && FindBlockEnd(b + rest).pos + FindBlockEnd(b + rest).skip == |b| + 1
  {
    pos := Find(whole, CRLF, 0).value;
    var end := FindBlockEnd(whole[pos + 2..]);
    hide Find, ParseSL, FindBlockEnd, FreshHead;
    a, rest := CutBehind(whole, pos, end.pos + end.skip - 1);
    BlockEndPrefix(whole[pos + 2..], end.pos + end.skip - 1);
  }

  lemma CutBehind(whole: string, pos: nat, n: nat) returns (a: string, rest: string)
    requires Find(whole, CRLF, 0) == Some(pos) && pos + 2 + n < |whole|
    ensures whole == a + rest && rest != "" && Find(a, CRLF, 0) == Some(pos) && a[..pos] == whole[..pos]
    ensures a[pos + 2..] == whole[pos + 2..][..n] && a[pos + 2..] + rest == whole[pos + 2..] && |a[pos + 2..]| == n
  {
    hide Find;
    a, rest := whole[..pos + 2 + n], whole[pos + 2 + n..];
    assert whole == a + rest;
    FirstRead(whole, pos, pos + 2 + n, a, rest);
  }

  /** Near the limit there are reads that throw: byte by byte up to the block's last byte, then one large read. */
  lemma LargeReadThrows(whole: string, hostOk: string -> bool) returns (pieces: seq<string>)
    requires NearLimit(whole, READ_SIZE)
    ensures ReadsUpTo(pieces, READ_SIZE) && Concat(pieces) == whole
    ensures FeedAll(FRESH_PARSER, pieces, hostOk).head.threw
  {
    var pos, a, late := NearLimitParts(whole);
    var b := a[pos + 2..];
    var big, rest := LargeRead(late);
    pieces := Singles(a) + ([big] + Singles(rest));
    LineIsTaken(a[..pos], b);
    hide *;
    BeforeBlockEnd(a, pos, hostOk);
    PiecesOf(a, big, rest, pieces);
    FeedAllAppend(FRESH_PARSER, Singles(a), [big] + Singles(rest), hostOk);
    ThenThrows(LineTaken(a[..pos], b), b, big, rest, hostOk);
  }

  lemma LineIsTaken(line: string, b: string)
    ensures LineTaken(line, b).head.state == HEADERS && LineTaken(line, b).buffer == b
  {
    hide ParseSL;
  }

  lemma LargeRead(s: string) returns (big: string, rest: string)
    requires s != ""
    ensures s == big + rest && 0 < |big| <= READ_SIZE && (|s| > READ_SIZE ==> |big| == READ_SIZE)
            && (|s| <= READ_SIZE ==> big == s)
  {
    var m := Min(|s|, READ_SIZE);
    big, rest := s[..m], s[m..];
  }

  lemma ThenThrows(p: Parser, b: string, big: string, rest: string, hostOk: string -> bool)
    requires p.head.state == HEADERS && p.buffer == b && |b| + |big| > MAX_HEADER_SIZE
    ensures FeedAll(p, [big] + Singles(rest), hostOk).head.threw
  {
    HeadersStep(p, big, hostOk);
    hide Feed;
    assert ([big] + Singles(rest))[1..] == Singles(rest);
    ThrownStays(Feed(p, big, hostOk), Singles(rest), hostOk);
  }

  /** Byte by byte nothing is thrown before the limit. */
  lemma SinglesDoNotThrow(whole: string, hostOk: string -> bool)
    requires NearLimit(whole, READ_SIZE)
    ensures !FeedAll(FRESH_PARSER, Singles(whole), hostOk).head.threw
  {
    var pos, a, late := NearLimitParts(whole);
    var b := a[pos + 2..];
    LineKeeps(FreshHead(), a[..pos]);
    LineIsTaken(a[..pos], "");
    assert !LineTaken(a[..pos], "").head.threw by { hide ParseSL; }
    assert IdealLine(FRESH_PARSER, whole, hostOk) == IdealHeaders(LineTaken(a[..pos], ""), b + late, hostOk) by {
      hide Find, ParseSL, IdealHeaders, IdealLine;
      LineOfWhole(FRESH_PARSER, a, late, pos, 1, hostOk);
    }
    hide *;
    SinglesReach(whole, hostOk);
    BlockDoesNotThrow(LineTaken(a[..pos], ""), b + late, hostOk);
    CoreThrew(FeedAll(FRESH_PARSER, Singles(whole), hostOk));
  }

  lemma BlockDoesNotThrow(p: Parser, tail: string, hostOk: string -> bool)
    requires p.head.state == HEADERS && !p.head.threw && FindBlockEnd(tail).EndAt?
    requires FindBlockEnd(tail).pos + FindBlockEnd(tail).skip <= MAX_HEADER_SIZE
    ensures !IdealHeaders(p, tail, hostOk).head.threw
  {
    hide *;
    var e := FindBlockEnd(tail).pos + FindBlockEnd(tail).skip;
    BlockEndPrefix(tail, e);
    SmallBlock(p, tail[..e], hostOk);
    IdealOfBlock(p, tail, hostOk);
  }

  lemma IdealOfBlock(p: Parser, tail: string, hostOk: string -> bool)
    requires FindBlockEnd(tail).EndAt? && FindBlockEnd(tail).pos + FindBlockEnd(tail).skip <= MAX_HEADER_SIZE
    ensures var e := FindBlockEnd(tail).pos + FindBlockEnd(tail).skip;
            !DriveHeaders(p.(buffer := tail[..e]), hostOk).head.threw ==> !IdealHeaders(p, tail, hostOk).head.threw
  {
    hide FindBlockEnd, DriveHeaders;
  }

  lemma SmallBlock(p: Parser, block: string, hostOk: string -> bool)
    requires p.head.state == HEADERS && !p.head.threw && |block| <= MAX_HEADER_SIZE && FindBlockEnd(block).EndAt?
    ensures !DriveHeaders(p.(buffer := block), hostOk).head.threw
  {
    var end := FindBlockEnd(block);
    ParsedBlock(p, block, hostOk);
    HeaderKeeps(p.head, block[..end.pos], hostOk);
    hide FindBlockEnd, ParseHeader, Find, DriveHeaders;
  }

  /**
   * Where a parser ends does not depend on how the kernel cuts the stream into reads of up to 4096 bytes, exactly when
   * no header block ends in the last 4095 bytes before the limit with more than the limit behind the request line.
   */
  lemma ReadSizeIndependence(whole: string, hostOk: string -> bool)
    ensures (forall pieces :: ReadsUpTo(pieces, READ_SIZE) && Concat(pieces) == whole ==>
               Core(FeedAll(FRESH_PARSER, pieces, hostOk)) == Core(FeedAll(FRESH_PARSER, Singles(whole), hostOk)))
            <==> !NearLimit(whole, READ_SIZE)
  {
    hide FeedAll, Core, NearLimit, IdealLine, ReadsUpTo, Concat, Singles;
    if NearLimit(whole, READ_SIZE) {
      var pieces := LargeReadThrows(whole, hostOk);
      SinglesDoNotThrow(whole, hostOk);
      CoreThrew(FeedAll(FRESH_PARSER, pieces, hostOk));
      CoreThrew(FeedAll(FRESH_PARSER, Singles(whole), hostOk));
    } else {
      SinglesReach(whole, hostOk);
      forall pieces | ReadsUpTo(pieces, READ_SIZE) && Concat(pieces) == whole
        ensures Core(FeedAll(FRESH_PARSER, pieces, hostOk)) == Core(FeedAll(FRESH_PARSER, Singles(whole), hostOk))
      {
        FreshReach(pieces, READ_SIZE, hostOk);
      }
    }
  }

  // ---------------------------------------------------------------------------
  // A request that comes through or not
  // ---------------------------------------------------------------------------

  function Fill(n: nat): string { seq(n, _ => 'b') }

  /** A header line of 7898 bytes, which is within the limit for lines. */
  const LONG_LINE: string := "a:" + Fill(7896)

  function LongLines(n: nat): string {
    if n == 0 then "" else if n == 1 then LONG_LINE else LONG_LINE + CRLF + LongLines(n - 1)
  }

  const SHORT_REQUEST: string := "GET / HTTP/1.0"

  /** Eight such lines, and 1000 bytes behind the header block. */
  const LARGE_REQUEST: string := SHORT_REQUEST + CRLF + (LongLines(8) + BLANK_LINE + Fill(1000))

  lemma FillIs(n: nat)
    ensures |Fill(n)| == n && forall i :: 0 <= i < n ==> Fill(n)[i] == 'b'
  {}

  lemma LongLineIs()
    ensures |LONG_LINE| == 7898 && LONG_LINE[0] == 'a' && LONG_LINE[1] == ':' && LONG_LINE[2..] == Fill(7896)
    ensures forall i :: 2 <= i < 7898 ==> LONG_LINE[i] == 'b'
    ensures '\r' !in LONG_LINE
  {
    FillIs(7896);
    assert LONG_LINE[2..] == Fill(7896);
    forall i | 2 <= i < 7898 ensures LONG_LINE[i] == 'b' {
      assert LONG_LINE[i] == Fill(7896)[i - 2];
    }
  }

  lemma {:induction false} LongLinesLength(n: nat)
    requires n > 0
    ensures |LongLines(n)| == 7900 * n - 2 && LongLines(n)[0] == 'a'
    decreases n
  {
    LongLineIs();
    hide Fill;
    if n > 1 {
      LongLinesLength(n - 1);
    }
  }

  lemma {:induction false} BlankBehind(n: nat, rest: string)
    requires n > 0
    ensures Find(LongLines(n) + BLANK_LINE + rest, BLANK_LINE, 0) == Some(|LongLines(n)|)
    decreases n
  {
    LongLineIs();
    LongLinesLength(n);
    hide Fill, Find;
    if n == 1 {
      BlankAtOnce(LONG_LINE, rest);
    } else {
      var t := LongLines(n - 1) + BLANK_LINE + rest;
      LongLinesLength(n - 1);
      BlankBehind(n - 1, rest);
      assert LongLines(n) + BLANK_LINE + rest == LONG_LINE + CRLF + t;
      BlankBehindLine(LONG_LINE, t, |LongLines(n - 1)|);
    }
  }

  /** The request line. */
  lemma ShortRequestParses()
    ensures ParseSL(FreshHead(), SHORT_REQUEST) == FreshHead().(method_ := "GET", uri := "/", httpV := "HTTP/1.0")
  {
    var line, h := SHORT_REQUEST, FreshHead();
    ShortSpaces();
    RootParses(h.(method_ := "GET"));
    hide Find, ParseTarget, DropBlankLines;
  }

  lemma ShortSpaces()
    ensures var line := SHORT_REQUEST;
            && DropBlankLines(line) == line && Find(line, " ", 0) == Some(3) && Find(line, " ", 4) == Some(5)
            && line[..3] == "GET" && line[4..5] == "/" && line[6..] == "HTTP/1.0"
  {
    hide Find;
    ShortSlices();
    FindChar(SHORT_REQUEST, " ", 0, 3);
    FindChar(SHORT_REQUEST, " ", 4, 5);
  }

  lemma ShortSlices()
    ensures var line := SHORT_REQUEST;
            && |line| == 14 && line[3..4] == " " && line[5..6] == " " && line[..3] == "GET" && line[4..5] == "/"
            && line[6..] == "HTTP/1.0" && DropBlankLines(line) == line
  {
    var line := SHORT_REQUEST;
    assert line[0] == 'G' && line[3] == ' ' && line[4] == '/' && line[5] == ' ' && line[6] == 'H';
    assert line[..3] == "GET";
    assert line[3..4] == " " && line[4..5] == "/" && line[5..6] == " ";
    assert line[6..] == "HTTP/1.0";
  }

  lemma RootParses(h: Head)
    requires h.query == ""
    ensures ParseTarget(h, "/") == h.(uri := "/")
  {
    NoChar("/", "?", 0);
    assert DecodeURI("/") == Some("/") by {
      assert "/"[1..] == "" && ['/'] + "" == "/";
    }
    hide Find, DecodeURI;
  }

  /** One of the long lines, in front of another one or at the end. */
  lemma LongLineParses(front: string, behind: string)
    requires behind == "" || CRLF <= behind
    ensures NextLine(front + LONG_LINE + behind, |front|)
            == Line("a", Fill(7896), |front| + 7898 + if behind == "" then 0 else 2)
  {
    var s, i := front + LONG_LINE + behind, |front|;
    LongLineIs();
    LineChars(front, LONG_LINE, behind);
    hide Fill;
    assert s[i + 1..i + 2] == ":";
    FindChar(s, ":", i, i + 1);
    if behind == "" {
      NoChar(s, CRLF, i + 2);
    } else {
      assert s[i + 7898..i + 7900] == CRLF;
      FindChar(s, CRLF, i + 2, i + 7898);
    }
    hide Find;
    LineParts(front, behind);
  }

  lemma LineParts(front: string, behind: string)
    ensures var s, i := front + LONG_LINE + behind, |front|;
            && |s| == i + 7898 + |behind| && SkipWhitespace(s, i + 2) == i + 2
            && ToLower(s[i..i + 1]) == "a" && s[i + 2..i + 7898] == Fill(7896)
  {
    var s, i := front + LONG_LINE + behind, |front|;
    LongLineIs();
    LineChars(front, LONG_LINE, behind);
    hide Fill;
    assert s[i] == 'a' && s[i + 2] == 'b';
    assert s[i..i + 1] == "a" && ToLower("a") == "a";
    assert s[i + 2..i + 7898] == LONG_LINE[2..];
  }

  lemma LineChars(front: string, line: string, behind: string)
    ensures forall j {:trigger (front + line + behind)[j]} ::
              |front| <= j < |front| + |line| ==> (front + line + behind)[j] == line[j - |front|]
  {}

  lemma LongLineValid()
    ensures ValidHeader("a", Fill(7896))
  {
    FillIs(7896);
  }

  /** The lines of the block are parsed one by one, and the first one is kept. */
  lemma {:induction false} LongLinesParse(h: Head, front: string, n: nat)
    requires n > 0
    ensures ParseLines(h, front + LongLines(n), |front|) == h.(headers := Insert(h.headers, "a", Fill(7896)))
    decreases n
  {
    var cont := front + LongLines(n);
    var behind := if n == 1 then "" else CRLF + LongLines(n - 1);
    var h1 := h.(headers := Insert(h.headers, "a", Fill(7896)));
    LongLinesCut(front, n);
    LongLineParses(front, behind);
    hide Fill, NextLine, LongLines, ParseLines;
    LongLineTaken(h, cont, |front|);
    if n == 1 {
      NothingLeft(h1, cont);
    } else {
      LongLinesParse(h1, front + LONG_LINE + CRLF, n - 1);
    }
  }

  lemma LongLinesCut(front: string, n: nat)
    requires n > 0
    ensures var behind := if n == 1 then "" else CRLF + LongLines(n - 1);
            && front + LongLines(n) == front + LONG_LINE + behind
            && (n == 1 ==> |front + LongLines(n)| == |front| + 7898)
            && (n > 1 ==> |front + LONG_LINE + CRLF| == |front| + 7900
                          && front + LongLines(n) == front + LONG_LINE + CRLF + LongLines(n - 1))
  {
    LongLineIs();
    hide Fill;
  }

  lemma LongLineTaken(h: Head, cont: string, i: nat)
    requires i < |cont| && NextLine(cont, i).Line? && NextLine(cont, i).key == "a"
    requires NextLine(cont, i).value == Fill(7896)
    ensures ParseLines(h, cont, i)
            == ParseLines(h.(headers := Insert(h.headers, "a", Fill(7896))), cont, NextLine(cont, i).next)
  {
    LongLineValid();
    FillIs(7896);
    hide NextLine, Fill, ValidHeader;
  }

  lemma NothingLeft(h: Head, cont: string)
    ensures ParseLines(h, cont, |cont|) == h
  {}

  /** The block is good: nothing in it concerns the server. */
  lemma LongLinesHeader(h: Head, hostOk: string -> bool)
    requires h == FreshHead().(state := HEADERS, method_ := "GET", uri := "/", httpV := "HTTP/1.0")
    ensures ParseHeader(h, LongLines(8), hostOk) == h.(headers := map["a" := Fill(7896)])
  {
    hide ParseLines, LongLines, Fill;
    assert "" + LongLines(8) == LongLines(8);
    LongLinesParse(h, "", 8);
  }

  lemma LargeRequestParts()
    ensures Find(LARGE_REQUEST, CRLF, 0) == Some(14) && LARGE_REQUEST[..14] == SHORT_REQUEST
    ensures var tail := LARGE_REQUEST[16..];
            && |tail| == 64202 && FindBlockEnd(tail) == EndAt(63198, 4) && tail[..63198] == LongLines(8)
  {
    var tail := LongLines(8) + BLANK_LINE + Fill(1000);
    FirstLine(SHORT_REQUEST, tail);
    LongLinesLength(8);
    BlankBehind(8, Fill(1000));
    FillIs(1000);
    hide LongLines, Fill, Find;
    assert LARGE_REQUEST == SHORT_REQUEST + CRLF + tail;
    assert tail[0] == LongLines(8)[0];
  }

  lemma LargeRequestIsNear()
    ensures NearLimit(LARGE_REQUEST, READ_SIZE)
  {
    LargeRequestParts();
    ShortRequestParses();
    hide Find, FindBlockEnd, ParseSL, LongLines, Fill;
  }

  /** Read byte by byte the request is complete; yet the kernel may cut it so that the parser throws. */
  lemma LargeRequestDepends(hostOk: string -> bool)
    ensures FeedAll(FRESH_PARSER, Singles(LARGE_REQUEST), hostOk).head.state == COMPLETE
    ensures exists pieces :: ReadsUpTo(pieces, READ_SIZE) && Concat(pieces) == LARGE_REQUEST
              && FeedAll(FRESH_PARSER, pieces, hostOk).head.threw
  {
    LargeRequestIsNear();
    LargeRequestCompletes(hostOk);
    hide *;
    var pieces := LargeReadThrows(LARGE_REQUEST, hostOk);
  }

  lemma LargeRequestCompletes(hostOk: string -> bool)
    ensures FeedAll(FRESH_PARSER, Singles(LARGE_REQUEST), hostOk).head.state == COMPLETE
  {
    hide Find, FindBlockEnd, ParseSL, LongLines, Fill, ParseHeader, FeedAll, Core, IdealLine, IdealHeaders;
    var tail := LARGE_REQUEST[16..];
    var h := ParseSL(FreshHead(), SHORT_REQUEST).(state := HEADERS);
    LargeRequestParts();
    ShortRequestParses();
    LongLinesHeader(h, hostOk);
    SinglesReach(LARGE_REQUEST, hostOk);
    IdealOfGood(FRESH_PARSER.(head := h), tail, 63198, hostOk);
    assert LARGE_REQUEST + "" == LARGE_REQUEST && tail + "" == tail;
    LineOfWhole(FRESH_PARSER, LARGE_REQUEST, "", 14, 1, hostOk);
    CoreState(FeedAll(FRESH_PARSER, Singles(LARGE_REQUEST), hostOk));
  }

  lemma CoreState(p: Parser)
    ensures Core(p).head.state == p.head.state
  {}

  lemma {:induction false} IdealOfGood(p: Parser, tail: string, n: nat, hostOk: string -> bool)
    requires FindBlockEnd(tail) == EndAt(n, 4) && n + 4 <= MAX_HEADER_SIZE
    requires var h := ParseHeader(p.head, tail[..n], hostOk);
             h.state != ERROR && h.contentLength == 0 && !h.chunked
    ensures IdealHeaders(p, tail, hostOk).head.state == COMPLETE
  {
    BlockEndPrefix(tail, n + 4);
    hide FindBlockEnd, ParseHeader, DriveHeaders;
    assert tail[..n + 4][..n] == tail[..n];
    ParsedBlock(p, tail[..n + 4], hostOk);
  }
}
