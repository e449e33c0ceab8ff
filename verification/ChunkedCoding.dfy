/** The chunked transfer coding (section 7.1 of RFC 9112) as this server reads and writes it. */
module ChunkedCoding {
  import opened Http
  import opened Text

  // ---------------------------------------------------------------------------
  // std::stoul(text, nullptr, 16)
  // ---------------------------------------------------------------------------

  /** None where std::stoul throws: no digit at all, or a value over 64 bits. A minus sign negates modulo 2^64. */
  function StoulHex(line: string): (r: Option<nat>)
    ensures r.Some? ==> r.value < TWO_64
  {
    var s := SkipSpace(line);
    var digits := HexPrefix(DropPrefix(DropSign(s)));
    if digits == "" || HexValue(digits) >= TWO_64 then None
    else if s[0] == '-' then Some((TWO_64 - HexValue(digits)) % TWO_64)
    else Some(HexValue(digits))
  }

  predicate AllHex(s: string) { forall i :: 0 <= i < |s| ==> HexVal(s[i]).Some? }

  /** An "x" behind a zero belongs to a prefix when a digit follows it. */
  predicate IsPrefixTail(s: string) { |s| >= 2 && (s[0] == 'x' || s[0] == 'X') && HexVal(s[1]).Some? }

  /**
   * A line in the parts that std::stoul distinguishes: blanks, a sign, the prefix "0x", the digits, and text behind
   * them. Without digits there is no number.
   */
  datatype SizeText = SizeText(blanks: string, sign: string, prefix: string, digits: string, rest: string) {
    function Text(): string { blanks + (sign + (prefix + (digits + rest))) }

    predicate Ok() {
      && (forall i :: 0 <= i < |blanks| ==> IsSpace(blanks[i])) && sign in {"", "+", "-"} && prefix in {"", "0x", "0X"}
      && AllHex(digits) && (rest != "" ==> HexVal(rest[0]).None?)
      && (prefix != "" ==> digits != "")
      && (prefix == "" && digits == "0" ==> !IsPrefixTail(rest))
      && (digits == "" && sign == "" ==> rest == "" || (!IsSpace(rest[0]) && rest[0] != '-' && rest[0] != '+'))
    }
  }

  lemma {:induction false} SkipBlanks(blanks: string, s: string)
    requires forall i :: 0 <= i < |blanks| ==> IsSpace(blanks[i])
    requires s == "" || !IsSpace(s[0])
    ensures SkipSpace(blanks + s) == s
    decreases |blanks|
  {
    if blanks == "" {
      assert blanks + s == s;
    } else {
      assert (blanks + s)[1..] == blanks[1..] + s;
      SkipBlanks(blanks[1..], s);
    }
  }

  lemma {:induction false} HexPrefixOf(digits: string, rest: string)
    requires AllHex(digits) && (rest != "" ==> HexVal(rest[0]).None?)
    ensures HexPrefix(digits + rest) == digits
    decreases |digits|
  {
    if digits == "" {
      assert digits + rest == rest;
    } else {
      assert (digits + rest)[1..] == digits[1..] + rest;
      HexPrefixOf(digits[1..], rest);
      assert [digits[0]] + digits[1..] == digits;
    }
  }

  lemma NotDigits()
    ensures HexVal('x') == HexVal('X') == HexVal('-') == HexVal('+') == None && HexVal('0').Some?
    ensures forall c {:trigger IsSpace(c)} :: IsSpace(c) ==> HexVal(c) == None
  {}

  lemma NoPrefix(digits: string, rest: string)
    requires AllHex(digits) && (rest != "" ==> HexVal(rest[0]).None?) && (digits == "0" ==> !IsPrefixTail(rest))
    ensures DropPrefix(digits + rest) == digits + rest
  {
    NotDigits();
    hide HexVal;
    var s := digits + rest;
    if |s| >= 3 {
      if |digits| == 0 {
        assert s[0] == rest[0];
      } else if |digits| == 1 {
        assert s[1] == rest[0] && s[2] == rest[1];
        assert digits == [s[0]];
      } else {
        assert s[1] == digits[1];
      }
    }
  }

  lemma PrefixDropped(prefix: string, digits: string, rest: string)
    requires prefix in {"0x", "0X"} && AllHex(digits) && digits != ""
    ensures DropPrefix(prefix + (digits + rest)) == digits + rest
  {
    hide HexVal;
    var s := prefix + (digits + rest);
    assert s[0] == prefix[0] && s[1] == prefix[1] && s[2] == digits[0];
    assert s[2..] == digits + rest;
  }

  lemma SignDropped(l: SizeText)
    requires l.Ok()
    ensures var s := l.sign + (l.prefix + (l.digits + l.rest));
            && (s == "" || !IsSpace(s[0])) && (l.sign == "-" <==> s != "" && s[0] == '-')
            && DropSign(s) == l.prefix + (l.digits + l.rest)
  {
    var s := l.sign + (l.prefix + (l.digits + l.rest));
    if l.sign == "" {
      assert s == l.prefix + (l.digits + l.rest);
      assert l.prefix == "" ==> s == l.digits + l.rest;
      assert l.prefix == "" && l.digits == "" ==> s == l.rest;
    } else {
      assert s[1..] == l.prefix + (l.digits + l.rest);
    }
  }

  /** What is left after each stage of the reading. */
  lemma {:induction false} Stages(l: SizeText)
    requires l.Ok()
    ensures var s := l.sign + (l.prefix + (l.digits + l.rest));
            && SkipSpace(l.Text()) == s && (l.sign == "-" <==> s != "" && s[0] == '-')
            && HexPrefix(DropPrefix(DropSign(s))) == l.digits
  {
    hide SkipSpace, HexPrefix, DropPrefix, DropSign;
    SignDropped(l);
    SkipBlanks(l.blanks, l.sign + (l.prefix + (l.digits + l.rest)));
    HexPrefixOf(l.digits, l.rest);
    if l.prefix == "" {
      assert "" + (l.digits + l.rest) == l.digits + l.rest;
      NoPrefix(l.digits, l.rest);
    } else {
      PrefixDropped(l.prefix, l.digits, l.rest);
    }
  }

  /** std::stoul reads the digits and nothing else, and throws exactly without digits or beyond 64 bits. */
  lemma {:induction false} StoulReads(l: SizeText)
    requires l.Ok()
    ensures StoulHex(l.Text()) ==
            if l.digits == "" || HexValue(l.digits) >= TWO_64 then None
            else if l.sign == "-" then Some((TWO_64 - HexValue(l.digits)) % TWO_64)
            else Some(HexValue(l.digits))
  {
    hide SkipSpace, HexPrefix, HexValue, DropPrefix, DropSign, SizeText.Ok, SizeText.Text;
    Stages(l);
    DigitsNeedText(l);
  }

  lemma DigitsNeedText(l: SizeText)
    ensures l.digits != "" ==> l.sign + (l.prefix + (l.digits + l.rest)) != ""
  {}

  lemma {:induction false} SkipSplits(s: string) returns (blanks: string)
    ensures s == blanks + SkipSpace(s) && (forall i :: 0 <= i < |blanks| ==> IsSpace(blanks[i]))
    ensures SkipSpace(s) == "" || !IsSpace(SkipSpace(s)[0])
    decreases |s|
  {
    if s != "" && IsSpace(s[0]) {
      blanks := SkipSplits(s[1..]);
      assert s == [s[0]] + s[1..];
      blanks := [s[0]] + blanks;
    } else {
      blanks := "";
    }
  }

  lemma {:induction false} HexSplits(s: string) returns (rest: string)
    ensures s == HexPrefix(s) + rest && (rest != "" ==> HexVal(rest[0]).None?)
    decreases |s|
  {
    if s == "" || HexVal(s[0]).None? {
      rest := s;
    } else {
      rest := HexSplits(s[1..]);
      assert s == [s[0]] + s[1..];
    }
  }

  lemma SignSplits(s: string) returns (sign: string)
    ensures s == sign + DropSign(s) && sign in {"", "+", "-"}
    ensures sign == "" ==> s == "" || (s[0] != '-' && s[0] != '+')
  {
    sign := s[..|s| - |DropSign(s)|];
    assert sign == "" || sign == [s[0]];
  }

  lemma PrefixSplits(s: string) returns (prefix: string)
    ensures s == prefix + DropPrefix(s) && prefix in {"", "0x", "0X"}
    ensures prefix != "" ==> DropPrefix(s) != "" && HexVal(DropPrefix(s)[0]).Some?
    ensures prefix == "" ==> s == "" || s[0] != '0' || !IsPrefixTail(s[1..])
  {
    hide HexVal;
    prefix := s[..|s| - |DropPrefix(s)|];
    assert prefix == "" || prefix == [s[0], s[1]];
  }

  /** Every line has such parts. */
  lemma SizeTextOf(line: string) returns (l: SizeText)
    ensures l.Ok() && l.Text() == line
  {
    var blanks := SkipSplits(line);
    var s := SkipSpace(line);
    var sign := SignSplits(s);
    var unsigned := DropSign(s);
    var prefix := PrefixSplits(unsigned);
    var bare := DropPrefix(unsigned);
    var rest := HexSplits(bare);
    var digits := HexPrefix(bare);
    l := SizeText(blanks, sign, prefix, digits, rest);
    hide SkipSpace, DropSign, DropPrefix, HexVal, IsSpace;
    assert prefix != "" ==> digits != "" by {
      assert digits == "" ==> bare == rest;
    }
    assert prefix == "" && digits == "0" ==> !IsPrefixTail(rest) by {
      assert prefix == "" ==> unsigned == bare;
      assert digits == "0" ==> bare[0] == '0' && bare[1..] == rest;
    }
    assert digits == "" && sign == "" ==> s == prefix + rest && (prefix == "" ==> s == rest);
  }

  // ---------------------------------------------------------------------------
  // Decoding
  // ---------------------------------------------------------------------------

  datatype Decoded = Decoded(out: string, rest: string, state: ParseState)

  /** The size that makes the 64-bit sum `crlf + 2 + chunk_size` wrap round to the end of its own line. */
  const OVERRUN_SIZE: nat := TWO_64 - 2

  /**
   * What the head of a buffer allows: wait, fail, finish, or take one chunk of `size` bytes at `line + 2`. A size of
   * OVERRUN_SIZE is accepted too: the line break behind the size passes for the one behind the chunk, everything
   * buffered behind it is taken as the chunk, and only the line is removed.
   */
  datatype Step = Wait | Bad | Last(used: nat) | Chunk(line: nat, size: nat) | Overrun(line: nat)

  function NextStep(buf: string): (r: Step)
    ensures r.Last? ==> r.used <= |buf|
    ensures r.Chunk? ==> 0 < r.size && r.line + r.size + 4 <= |buf|
    ensures r.Overrun? ==> r.line + 2 <= |buf|
  {
    match Find(buf, CRLF, 0)
    case None => Wait
    case Some(line) =>
      match StoulHex(buf[..line])
      case None => Bad
      case Some(size) =>
        if size == 0 then
          if |buf| < line + 4 then Wait else Last(line + 4)
        else if line + 2 + size + 2 >= TWO_64 then
          if size == OVERRUN_SIZE then Overrun(line)
          else if |buf| < line + 2 + size + 2 - TWO_64 then Wait
          else Bad
        else if |buf| < line + 2 + size + 2 then Wait
        else if buf[line + 2 + size] != '\r' || buf[line + 2 + size + 1] != '\n' then Bad
        else Chunk(line, size)
  }

  /** The step takes data. */
  predicate Takes(buf: string) { NextStep(buf).Chunk? || NextStep(buf).Overrun? }

  function Taken(buf: string): (r: string)
    requires Takes(buf)
  {
    match NextStep(buf)
    case Chunk(line, size) => buf[line + 2..line + 2 + size]
    case Overrun(line) => buf[line + 2..]
  }

  function Behind(buf: string): (r: string)
    requires Takes(buf)
    ensures |r| < |buf|
  {
    match NextStep(buf)
    case Chunk(line, size) => buf[line + 2 + size + 2..]
    case Overrun(line) => buf[line + 2..]
  }

  /** Decode everything `buf` allows; on ERROR `out` still holds the chunks before the bad one. */
  function Decode(buf: string): (d: Decoded)
    ensures d.state in {BODY, COMPLETE, ERROR}
    decreases |buf|
  {
    match NextStep(buf)
    case Wait => Decoded("", buf, BODY)
    case Bad => Decoded("", buf, ERROR)
    case Last(used) => Decoded("", buf[used..], COMPLETE)
    case _ => Prepend(Taken(buf), Decode(Behind(buf)))
  }

  function Prepend(data: string, d: Decoded): Decoded { Decoded(data + d.out, d.rest, d.state) }

  /** The size line at the head of `buf` does not make the code look for a chunk's end in front of the buffer. */
  predicate HeadInBounds(buf: string) {
    match Find(buf, CRLF, 0)
    case None => true
    case Some(line) =>
      match StoulHex(buf[..line])
      case None => true
      case Some(size) => line + 2 + size + 2 < TWO_64 || TWO_64 <= line + 2 + size
  }

  /** Nor does any size line that decoding reaches, and the buffer is no longer than a string can be. */
  predicate InBounds(buf: string)
    decreases |buf|
  {
    |buf| <= MAX_STRING && HeadInBounds(buf) && (Takes(buf) ==> InBounds(Behind(buf)))
  }

  /** What the size lines that decoding accepts add up to. */
  function Announced(buf: string): nat
    decreases |buf|
  {
    match NextStep(buf)
    case Chunk(_, size) => size + Announced(Behind(buf))
    case Overrun(_) => OVERRUN_SIZE + Announced(Behind(buf))
    case _ => 0
  }

  /** Decoding comes to a size of OVERRUN_SIZE. */
  predicate MeetsOverrun(buf: string)
    decreases |buf|
  {
    match NextStep(buf)
    case Chunk(_, _) => MeetsOverrun(Behind(buf))
    case Overrun(_) => true
    case _ => false
  }

  /** Decoding comes to a size of OVERRUN_SIZE with bytes buffered behind it. */
  predicate Overruns(buf: string)
    decreases |buf|
  {
    match NextStep(buf)
    case Chunk(_, _) => Overruns(Behind(buf))
    case Overrun(_) => Behind(buf) != ""
    case _ => false
  }

  /** Otherwise the output is as long as the size lines say. */
  lemma {:induction false} AnnouncedIsLength(buf: string)
    requires !MeetsOverrun(buf)
    ensures Announced(buf) == |Decode(buf).out|
    decreases |buf|
  {
    hide NextStep, Behind;
    if Takes(buf) {
      AnnouncedIsLength(Behind(buf));
    }
  }

  // ---------------------------------------------------------------------------
  // Independence of input cuts
  // ---------------------------------------------------------------------------

  /** A step that can be taken stays the same when more bytes follow. */
  lemma StepExtend(a: string, b: string)
    requires !NextStep(a).Wait?
    ensures NextStep(a + b) == NextStep(a)
  {
    hide StoulHex, Find;
    FindExtend(a, b, CRLF, 0);
    var line := Find(a, CRLF, 0).value;
    assert (a + b)[..line] == a[..line];
  }

  /** A chunk is the same whatever follows it; an overrun takes all that follows. */
  lemma TakeExtend(a: string, b: string)
    requires Takes(a)
    ensures Takes(a + b) && Behind(a + b) == Behind(a) + b
    ensures Taken(a + b) == if NextStep(a).Overrun? then Taken(a) + b else Taken(a)
  {
    StepExtend(a, b);
    hide NextStep, Taken, Behind;
    match NextStep(a)
    case Chunk(line, size) => ChunkExtend(a, b, line, size);
    case Overrun(line) => OverrunExtend(a, b, line);
  }

  lemma ChunkExtend(a: string, b: string, line: nat, size: nat)
    requires NextStep(a) == NextStep(a + b) == Chunk(line, size)
    ensures Behind(a + b) == Behind(a) + b && Taken(a + b) == Taken(a)
  {
    hide *;
    ChunkParts(a, line, size);
    ChunkParts(a + b, line, size);
    SliceExtend(a, b, line + 2, line + 2 + size);
    TailExtend(a, b, line + 2 + size + 2);
  }

  lemma ChunkParts(buf: string, line: nat, size: nat)
    requires NextStep(buf) == Chunk(line, size)
    ensures line + 2 + size + 2 <= |buf| && Takes(buf)
    ensures Behind(buf) == buf[line + 2 + size + 2..] && Taken(buf) == buf[line + 2..line + 2 + size]
  {
    hide NextStep;
  }

  lemma OverrunExtend(a: string, b: string, line: nat)
    requires NextStep(a) == NextStep(a + b) == Overrun(line)
    ensures Behind(a + b) == Behind(a) + b && Taken(a + b) == Taken(a) + b
  {
    hide NextStep;
    TailExtend(a, b, line + 2);
  }

  /** What a second decoding makes of the first one's result when `b` arrives behind it. */
  function Continue(d: Decoded, b: string): Decoded {
    if d.state == BODY then Prepend(d.out, Decode(d.rest + b)) else Decoded(d.out, d.rest + b, d.state)
  }

  lemma ContinuePrepend(data: string, d: Decoded, b: string)
    ensures Continue(Prepend(data, d), b) == Prepend(data, Continue(d, b))
  {
    hide Decode;
    if d.state == BODY {
      var e := Decode(d.rest + b);
      assert (data + d.out) + e.out == data + (d.out + e.out);
    }
  }

  lemma DecodeTakes(buf: string)
    requires Takes(buf)
    ensures Decode(buf) == Prepend(Taken(buf), Decode(Behind(buf)))
    ensures Overruns(buf) <==> if NextStep(buf).Overrun? then Behind(buf) != "" else Overruns(Behind(buf))
  {
    hide NextStep;
  }

  lemma DecodeStops(a: string, b: string)
    requires !Takes(a) && (!NextStep(a).Wait? ==> NextStep(a + b) == NextStep(a))
    ensures Decode(a + b) == Continue(Decode(a), b) && (Decode(a).state == BODY ==> Decode(a).rest == a)
  {
    hide NextStep;
    match NextStep(a)
    case Wait => assert "" + Decode(a + b).out == Decode(a + b).out;
    case Last(used) => assert (a + b)[used..] == a[used..] + b;
    case _ =>
  }

  /**
   * Decoding `a` and then `b` behind its leftover consumes what decoding `a + b` does, and yields the same output
   * unless that overruns; after COMPLETE or ERROR `b` is left alone.
   */
  lemma {:induction false} DecodeExtend(a: string, b: string)
    ensures Decode(a + b).state == Continue(Decode(a), b).state && Decode(a + b).rest == Continue(Decode(a), b).rest
    ensures !Overruns(a + b) ==> Decode(a + b) == Continue(Decode(a), b)
    ensures !Overruns(a + b) && Decode(a).state == BODY ==> !Overruns(Decode(a).rest + b)
    decreases |a|
  {
    hide NextStep, Taken, Behind, Overruns, Decode;
    if Takes(a) {
      TakeExtend(a, b);
      DecodeTakes(a);
      DecodeTakes(a + b);
      DecodeExtend(Behind(a), b);
      ContinuePrepend(Taken(a), Decode(Behind(a)), b);
      StepExtend(a, b);
      if NextStep(a).Overrun? && !Overruns(a + b) {
        NothingBehind(a, b);
      }
    } else {
      if !NextStep(a).Wait? {
        StepExtend(a, b);
      }
      DecodeStops(a, b);
    }
  }

  /** An overrun with nothing behind it takes nothing. */
  lemma NothingBehind(a: string, b: string)
    requires NextStep(a).Overrun? && Behind(a) + b == ""
    ensures Taken(a) == "" && b == "" && !Overruns(Behind(a) + b)
  {
    hide StoulHex;
  }

  /** The decoder across calls: everything handed out so far, the buffered bytes, the last state. */
  datatype Stream = Stream(out: string, buf: string, state: ParseState)

  const FRESH: Stream := Stream("", "", BODY)

  /** One call of processChunkedBody: a call that ends in ERROR hands out nothing. */
  function Feed(s: Stream, piece: string): Stream {
    var d := Decode(s.buf + piece);
    Stream(s.out + if d.state == ERROR then "" else d.out, d.rest, d.state)
  }

  /** Feed pieces in order until COMPLETE or ERROR; also the pieces that were never fed. */
  function FeedAll(s: Stream, pieces: seq<string>): (Stream, seq<string>)
    decreases |pieces|
  {
    if pieces == [] || s.state != BODY then (s, pieces) else FeedAll(Feed(s, pieces[0]), pieces[1..])
  }

  lemma {:induction false} FeedAllIsDecode(s: Stream, pieces: seq<string>)
    requires s.state == BODY && Decode(s.buf) == Decoded("", s.buf, BODY)
    ensures var (r, unfed) := FeedAll(s, pieces);
            var all := s.buf + Concat(pieces);
            var d := Decode(all);
            && r.state == d.state
            && r.buf + Concat(unfed) == d.rest
            && (r.state == BODY ==> unfed == [])
            && (!Overruns(all) && r.state == ERROR ==> r.out <= s.out + d.out)
            && (!Overruns(all) && r.state != ERROR ==> r.out == s.out + d.out)
    decreases |pieces|
  {
    hide Decode, Overruns;
    if pieces == [] {
      assert s.buf + Concat(pieces) == s.buf;
    } else {
      var head := s.buf + pieces[0];
      var tail := Concat(pieces[1..]);
      var next := Feed(s, pieces[0]);
      assert s.buf + Concat(pieces) == head + tail;
      DecodeExtend(head, tail);
      if next.state == BODY {
        RestIsStuck(head);
        FeedAllIsDecode(next, pieces[1..]);
      }
    }
  }

  /** A leftover in state BODY holds nothing more to decode. */
  lemma {:induction false} RestIsStuck(buf: string)
    requires Decode(buf).state == BODY
    ensures Decode(Decode(buf).rest) == Decoded("", Decode(buf).rest, BODY)
    decreases |buf|
  {
    hide NextStep, Behind, Taken;
    if Takes(buf) {
      RestIsStuck(Behind(buf));
    }
  }

  /** Pieces fed one by one give the state, the leftover and the output of a single call on all the bytes. */
  predicate SameAsWhole(pieces: seq<string>) {
    var (r, unfed) := FeedAll(FRESH, pieces);
    var whole := Feed(FRESH, Concat(pieces));
    r.state == whole.state && r.buf + Concat(unfed) == whole.buf && r.out == whole.out
  }

  /** Decoding comes to a bad size line, or to a chunk without its line end. */
  predicate MeetsBad(buf: string)
    decreases |buf|
  {
    NextStep(buf).Bad? || (Takes(buf) && MeetsBad(Behind(buf)))
  }

  /** Either the very first step fails, or decoding neither fails nor overruns. */
  predicate IsCutProof(buf: string) { NextStep(buf).Bad? || (!MeetsBad(buf) && !Overruns(buf)) }

  lemma {:induction false} BadIsError(buf: string)
    ensures MeetsBad(buf) <==> Decode(buf).state == ERROR
    ensures NextStep(buf).Bad? ==> Decode(buf).out == "" && !Overruns(buf)
    decreases |buf|
  {
    hide NextStep, Behind, Taken;
    if Takes(buf) {
      BadIsError(Behind(buf));
    }
  }

  /** State and leftover never depend on how the stream is cut into reads; nor does the output of a cut-proof stream. */
  lemma CutIndependence(pieces: seq<string>)
    ensures var (r, unfed) := FeedAll(FRESH, pieces);
            var whole := Feed(FRESH, Concat(pieces));
            && r.state == whole.state
            && r.buf + Concat(unfed) == whole.buf
            && (IsCutProof(Concat(pieces)) ==> SameAsWhole(pieces))
            && (!Overruns(Concat(pieces)) && r.state == ERROR ==>
                  whole.out == "" && r.out <= Decode(Concat(pieces)).out)
  {
    hide NextStep, MeetsBad, Overruns, Decode;
    assert FRESH.buf + Concat(pieces) == Concat(pieces);
    EmptyDecodes();
    FeedAllIsDecode(FRESH, pieces);
    BadIsError(Concat(pieces));
  }

  /** Where decoding overruns, there is a cut, behind the size line, that leaves the taken bytes out. */
  lemma {:induction false} OverrunCut(buf: string) returns (a: string, b: string)
    requires Overruns(buf)
    ensures buf == a + b && Decode(a).state == BODY && Decode(a).rest == ""
    ensures |Decode(a).out| + |Decode(b).out| < |Decode(buf).out|
    decreases |buf|
  {
    hide NextStep, Taken, Behind, Decode;
    if NextStep(buf).Overrun? {
      a, b := OverrunHere(buf);
    } else {
      ghost var c, d := OverrunCut(Behind(buf));
      a := ChunkBefore(buf, c, d);
      b := d;
    }
  }

  lemma OverrunHere(buf: string) returns (a: string, b: string)
    requires NextStep(buf).Overrun? && Behind(buf) != ""
    ensures buf == a + b && Decode(a) == Decoded("", "", BODY) && |Decode(b).out| < |Decode(buf).out|
  {
    b := Behind(buf);
    a := SplitBehind(buf);
    StepAlone(buf, a, b);
    DecodeTakes(buf);
    DecodeTakes(a);
    EmptyDecodes();
    hide NextStep, Taken, Behind, Decode;
  }

  /** The chunk at the head of `buf`, in front of a part of what is behind it. */
  lemma ChunkBefore(buf: string, c: string, d: string) returns (a: string)
    requires NextStep(buf).Chunk? && Behind(buf) == c + d
    ensures buf == a + d && Decode(a) == Prepend(Taken(buf), Decode(c))
    ensures Decode(buf) == Prepend(Taken(buf), Decode(c + d))
  {
    hide NextStep, Taken, Behind, Decode;
    var chunk := SplitBehind(buf);
    StepAlone(buf, chunk, Behind(buf));
    a := chunk + c;
    assert chunk + (c + d) == a + d;
    TakeExtend(chunk, c);
    StepExtend(chunk, c);
    DecodeTakes(a);
    DecodeTakes(buf);
    assert "" + c == c;
  }

  lemma SplitBehind(buf: string) returns (a: string)
    requires Takes(buf)
    ensures buf == a + Behind(buf)
  {
    a := buf[..|buf| - |Behind(buf)|];
    hide NextStep;
  }

  lemma EmptyDecodes()
    ensures Decode("") == Decoded("", "", BODY)
  {}

  /** The bytes that a step removes allow the same step. */
  lemma StepAlone(buf: string, a: string, tail: string)
    requires Takes(buf) && buf == a + tail && tail == Behind(buf)
    ensures NextStep(a) == NextStep(buf) && Behind(a) == ""
    ensures Taken(a) == if NextStep(buf).Overrun? then "" else Taken(buf)
    ensures NextStep(buf).Overrun? ==> Taken(buf) == tail
  {
    hide StoulHex, Find;
    var line := Find(buf, CRLF, 0).value;
    FindInPrefix(a, tail, CRLF, 0);
    assert a[..line] == buf[..line];
    if NextStep(buf).Chunk? {
      var size := NextStep(buf).size;
      assert a[line + 2..line + 2 + size] == buf[line + 2..line + 2 + size];
    }
  }

  lemma OverrunDiffers(whole: string) returns (pieces: seq<string>)
    requires Overruns(whole) && !MeetsBad(whole)
    ensures Concat(pieces) == whole && !SameAsWhole(pieces)
  {
    hide Decode, Overruns, FeedAll, Feed, Concat, MeetsBad;
    BadIsError(whole);
    var a, b := OverrunCut(whole);
    pieces := [a, b];
    TwoPieces(a, b);
    AfterCut(a, b);
    FreshFeed(whole);
    TwoCalls(a, b);
  }

  /** One byte behind an overrun's size line is taken as data, and still waits to be decoded. */
  lemma OneByteTaken(buf: string) returns (a: string, b: string)
    requires NextStep(buf).Overrun? && Behind(buf) != ""
    ensures buf == a + b && Decode(a).state == BODY && Decode(a).out != ""
  {
    hide NextStep, Taken, Behind, Decode;
    var head := SplitBehind(buf);
    StepAlone(buf, head, Behind(buf));
    var byte := Behind(buf)[..1];
    a, b := head + byte, Behind(buf)[1..];
    assert byte + b == Behind(buf) && head + (byte + b) == a + b;
    StepExtend(head, byte);
    TakeExtend(head, byte);
    assert "" + byte == byte;
    DecodeTakes(a);
    OneByteWaits(byte);
    assert Decode(a) == Prepend(byte, Decode(byte));
  }

  lemma OneByteWaits(byte: string)
    requires |byte| == 1
    ensures Decode(byte) == Decoded("", byte, BODY)
  {}

  /** A step that takes data can be cut off from what is behind it, so that a call of its own hands the data out. */
  lemma FirstTaken(buf: string) returns (a: string, b: string)
    requires Takes(buf) && MeetsBad(buf)
    ensures buf == a + b && Decode(a).state == BODY && Decode(a).out != ""
  {
    hide NextStep, Taken, Behind, Decode, MeetsBad;
    if NextStep(buf).Overrun? {
      BadIsBehind(buf);
      a, b := OneByteTaken(buf);
    } else {
      a := SplitBehind(buf);
      b := Behind(buf);
      StepAlone(buf, a, b);
      DecodeTakes(a);
      EmptyDecodes();
      assert Decode(a) == Prepend(Taken(buf), Decode(""));
      ChunkNotEmpty(buf);
    }
  }

  lemma BadIsBehind(buf: string)
    requires Takes(buf) && MeetsBad(buf)
    ensures Behind(buf) != ""
  {
    hide NextStep, Behind, Decode;
    BadIsError("");
    EmptyDecodes();
    assert MeetsBad(Behind(buf));
  }

  lemma ChunkNotEmpty(buf: string)
    requires NextStep(buf).Chunk?
    ensures Taken(buf) != ""
  {
    hide NextStep;
  }

  /** A call that ends in ERROR hands out nothing, but what earlier calls have handed out stays. */
  lemma ErrorDiffers(whole: string) returns (pieces: seq<string>)
    requires MeetsBad(whole) && !NextStep(whole).Bad?
    ensures Concat(pieces) == whole && !SameAsWhole(pieces)
  {
    hide Decode, FeedAll, Feed, Concat, MeetsBad, NextStep;
    TakesOrBad(whole);
    BadIsError(whole);
    var a, b := FirstTaken(whole);
    pieces := [a, b];
    TwoPieces(a, b);
    FailedFeed(whole);
    TwoCallsKeep(a, b);
  }

  lemma TakesOrBad(buf: string)
    requires MeetsBad(buf) && !NextStep(buf).Bad?
    ensures Takes(buf)
  {}

  lemma FailedFeed(whole: string)
    requires Decode(whole).state == ERROR
    ensures Feed(FRESH, whole).out == ""
  {
    hide Decode;
    assert FRESH.buf + whole == whole;
  }

  lemma TwoCallsKeep(a: string, b: string)
    requires Decode(a).state == BODY && Decode(a).out != ""
    ensures FeedAll(FRESH, [a, b]).0.out != ""
  {
    hide Decode;
    assert FRESH.buf + a == a;
    assert [a, b][1..] == [b] && [b][1..] == [];
    var s := Feed(FRESH, a);
    assert FeedAll(s, [b]).0 == Feed(s, b);
  }

  lemma AfterCut(a: string, b: string)
    requires Decode(a).state == BODY && Decode(a).rest == ""
    ensures Decode(a + b).state == Decode(b).state
  {
    DecodeExtend(a, b);
    hide Decode, Overruns;
    assert "" + b == b;
  }

  lemma TwoCalls(a: string, b: string)
    requires Decode(a).state == BODY && Decode(a).rest == "" && Decode(b).state != ERROR
    ensures |FeedAll(FRESH, [a, b]).0.out| == |Decode(a).out| + |Decode(b).out|
  {
    hide Decode;
    assert FRESH.buf + a == a && "" + b == b;
    assert [a, b][1..] == [b] && [b][1..] == [];
    var s := Feed(FRESH, a);
    assert FeedAll(s, [b]).0 == Feed(s, b);
  }

  /** All cuttings agree in state, leftover and output, exactly for the cut-proof streams. */
  lemma CutIndependenceExactly(whole: string)
    ensures (forall pieces :: Concat(pieces) == whole ==> SameAsWhole(pieces)) <==> IsCutProof(whole)
  {
    hide Decode, Overruns, FeedAll, Feed, Concat, MeetsBad, NextStep;
    if IsCutProof(whole) {
      forall pieces | Concat(pieces) == whole ensures SameAsWhole(pieces) {
        CutIndependence(pieces);
      }
    } else {
      var pieces;
      if MeetsBad(whole) {
        pieces := ErrorDiffers(whole);
      } else {
        pieces := OverrunDiffers(whole);
      }
      assert Concat(pieces) == whole && !SameAsWhole(pieces);
    }
  }

  /** A stream that overruns: the size is a negated 2. */
  lemma OverrunHappens(data: string)
    requires data != "" && Find(data, CRLF, 0) == None
    ensures Overruns("-2" + CRLF + data) && Decode("-2" + CRLF + data) == Decoded(data, data, BODY)
  {
    var buf := "-2" + CRLF + data;
    FirstLine("-2", data);
    assert HexPrefix("2") == "2" && HexValue("2") == 2;
    assert StoulHex("-2") == Some(OVERRUN_SIZE);
    assert buf[4..] == data;
    hide StoulHex, Find;
    assert data + "" == data;
  }

  lemma FreshFeed(whole: string)
    ensures var d := Decode(whole);
            Feed(FRESH, whole).state == d.state && (d.state != ERROR ==> Feed(FRESH, whole).out == d.out)
  {
    hide Decode;
    assert FRESH.buf + whole == whole;
  }

  // ---------------------------------------------------------------------------
  // Encoding
  // ---------------------------------------------------------------------------

  function HexDigit(d: nat): (c: char)
    requires d < 16
    ensures HexVal(c) == Some(d) && !IsSpace(c) && c != '-' && c != '+' && c != 'x' && c != 'X' && c != '\r'
  {
    if d < 10 then ('0' as int + d) as char else ('a' as int + d - 10) as char
  }

  /** `std::hex << n` */
  function Hex(n: nat): (s: string)
    ensures s != ""
    ensures forall i :: 0 <= i < |s| ==>
      HexVal(s[i]).Some? && !IsSpace(s[i]) && s[i] != '-' && s[i] != '+' && s[i] != 'x' && s[i] != 'X' && s[i] != '\r'
    ensures HexValue(s) == n
  {
    if n < 16 then
      var s := [HexDigit(n)];
      assert s[..|s| - 1] == "";
      s
    else
      var s := Hex(n / 16) + [HexDigit(n % 16)];
      assert s[..|s| - 1] == Hex(n / 16);
      s
  }

  /** The chunk form in which forwardBody queues a data block. */
  function EncodeChunk(data: string): string { Hex(|data|) + CRLF + data + CRLF }

  /** finalizeChunk's terminator. */
  const TERMINATOR: string := "0\r\n\r\n"

  function EncodeAll(blocks: seq<string>): string {
    if blocks == [] then TERMINATOR else EncodeChunk(blocks[0]) + EncodeAll(blocks[1..])
  }

  lemma {:induction false} HexIsShort(n: nat)
    ensures |Hex(n)| <= n / 16 + 2
    decreases n
  {
    if n >= 16 {
      HexIsShort(n / 16);
    }
  }

  lemma {:induction false} HexPrefixAll(s: string)
    requires forall i :: 0 <= i < |s| ==> HexVal(s[i]).Some?
    ensures HexPrefix(s) == s
  {
    if s != "" {
      HexPrefixAll(s[1..]);
    }
  }

  lemma StoulReadsHex(n: nat)
    requires n < TWO_64
    ensures StoulHex(Hex(n)) == Some(n)
  {
    var s := Hex(n);
    assert SkipSpace(s) == s && DropSign(s) == s && DropPrefix(s) == s;
    HexPrefixAll(s);
  }

  /** A buffer that starts with a size line written by the encoder is read as that size. */
  lemma SizeLine(n: nat, tail: string)
    requires n < TWO_64
    ensures var buf := Hex(n) + CRLF + tail;
            Find(buf, CRLF, 0) == Some(|Hex(n)|) && StoulHex(buf[..|Hex(n)|]) == Some(n)
  {
    StoulReadsHex(n);
    FirstLine(Hex(n), tail);
  }

  lemma StepOfChunk(data: string, tail: string)
    requires 0 < |data| <= MAX_STRING
    ensures NextStep(EncodeChunk(data) + tail) == Chunk(|Hex(|data|)|, |data|)
  {
    hide StoulHex, Find, Hex;
    var size := Hex(|data|);
    var buf := EncodeChunk(data) + tail;
    assert buf == size + CRLF + (data + CRLF + tail);
    SizeLine(|data|, data + CRLF + tail);
    HexIsShort(|data|);
    assert buf[|size| + 2 + |data|] == CRLF[0];
    assert buf[|size| + 2 + |data| + 1] == CRLF[1];
  }

  lemma DecodeChunk(data: string, tail: string)
    requires 0 < |data| <= MAX_STRING
    ensures Decode(EncodeChunk(data) + tail) == Prepend(data, Decode(tail))
    ensures Overruns(EncodeChunk(data) + tail) <==> Overruns(tail)
  {
    hide NextStep, Hex, Decode, Overruns;
    var buf := EncodeChunk(data) + tail;
    var k := |Hex(|data|)|;
    StepOfChunk(data, tail);
    DecodeTakes(buf);
    assert buf[k + 2..k + 2 + |data|] == data;
    assert buf[k + 2 + |data| + 2..] == tail;
  }

  /** A size line and what is behind it: the data may still be on its way, and has to be followed by a line break. */
  lemma {:induction false} DecodeSized(n: nat, rest: string)
    requires 0 < n <= MAX_STRING
    ensures var buf := Hex(n) + CRLF + rest;
            Decode(buf) ==
            if |rest| < n + 2 then Decoded("", buf, BODY)
            else if rest[n..n + 2] != CRLF then Decoded("", buf, ERROR)
            else Prepend(rest[..n], Decode(rest[n + 2..]))
  {
    hide StoulHex, Find, Hex, Decode;
    var size, buf := Hex(n), Hex(n) + CRLF + rest;
    SizeLine(n, rest);
    HexIsShort(n);
    if |rest| >= n + 2 {
      SizedParts(size, n, rest);
    }
    StepDecodes(buf);
  }

  lemma SizedParts(size: string, n: nat, rest: string)
    requires n + 2 <= |rest|
    ensures var buf, at := size + CRLF + rest, |size| + 2 + n;
            && at + 2 <= |buf| && buf[at] == rest[n] && buf[at + 1] == rest[n + 1] && buf[at + 2..] == rest[n + 2..]
            && buf[|size| + 2..at] == rest[..n] && (rest[n..n + 2] == CRLF <==> rest[n] == '\r' && rest[n + 1] == '\n')
  {
    assert rest[n..n + 2] == [rest[n], rest[n + 1]];
  }

  lemma StepDecodes(buf: string)
    ensures NextStep(buf).Wait? ==> Decode(buf) == Decoded("", buf, BODY)
    ensures NextStep(buf).Bad? ==> Decode(buf) == Decoded("", buf, ERROR)
    ensures NextStep(buf).Last? ==> Decode(buf) == Decoded("", buf[NextStep(buf).used..], COMPLETE)
    ensures Takes(buf) ==> Decode(buf) == Prepend(Taken(buf), Decode(Behind(buf)))
  {
    hide NextStep, Taken, Behind;
  }

  /** The size 0 ends the body; the two bytes behind its line are taken with it, whatever they are. */
  lemma {:induction false} DecodeLast(rest: string)
    ensures var buf := "0" + CRLF + rest;
            Decode(buf) == if |rest| < 2 then Decoded("", buf, BODY) else Decoded("", rest[2..], COMPLETE)
  {
    hide StoulHex, Find, Decode;
    var buf := "0" + CRLF + rest;
    assert Hex(0) == "0";
    SizeLine(0, rest);
    assert |rest| >= 2 ==> buf[5..] == rest[2..];
    StepDecodes(buf);
  }

  /** A line that is no size ends in error, and nothing is decoded before a line is complete. */
  lemma {:induction false} DecodeLine(line: string, rest: string)
    requires '\r' !in line
    ensures StoulHex(line) == None ==> Decode(line + CRLF + rest) == Decoded("", line + CRLF + rest, ERROR)
    ensures Decode(line) == Decoded("", line, BODY)
  {
    hide StoulHex, Find, Decode;
    FirstLine(line, rest);
    NoChar(line, CRLF, 0);
    StepDecodes(line + CRLF + rest);
    StepDecodes(line);
  }

  /** A stream in error whose output depends on the cutting: a chunk, and a line that is no size behind it. */
  lemma ErrorBehindChunk(data: string)
    requires 0 < |data| <= MAX_STRING
    ensures var pieces := [EncodeChunk(data), "zz" + CRLF];
            && FeedAll(FRESH, pieces).0.out == data && FeedAll(FRESH, pieces).0.state == ERROR
            && Feed(FRESH, Concat(pieces)).out == "" && Feed(FRESH, Concat(pieces)).state == ERROR
  {
    hide Hex, Decode, NextStep, EncodeChunk;
    var a, b := EncodeChunk(data), "zz" + CRLF;
    DecodeChunk(data, "");
    DecodeChunk(data, b);
    EmptyDecodes();
    NoSize();
    TwoPieces(a, b);
    assert a + "" == a && data + "" == data && FRESH.buf + a == a && "" + b == b && FRESH.buf + (a + b) == a + b;
    assert [a, b][1..] == [b] && [b][1..] == [];
    var s := Feed(FRESH, a);
    assert FeedAll(s, [b]).0 == Feed(s, b);
  }

  lemma NoSize()
    ensures Decode("zz" + CRLF) == Decoded("", "zz" + CRLF, ERROR)
  {
    FirstLine("zz", "");
    assert "zz" + CRLF + "" == "zz" + CRLF;
    assert ("zz" + CRLF)[..2] == "zz";
    assert StoulHex("zz") == None;
  }

  lemma DecodeTerminator(tail: string)
    ensures Decode(TERMINATOR + tail) == Decoded("", tail, COMPLETE) && !Overruns(TERMINATOR + tail)
  {
    assert Hex(0) == "0";
    assert TERMINATOR + tail == Hex(0) + CRLF + (CRLF + tail);
    SizeLine(0, CRLF + tail);
    assert (TERMINATOR + tail)[5..] == tail;
  }

  /** An empty block is written as the terminator: what comes behind it is never decoded. */
  lemma DecodeEmptyChunk(tail: string)
    ensures Decode(EncodeChunk("") + tail) == Decoded("", tail, COMPLETE) && !Overruns(EncodeChunk("") + tail)
  {
    assert Hex(0) == "0";
    assert EncodeChunk("") == TERMINATOR;
    DecodeTerminator(tail);
  }

  lemma {:induction false} DecodeEncodeAll(blocks: seq<string>)
    requires forall b :: b in blocks ==> |b| <= MAX_STRING
    ensures "" !in blocks ==> Decode(EncodeAll(blocks)) == Decoded(Concat(blocks), "", COMPLETE)
    ensures "" in blocks ==> Decode(EncodeAll(blocks)).rest != ""
    ensures !Overruns(EncodeAll(blocks))
    decreases |blocks|
  {
    hide Decode, Hex, Overruns;
    if blocks == [] {
      DecodeTerminator("");
      assert TERMINATOR + "" == TERMINATOR;
    } else {
      var tail := EncodeAll(blocks[1..]);
      if blocks[0] == "" {
        DecodeEmptyChunk(tail);
        assert tail != "";
      } else {
        DecodeChunk(blocks[0], tail);
        assert blocks == [blocks[0]] + blocks[1..];
        DecodeEncodeAll(blocks[1..]);
      }
    }
  }

  /** Encoding blocks and decoding the bytes under any cut gives the blocks back, exactly when no block is empty. */
  lemma RoundTrip(blocks: seq<string>, pieces: seq<string>)
    requires forall b :: b in blocks ==> |b| <= MAX_STRING
    requires Concat(pieces) == EncodeAll(blocks)
    ensures var (r, unfed) := FeedAll(FRESH, pieces);
            (r == Stream(Concat(blocks), "", COMPLETE) && Concat(unfed) == "") <==> "" !in blocks
  {
    DecodeEncodeAll(blocks);
    assert FRESH.buf + Concat(pieces) == Concat(pieces);
    FeedAllIsDecode(FRESH, pieces);
  }
}
