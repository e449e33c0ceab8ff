/** Relaying a CGI script's output: header block first, then bytes, read by read. */
module CgiOutput {
  import opened Text

  const MAX_HEADER_BLOCK: nat := 64000

  type Headers = map<string, string>

  // ---------------------------------------------------------------------------
  // The header block
  // ---------------------------------------------------------------------------

  function DropLeadingBlanks(s: string): string {
    if s != "" && (s[0] == ' ' || s[0] == '\t') then DropLeadingBlanks(s[1..]) else s
  }

  function DropCR(line: string): string {
    if line != "" && line[|line| - 1] == '\r' then line[..|line| - 1] else line
  }

  /**
   * The lines of a block as std::getline yields them; None once a line has no colon. Later lines override earlier ones.
   */
  function ParseLines(block: string, headers: Headers): Option<Headers>
    decreases |block|
  {
    if block == "" then Some(headers)
    else
      var nl := Find(block, "\n", 0);
      var line := DropCR(if nl.Some? then block[..nl.value] else block);
      var rest := if nl.Some? then block[nl.value + 1..] else "";
      if line == "" then ParseLines(rest, headers)
      else
        var colon := Find(line, ":", 0);
        if colon == None then None
        else ParseLines(rest, headers[ToLower(line[..colon.value]) := DropLeadingBlanks(line[colon.value + 1..])])
  }

  function ParseBlock(block: string): Option<Headers> { ParseLines(block, map[]) }

  /** The loop that reads the header lines. */
  method ReadHeaderLines(block: string) returns (ok: bool, headers: Headers)
    ensures ok <==> ParseBlock(block).Some?
    ensures ok ==> ParseBlock(block) == Some(headers)
  {
    hide DropCR, DropLeadingBlanks, ToLower;
    headers := map[];
    var rest := block;
    while rest != ""
      invariant ParseLines(rest, headers) == ParseBlock(block)
      decreases |rest|
    {
      var nl := Find(rest, "\n", 0);
      var line := DropCR(if nl.Some? then rest[..nl.value] else rest);
      rest := if nl.Some? then rest[nl.value + 1..] else "";
      if line == "" {
        continue;
      }
      var colon := Find(line, ":", 0);
      if colon == None {
        return false, headers;
      }
      headers := headers[ToLower(line[..colon.value]) := DropLeadingBlanks(line[colon.value + 1..])];
    }
    ok := true;
  }

  // ---------------------------------------------------------------------------
  // What a header block means
  // ---------------------------------------------------------------------------

  /** A line of a header block by its parts, with the bytes that end it. */
  datatype HeaderLine =
    | Named(name: string, blanks: string, value: string, end: string)
    | Empty(end: string)
    | NoColon(text: string, end: string)

  function TextOf(line: HeaderLine): string {
    match line
    case Named(name, blanks, value, _) => name + ":" + (blanks + value)
    case Empty(_) => ""
    case NoColon(text, _) => text
  }

  /** The end is LF or CRLF, and the parts are as their names say. */
  predicate IsLine(line: HeaderLine) {
    var text := TextOf(line);
    && line.end in ["\n", "\r\n"] && '\n' !in text
    && (line.end == "\n" ==> text == "" || text[|text| - 1] != '\r')
    && match line
       case Named(name, blanks, value, _) =>
         && ':' !in name && (forall i :: 0 <= i < |blanks| ==> IsBlank(blanks[i]))
         && (value == "" || !IsBlank(value[0]))
       case Empty(_) => true
       case NoColon(_, _) => text != "" && ':' !in text
  }

  predicate AreLines(lines: seq<HeaderLine>) { forall i :: 0 <= i < |lines| ==> IsLine(lines[i]) }

  function Encode(lines: seq<HeaderLine>): string {
    if lines == [] then "" else TextOf(lines[0]) + lines[0].end + Encode(lines[1..])
  }

  predicate Names(line: HeaderLine, key: string) { line.Named? && ToLower(line.name) == key }

  predicate IsNamed(lines: seq<HeaderLine>, key: string) { exists i :: 0 <= i < |lines| && Names(lines[i], key) }

  /** The names are those of the lines and those known before, and the last line of a name gives its value. */
  ghost predicate LastValues(lines: seq<HeaderLine>, before: Headers, headers: Headers) {
    && (forall key :: key in headers <==> IsNamed(lines, key) || key in before)
    && (forall i, key :: 0 <= i < |lines| && Names(lines[i], key) && !IsNamed(lines[i + 1..], key) ==>
          key in headers && headers[key] == lines[i].value)
    && (forall key :: key in before && !IsNamed(lines, key) ==> key in headers && headers[key] == before[key])
  }

  predicate HasNoColon(lines: seq<HeaderLine>) { exists i :: 0 <= i < |lines| && lines[i].NoColon? }

  /** A block of lines is refused exactly if a line that is not empty has no colon; else it is the map of its fields. */
  lemma BlockMeans(lines: seq<HeaderLine>)
    requires AreLines(lines)
    ensures ParseBlock(Encode(lines)) == None <==> HasNoColon(lines)
    ensures ParseBlock(Encode(lines)).Some? ==> LastValues(lines, map[], ParseBlock(Encode(lines)).value)
  {
    LinesMean(lines, map[]);
  }

  lemma {:induction false} LinesMean(lines: seq<HeaderLine>, before: Headers)
    requires AreLines(lines)
    ensures var r := ParseLines(Encode(lines), before);
            (r == None <==> HasNoColon(lines)) && (r.Some? ==> LastValues(lines, before, r.value))
    decreases |lines|
  {
    hide ParseLines, IsLine, LastValues, TextOf;
    if lines == [] {
      NothingNamed(before);
    } else {
      var line, rest := lines[0], lines[1..];
      LineParses(line, Encode(rest), before);
      if !line.NoColon? {
        var next := if line.Named? then before[ToLower(line.name) := line.value] else before;
        LinesMean(rest, next);
        NoColonBehind(lines);
        var r := ParseLines(Encode(rest), next);
        if r.Some? {
          LastBehind(lines, before, r.value);
        }
      }
    }
  }

  lemma NothingNamed(before: Headers)
    ensures ParseLines("", before) == Some(before) && LastValues([], before, before)
  {}

  lemma NoColonBehind(lines: seq<HeaderLine>)
    requires lines != [] && !lines[0].NoColon?
    ensures HasNoColon(lines) <==> HasNoColon(lines[1..])
  {
    if HasNoColon(lines) {
      var i :| 0 <= i < |lines| && lines[i].NoColon?;
      assert lines[1..][i - 1].NoColon?;
    }
  }

  lemma NamedBehind(lines: seq<HeaderLine>, key: string)
    requires lines != []
    ensures IsNamed(lines, key) <==> Names(lines[0], key) || IsNamed(lines[1..], key)
  {
    hide Names;
    if IsNamed(lines, key) && !Names(lines[0], key) {
      var i :| 0 <= i < |lines| && Names(lines[i], key);
      assert Names(lines[1..][i - 1], key);
    }
  }

  lemma LastBehind(lines: seq<HeaderLine>, before: Headers, headers: Headers)
    requires lines != []
    requires var next := if lines[0].Named? then before[ToLower(lines[0].name) := lines[0].value] else before;
             LastValues(lines[1..], next, headers)
    ensures LastValues(lines, before, headers)
  {
    hide ToLower, IsNamed;
    var rest := lines[1..];
    forall key ensures IsNamed(lines, key) <==> Names(lines[0], key) || IsNamed(rest, key) {
      NamedBehind(lines, key);
    }
    forall i, key | 0 <= i < |lines| && Names(lines[i], key) && !IsNamed(lines[i + 1..], key)
      ensures key in headers && headers[key] == lines[i].value
    {
      if i > 0 {
        assert rest[i - 1] == lines[i] && rest[i..] == lines[i + 1..];
      }
    }
  }

  /** One line and what is behind it. */
  lemma LineParses(line: HeaderLine, rest: string, before: Headers)
    requires IsLine(line)
    ensures ParseLines(TextOf(line) + line.end + rest, before) ==
            match line
            case Named(name, _, value, _) => ParseLines(rest, before[ToLower(name) := value])
            case Empty(_) => ParseLines(rest, before)
            case NoColon(_, _) => None
  {
    hide Find, DropCR, DropLeadingBlanks, ToLower, TextOf;
    var text := TextOf(line);
    FindNewline(text, line.end, rest);
    match line
    case Named(name, blanks, value, _) =>
      FirstByte(name, ':', blanks + value);
      DropBlanks(blanks, value);
      NamedText(line);
    case Empty(_) => NamedText(line);
    case NoColon(_, _) =>
      NamedText(line);
      NoChar(text, ":", 0);
  }

  lemma NamedText(line: HeaderLine)
    ensures line.Named? ==> TextOf(line) == line.name + ":" + (line.blanks + line.value)
    ensures line.Empty? ==> TextOf(line) == ""
    ensures line.NoColon? ==> TextOf(line) == line.text
  {}

  /** getline takes the text of a line, its CR included, and drops the CR. */
  lemma FindNewline(text: string, end: string, rest: string)
    requires end in ["\n", "\r\n"] && '\n' !in text
    requires end == "\n" ==> text == "" || text[|text| - 1] != '\r'
    ensures var block := text + end + rest;
            var nl := Find(block, "\n", 0);
            && nl.Some? && DropCR(block[..nl.value]) == text && block[nl.value + 1..] == rest
  {
    hide Find;
    var block := text + end + rest;
    if end == "\n" {
      FirstByte(text, '\n', rest);
    } else {
      assert text + "\r" + "\n" + rest == block;
      FirstByte(text + "\r", '\n', rest);
      assert (text + "\r")[..|text|] == text;
    }
  }

  lemma {:induction false} DropBlanks(blanks: string, value: string)
    requires forall i :: 0 <= i < |blanks| ==> IsBlank(blanks[i])
    requires value == "" || !IsBlank(value[0])
    ensures DropLeadingBlanks(blanks + value) == value
  {
    if blanks == "" {
      assert blanks + value == value;
    } else {
      assert (blanks + value)[1..] == blanks[1..] + value;
      DropBlanks(blanks[1..], value);
    }
  }

  /** What a line and the lines behind it amount to. */
  function AfterLine(line: string, rest: string, headers: Headers): Option<Headers> {
    if line == "" then ParseLines(rest, headers)
    else
      var colon := Find(line, ":", 0);
      if colon == None then None
      else ParseLines(rest, headers[ToLower(line[..colon.value]) := DropLeadingBlanks(line[colon.value + 1..])])
  }

  lemma {:induction false} FirstLineOf(line: string, rest: string, headers: Headers)
    requires '\n' !in line
    ensures ParseLines(line + "\n" + rest, headers) == AfterLine(DropCR(line), rest, headers)
  {
    hide Find, DropCR, DropLeadingBlanks, ToLower;
    FirstByte(line, '\n', rest);
  }

  lemma {:induction false} OnlyLine(line: string, headers: Headers)
    requires '\n' !in line
    ensures ParseLines(line, headers) == AfterLine(DropCR(line), "", headers)
  {
    hide Find, DropLeadingBlanks, ToLower;
    NoChar(line, "\n", 0);
  }

  /** Whether the last line is ended does not matter. */
  lemma {:induction false} FinalNewline(block: string, headers: Headers)
    ensures ParseLines(block + "\n", headers) == ParseLines(block, headers)
    decreases |block|, 0
  {
    hide Find, ParseLines, DropCR, DropLeadingBlanks, ToLower;
    var nl := Find(block, "\n", 0);
    if nl == None {
      NoNewline(block);
      assert block + "\n" + "" == block + "\n";
      FirstLineOf(block, "", headers);
      OnlyLine(block, headers);
    } else {
      LineHasNoNewline(block);
      var line, rest := block[..nl.value], block[nl.value + 1..];
      assert block + "\n" == line + "\n" + (rest + "\n");
      FirstLineOf(line, rest, headers);
      FirstLineOf(line, rest + "\n", headers);
      AfterNewline(DropCR(line), rest, headers);
    }
  }

  lemma {:induction false} AfterNewline(line: string, rest: string, headers: Headers)
    ensures AfterLine(line, rest + "\n", headers) == AfterLine(line, rest, headers)
    decreases |rest|, 1
  {
    hide Find, ParseLines, DropLeadingBlanks, ToLower;
    var colon := Find(line, ":", 0);
    FinalNewline(rest, headers);
    if colon.Some? {
      FinalNewline(rest, headers[ToLower(line[..colon.value]) := DropLeadingBlanks(line[colon.value + 1..])]);
    }
  }

  /** Every block whose last line is ended is made of such lines, so that what every block means is known. */
  lemma {:induction false} LinesOf(block: string) returns (lines: seq<HeaderLine>)
    requires block == "" || block[|block| - 1] == '\n'
    ensures AreLines(lines) && Encode(lines) == block
    decreases |block|
  {
    hide Find, IsLine, TextOf;
    if block == "" {
      lines := [];
    } else {
      var line, rest := LineOf(block);
      var more := LinesOf(rest);
      lines := [line] + more;
      assert lines[1..] == more;
    }
  }

  lemma LineOf(block: string) returns (line: HeaderLine, rest: string)
    requires block != "" && block[|block| - 1] == '\n'
    ensures IsLine(line) && block == TextOf(line) + line.end + rest && |rest| < |block|
    ensures rest == "" || rest[|rest| - 1] == '\n'
  {
    hide Find;
    if Find(block, "\n", 0) == None {
      NoNewline(block);
      assert false;
    }
    LineHasNoNewline(block);
    var n := Find(block, "\n", 0).value;
    rest := block[n + 1..];
    var raw := block[..n];
    var cr := raw != "" && raw[n - 1] == '\r';
    var text := if cr then raw[..n - 1] else raw;
    line := WithEnd(text, if cr then "\r\n" else "\n");
    assert cr ==> raw == text + "\r";
    assert cr ==> raw + "\n" == text + "\r\n";
  }

  lemma WithEnd(text: string, end: string) returns (line: HeaderLine)
    requires end in ["\n", "\r\n"] && '\n' !in text
    requires end == "\n" ==> text == "" || text[|text| - 1] != '\r'
    ensures IsLine(line) && TextOf(line) == text && line.end == end
  {
    if text == "" {
      line := Empty(end);
    } else if ':' !in text {
      line := NoColon(text, end);
    } else {
      var i := ColonOf(text);
      var blanks, value := SplitBlanks(text[i + 1..]);
      line := Named(text[..i], blanks, value, end);
      assert text == text[..i] + ":" + text[i + 1..];
    }
  }

  lemma {:induction false} ColonOf(text: string) returns (i: nat)
    requires ':' in text
    ensures i < |text| && text[i] == ':' && ':' !in text[..i]
    decreases |text|
  {
    if text[0] == ':' {
      i := 0;
    } else {
      i := ColonOf(text[1..]);
      assert text[..i + 1] == [text[0]] + text[1..][..i];
      i := i + 1;
    }
  }

  lemma {:induction false} SplitBlanks(s: string) returns (blanks: string, value: string)
    ensures s == blanks + value && forall i :: 0 <= i < |blanks| ==> IsBlank(blanks[i])
    ensures value == "" || !IsBlank(value[0])
    decreases |s|
  {
    if s != "" && IsBlank(s[0]) {
      blanks, value := SplitBlanks(s[1..]);
      blanks := [s[0]] + blanks;
    } else {
      blanks, value := "", s;
    }
  }

  // ---------------------------------------------------------------------------
  // One read after the other
  // ---------------------------------------------------------------------------

  /** Still collecting the header block, passing bytes on, or given up with 502. */
  datatype Phase = Reading | Streaming | Failed

  /** What has been collected, what has been appended to the client's response, and the headers once they are known. */
  datatype Relay = Relay(phase: Phase, buffer: string, out: string, headers: Option<Headers>)

  const START: Relay := Collecting("")
  const REFUSED: Relay := Relay(Failed, "", "", None)

  function Collecting(buffer: string): Relay { Relay(Reading, buffer, "", None) }

  /** The effect of one read; `head` builds the response head from the parsed block. */
  function Take(r: Relay, data: string, head: Headers -> string): Relay {
    match r.phase
    case Failed => r
    case Streaming => r.(out := r.out + data)
    case Reading =>
      var buffer := r.buffer + data;
      if |buffer| > MAX_HEADER_BLOCK then REFUSED
      else
        match Find(buffer, BLANK_LINE, 0)
        case None => r.(buffer := buffer)
        case Some(pos) =>
          var headers := ParseBlock(buffer[..pos + 2]);
          if headers == None then REFUSED
          else Relay(Streaming, "", r.out + head(headers.value) + buffer[pos + 4..], headers)
  }

  function TakeAll(r: Relay, parts: seq<string>, head: Headers -> string): Relay
    decreases |parts|
  {
    if parts == [] then r else TakeAll(Take(r, parts[0], head), parts[1..], head)
  }

  /** End of output while the header block is incomplete is a failure too. */
  function Finish(r: Relay): Relay { if r.phase == Reading then REFUSED else r }

  lemma {:induction false} TakeAllSnoc(r: Relay, parts: seq<string>, data: string, head: Headers -> string)
    ensures TakeAll(r, parts + [data], head) == Take(TakeAll(r, parts, head), data, head)
    decreases |parts|
  {
    hide Take;
    if parts == [] {
      assert (parts + [data])[1..] == [];
    } else {
      assert (parts + [data])[1..] == parts[1..] + [data];
      TakeAllSnoc(Take(r, parts[0], head), parts[1..], data, head);
    }
  }

  // ---------------------------------------------------------------------------
  // Independence of read sizes
  // ---------------------------------------------------------------------------

  /** Where the header block of a whole output ends, blank line included. */
  function BlockEnd(output: string): Option<nat> {
    var pos := Find(output, BLANK_LINE, 0);
    if pos == None then None else Some(pos.value + 4)
  }

  /** The output as a client should see it: head and body if the block ends within the limit and is well formed. */
  function Ideal(output: string, head: Headers -> string): Relay {
    var end := BlockEnd(output);
    if end == None || end.value > MAX_HEADER_BLOCK then REFUSED
    else
      var headers := ParseBlock(output[..end.value - 2]);
      if headers == None then REFUSED else Relay(Streaming, "", head(headers.value) + output[end.value..], headers)
  }

  /** A good block that ends so close to the limit that a read of up to `size` bytes may overshoot it. */
  predicate NearLimit(output: string, size: nat) {
    var end := BlockEnd(output);
    && end.Some? && MAX_HEADER_BLOCK + 1 < end.value + size && end.value <= MAX_HEADER_BLOCK
    && |output| > MAX_HEADER_BLOCK
    && ParseBlock(output[..end.value - 2]).Some?
  }

  lemma {:induction false} StreamRest(r: Relay, parts: seq<string>, head: Headers -> string)
    requires r.phase == Streaming
    ensures TakeAll(r, parts, head) == r.(out := r.out + Concat(parts))
    decreases |parts|
  {
    if parts == [] {
      assert r.out + "" == r.out;
    } else {
      StreamRest(Take(r, parts[0], head), parts[1..], head);
      assert r.out + parts[0] + Concat(parts[1..]) == r.out + Concat(parts);
    }
  }

  lemma {:induction false} StaysFailed(parts: seq<string>, head: Headers -> string)
    ensures TakeAll(REFUSED, parts, head) == REFUSED
    decreases |parts|
  {
    if parts != [] {
      StaysFailed(parts[1..], head);
    }
  }

  /** While the block is being collected: a read that completes it completes it where the whole output does. */
  lemma BlockFound(b: string, data: string, tail: string, head: Headers -> string)
    requires |b + data| <= MAX_HEADER_BLOCK && Find(b + data, BLANK_LINE, 0).Some?
    ensures var r := Take(Collecting(b), data, head);
            var ideal := Ideal(b + data + tail, head);
            r == REFUSED == ideal || (r.phase == Streaming && ideal == r.(out := r.out + tail))
  {
    hide ParseBlock, Find;
    var buffer := b + data;
    var pos := Find(buffer, BLANK_LINE, 0).value;
    BlockAt(buffer, tail, pos);
    var headers := ParseBlock(buffer[..pos + 2]);
    if headers.Some? {
      HeadThenBody(head(headers.value), buffer[pos + 4..], tail);
    }
  }

  lemma BlockAt(buffer: string, tail: string, pos: nat)
    requires Find(buffer, BLANK_LINE, 0) == Some(pos)
    ensures BlockEnd(buffer + tail) == Some(pos + 4)
    ensures (buffer + tail)[..pos + 2] == buffer[..pos + 2] && (buffer + tail)[pos + 4..] == buffer[pos + 4..] + tail
  {
    hide Find;
    FindExtend(buffer, tail, BLANK_LINE, 0);
  }

  lemma HeadThenBody(head: string, body: string, tail: string)
    ensures "" + head == head && head + body + tail == head + (body + tail)
  {}

  /** A read that overshoots the limit fails, and rightly so unless the block ends near the limit. */
  lemma Overshoot(b: string, data: string, tail: string, size: nat, head: Headers -> string)
    requires |b| <= MAX_HEADER_BLOCK < |b + data| && Find(b, BLANK_LINE, 0) == None && |data| <= size
    requires !NearLimit(b + data + tail, size)
    ensures Ideal(b + data + tail, head) == REFUSED
  {
    hide ParseBlock, Find;
    var output := b + data + tail;
    var pos := Find(output, BLANK_LINE, 0);
    if pos.Some? && pos.value + 4 <= |b| {
      assert output == b + (data + tail);
      FindInPrefix(b, data + tail, BLANK_LINE, 0);
      assert false;
    }
  }

  /** Reads of at most `size` bytes deliver the ideal result unless the block ends near the limit. */
  lemma {:induction false} ReadsDeliver(b: string, parts: seq<string>, size: nat, head: Headers -> string)
    requires |b| <= MAX_HEADER_BLOCK && Find(b, BLANK_LINE, 0) == None && ReadsUpTo(parts, size)
    requires !NearLimit(b + Concat(parts), size)
    ensures Finish(TakeAll(Collecting(b), parts, head)) == Ideal(b + Concat(parts), head)
    decreases |parts|
  {
    hide NearLimit, Find, Take, Ideal;
    var r := Collecting(b);
    if parts == [] {
      assert b + Concat(parts) == b;
      NoBlock(b, head);
    } else {
      var tail := Concat(parts[1..]);
      var buffer := b + parts[0];
      assert b + Concat(parts) == buffer + tail;
      if |buffer| > MAX_HEADER_BLOCK {
        Overshoot(b, parts[0], tail, size, head);
        TakeOver(b, parts[0], head);
        StaysFailed(parts[1..], head);
      } else if Find(buffer, BLANK_LINE, 0) == None {
        TakeOver(b, parts[0], head);
        ReadsDeliver(buffer, parts[1..], size, head);
      } else {
        BlockFound(b, parts[0], tail, head);
        var next := Take(r, parts[0], head);
        if next == REFUSED {
          StaysFailed(parts[1..], head);
        } else {
          StreamRest(next, parts[1..], head);
        }
      }
    }
  }

  lemma TakeOver(b: string, data: string, head: Headers -> string)
    ensures |b + data| > MAX_HEADER_BLOCK ==> Take(Collecting(b), data, head) == REFUSED
    ensures |b + data| <= MAX_HEADER_BLOCK && Find(b + data, BLANK_LINE, 0) == None ==>
              Take(Collecting(b), data, head) == Collecting(b + data)
  {
    hide Find, ParseBlock;
  }

  lemma NoBlock(b: string, head: Headers -> string)
    requires Find(b, BLANK_LINE, 0) == None
    ensures Ideal(b, head) == REFUSED
  {}

  /** The result of relaying a whole output that arrives in the given reads. */
  function Relayed(parts: seq<string>, head: Headers -> string): Relay { Finish(TakeAll(START, parts, head)) }

  lemma {:induction false} FromStart(parts: seq<string>, size: nat, head: Headers -> string)
    requires ReadsUpTo(parts, size) && !NearLimit(Concat(parts), size)
    ensures Relayed(parts, head) == Ideal(Concat(parts), head)
  {
    assert "" + Concat(parts) == Concat(parts);
    ReadsDeliver("", parts, size, head);
  }

  /** Reading one byte at a time is never near the limit. */
  lemma SinglesDeliver(output: string, head: Headers -> string)
    ensures Relayed(Singles(output), head) == Ideal(output, head)
  {
    SinglesConcat(output);
    hide ParseBlock, Ideal, Relayed;
    FromStart(Singles(output), 1, head);
  }

  lemma {:induction false} TakeAllAppend(r: Relay, a: seq<string>, b: seq<string>, head: Headers -> string)
    ensures TakeAll(r, a + b, head) == TakeAll(TakeAll(r, a, head), b, head)
    decreases |a|
  {
    hide Take;
    if a == [] {
      assert a + b == b;
    } else {
      assert (a + b)[1..] == a[1..] + b;
      TakeAllAppend(Take(r, a[0], head), a[1..], b, head);
    }
  }

  /** Without a blank line every byte is collected. */
  lemma {:induction false} SinglesCollect(b: string, s: string, head: Headers -> string)
    requires |b + s| <= MAX_HEADER_BLOCK && Find(b + s, BLANK_LINE, 0) == None
    ensures TakeAll(Collecting(b), Singles(s), head) == Collecting(b + s)
    decreases |s|
  {
    hide Take, Find;
    if s == "" {
      assert b + s == b;
    } else {
      assert Singles(s)[0] == [s[0]] && Singles(s)[1..] == Singles(s[1..]);
      assert b + [s[0]] + s[1..] == b + s;
      if Find(b + [s[0]], BLANK_LINE, 0).Some? {
        FindExtend(b + [s[0]], s[1..], BLANK_LINE, 0);
        assert false;
      }
      TakeOver(b, [s[0]], head);
      SinglesCollect(b + [s[0]], s[1..], head);
    }
  }

  /** The bytes before the last one of the block hold no blank line. */
  lemma NoBlankBefore(output: string, end: nat)
    requires BlockEnd(output) == Some(end) && 0 < end <= |output|
    ensures Find(output[..end - 1], BLANK_LINE, 0) == None
  {
    hide Find;
    var a, b := output[..end - 1], output[end - 1..];
    assert output == a + b;
    if Find(a, BLANK_LINE, 0).Some? {
      FindExtend(a, b, BLANK_LINE, 0);
      assert false;
    }
  }

  /** Near the limit there are reads that fail: byte by byte up to the block's last byte, then one large read. */
  lemma LargeReadFails(output: string, head: Headers -> string) returns (parts: seq<string>)
    requires NearLimit(output, READ_SIZE)
    ensures ReadsUpTo(parts, READ_SIZE) && Concat(parts) == output && Relayed(parts, head) == REFUSED
  {
    hide Find, ParseBlock;
    var end := BlockEnd(output).value;
    var n := if |output| - (end - 1) < READ_SIZE then |output| - (end - 1) else READ_SIZE;
    var a, big, rest := output[..end - 1], output[end - 1..end - 1 + n], output[end - 1 + n..];
    ThreeParts(output, end - 1, end - 1 + n);
    NoBlankBefore(output, end);
    parts := Singles(a) + ([big] + Singles(rest));
    SinglesConcat(a);
    SinglesConcat(rest);
    PiecesOf(a, big, rest, parts);
    OvershootFails(a, big, rest, parts, head);
  }

  lemma OvershootFails(a: string, big: string, rest: string, parts: seq<string>, head: Headers -> string)
    requires parts == Singles(a) + ([big] + Singles(rest))
    requires |a| <= MAX_HEADER_BLOCK < |a + big| && Find(a, BLANK_LINE, 0) == None
    ensures Relayed(parts, head) == REFUSED
  {
    hide Find, Take;
    TakeAllAppend(START, Singles(a), [big] + Singles(rest), head);
    assert "" + a == a;
    SinglesCollect("", a, head);
    TakeOver(a, big, head);
    assert ([big] + Singles(rest))[1..] == Singles(rest);
    StaysFailed(Singles(rest), head);
  }

  /**
   * What the client receives does not depend on how the kernel cuts the output into reads of up to 4096 bytes,
   * exactly when no good header block ends in the last 4095 bytes before the limit of an output longer than the limit.
   */
  lemma ReadSizeIndependence(output: string, head: Headers -> string)
    ensures (forall parts :: ReadsUpTo(parts, READ_SIZE) && Concat(parts) == output ==>
               Relayed(parts, head) == Ideal(output, head))
            <==> !NearLimit(output, READ_SIZE)
  {
    if NearLimit(output, READ_SIZE) {
      var parts := LargeReadFails(output, head);
      GoodBlock(output, head);
    } else {
      hide ParseBlock, Ideal, Relayed, NearLimit;
      forall parts | ReadsUpTo(parts, READ_SIZE) && Concat(parts) == output
        ensures Relayed(parts, head) == Ideal(output, head)
      {
        FromStart(parts, READ_SIZE, head);
      }
    }
  }

  lemma GoodBlock(output: string, head: Headers -> string)
    requires NearLimit(output, READ_SIZE)
    ensures Ideal(output, head) != REFUSED
  {
    hide Find, ParseBlock;
  }

  /** The two ends of the range: a good block by offset 59905 is always delivered, one behind 64000 never is. */
  lemma EarlyBlockDelivered(parts: seq<string>, headers: Headers, head: Headers -> string)
    requires ReadsUpTo(parts, READ_SIZE)
    requires var end := BlockEnd(Concat(parts));
             && end.Some? && end.value <= 59905
             && ParseBlock(Concat(parts)[..end.value - 2]) == Some(headers)
    ensures var body := Concat(parts)[BlockEnd(Concat(parts)).value..];
            Relayed(parts, head) == Relay(Streaming, "", head(headers) + body, Some(headers))
  {
    FromStart(parts, READ_SIZE, head);
    hide Find, ParseBlock;
  }

  lemma LateBlockRefused(parts: seq<string>, head: Headers -> string)
    requires ReadsUpTo(parts, READ_SIZE)
    requires BlockEnd(Concat(parts)) == None || BlockEnd(Concat(parts)).value > MAX_HEADER_BLOCK
    ensures Relayed(parts, head) == REFUSED
  {
    FromStart(parts, READ_SIZE, head);
    hide Find, ParseBlock;
  }

  // ---------------------------------------------------------------------------
  // Whole outputs
  // ---------------------------------------------------------------------------

  /** A line as a script should print it: a field, or text without a colon, that is ended by CRLF and holds no CR. */
  predicate IsPlainLine(line: HeaderLine) {
    IsLine(line) && !line.Empty? && line.end == CRLF && '\r' !in TextOf(line) && TextOf(line) != ""
  }

  /** The blank line behind such lines is the first one. */
  lemma {:induction false} BlankBehindLines(lines: seq<HeaderLine>, body: string)
    requires lines != [] && forall i :: 0 <= i < |lines| ==> IsPlainLine(lines[i])
    ensures var output := Encode(lines) + CRLF + body;
            && Find(output, BLANK_LINE, 0) == Some(|Encode(lines)| - 2) && output[0] != '\r'
            && 2 <= |Encode(lines)|
    decreases |lines|
  {
    hide Find, TextOf, IsLine;
    var text, rest := TextOf(lines[0]), lines[1..];
    assert IsPlainLine(lines[0]) && text[0] in text;
    if rest == [] {
      assert Encode(lines) == text + CRLF + "" == text + CRLF;
      assert Encode(lines) + CRLF + body == text + BLANK_LINE + body;
      BlankAtOnce(text, body);
    } else {
      var t := Encode(rest) + CRLF + body;
      BlankBehindLines(rest, body);
      assert Encode(lines) + CRLF + body == text + CRLF + t;
      BlankBehindLine(text, t, |Encode(rest)| - 2);
    }
  }

  /**
   * What a script prints is what its client gets: header lines, a blank line and a body give the head that is built
   * from the fields, and the body, under any reads of up to 4096 bytes, unless a line has no colon, which is refused.
   */
  lemma OutputMeans(lines: seq<HeaderLine>, body: string, parts: seq<string>, head: Headers -> string)
    requires lines != [] && forall i :: 0 <= i < |lines| ==> IsPlainLine(lines[i])
    requires Concat(parts) == Encode(lines) + CRLF + body && ReadsUpTo(parts, READ_SIZE)
    requires |Encode(lines)| + 2 <= 59905
    ensures if HasNoColon(lines) then Relayed(parts, head) == REFUSED
            else
              exists headers ::
                && LastValues(lines, map[], headers)
                && Relayed(parts, head) == Relay(Streaming, "", head(headers) + body, Some(headers))
  {
    hide Find, Encode, TextOf, IsLine, LastValues, HasNoColon, Relayed, ParseBlock, ReadsUpTo;
    BlankBehindLines(lines, body);
    var output, n := Encode(lines) + CRLF + body, |Encode(lines)|;
    assert output[..n] == Encode(lines) && output[n + 2..] == body;
    forall i | 0 <= i < |lines| ensures IsLine(lines[i]) {
      assert IsPlainLine(lines[i]);
    }
    BlockMeans(lines);
    FromStart(parts, READ_SIZE, head);
  }
}
