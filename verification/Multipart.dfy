/** The one-part multipart/form-data upload (section 5.1.1 of RFC 2046): the splitter as a function of its state. */
module Multipart {
  import opened Http
  import opened Text
  import opened Connection

  /** The upload fields of a connection; `error` is the last status queued by fallback_error. */
  datatype UploadState = UploadState(
    boundary: string, buffer: string, state: MPState, part: nat,
    file: string, stream: FileStream, remaining: nat, uploaded: nat, error: Option<int>)

  /** Append the first `len` bytes of `str` to the file, or delete the file and queue an error. */
  function WriteBody(u: UploadState, str: string, len: nat, diskOk: bool): (UploadState, bool)
    requires len <= |str|
  {
    if Wrap(u.uploaded + len) > MAX_CONT_LEN then
      (u.(file := "", stream := CLOSED, error := Some(PAYLOAD_TOO_LARGE)), false)
    else if u.stream != GOOD || !diskOk then
      (u.(file := "", stream := CLOSED, error := Some(INTERNAL_SERVER_ERROR)), false)
    else (u.(file := u.file + str[..len], remaining := (u.remaining - len) % TWO_64,
                uploaded := Wrap(u.uploaded + len)), true)
  }

  /** Open the next file. Opening a stream that is still open only sets its failure flag. */
  function OpenUploadFile(u: UploadState, diskOk: bool): (UploadState, bool) {
    if u.stream != CLOSED then (u.(stream := FAILED), true)
    else if diskOk then (u.(stream := GOOD, file := ""), true)
    else (u.(error := Some(INTERNAL_SERVER_ERROR)), false)
  }

  /** The first header block behind a boundary line: where the bytes of the part begin. */
  function HeaderEnd(buffer: string, boundary: string): (r: Option<nat>)
    ensures r.Some? ==> 4 <= r.value <= |buffer|
  {
    var start := Find(buffer, boundary + CRLF, 0);
    if start == None then None
    else
      var end := Find(buffer, BLANK_LINE, start.value);
      if end == None then None else Some(end.value + 4)
  }

  function FinalDelim(boundary: string): (r: string)
    ensures |r| == |boundary| + 6
  {
    CRLF + "--" + boundary + "--"
  }

  /** What parseMultipart does once the state is MP_BODY. */
  function SplitBody(u: UploadState, diskOk: bool): UploadState {
    var final := Find(u.buffer, FinalDelim(u.boundary), 0);
    if final.Some? then
      var (w, ok) := WriteBody(u, u.buffer, final.value, diskOk);
      if ok then w.(stream := CLOSED, state := MP_END, buffer := "") else w
    else
      var pos := Find(u.buffer, u.boundary, 0);
      if pos.Some? then
        var (w, ok) := WriteBody(u, u.buffer, pos.value, diskOk);
        if ok then KeepGuard(w.(buffer := w.buffer[Min(pos.value + 2, |w.buffer|)..], state := MP_BOUNDARY), diskOk)
        else w
      else KeepGuard(u, diskOk)
  }

  /** Write all but the last `guard` bytes, which may be the start of a delimiter. */
  function KeepGuard(u: UploadState, diskOk: bool): UploadState {
    var guard := |u.boundary| + 4;
    if |u.buffer| > guard then
      var safe := |u.buffer| - guard;
      var (w, ok) := WriteBody(u, u.buffer, safe, diskOk);
      if ok then w.(buffer := w.buffer[safe..]) else w
    else u
  }

  /** One call of parseMultipart. */
  function ParseMultipart(u: UploadState, body: string, toWrite: nat, diskOk: bool): UploadState
    requires toWrite <= |body|
  {
    var u0 := u.(buffer := u.buffer + body[..toWrite]);
    var u1 := if u0.state == MP_BOUNDARY then u0.(state := MP_HEADER, part := u0.part + 1) else u0;
    if u1.state == MP_HEADER then
      var h := HeaderEnd(u1.buffer, u1.boundary);
      if h == None then u1
      else
        var (o, ok) := OpenUploadFile(u1.(buffer := u1.buffer[h.value..], state := MP_BODY), diskOk);
        if ok then SplitBody(o, diskOk) else o
    else if u1.state == MP_BODY then SplitBody(u1, diskOk)
    else u1
  }

  /** The fixed-length branch of processBody for a multipart upload. */
  function FeedMultipart(u: UploadState, piece: string, diskOk: bool): UploadState {
    ParseMultipart(u, piece, Min(|piece|, u.remaining), diskOk)
  }

  /** The fixed-length branch of processBody for a plain upload. */
  function FeedPlain(u: UploadState, piece: string, diskOk: bool): (UploadState, bool) {
    WriteBody(u, piece, Min(|piece|, u.remaining), diskOk)
  }

  /** Reads are fed until the closing delimiter has been seen. */
  function FeedAll(u: UploadState, pieces: seq<string>): UploadState
    decreases |pieces|
  {
    if pieces == [] || u.state == MP_END then u else FeedAll(FeedMultipart(u, pieces[0], true), pieces[1..])
  }

  function FreshUpload(boundary: string, contentLength: nat): UploadState {
    UploadState(boundary, "", MP_BOUNDARY, 0, "", CLOSED, contentLength, 0, None)
  }

  /** While no more has been written than may be: what is written, and the two ways in which an upload fails. */
  lemma WriteMeans(u: UploadState, str: string, len: nat, diskOk: bool)
    requires len <= |str| <= MAX_STRING && u.uploaded <= MAX_CONT_LEN
    ensures var (w, ok) := WriteBody(u, str, len, diskOk);
            && w.uploaded <= MAX_CONT_LEN
            && (ok <==> u.uploaded + len <= MAX_CONT_LEN && u.stream == GOOD && diskOk)
            && (ok ==> w.file == u.file + str[..len] && w.uploaded == u.uploaded + len && w.error == u.error)
            && (ok && len <= u.remaining < TWO_64 ==> w.remaining + len == u.remaining)
            && (!ok ==> w.file == "" && w.stream == CLOSED)
            && (!ok ==> w.error == Some(if u.uploaded + len > MAX_CONT_LEN then 413 else 500))
  {}

  /** However a plain upload is cut, no more is ever written than may be. */
  lemma {:induction false} LimitKept(u: UploadState, pieces: seq<string>, diskOk: bool)
    requires u.uploaded <= MAX_CONT_LEN && forall i :: 0 <= i < |pieces| ==> |pieces[i]| <= MAX_STRING
    ensures PlainAll(u, pieces, diskOk).uploaded <= MAX_CONT_LEN
    ensures |u.file| <= u.uploaded ==> |PlainAll(u, pieces, diskOk).file| <= PlainAll(u, pieces, diskOk).uploaded
    decreases |pieces|
  {
    hide WriteBody;
    if pieces != [] {
      WriteMeans(u, pieces[0], Min(|pieces[0]|, u.remaining), diskOk);
      LimitKept(FeedPlain(u, pieces[0], diskOk).0, pieces[1..], diskOk);
    }
  }

  /** The reads of a plain upload, one after the other. */
  function PlainAll(u: UploadState, pieces: seq<string>, diskOk: bool): UploadState
    decreases |pieces|
  {
    if pieces == [] then u else PlainAll(FeedPlain(u, pieces[0], diskOk).0, pieces[1..], diskOk)
  }

  // ---------------------------------------------------------------------------
  // One-part bodies
  // ---------------------------------------------------------------------------

  /**
   * A one-part body: the boundary, a printable header value, first occurs 4 bytes behind the content, and is closed by
   * "--".
   */
  ghost predicate OnePart(whole: string, boundary: string, head: nat, content: string) {
    && '\r' !in boundary
    && HeaderEnd(whole, boundary) == Some(head)
    && Find(whole[head..], boundary, 0) == Some(|content| + 4)
    && At(whole[head..], FinalDelim(boundary), |content|)
    && whole[head..head + |content|] == content
  }

  lemma OnePartFits(whole: string, boundary: string, head: nat, content: string)
    requires OnePart(whole, boundary, head, content)
    ensures 4 <= head && BoundaryEnd(boundary, head, content) + 2 <= |whole|
  {}

  lemma OnePartHead(whole: string, boundary: string, head: nat, content: string)
    requires OnePart(whole, boundary, head, content)
    ensures '\r' !in boundary && HeaderEnd(whole, boundary) == Some(head)
  {}

  lemma OnePartContent(whole: string, boundary: string, head: nat, content: string)
    requires OnePart(whole, boundary, head, content)
    ensures head + |content| <= |whole| && whole[head..head + |content|] == content
  {}

  lemma NothingInBuffer(whole: string, boundary: string, head: nat, content: string, lo: nat, fed: nat)
    requires OnePart(whole, boundary, head, content)
    requires head <= lo <= fed <= |whole| && fed < BoundaryEnd(boundary, head, content)
    ensures Find(whole[lo..fed], FinalDelim(boundary), 0) == None && Find(whole[lo..fed], boundary, 0) == None
  {
    hide Find, At, HeaderEnd, FinalDelim;
    assert SliceOf(whole[lo..fed], whole[head..], lo - head);
    NothingYet(whole[head..], whole[lo..fed], lo - head, boundary, |content|);
  }

  lemma FinalInBuffer(whole: string, boundary: string, head: nat, content: string, lo: nat, fed: nat)
    requires OnePart(whole, boundary, head, content)
    requires head <= lo <= head + |content| && BoundaryEnd(boundary, head, content) + 2 <= fed <= |whole|
    ensures Find(whole[lo..fed], FinalDelim(boundary), 0) == Some(head + |content| - lo)
  {
    hide Find, At, HeaderEnd, FinalDelim;
    assert SliceOf(whole[lo..fed], whole[head..], lo - head);
    FinalFound(whole[head..], whole[lo..fed], lo - head, boundary, |content|);
  }

  /** Where the boundary behind the content ends; its closing "--" ends two bytes later. */
  function BoundaryEnd(boundary: string, head: nat, content: string): nat { head + |content| + 4 + |boundary| }

  /** Bytes written to the file once the first `fed` bytes have arrived and the closing delimiter has not. */
  function Written(boundary: string, head: nat, fed: nat): nat {
    if fed <= head + |boundary| + 4 then 0 else fed - head - |boundary| - 4
  }

  /** The splitter's state after the first `fed` bytes of a one-part body, however they were cut. */
  ghost function Expected(whole: string, boundary: string, head: nat, content: string, fed: nat): UploadState
    requires OnePart(whole, boundary, head, content) && fed <= |whole|
  {
    var w := Written(boundary, head, fed);
    if fed < head then
      UploadState(boundary, whole[..fed], MP_HEADER, 1, "", CLOSED, |whole|, 0, None)
    else if fed < BoundaryEnd(boundary, head, content) then
      UploadState(boundary, whole[head + w..fed], MP_BODY, 1, content[..w], GOOD, |whole| - w, w, None)
    else
      UploadState(boundary, "", MP_END, 1, content, CLOSED, |whole| - |content|, |content|, None)
  }

  /** The blank line that ends the header block does not begin inside the boundary line. */
  lemma MarkBeforeBlank(s: string, boundary: string, start: nat, end: nat)
    requires '\r' !in boundary && At(s, boundary + CRLF, start) && At(s, BLANK_LINE, end) && start <= end
    ensures start + |boundary| <= end
  {
    AtChar(s, BLANK_LINE, end, 0);
    if end < start + |boundary| {
      AtChar(s, boundary + CRLF, start, end - start);
      assert false;
    }
  }

  /** The header block is found as soon as its last byte has arrived, and always at the same place. */
  lemma HeaderEndPrefix(whole: string, boundary: string, head: nat, fed: nat)
    requires '\r' !in boundary && HeaderEnd(whole, boundary) == Some(head) && fed <= |whole|
    ensures HeaderEnd(whole[..fed], boundary) == if head <= fed then Some(head) else None
  {
    hide Find, At;
    var mark := boundary + CRLF;
    var start := Find(whole, mark, 0).value;
    var end := Find(whole, BLANK_LINE, start).value;
    FindAt(whole, mark, 0);
    FindAt(whole, BLANK_LINE, start);
    MarkBeforeBlank(whole, boundary, start, end);
    var a, b := whole[..fed], whole[fed..];
    assert whole == a + b;
    if head <= fed {
      FindInPrefix(a, b, mark, 0);
      FindInPrefix(a, b, BLANK_LINE, start);
    } else if HeaderEnd(a, boundary).Some? {
      FindExtend(a, b, mark, 0);
      FindExtend(a, b, BLANK_LINE, start);
      assert false;
    }
  }

  /** Every closing delimiter holds the boundary four bytes in. */
  lemma BoundaryInFinal(s: string, boundary: string, j: nat)
    requires At(s, FinalDelim(boundary), j)
    ensures At(s, boundary, j + 4)
  {
    var d := FinalDelim(boundary);
    assert d[4..4 + |boundary|] == boundary;
    SliceOfSlice(s, j, j + |d|, 4, 4 + |boundary|);
  }

  /** No closing delimiter begins before the content ends. */
  lemma NoEarlierFinal(rest: string, t: string, lo: nat, boundary: string, n: nat, j: nat)
    requires Find(rest, boundary, 0) == Some(n + 4) && SliceOf(t, rest, lo)
    requires At(t, FinalDelim(boundary), j)
    ensures n <= lo + j && j + |boundary| + 6 <= |t|
  {
    hide Find, At, SliceOf, FinalDelim;
    AtFits(t, FinalDelim(boundary), j);
    BoundaryInFinal(t, boundary, j);
    AtSlice(rest, t, lo, boundary, j + 4);
    FindLe(rest, boundary, 0, lo + j + 4);
  }

  /** Before its "--" is complete the buffer does not show the closing delimiter. */
  lemma NoFinalYet(rest: string, t: string, lo: nat, boundary: string, n: nat)
    requires Find(rest, boundary, 0) == Some(n + 4) && SliceOf(t, rest, lo)
    requires lo + |t| < n + 6 + |boundary|
    ensures Find(t, FinalDelim(boundary), 0) == None
  {
    hide Find, At, SliceOf, FinalDelim;
    var f := Find(t, FinalDelim(boundary), 0);
    if f.Some? {
      FindAt(t, FinalDelim(boundary), 0);
      NoEarlierFinal(rest, t, lo, boundary, n, f.value);
      assert false;
    }
  }

  /** Before the boundary is complete the buffer shows neither it nor the closing delimiter. */
  lemma NothingYet(rest: string, t: string, lo: nat, boundary: string, n: nat)
    requires Find(rest, boundary, 0) == Some(n + 4) && SliceOf(t, rest, lo)
    requires lo + |t| < n + 4 + |boundary|
    ensures Find(t, boundary, 0) == None && Find(t, FinalDelim(boundary), 0) == None
  {
    hide Find, At, SliceOf;
    NoneInSlice(rest, t, lo, boundary);
    NoFinalYet(rest, t, lo, boundary, n);
  }

  /** Once it is complete, the closing delimiter is found right behind the content. */
  lemma FinalFound(rest: string, t: string, lo: nat, boundary: string, n: nat)
    requires Find(rest, boundary, 0) == Some(n + 4) && At(rest, FinalDelim(boundary), n)
    requires SliceOf(t, rest, lo) && lo <= n && n + |boundary| + 6 <= lo + |t|
    ensures Find(t, FinalDelim(boundary), 0) == Some(n - lo)
  {
    hide Find, At, FinalDelim, SliceOf;
    FindSliced(rest, t, lo, FinalDelim(boundary), n);
    FindAt(t, FinalDelim(boundary), 0);
    NoEarlierFinal(rest, t, lo, boundary, n, Find(t, FinalDelim(boundary), 0).value);
  }

  /** The state inside the part when `w` bytes are in the file and the buffer ends at `fed`. */
  function InBody(whole: string, boundary: string, head: nat, content: string, w: nat, fed: nat): UploadState
    requires head + w <= fed <= |whole| && w <= |content| && w <= |whole|
  {
    UploadState(boundary, whole[head + w..fed], MP_BODY, 1, content[..w], GOOD, |whole| - w, w, None)
  }

  lemma ContentSlice(whole: string, head: nat, content: string, a: nat, b: nat)
    requires a <= b <= |content| && head + |content| <= |whole| && whole[head..head + |content|] == content
    ensures content[..a] + whole[head + a..head + b] == content[..b]
  {
    SliceOfSlice(whole, head, head + |content|, a, b);
    assert content[..a] + content[a..b] == content[..b];
  }

  /** Writing the next content bytes of the buffer extends the file to a longer prefix of the content. */
  lemma WriteContent(whole: string, boundary: string, head: nat, content: string, w: nat, fed: nat, len: nat)
    requires head + w + len <= fed <= |whole| <= MAX_CONT_LEN && w + len <= |content|
    requires head + |content| <= |whole| && whole[head..head + |content|] == content
    ensures var u := InBody(whole, boundary, head, content, w, fed);
            WriteBody(u, u.buffer, len, true) ==
            (u.(file := content[..w + len], remaining := |whole| - (w + len), uploaded := w + len), true)
  {
    var u := InBody(whole, boundary, head, content, w, fed);
    assert u.buffer[..len] == whole[head + w..head + w + len];
    ContentSlice(whole, head, content, w, w + len);
  }

  /** Before the boundary is complete all but the guard is written, and all of it is content. */
  lemma SplitBefore(whole: string, boundary: string, head: nat, content: string, w: nat, fed: nat)
    requires OnePart(whole, boundary, head, content) && |whole| <= MAX_CONT_LEN
    requires head + w <= fed <= |whole| && fed < BoundaryEnd(boundary, head, content)
    requires w <= Written(boundary, head, fed)
    ensures w <= |content|
    ensures SplitBody(InBody(whole, boundary, head, content, w, fed), true)
            == Expected(whole, boundary, head, content, fed)
  {
    OnePartFits(whole, boundary, head, content);
    OnePartContent(whole, boundary, head, content);
    hide Find, At, HeaderEnd, KeepGuard, SplitBody, FinalDelim, OnePart;
    NothingInBuffer(whole, boundary, head, content, head + w, fed);
    NothingToSplit(InBody(whole, boundary, head, content, w, fed));
    GuardStep(whole, boundary, head, content, w, fed);
  }

  lemma NothingToSplit(u: UploadState)
    requires Find(u.buffer, FinalDelim(u.boundary), 0) == None && Find(u.buffer, u.boundary, 0) == None
    ensures SplitBody(u, true) == KeepGuard(u, true)
  {
    hide Find, FinalDelim, KeepGuard, WriteBody;
  }

  lemma GuardStep(whole: string, boundary: string, head: nat, content: string, w: nat, fed: nat)
    requires head + w <= fed <= |whole| <= MAX_CONT_LEN && w <= |content|
    requires head + |content| <= |whole| && whole[head..head + |content|] == content
    requires fed < BoundaryEnd(boundary, head, content) && w <= Written(boundary, head, fed)
    ensures KeepGuard(InBody(whole, boundary, head, content, w, fed), true)
         == InBody(whole, boundary, head, content, Written(boundary, head, fed), fed)
  {
    hide WriteBody;
    var u := InBody(whole, boundary, head, content, w, fed);
    var guard := |boundary| + 4;
    if |u.buffer| > guard {
      var safe := |u.buffer| - guard;
      WriteContent(whole, boundary, head, content, w, fed, safe);
      assert u.buffer[safe..] == whole[head + w + safe..fed];
    }
  }

  /** Once the closing delimiter is there, exactly the rest of the content is written. */
  lemma SplitAtEnd(whole: string, boundary: string, head: nat, content: string, w: nat, fed: nat)
    requires OnePart(whole, boundary, head, content) && |whole| <= MAX_CONT_LEN
    requires w <= |content| && BoundaryEnd(boundary, head, content) + 2 <= fed <= |whole|
    ensures SplitBody(InBody(whole, boundary, head, content, w, fed), true)
            == Expected(whole, boundary, head, content, fed)
  {
    OnePartFits(whole, boundary, head, content);
    OnePartContent(whole, boundary, head, content);
    hide Find, At, HeaderEnd, SplitBody, FinalDelim, OnePart;
    FinalInBuffer(whole, boundary, head, content, head + w, fed);
    FinalWrite(whole, boundary, head, content, w, fed);
  }

  lemma FinalWrite(whole: string, boundary: string, head: nat, content: string, w: nat, fed: nat)
    requires head + |content| <= fed <= |whole| <= MAX_CONT_LEN && w <= |content|
    requires whole[head..head + |content|] == content
    requires Find(whole[head + w..fed], FinalDelim(boundary), 0) == Some(|content| - w)
    ensures SplitBody(InBody(whole, boundary, head, content, w, fed), true)
         == UploadState(boundary, "", MP_END, 1, content, CLOSED, |whole| - |content|, |content|, None)
  {
    hide Find, WriteBody, FinalDelim, KeepGuard;
    WriteContent(whole, boundary, head, content, w, fed, |content| - w);
    assert content[..|content|] == content;
  }

  /** A cut is clear unless it falls between the end of the boundary and the end of its closing "--". */
  predicate ClearCut(boundary: string, head: nat, content: string, fed: nat) {
    !(BoundaryEnd(boundary, head, content) <= fed < BoundaryEnd(boundary, head, content) + 2)
  }

  /** One read takes the splitter from one expected state to the next, and the length bound takes nothing off it. */
  lemma FeedStep(whole: string, boundary: string, head: nat, content: string, fed: nat, next: nat)
    requires OnePart(whole, boundary, head, content) && |whole| <= MAX_CONT_LEN
    requires fed <= next <= |whole| && fed < BoundaryEnd(boundary, head, content)
    requires ClearCut(boundary, head, content, next)
    ensures var u := Expected(whole, boundary, head, content, fed);
            && next - fed <= u.remaining
            && FeedMultipart(u, whole[fed..next], true) == Expected(whole, boundary, head, content, next)
  {
    hide SplitBody, FeedMultipart, InBody;
    if fed < head {
      HeaderStep(whole, boundary, head, content, fed, next, Expected(whole, boundary, head, content, fed));
    } else {
      BodyGrows(whole, boundary, head, content, fed, next);
      SplitNext(whole, boundary, head, content, Written(boundary, head, fed), next);
    }
  }

  lemma HeaderCall(u: UploadState, piece: string, buf: string)
    requires (u.state == MP_BOUNDARY && u.part == 0) || (u.state == MP_HEADER && u.part == 1)
    requires u.stream == CLOSED && |piece| <= u.remaining && buf == u.buffer + piece
    ensures var h := HeaderEnd(buf, u.boundary);
            FeedMultipart(u, piece, true) ==
            if h == None then u.(buffer := buf, state := MP_HEADER, part := 1)
            else SplitBody(u.(buffer := buf[h.value..], state := MP_BODY, part := 1, stream := GOOD, file := ""), true)
  {
    hide SplitBody, HeaderEnd;
    assert piece[..|piece|] == piece;
  }

  /** The same for a splitter still looking for the header block, be it fresh or not. */
  lemma HeaderStep(whole: string, boundary: string, head: nat, content: string, fed: nat, next: nat, u: UploadState)
    requires OnePart(whole, boundary, head, content) && |whole| <= MAX_CONT_LEN
    requires fed <= next <= |whole| && fed < head && ClearCut(boundary, head, content, next)
    requires
      || u == UploadState(boundary, whole[..fed], MP_HEADER, 1, "", CLOSED, |whole|, 0, None)
      || (u == FreshUpload(boundary, |whole|) && fed == 0)
    ensures FeedMultipart(u, whole[fed..next], true) == Expected(whole, boundary, head, content, next)
  {
    OnePartFits(whole, boundary, head, content);
    hide Find, At, SplitBody, HeaderEnd, FeedMultipart;
    var piece := whole[fed..next];
    assert u.buffer == whole[0..fed];
    Glue(whole, 0, fed, next);
    HeaderCall(u, piece, whole[..next]);
    HeaderEndPrefix(whole, boundary, head, next);
    if head <= next {
      assert whole[..next][head..] == whole[head..next];
      SplitNext(whole, boundary, head, content, 0, next);
      assert content[..0] == "";
    }
  }

  lemma SplitNext(whole: string, boundary: string, head: nat, content: string, w: nat, fed: nat)
    requires OnePart(whole, boundary, head, content) && |whole| <= MAX_CONT_LEN
    requires head + w <= fed <= |whole| && ClearCut(boundary, head, content, fed)
    requires w <= Written(boundary, head, fed) && w <= |content|
    ensures SplitBody(InBody(whole, boundary, head, content, w, fed), true)
            == Expected(whole, boundary, head, content, fed)
  {
    if fed < BoundaryEnd(boundary, head, content) {
      SplitBefore(whole, boundary, head, content, w, fed);
    } else {
      SplitAtEnd(whole, boundary, head, content, w, fed);
    }
  }

  // ---------------------------------------------------------------------------
  // Whole uploads
  // ---------------------------------------------------------------------------

  /** Every read ends at a clear cut. */
  predicate ClearCuts(boundary: string, head: nat, content: string, fed: nat, pieces: seq<string>)
    decreases |pieces|
  {
    pieces == [] ||
    (ClearCut(boundary, head, content, fed + |pieces[0]|) &&
     ClearCuts(boundary, head, content, fed + |pieces[0]|, pieces[1..]))
  }

  /** Splitting is over, or past saving: the part's file can no longer be closed as complete. */
  ghost predicate Derailed(u: UploadState) {
    || (u.state in {MP_BOUNDARY, MP_HEADER} && u.stream == GOOD)
    || (u.state == MP_BODY && u.stream != GOOD)
  }

  /** The pieces are the bytes of `whole` from `fed` up to `upto`. */
  ghost predicate Covers(whole: string, fed: nat, upto: nat, pieces: seq<string>) {
    fed <= upto <= |whole| && whole[fed..upto] == Concat(pieces)
  }

  /** `u` is where the splitter must be after `fed` bytes; before the first read it may still be fresh. */
  ghost predicate Reached(whole: string, boundary: string, head: nat, content: string, fed: nat, u: UploadState) {
    && OnePart(whole, boundary, head, content) && fed <= |whole| <= MAX_CONT_LEN
    && (u == Expected(whole, boundary, head, content, fed) || (fed == 0 && u == FreshUpload(boundary, |whole|)))
  }

  /** While every cut is clear the splitter goes through the expected states, however the bytes up to `upto` are cut. */
  lemma {:induction false} ClearFrom(whole: string, boundary: string, head: nat, content: string,
                                     fed: nat, upto: nat, pieces: seq<string>, u: UploadState)
    requires Reached(whole, boundary, head, content, fed, u) && Covers(whole, fed, upto, pieces)
    requires ClearCuts(boundary, head, content, fed, pieces)
    ensures Reached(whole, boundary, head, content, upto, FeedAll(u, pieces))
    decreases |pieces|
  {
    hide Reached, Covers, FeedMultipart, ClearCut;
    if pieces == [] {
      NoPiece(whole, fed, upto);
    } else if u.state == MP_END {
      EndReached(whole, boundary, head, content, fed, upto, u, pieces);
    } else {
      var next := fed + |pieces[0]|;
      FirstPiece(whole, fed, upto, pieces);
      ClearStep(whole, boundary, head, content, fed, next, u);
      ClearFrom(whole, boundary, head, content, next, upto, pieces[1..], FeedMultipart(u, pieces[0], true));
    }
  }

  /** After a bad cut the upload is never completed. */
  lemma {:induction false} BadFrom(whole: string, boundary: string, head: nat, content: string,
                                   fed: nat, upto: nat, pieces: seq<string>, u: UploadState)
    requires Reached(whole, boundary, head, content, fed, u) && Covers(whole, fed, upto, pieces)
    requires ClearCut(boundary, head, content, fed) && !ClearCuts(boundary, head, content, fed, pieces)
    ensures Derailed(FeedAll(u, pieces))
    decreases |pieces|
  {
    hide Reached, Covers, FeedMultipart, ClearCut, Derailed;
    if u.state == MP_END {
      EndIsClear(whole, boundary, head, content, fed, u, pieces);
      assert false;
    } else {
      var next := fed + |pieces[0]|;
      FirstPiece(whole, fed, upto, pieces);
      if ClearCut(boundary, head, content, next) {
        ClearStep(whole, boundary, head, content, fed, next, u);
        BadFrom(whole, boundary, head, content, next, upto, pieces[1..], FeedMultipart(u, pieces[0], true));
      } else {
        BadCut(whole, boundary, head, content, fed, next, u);
        StaysDerailed(FeedMultipart(u, pieces[0], true), pieces[1..]);
      }
    }
  }

  lemma NoPiece(whole: string, fed: nat, upto: nat)
    requires Covers(whole, fed, upto, [])
    ensures fed == upto
  {}

  lemma EndReached(whole: string, boundary: string, head: nat, content: string, fed: nat, upto: nat, u: UploadState,
                   pieces: seq<string>)
    requires Reached(whole, boundary, head, content, fed, u) && u.state == MP_END && Covers(whole, fed, upto, pieces)
    ensures Reached(whole, boundary, head, content, upto, u)
  {
    ExpectedState(whole, boundary, head, content, fed);
    ExpectedState(whole, boundary, head, content, upto);
    hide OnePart, Expected;
  }

  lemma EndIsClear(whole: string, boundary: string, head: nat, content: string, fed: nat, u: UploadState,
                   pieces: seq<string>)
    requires Reached(whole, boundary, head, content, fed, u) && u.state == MP_END
    requires ClearCut(boundary, head, content, fed)
    ensures ClearCuts(boundary, head, content, fed, pieces)
  {
    ExpectedState(whole, boundary, head, content, fed);
    hide OnePart, Expected;
    AllClear(boundary, head, content, fed, pieces);
  }

  /**
   * A one-part upload ends in MP_END exactly when no read ends between the boundary and the end of its "--";
   * the file is then the content and nothing else, whatever the cuts.
   */
  lemma OnePartUpload(whole: string, boundary: string, head: nat, content: string, pieces: seq<string>)
    requires OnePart(whole, boundary, head, content) && |whole| <= MAX_CONT_LEN && Concat(pieces) == whole
    ensures var u := FeedAll(FreshUpload(boundary, |whole|), pieces);
            && (u.state == MP_END <==> ClearCuts(boundary, head, content, 0, pieces))
            && (u.state == MP_END ==> u.file == content && u.stream == CLOSED && u.error == None)
  {
    OnePartFits(whole, boundary, head, content);
    ExpectedState(whole, boundary, head, content, |whole|);
    var start := FreshUpload(boundary, |whole|);
    assert Covers(whole, 0, |whole|, pieces) by { assert whole[0..|whole|] == whole; }
    hide OnePart, Expected, Covers;
    if ClearCuts(boundary, head, content, 0, pieces) {
      ClearFrom(whole, boundary, head, content, 0, |whole|, pieces, start);
    } else {
      BadFrom(whole, boundary, head, content, 0, |whole|, pieces, start);
    }
  }

  /** At every moment before that, the file holds a prefix of the content: no byte of a delimiter is ever written. */
  lemma OnlyContentWritten(whole: string, boundary: string, head: nat, content: string, pieces: seq<string>,
                           rest: string)
    requires OnePart(whole, boundary, head, content) && |whole| <= MAX_CONT_LEN && Concat(pieces) + rest == whole
    requires ClearCuts(boundary, head, content, 0, pieces)
    ensures FeedAll(FreshUpload(boundary, |whole|), pieces).file <= content
  {
    var upto := |Concat(pieces)|;
    assert whole[0..upto] == Concat(pieces);
    ClearFrom(whole, boundary, head, content, 0, upto, pieces, FreshUpload(boundary, |whole|));
    hide OnePart, FeedAll;
  }

  lemma FirstPiece(whole: string, fed: nat, upto: nat, pieces: seq<string>)
    requires Covers(whole, fed, upto, pieces) && pieces != []
    ensures var next := fed + |pieces[0]|;
            next <= upto <= |whole| && pieces[0] == whole[fed..next] && Covers(whole, next, upto, pieces[1..])
  {
    var n := |pieces[0]|;
    SliceOfSlice(whole, fed, upto, 0, n);
    SliceOfSlice(whole, fed, upto, n, upto - fed);
    assert Concat(pieces)[..n] == pieces[0] && Concat(pieces)[n..] == Concat(pieces[1..]);
  }

  /** One read at a clear cut; the bound by `upload_bytes_remaining` takes nothing off it. */
  lemma ClearStep(whole: string, boundary: string, head: nat, content: string, fed: nat, next: nat, u: UploadState)
    requires Reached(whole, boundary, head, content, fed, u) && u.state != MP_END
    requires fed <= next <= |whole| && ClearCut(boundary, head, content, next)
    ensures next - fed <= u.remaining
    ensures Reached(whole, boundary, head, content, next, FeedMultipart(u, whole[fed..next], true))
  {
    ExpectedState(whole, boundary, head, content, fed);
    OnePartFits(whole, boundary, head, content);
    hide OnePart, FeedMultipart, Expected;
    if fed < head {
      HeaderStep(whole, boundary, head, content, fed, next, u);
    } else {
      FeedStep(whole, boundary, head, content, fed, next);
    }
  }

  lemma ExpectedState(whole: string, boundary: string, head: nat, content: string, fed: nat)
    requires OnePart(whole, boundary, head, content) && fed <= |whole|
    ensures Expected(whole, boundary, head, content, fed).state == MP_END
            <==> fed >= BoundaryEnd(boundary, head, content)
    ensures fed >= BoundaryEnd(boundary, head, content) ==>
              Expected(whole, boundary, head, content, fed) == Expected(whole, boundary, head, content, |whole|)
    ensures fed < head ==>
              Expected(whole, boundary, head, content, fed)
              == UploadState(boundary, whole[..fed], MP_HEADER, 1, "", CLOSED, |whole|, 0, None)
  {
    OnePartFits(whole, boundary, head, content);
    hide OnePart;
  }

  /** A read that ends behind the boundary but before the end of its "--" is taken for the start of another part. */
  lemma BadCut(whole: string, boundary: string, head: nat, content: string, fed: nat, next: nat, u: UploadState)
    requires Reached(whole, boundary, head, content, fed, u) && u.state != MP_END
    requires fed <= next <= |whole| && !ClearCut(boundary, head, content, next)
    ensures Derailed(FeedMultipart(u, whole[fed..next], true))
  {
    ExpectedState(whole, boundary, head, content, fed);
    OnePartFits(whole, boundary, head, content);
    hide OnePart, FeedMultipart, Expected, Derailed;
    if fed < head {
      BadCutInHeader(whole, boundary, head, content, fed, next, u);
    } else {
      BadCutInBody(whole, boundary, head, content, fed, next);
    }
  }

  lemma BadCutInBody(whole: string, boundary: string, head: nat, content: string, fed: nat, next: nat)
    requires OnePart(whole, boundary, head, content) && |whole| <= MAX_CONT_LEN
    requires head <= fed <= next <= |whole| && fed < BoundaryEnd(boundary, head, content)
    requires !ClearCut(boundary, head, content, next)
    ensures Derailed(FeedMultipart(Expected(whole, boundary, head, content, fed), whole[fed..next], true))
  {
    BodyGrows(whole, boundary, head, content, fed, next);
    hide OnePart, FeedMultipart, SplitBody, Derailed, Expected, InBody;
    BadSplit(whole, boundary, head, content, Written(boundary, head, fed), next);
  }

  /** Inside the part a read only lengthens the buffer before the splitter looks at it. */
  lemma BodyGrows(whole: string, boundary: string, head: nat, content: string, fed: nat, next: nat)
    requires OnePart(whole, boundary, head, content)
    requires head <= fed <= next <= |whole| && fed < BoundaryEnd(boundary, head, content)
    ensures var w := Written(boundary, head, fed);
            && w <= |content|
            && FeedMultipart(Expected(whole, boundary, head, content, fed), whole[fed..next], true)
            == SplitBody(InBody(whole, boundary, head, content, w, next), true)
  {
    OnePartFits(whole, boundary, head, content);
    var w := Written(boundary, head, fed);
    BodyState(whole, boundary, head, content, fed);
    InBodyGrows(whole, boundary, head, content, w, fed, next);
    hide OnePart, FeedMultipart, SplitBody, InBody, Expected;
    BodyCall(InBody(whole, boundary, head, content, w, fed), whole[fed..next]);
  }

  lemma BodyState(whole: string, boundary: string, head: nat, content: string, fed: nat)
    requires OnePart(whole, boundary, head, content)
    requires head <= fed <= |whole| && fed < BoundaryEnd(boundary, head, content)
    ensures var w := Written(boundary, head, fed);
            && w <= |content|
            && Expected(whole, boundary, head, content, fed) == InBody(whole, boundary, head, content, w, fed)
  {
    hide OnePart;
  }

  lemma InBodyGrows(whole: string, boundary: string, head: nat, content: string, w: nat, fed: nat, next: nat)
    requires head + w <= fed <= next <= |whole| && w <= |content|
    ensures var u := InBody(whole, boundary, head, content, w, fed);
            && u.state == MP_BODY && next - fed <= u.remaining
            && u.(buffer := u.buffer + whole[fed..next]) == InBody(whole, boundary, head, content, w, next)
  {
    Glue(whole, head + w, fed, next);
  }

  lemma BadCutInHeader(whole: string, boundary: string, head: nat, content: string, fed: nat, next: nat, u: UploadState)
    requires OnePart(whole, boundary, head, content) && |whole| <= MAX_CONT_LEN
    requires fed < head && fed <= next <= |whole| && !ClearCut(boundary, head, content, next)
    requires
      || u == UploadState(boundary, whole[..fed], MP_HEADER, 1, "", CLOSED, |whole|, 0, None)
      || (u == FreshUpload(boundary, |whole|) && fed == 0)
    ensures Derailed(FeedMultipart(u, whole[fed..next], true))
  {
    OnePartHead(whole, boundary, head, content);
    hide OnePart, FeedMultipart, SplitBody, HeaderEnd, Derailed;
    assert u.buffer == whole[0..fed];
    Glue(whole, 0, fed, next);
    HeaderCall(u, whole[fed..next], whole[..next]);
    HeaderEndPrefix(whole, boundary, head, next);
    assert whole[..next][head..] == whole[head..next];
    BadSplit(whole, boundary, head, content, 0, next);
    assert content[..0] == "";
  }

  lemma BodyCall(u: UploadState, piece: string)
    requires u.state == MP_BODY && |piece| <= u.remaining
    ensures FeedMultipart(u, piece, true) == SplitBody(u.(buffer := u.buffer + piece), true)
  {
    hide SplitBody, HeaderEnd;
    assert piece[..|piece|] == piece;
  }

  lemma BadSplit(whole: string, boundary: string, head: nat, content: string, w: nat, fed: nat)
    requires OnePart(whole, boundary, head, content) && |whole| <= MAX_CONT_LEN
    requires head + w <= fed <= |whole| && w <= |content| && !ClearCut(boundary, head, content, fed)
    ensures Derailed(SplitBody(InBody(whole, boundary, head, content, w, fed), true))
  {
    OnePartFits(whole, boundary, head, content);
    InBodyParts(whole, boundary, head, content, w, fed);
    hide OnePart, Find, FinalDelim, SplitBody, Derailed, At, InBody;
    BoundaryOnly(whole, boundary, head, content, head + w, fed);
    BoundarySplit(InBody(whole, boundary, head, content, w, fed), |content| + 4 - w);
  }

  lemma InBodyParts(whole: string, boundary: string, head: nat, content: string, w: nat, fed: nat)
    requires head + w <= fed <= |whole| && w <= |content|
    ensures var u := InBody(whole, boundary, head, content, w, fed);
            && u.boundary == boundary && u.stream == GOOD && u.uploaded == w
            && u.buffer == whole[head + w..fed] && |u.buffer| == fed - head - w
  {}

  lemma BoundarySplit(u: UploadState, pos: nat)
    requires Find(u.buffer, FinalDelim(u.boundary), 0) == None && Find(u.buffer, u.boundary, 0) == Some(pos)
    requires u.stream == GOOD && u.uploaded + pos <= MAX_CONT_LEN && |u.buffer| < pos + |u.boundary| + 2
    ensures Derailed(SplitBody(u, true))
  {
    hide Find, FinalDelim;
  }

  lemma BoundaryOnly(whole: string, boundary: string, head: nat, content: string, lo: nat, fed: nat)
    requires OnePart(whole, boundary, head, content)
    requires head <= lo <= head + |content| && lo <= fed <= |whole| && !ClearCut(boundary, head, content, fed)
    ensures Find(whole[lo..fed], FinalDelim(boundary), 0) == None
    ensures Find(whole[lo..fed], boundary, 0) == Some(head + |content| + 4 - lo)
  {
    hide HeaderEnd, Find, At;
    var rest, t := whole[head..], whole[lo..fed];
    assert SliceOf(t, rest, lo - head);
    FindInSlice(rest, t, lo - head, boundary);
    NoFinalYet(rest, t, lo - head, boundary, |content|);
  }

  lemma {:induction false} AllClear(boundary: string, head: nat, content: string, fed: nat, pieces: seq<string>)
    requires fed >= BoundaryEnd(boundary, head, content) + 2
    ensures ClearCuts(boundary, head, content, fed, pieces)
    decreases |pieces|
  {
    if pieces != [] {
      AllClear(boundary, head, content, fed + |pieces[0]|, pieces[1..]);
    }
  }

  lemma {:induction false} StaysDerailed(u: UploadState, pieces: seq<string>)
    requires Derailed(u)
    ensures Derailed(FeedAll(u, pieces))
    decreases |pieces|
  {
    hide FeedMultipart;
    if pieces != [] {
      DerailedStep(u, pieces[0]);
      StaysDerailed(FeedMultipart(u, pieces[0], true), pieces[1..]);
    }
  }

  lemma DerailedStep(u: UploadState, piece: string)
    requires Derailed(u)
    ensures Derailed(FeedMultipart(u, piece, true))
  {
    hide HeaderEnd, SplitBody;
    forall v: UploadState | v.state == MP_BODY && v.stream != GOOD ensures Derailed(SplitBody(v, true)) {
      DerailedSplit(v);
    }
  }

  lemma DerailedSplit(u: UploadState)
    requires u.state == MP_BODY && u.stream != GOOD
    ensures SplitBody(u, true).state == MP_BODY && SplitBody(u, true).stream != GOOD
  {
    hide Find, FinalDelim;
  }

  // ---------------------------------------------------------------------------
  // Plain fixed-length uploads
  // ---------------------------------------------------------------------------

  /** Reads are written until nothing remains; also the bytes that were not taken, which go to the request parser. */
  function FeedPlainAll(u: UploadState, pieces: seq<string>): (UploadState, string)
    decreases |pieces|
  {
    if pieces == [] then (u, "")
    else if u.remaining == 0 then (u, Concat(pieces))
    else
      var taken := Min(|pieces[0]|, u.remaining);
      var (v, left) := FeedPlainAll(FeedPlain(u, pieces[0], true).0, pieces[1..]);
      (v, pieces[0][taken..] + left)
  }

  /** The file has received the first bytes of `all` up to the declared length, and the others are left. */
  predicate WrittenPlain(u: UploadState, all: string, v: UploadState, left: string) {
    var n := Min(|all|, u.remaining);
    && v == u.(file := u.file + all[..n], remaining := u.remaining - n, uploaded := u.uploaded + n)
    && left == all[n..]
  }

  /**
   * The file receives exactly the next bytes up to the declared length, however they are cut; no byte is lost or
   * doubled.
   */
  lemma {:induction false} PlainUpload(u: UploadState, pieces: seq<string>)
    requires u.stream == GOOD && u.uploaded + u.remaining <= MAX_CONT_LEN
    ensures var (v, left) := FeedPlainAll(u, pieces); WrittenPlain(u, Concat(pieces), v, left)
    decreases |pieces|
  {
    hide WriteBody, FeedPlain, WrittenPlain, Concat;
    if pieces == [] || u.remaining == 0 {
      PlainEnd(u, pieces);
    } else {
      var w := FeedPlain(u, pieces[0], true).0;
      PlainStep(u, pieces[0]);
      PlainUpload(w, pieces[1..]);
      var (v, left) := FeedPlainAll(w, pieces[1..]);
      PlainCons(u, w, pieces[0], Concat(pieces[1..]), v, left);
      ConcatCons(pieces);
    }
  }

  lemma ConcatCons(pieces: seq<string>)
    requires pieces != []
    ensures Concat(pieces) == pieces[0] + Concat(pieces[1..])
  {}

  lemma PlainEnd(u: UploadState, pieces: seq<string>)
    requires pieces == [] || u.remaining == 0
    ensures WrittenPlain(u, Concat(pieces), u, if pieces == [] then "" else Concat(pieces))
  {
    var all := Concat(pieces);
    assert u.file + "" == u.file && all[..0] == "" && all[0..] == all;
  }

  lemma PlainCons(u: UploadState, w: UploadState, piece: string, rest: string, v: UploadState, left: string)
    requires var n := Min(|piece|, u.remaining);
             w == u.(file := u.file + piece[..n], remaining := u.remaining - n, uploaded := u.uploaded + n)
    requires WrittenPlain(w, rest, v, left)
    ensures WrittenPlain(u, piece + rest, v, piece[Min(|piece|, u.remaining)..] + left)
  {
    PlainJoin(u, piece, rest, Min(|piece|, u.remaining));
  }

  lemma PlainStep(u: UploadState, piece: string)
    requires u.stream == GOOD && u.uploaded + u.remaining <= MAX_CONT_LEN
    ensures var n := Min(|piece|, u.remaining);
            FeedPlain(u, piece, true).0 ==
            u.(file := u.file + piece[..n], remaining := u.remaining - n, uploaded := u.uploaded + n)
  {}

  lemma PlainJoin(u: UploadState, piece: string, rest: string, taken: nat)
    requires taken == Min(|piece|, u.remaining)
    ensures var n := Min(|piece + rest|, u.remaining);
            && taken <= n && n - taken == Min(|rest|, u.remaining - taken)
            && u.file + (piece + rest)[..n] == u.file + piece[..taken] + rest[..n - taken]
            && (piece + rest)[n..] == piece[taken..] + rest[n - taken..]
  {
    if taken == |piece| {
      var n := Min(|piece + rest|, u.remaining);
      assert (piece + rest)[..n] == piece + rest[..n - taken];
      assert piece[..taken] == piece;
    } else {
      assert (piece + rest)[..taken] == piece[..taken];
    }
  }

  // ---------------------------------------------------------------------------
  // Bodies as clients build them
  // ---------------------------------------------------------------------------

  /** A body of one part, with its header lines, and whatever follows the closing delimiter. */
  function Compose(boundary: string, headers: string, content: string, epilogue: string): string {
    "--" + boundary + CRLF + headers + BLANK_LINE + content + FinalDelim(boundary) + epilogue
  }

  function HeadOf(boundary: string, headers: string): nat { 2 + |boundary| + 2 + |headers| + 4 }

  /** Where the parts of such a body are. */
  lemma ComposedParts(boundary: string, headers: string, content: string, epilogue: string)
    ensures var whole, head := Compose(boundary, headers, content, epilogue), HeadOf(boundary, headers);
            && head + |content| + |boundary| + 6 <= |whole|
            && whole[2..] == boundary + CRLF + headers + BLANK_LINE + (content + FinalDelim(boundary) + epilogue)
            && whole[head..] == content + FinalDelim(boundary) + epilogue
            && whole[head..head + |content|] == content
  {
    var whole, head := Compose(boundary, headers, content, epilogue), HeadOf(boundary, headers);
    assert whole == "--" + (boundary + CRLF + headers + BLANK_LINE + (content + FinalDelim(boundary) + epilogue));
    assert whole == ("--" + boundary + CRLF + headers + BLANK_LINE) + (content + FinalDelim(boundary) + epilogue);
    assert |"--" + boundary + CRLF + headers + BLANK_LINE| == head;
  }

  /** The boundary line begins behind the two dashes, and nowhere earlier. */
  lemma MarkAtTwo(boundary: string, tail: string)
    requires '\r' !in boundary
    ensures Find("--" + (boundary + CRLF + tail), boundary + CRLF, 0) == Some(2)
  {
    var s, mark := "--" + (boundary + CRLF + tail), boundary + CRLF;
    FindIsFirst(s, mark, 0);
    hide Find;
    assert s[2..2 + |mark|] == mark;
    forall j | 0 <= j < 2 ensures !At(s, mark, j) {
      assert s[j + |boundary|] == if j + |boundary| < 2 then '-' else boundary[j + |boundary| - 2];
      if At(s, mark, j) {
        AtChar(s, mark, j, |boundary|);
      }
    }
    assert IsFirst(s, mark, 0, Some(2));
  }

  /** The blank line behind the header lines is the first one behind the boundary. */
  lemma BlankBehindMark(boundary: string, headers: string, tail: string)
    requires Find(boundary + CRLF + headers + BLANK_LINE, BLANK_LINE, 0) == Some(|boundary| + 2 + |headers|)
    ensures Find("--" + (boundary + CRLF + headers + BLANK_LINE + tail), BLANK_LINE, 2)
            == Some(2 + |boundary| + 2 + |headers|)
  {
    hide Find;
    var t := boundary + CRLF + headers + BLANK_LINE;
    FindExtend(t, tail, BLANK_LINE, 0);
    FindBehind("--", t + tail, BLANK_LINE, |boundary| + 2 + |headers|);
  }

  lemma Regroup(a: string, b: string, c: string, d: string, e: string)
    ensures a + b + c + d + e == a + b + (c + d + e)
  {}

  lemma HeaderEndIs(buffer: string, boundary: string, start: nat, end: nat)
    requires Find(buffer, boundary + CRLF, 0) == Some(start) && Find(buffer, BLANK_LINE, start) == Some(end)
    ensures HeaderEnd(buffer, boundary) == Some(end + 4)
  {
    hide Find;
  }

  lemma ComposedMark(boundary: string, headers: string, rest: string)
    requires '\r' !in boundary
    ensures Find("--" + (boundary + CRLF + headers + BLANK_LINE + rest), boundary + CRLF, 0) == Some(2)
  {
    hide Find;
    Regroup(boundary, CRLF, headers, BLANK_LINE, rest);
    MarkAtTwo(boundary, headers + BLANK_LINE + rest);
  }

  lemma {:induction false} ComposedHead(boundary: string, headers: string, rest: string)
    requires '\r' !in boundary
    requires Find(boundary + CRLF + headers + BLANK_LINE, BLANK_LINE, 0) == Some(|boundary| + 2 + |headers|)
    ensures HeaderEnd("--" + (boundary + CRLF + headers + BLANK_LINE + rest), boundary)
            == Some(HeadOf(boundary, headers))
  {
    hide Find, HeaderEnd;
    ComposedMark(boundary, headers, rest);
    BlankBehindMark(boundary, headers, rest);
    HeaderEndIs("--" + (boundary + CRLF + headers + BLANK_LINE + rest), boundary, 2, 2 + |boundary| + 2 + |headers|);
  }

  lemma DelimParts(content: string, boundary: string, epilogue: string)
    ensures var rest := content + FinalDelim(boundary) + epilogue;
            && content + CRLF + "--" + boundary + ("--" + epilogue) == rest
            && At(rest, FinalDelim(boundary), |content|)
  {
    var rest := content + FinalDelim(boundary) + epilogue;
    assert rest[|content|..|content| + |FinalDelim(boundary)|] == FinalDelim(boundary);
  }

  lemma ComposedContent(boundary: string, content: string, epilogue: string)
    requires Find(content + CRLF + "--" + boundary, boundary, 0) == Some(|content| + 4)
    ensures var rest := content + FinalDelim(boundary) + epilogue;
            Find(rest, boundary, 0) == Some(|content| + 4) && At(rest, FinalDelim(boundary), |content|)
  {
    hide Find;
    FindExtend(content + CRLF + "--" + boundary, "--" + epilogue, boundary, 0);
    DelimParts(content, boundary, epilogue);
  }

  /**
   * A body built as section 5.1.1 of RFC 2046 says is a one-part body with that content, if its header lines hold no
   * blank line and its content no boundary.
   */
  lemma ComposedIsOnePart(boundary: string, headers: string, content: string, epilogue: string)
    requires '\r' !in boundary
    requires Find(boundary + CRLF + headers + BLANK_LINE, BLANK_LINE, 0) == Some(|boundary| + 2 + |headers|)
    requires Find(content + CRLF + "--" + boundary, boundary, 0) == Some(|content| + 4)
    ensures OnePart(Compose(boundary, headers, content, epilogue), boundary, HeadOf(boundary, headers), content)
  {
    hide Find, Compose, FinalDelim, HeaderEnd, At;
    ComposedParts(boundary, headers, content, epilogue);
    ComposedWhole(boundary, headers, content, epilogue);
    ComposedHead(boundary, headers, content + FinalDelim(boundary) + epilogue);
    ComposedContent(boundary, content, epilogue);
  }

  lemma ComposedWhole(boundary: string, headers: string, content: string, epilogue: string)
    ensures Compose(boundary, headers, content, epilogue)
            == "--" + (boundary + CRLF + headers + BLANK_LINE + (content + FinalDelim(boundary) + epilogue))
  {}

  /**
   * Such a body, uploaded in reads of which none ends between the boundary and the end of its closing dashes, leaves
   * exactly its content in the file.
   */
  lemma ComposedUpload(boundary: string, headers: string, content: string, epilogue: string, pieces: seq<string>)
    requires '\r' !in boundary
    requires Find(boundary + CRLF + headers + BLANK_LINE, BLANK_LINE, 0) == Some(|boundary| + 2 + |headers|)
    requires Find(content + CRLF + "--" + boundary, boundary, 0) == Some(|content| + 4)
    requires var whole := Compose(boundary, headers, content, epilogue);
             Concat(pieces) == whole && |whole| <= MAX_CONT_LEN
    ensures var u := FeedAll(FreshUpload(boundary, |Concat(pieces)|), pieces);
            && (u.state == MP_END <==> ClearCuts(boundary, HeadOf(boundary, headers), content, 0, pieces))
            && (u.state == MP_END ==> u.file == content && u.stream == CLOSED && u.error == None)
  {
    hide Find, Compose, OnePart, FeedAll, Concat, ClearCuts;
    ComposedIsOnePart(boundary, headers, content, epilogue);
    OnePartUpload(Compose(boundary, headers, content, epilogue), boundary, HeadOf(boundary, headers), content, pieces);
  }
}
