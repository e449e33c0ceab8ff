/**
 * Request bodies on their way to a file: the incremental chunked decoder, the multipart splitter, fixed-length bodies.
 */
module Upload {
  import opened Http
  import opened Text
  import opened Connection
  import opened EventPolling
  import opened ChunkedCoding
  import opened Multipart

  // ---------------------------------------------------------------------------
  // processChunkedBody
  // ---------------------------------------------------------------------------

  /**
   * Buffer a read and decode every complete chunk. The end of a chunk is computed in 64 bits; that it never lies in
   * front of the buffer is all that is asked.
   */
  method ProcessChunkedBody(poller: EventPoller, conn: ClientCon, buffer: string)
    returns (decoded: string, state: ParseState)
    requires InBounds(conn.chunkBuf + buffer)
    modifies conn`chunkBuf, conn`uploadedBytes, conn`responseOut, conn`resReady, conn`keepAlive, conn`lastError,
             poller`interest
    ensures var all := old(conn.chunkBuf) + buffer;
            var d := Decode(all);
            && state == d.state
            && decoded == (if state == ERROR then "" else d.out)
            && conn.chunkBuf == d.rest
            && conn.uploadedBytes == Wrap(old(conn.uploadedBytes) + Announced(all))
    ensures state == ERROR ==>
              && conn.responseOut == conn.errorPage(BAD_REQUEST, conn.keepAlive) && conn.resReady
              && conn.keepAlive == (old(conn.keepAlive) && conn.hasServConf)
              && conn.lastError == Some(BAD_REQUEST) && poller.interest == old(poller.interest)[conn.fd := WRITABLE]
    ensures state != ERROR ==>
              && poller.interest == old(poller.interest)
              && conn.responseOut == old(conn.responseOut) && conn.resReady == old(conn.resReady)
              && conn.lastError == old(conn.lastError) && conn.keepAlive == old(conn.keepAlive)
  {
    hide Decode, InBounds, HeadInBounds, NextStep, StoulHex, Find, Prepend, Announced, Taken, Behind, Takes;
    hide Wrap;
    PrependLeaf(Decode(conn.chunkBuf + buffer));
    decoded := "";
    conn.chunkBuf := conn.chunkBuf + buffer;
    state := BODY;
    ghost var whole: string, counted: nat := conn.chunkBuf, 0;
    WrapOnce(conn.uploadedBytes);
    while true
      invariant state == BODY && InBounds(conn.chunkBuf)
      invariant Decode(whole) == Prepend(decoded, Decode(conn.chunkBuf))
      invariant Announced(whole) == counted + Announced(conn.chunkBuf)
      invariant conn.uploadedBytes == Wrap(old(conn.uploadedBytes) + counted)
      invariant conn.responseOut == old(conn.responseOut) && conn.resReady == old(conn.resReady)
      invariant conn.lastError == old(conn.lastError) && conn.keepAlive == old(conn.keepAlive)
      invariant poller.interest == old(poller.interest)
      decreases |conn.chunkBuf|
    {
      var buf := conn.chunkBuf;
      DecodeCases(buf);
      PrependParts(decoded, Decode(buf));
      var crlf := Find(buf, CRLF, 0);
      if crlf == None {
        break;
      }
      var line := crlf.value;
      var size := StoulHex(buf[..line]);
      if size == None {
        conn.FallbackError(poller, BAD_REQUEST);
        state := ERROR;
        return "", state;
      }
      var chunkSize := size.value;
      if chunkSize == 0 {
        if |buf| < line + 4 {
          break;
        }
        conn.chunkBuf := buf[line + 4..];
        state := COMPLETE;
        break;
      }
      StepCases(buf, line, chunkSize);
      if |buf| < Wrap(line + 2 + chunkSize + 2) {
        break;
      }
      var end := Wrap(line + 2 + chunkSize);
      if buf[end] != '\r' || buf[end + 1] != '\n' {
        conn.FallbackError(poller, BAD_REQUEST);
        state := ERROR;
        return "", state;
      }
      PrependTwice(decoded, Taken(buf), Decode(Behind(buf)));
      decoded := decoded + buf[line + 2..Min(line + 2 + chunkSize, |buf|)];
      WrapSum(old(conn.uploadedBytes) + counted, chunkSize);
      conn.uploadedBytes := Wrap(conn.uploadedBytes + chunkSize);
      counted := counted + chunkSize;
      conn.chunkBuf := buf[Wrap(line + 2 + chunkSize + 2)..];
    }
  }

  /** One round of the loop, seen from the specification. */
  lemma DecodeCases(buf: string)
    requires InBounds(buf)
    ensures HeadInBounds(buf) && |buf| <= MAX_STRING
    ensures Takes(buf) ==> InBounds(Behind(buf)) && Decode(buf) == Prepend(Taken(buf), Decode(Behind(buf)))
    ensures NextStep(buf).Wait? || NextStep(buf).Bad? || NextStep(buf).Last? ==> Announced(buf) == 0
    ensures NextStep(buf).Wait? ==> Decode(buf) == Decoded("", buf, BODY)
    ensures NextStep(buf).Bad? ==> Decode(buf) == Decoded("", buf, ERROR)
    ensures NextStep(buf).Last? ==> Decode(buf) == Decoded("", buf[NextStep(buf).used..], COMPLETE)
    ensures var crlf := Find(buf, CRLF, 0);
            if crlf == None then NextStep(buf) == Wait else
            && crlf.value + 2 <= |buf|
            && var size := StoulHex(buf[..crlf.value]);
            if size == None then NextStep(buf) == Bad
            else if size.value == 0 then NextStep(buf) == if |buf| < crlf.value + 4 then Wait else Last(crlf.value + 4)
            else true
  {
    hide HeadInBounds, StoulHex, Find;
  }

  /** The guards of the loop, which are evaluated in 64 bits, are the cases of NextStep for a size that is not 0. */
  lemma StepCases(buf: string, line: nat, size: nat)
    requires |buf| <= MAX_STRING && HeadInBounds(buf)
    requires Find(buf, CRLF, 0) == Some(line) && StoulHex(buf[..line]) == Some(size) && size > 0
    ensures line + 2 <= |buf| && Guarded(buf, line, size, Wrap(line + 2 + size), Wrap(line + 2 + size + 2))
  {
    hide StoulHex, Find, HeadInBounds, Wrap, Guarded;
    OwnBreak(buf, line);
    WrapOnce(line + 2 + size);
    WrapOnce(line + 2 + size + 2);
    if line + 2 + size + 2 < TWO_64 {
      PlainCases(buf, line, size, Wrap(line + 2 + size), Wrap(line + 2 + size + 2));
    } else {
      WrappedCases(buf, line, size, Wrap(line + 2 + size), Wrap(line + 2 + size + 2));
    }
  }

  /** The guards at one set of numbers. */
  ghost predicate Guarded(buf: string, line: nat, size: nat, end: nat, used: nat)
    requires line + 2 <= |buf|
  {
    if |buf| < used then NextStep(buf) == Wait
    else
      && end < |buf| && (buf[end] == '\r' ==> end + 1 < |buf|)
      && if buf[end] != '\r' || buf[end + 1] != '\n' then NextStep(buf) == Bad
         else
           && Takes(buf) && Taken(buf) == buf[line + 2..Min(line + 2 + size, |buf|)] && Behind(buf) == buf[used..]
           && Announced(buf) == size + Announced(Behind(buf))
  }

  lemma PlainCases(buf: string, line: nat, size: nat, end: nat, used: nat)
    requires Find(buf, CRLF, 0) == Some(line) && StoulHex(buf[..line]) == Some(size) && line + 2 <= |buf|
    requires 0 < size && line + 2 + size + 2 < TWO_64 && end == line + 2 + size && used == end + 2
    ensures Guarded(buf, line, size, end, used)
  {
    hide StoulHex, Find;
  }

  /**
   * Where the sum wraps, the end of the chunk is looked for in the size line, which holds no line break but its own.
   */
  lemma WrappedCases(buf: string, line: nat, size: nat, end: nat, used: nat)
    requires HeadInBounds(buf) && line + 2 <= |buf| <= MAX_STRING
    requires Find(buf, CRLF, 0) == Some(line) && StoulHex(buf[..line]) == Some(size)
    requires line + 2 + size + 2 >= TWO_64
    requires TWO_64 <= line + 2 + size ==> end == line + 2 + size - TWO_64 && used == end + 2
    ensures Guarded(buf, line, size, end, used)
  {
    hide StoulHex, Find;
    OwnBreak(buf, line);
    if end < line {
      NoBreak(buf, line, end);
    }
  }

  /** The line break that ends a size line. */
  lemma OwnBreak(buf: string, line: nat)
    requires Find(buf, CRLF, 0) == Some(line)
    ensures line + 2 <= |buf| && buf[line] == '\r' && buf[line + 1] == '\n'
  {
    FindAt(buf, CRLF, 0);
    hide Find;
    AtChar(buf, CRLF, line, 0);
    AtChar(buf, CRLF, line, 1);
  }

  /** There is no other line break before it. */
  lemma NoBreak(buf: string, line: nat, j: nat)
    requires Find(buf, CRLF, 0) == Some(line) && j < line && line + 2 <= |buf|
    ensures buf[j] != '\r' || buf[j + 1] != '\n'
  {
    hide Find;
    if buf[j] == '\r' && buf[j + 1] == '\n' {
      assert At(buf, CRLF, j);
      FindLe(buf, CRLF, 0, j);
      assert false;
    }
  }

  lemma PrependLeaf(d: Decoded)
    ensures Prepend("", d) == d
  {
    assert "" + d.out == d.out;
  }

  lemma PrependParts(data: string, d: Decoded)
    ensures var p := Prepend(data, d); p.rest == d.rest && p.state == d.state && |p.out| == |data| + |d.out|
    ensures d.out == "" ==> Prepend(data, d).out == data
  {}

  lemma PrependTwice(a: string, b: string, d: Decoded)
    ensures Prepend(a, Prepend(b, d)) == Prepend(a + b, d)
  {
    assert a + (b + d.out) == (a + b) + d.out;
  }

  // ---------------------------------------------------------------------------
  // processBody and the writers below it
  // ---------------------------------------------------------------------------

  ghost function View(conn: ClientCon): UploadState
    reads conn
  {
    UploadState(conn.boundary, conn.mpBuffer, conn.multipartState, conn.mpPart, conn.uploadFile, conn.uploadStream,
                conn.uploadBytesRemaining, conn.uploadedBytes, conn.lastError)
  }

  /** An error response has been queued, and waits to be sent. */
  twostate predicate Reported(poller: EventPoller, conn: ClientCon)
    reads poller, conn
  {
    && conn.resReady && conn.lastError.Some?
    && conn.responseOut == conn.errorPage(conn.lastError.value, conn.keepAlive)
    && poller.interest == old(poller.interest)[conn.fd := WRITABLE]
  }

  twostate predicate NotReported(poller: EventPoller, conn: ClientCon)
    reads poller, conn
  {
    && conn.responseOut == old(conn.responseOut) && conn.resReady == old(conn.resReady)
    && conn.lastError == old(conn.lastError) && conn.keepAlive == old(conn.keepAlive)
    && poller.interest == old(poller.interest)
  }

  method WriteBody(poller: EventPoller, conn: ClientCon, str: string, len: nat, diskOk: bool) returns (ok: bool)
    requires len <= |str|
    modifies conn`uploadFile, conn`uploadStream, conn`uploadBytesRemaining, conn`uploadedBytes,
             conn`responseOut, conn`resReady, conn`keepAlive, conn`lastError,
             poller`interest
    ensures (View(conn), ok) == Multipart.WriteBody(old(View(conn)), str, len, diskOk)
    ensures if ok then NotReported(poller, conn) else Reported(poller, conn)
  {
    if Wrap(conn.uploadedBytes + len) > MAX_CONT_LEN {
      conn.FallbackError(poller, PAYLOAD_TOO_LARGE);
      conn.uploadStream, conn.uploadFile := CLOSED, "";
      return false;
    }
    if conn.uploadStream == GOOD && diskOk {
      conn.uploadFile := conn.uploadFile + str[..len];
    } else {
      conn.uploadStream, conn.uploadFile := CLOSED, "";
      conn.FallbackError(poller, INTERNAL_SERVER_ERROR);
      return false;
    }
    conn.uploadBytesRemaining := (conn.uploadBytesRemaining - len) % TWO_64;
    conn.uploadedBytes := Wrap(conn.uploadedBytes + len);
    return true;
  }

  method OpenUploadFile(poller: EventPoller, conn: ClientCon, diskOk: bool) returns (ok: bool)
    modifies conn`uploadFile, conn`uploadStream, conn`responseOut, conn`resReady, conn`keepAlive, conn`lastError,
             poller`interest
    ensures (View(conn), ok) == Multipart.OpenUploadFile(old(View(conn)), diskOk)
    ensures if ok then NotReported(poller, conn) else Reported(poller, conn)
  {
    if conn.uploadStream != CLOSED {
      conn.uploadStream := FAILED;
    } else if diskOk {
      conn.uploadStream, conn.uploadFile := GOOD, "";
    } else {
      conn.FallbackError(poller, INTERNAL_SERVER_ERROR);
      return false;
    }
    return true;
  }

  method ParseMultipart(poller: EventPoller, conn: ClientCon, body: string, toWrite: nat, diskOk: bool)
    requires toWrite <= |body|
    modifies conn`mpBuffer, conn`multipartState, conn`mpPart, conn`uploadFile, conn`uploadStream,
             conn`uploadBytesRemaining, conn`uploadedBytes, conn`responseOut, conn`resReady, conn`keepAlive,
             conn`lastError, poller`interest
    ensures View(conn) == Multipart.ParseMultipart(old(View(conn)), body, toWrite, diskOk)
    ensures NotReported(poller, conn) || Reported(poller, conn)
  {
    hide HeaderEnd, Multipart.SplitBody;
    conn.mpBuffer := conn.mpBuffer + body[..toWrite];
    if conn.multipartState == MP_BOUNDARY {
      conn.multipartState := MP_HEADER;
      conn.mpPart := conn.mpPart + 1;
    }
    if conn.multipartState == MP_HEADER {
      var endH := HeaderEnd(conn.mpBuffer, conn.boundary);
      if endH == None {
        return;
      }
      conn.mpBuffer := conn.mpBuffer[endH.value..];
      conn.multipartState := MP_BODY;
      var isOpen := OpenUploadFile(poller, conn, diskOk);
      if !isOpen {
        return;
      }
    }
    if conn.multipartState == MP_BODY {
      SplitBody(poller, conn, diskOk);
    }
  }

  /** Write what cannot be part of a delimiter, and keep the rest. */
  method KeepGuard(poller: EventPoller, conn: ClientCon, diskOk: bool)
    modifies conn`mpBuffer, conn`uploadFile, conn`uploadStream, conn`uploadBytesRemaining, conn`uploadedBytes,
             conn`responseOut, conn`resReady, conn`keepAlive, conn`lastError, poller`interest
    ensures View(conn) == Multipart.KeepGuard(old(View(conn)), diskOk)
    ensures NotReported(poller, conn) || Reported(poller, conn)
  {
    hide Multipart.WriteBody;
    var guard := |conn.boundary| + 4;
    if |conn.mpBuffer| > guard {
      var safe := |conn.mpBuffer| - guard;
      var ok := WriteBody(poller, conn, conn.mpBuffer, safe, diskOk);
      if !ok {
        return;
      }
      conn.mpBuffer := conn.mpBuffer[safe..];
    }
  }

  method SplitBody(poller: EventPoller, conn: ClientCon, diskOk: bool)
    modifies conn`mpBuffer, conn`multipartState, conn`uploadFile, conn`uploadStream,
             conn`uploadBytesRemaining, conn`uploadedBytes, conn`responseOut, conn`resReady, conn`keepAlive,
             conn`lastError, poller`interest
    ensures View(conn) == Multipart.SplitBody(old(View(conn)), diskOk)
    ensures NotReported(poller, conn) || Reported(poller, conn)
  {
    hide Find, FinalDelim, Multipart.WriteBody, Multipart.KeepGuard;
    var finalPos := Find(conn.mpBuffer, FinalDelim(conn.boundary), 0);
    if finalPos.Some? {
      var ok := WriteBody(poller, conn, conn.mpBuffer, finalPos.value, diskOk);
      if !ok {
        return;
      }
      conn.uploadStream := CLOSED;
      conn.multipartState := MP_END;
      conn.mpBuffer := "";
      return;
    }
    var pos := Find(conn.mpBuffer, conn.boundary, 0);
    if pos.Some? {
      var ok := WriteBody(poller, conn, conn.mpBuffer, pos.value, diskOk);
      if !ok {
        return;
      }
      conn.mpBuffer := conn.mpBuffer[Min(pos.value + 2, |conn.mpBuffer|)..];
      conn.multipartState := MP_BOUNDARY;
    }
    KeepGuard(poller, conn, diskOk);
  }

  /** The first `len` bytes of an upload go to the splitter or to the file. */
  method SplitOrWrite(poller: EventPoller, conn: ClientCon, data: string, len: nat, diskOk: bool) returns (ok: bool)
    requires len <= |data|
    modifies conn`mpBuffer, conn`multipartState, conn`mpPart, conn`uploadFile, conn`uploadStream,
             conn`uploadBytesRemaining, conn`uploadedBytes, conn`responseOut, conn`resReady, conn`keepAlive,
             conn`lastError, poller`interest
    ensures NotReported(poller, conn) || Reported(poller, conn)
    ensures conn.mpFlag ==> ok && View(conn) == Multipart.ParseMultipart(old(View(conn)), data, len, diskOk)
    ensures !conn.mpFlag ==> (View(conn), ok) == Multipart.WriteBody(old(View(conn)), data, len, diskOk)
  {
    hide Multipart.ParseMultipart, Multipart.WriteBody;
    if conn.mpFlag {
      ParseMultipart(poller, conn, data, len, diskOk);
      ok := true;
    } else {
      ok := WriteBody(poller, conn, data, len, diskOk);
    }
  }

  /** One read of a chunked upload. */
  method ProcessDecoded(poller: EventPoller, conn: ClientCon, str: string, diskOk: bool)
    returns (ok: bool, state: ParseState)
    requires InBounds(conn.chunkBuf + str)
    modifies conn`chunkBuf, conn`mpBuffer, conn`multipartState, conn`mpPart, conn`uploadFile, conn`uploadStream,
             conn`uploadBytesRemaining, conn`uploadedBytes, conn`responseOut, conn`resReady, conn`keepAlive,
             conn`lastError, poller`interest
    ensures NotReported(poller, conn) || Reported(poller, conn)
    ensures var all := old(conn.chunkBuf) + str;
            var d := Decode(all);
            var u := old(View(conn)).(uploaded := Wrap(old(conn.uploadedBytes) + Announced(all)));
            && state == d.state && conn.chunkBuf == d.rest
            && if state == ERROR then
                 !ok && View(conn) == u.(file := "", stream := CLOSED, error := Some(BAD_REQUEST))
               else if conn.mpFlag then ok && View(conn) == Multipart.ParseMultipart(u, d.out, |d.out|, diskOk)
               else (View(conn), ok) == Multipart.WriteBody(u, d.out, |d.out|, diskOk)
  {
    hide Decode, InBounds, Announced, Multipart.ParseMultipart, Multipart.WriteBody;
    var processed;
    processed, state := ProcessChunkedBody(poller, conn, str);
    if state == ERROR {
      conn.uploadStream, conn.uploadFile := CLOSED, "";
      return false, state;
    }
    ok := SplitOrWrite(poller, conn, processed, |processed|, diskOk);
  }

  /**
   * One read of an upload: decode it if it is chunked, bound it by the declared length if not, then split or write it.
   */
  method ProcessBody(poller: EventPoller, conn: ClientCon, str: string, diskOk: bool)
    returns (ok: bool, state: ParseState, toWrite: nat)
    requires conn.chunked ==> InBounds(conn.chunkBuf + str)
    modifies conn`chunkBuf, conn`mpBuffer, conn`multipartState, conn`mpPart, conn`uploadFile, conn`uploadStream,
             conn`uploadBytesRemaining, conn`uploadedBytes, conn`responseOut, conn`resReady, conn`keepAlive,
             conn`lastError, poller`interest
    ensures NotReported(poller, conn) || Reported(poller, conn)
    ensures !conn.chunked ==>
              toWrite == Min(|str|, old(conn.uploadBytesRemaining)) && conn.chunkBuf == old(conn.chunkBuf)
    ensures !conn.chunked && conn.mpFlag ==> ok && View(conn) == FeedMultipart(old(View(conn)), str, diskOk)
    ensures !conn.chunked && !conn.mpFlag ==> (View(conn), ok) == FeedPlain(old(View(conn)), str, diskOk)
    ensures conn.chunked ==>
              var all := old(conn.chunkBuf) + str;
              var d := Decode(all);
              var u := old(View(conn)).(uploaded := Wrap(old(conn.uploadedBytes) + Announced(all)));
              && state == d.state && conn.chunkBuf == d.rest && toWrite == 0
              && if state == ERROR then
                   !ok && View(conn) == u.(file := "", stream := CLOSED, error := Some(BAD_REQUEST))
                 else if conn.mpFlag then ok && View(conn) == Multipart.ParseMultipart(u, d.out, |d.out|, diskOk)
                 else (View(conn), ok) == Multipart.WriteBody(u, d.out, |d.out|, diskOk)
  {
    hide Decode, InBounds, Announced, Reported, NotReported, Multipart.ParseMultipart, Multipart.WriteBody;
    state := BODY;
    toWrite := 0;
    if conn.chunked {
      ok, state := ProcessDecoded(poller, conn, str, diskOk);
    } else {
      toWrite := Min(|str|, conn.uploadBytesRemaining);
      ok := SplitOrWrite(poller, conn, str, toWrite, diskOk);
    }
  }
}
