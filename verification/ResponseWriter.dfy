/** Writing a response: queued bytes, then a static file block by block, under any partial sends and short reads. */
module ResponseWriting {
  import opened Text
  import opened Connection

  const INT_MAX: nat := 2147483647

  /** What becomes of a connection after one writable event. */
  datatype Outcome = Keep | Drained | Broken

  /** The streaming state is consistent: the buffer indices are in range and the file is accounted for. */
  ghost predicate FileOk(c: ClientCon)
    reads c`fileStreamActive, c`fileBytesRemaining, c`fileBufLen, c`fileBufOff, c`fileData, c`fileRead
  {
    && c.fileBuf.Length == FILE_BUF_SIZE && c.fileBufOff <= c.fileBufLen <= FILE_BUF_SIZE
    && c.fileRead + c.fileBytesRemaining == |c.fileData|
    && (!c.fileStreamActive ==> c.fileBufLen == 0 && c.fileBytesRemaining == 0)
  }

  function Unsent(out: string, sent: nat): string { if sent < |out| then out[sent..] else "" }

  /** Everything that is still to be sent: the queue, the buffered block, and the part of the file not read yet. */
  ghost function Pending(c: ClientCon): string
    requires FileOk(c)
    reads c`responseOut, c`sent, c`fileBufOff, c`fileBufLen, c`fileData, c`fileRead, c`fileStreamActive
    reads c`fileBytesRemaining, c.fileBuf
  {
    Unsent(c.responseOut, c.sent) + c.fileBuf[c.fileBufOff..c.fileBufLen] + c.fileData[c.fileRead..]
  }

  /** The current response as a whole: what the peer has been sent of it, and what is still to be sent. */
  ghost function Whole(c: ClientCon): string
    requires FileOk(c)
    reads c`wire, c`responseOut, c`sent, c`fileBufOff, c`fileBufLen, c`fileData, c`fileRead, c`fileStreamActive
    reads c`fileBytesRemaining, c.fileBuf
  {
    c.wire + Pending(c)
  }

  /** A successful send of `n` bytes of the queue. */
  method SendQueued(c: ClientCon, n: nat)
    requires FileOk(c) && c.sent < |c.responseOut| && 0 < n <= |c.responseOut| - c.sent && n <= INT_MAX
    modifies c`sent, c`wire
    ensures c.sent == old(c.sent) + n && c.wire == old(c.wire) + c.responseOut[old(c.sent)..c.sent]
    ensures c.wire == old(c.wire) + old(Pending(c))[..n] && Whole(c) == old(Whole(c))
    ensures |c.wire| == old(|c.wire|) + n
  {
    ghost var tail := c.fileBuf[c.fileBufOff..c.fileBufLen] + c.fileData[c.fileRead..];
    SplitQueue(c.responseOut, c.sent, n, tail, c.wire);
    assert Pending(c) == Unsent(c.responseOut, c.sent) + tail;
    c.wire := c.wire + c.responseOut[c.sent..c.sent + n];
    c.sent := c.sent + n;
    assert Pending(c) == Unsent(c.responseOut, c.sent) + tail;
  }

  lemma SplitQueue(out: string, sent: nat, n: nat, tail: string, wire: string)
    requires sent < |out| && n <= |out| - sent
    ensures out[sent..sent + n] == (Unsent(out, sent) + tail)[..n]
    ensures wire + out[sent..sent + n] + (Unsent(out, sent + n) + tail) == wire + (Unsent(out, sent) + tail)
  {
    hide Unsent;
    UnsentParts(out, sent, n);
    Regrouped(wire, out[sent..sent + n], Unsent(out, sent + n), tail);
  }

  lemma UnsentParts(out: string, sent: nat, n: nat)
    requires sent < |out| && n <= |out| - sent
    ensures Unsent(out, sent) == out[sent..sent + n] + Unsent(out, sent + n)
  {}

  lemma Regrouped(a: string, b: string, c: string, d: string)
    ensures a + b + (c + d) == a + (b + c + d) && (b + c + d)[..|b|] == b
  {}

  /** The queue has been sent. */
  method ClearQueue(c: ClientCon)
    requires FileOk(c) && c.sent >= |c.responseOut|
    modifies c`responseOut, c`sent
    ensures c.responseOut == "" && c.sent == 0 && Pending(c) == old(Pending(c))
  {
    c.responseOut, c.sent := "", 0;
  }

  method ResetStaticFileStream(c: ClientCon)
    requires FileOk(c)
    modifies c`fileStreamActive, c`fileBytesRemaining, c`fileBufLen, c`fileBufOff, c`fileData, c`fileRead
    ensures FileOk(c) && !c.fileStreamActive && c.fileData == "" && c.fileRead == 0
    ensures c.fileBytesRemaining == c.fileBufLen == c.fileBufOff == 0
  {
    c.fileStreamActive, c.fileBytesRemaining, c.fileBufLen, c.fileBufOff := false, 0, 0, 0;
    c.fileData, c.fileRead := "", 0;
  }

  /**
   * Begin a static response: `file` is what open and fstat find, or the status for which they fail.
   * Only a regular file is streamed.
   */
  method StartStaticFileStream(c: ClientCon, file: Option<string>, status: int, head: nat -> string,
                               errorResponse: int -> string)
    requires FileOk(c)
    modifies c`fileStreamActive, c`fileBytesRemaining, c`fileBufLen, c`fileBufOff, c`fileData, c`fileRead
    modifies c`responseOut, c`sent, c`resReady, c`closeAfterSend, c`wire
    ensures FileOk(c) && c.wire == "" && c.resReady && !c.closeAfterSend && c.sent == 0
    ensures Pending(c) == if file.Some? then head(|file.value|) + file.value else errorResponse(status)
    ensures c.fileStreamActive <==> file.Some?
  {
    hide Pending;
    ResetStaticFileStream(c);
    c.responseOut, c.sent, c.resReady, c.closeAfterSend, c.wire := "", 0, false, false, "";
    if file == None {
      c.responseOut := errorResponse(status);
      c.resReady := true;
      NothingBuffered(c);
      assert errorResponse(status) + "" == errorResponse(status);
      return;
    }
    c.responseOut := head(|file.value|);
    c.resReady := true;
    c.fileStreamActive := true;
    c.fileBytesRemaining := |file.value|;
    c.fileData, c.fileRead := file.value, 0;
    NothingBuffered(c);
  }

  lemma NothingBuffered(c: ClientCon)
    requires FileOk(c) && c.sent == 0 && c.fileBufOff == c.fileBufLen && c.fileRead == 0
    ensures Pending(c) == c.responseOut + c.fileData
  {
    assert c.fileBuf[c.fileBufOff..c.fileBufLen] == "";
  }

  /** One successful read of file bytes into the empty buffer. */
  method FillBuffer(c: ClientCon, data: string)
    requires FileOk(c) && c.fileStreamActive && c.fileBufOff == c.fileBufLen
    requires 0 < |data| <= c.fileBytesRemaining && |data| <= FILE_BUF_SIZE
    requires data == c.fileData[c.fileRead..c.fileRead + |data|]
    modifies c`fileBytesRemaining, c`fileBufLen, c`fileBufOff, c`fileRead, c.fileBuf
    ensures FileOk(c) && Pending(c) == old(Pending(c))
    ensures c.fileBufOff == 0 && c.fileBufLen == |data| && c.fileBytesRemaining == old(c.fileBytesRemaining) - |data|
  {
    ghost var queue := Unsent(c.responseOut, c.sent);
    assert c.fileData[c.fileRead..] == data + c.fileData[c.fileRead + |data|..];
    assert Pending(c) == queue + (data + c.fileData[c.fileRead + |data|..]);
    forall i | 0 <= i < |data| {
      c.fileBuf[i] := data[i];
    }
    assert c.fileBuf[0..|data|] == data;
    c.fileBufOff, c.fileBufLen := 0, |data|;
    c.fileBytesRemaining := c.fileBytesRemaining - |data|;
    c.fileRead := c.fileRead + |data|;
    assert Pending(c) == queue + data + c.fileData[c.fileRead..];
  }

  /** A successful send of `n` buffered bytes. */
  method SendBuffered(c: ClientCon, n: nat)
    requires FileOk(c) && c.sent >= |c.responseOut| && 0 < n <= c.fileBufLen - c.fileBufOff
    modifies c`fileBufOff, c`wire
    ensures FileOk(c) && Whole(c) == old(Whole(c)) && c.fileBufOff == old(c.fileBufOff) + n
    ensures c.wire == old(c.wire) + old(Pending(c))[..n]
  {
    hide Pending;
    ghost var sending := c.fileBuf[c.fileBufOff..c.fileBufOff + n];
    ghost var left, rest := c.fileBuf[c.fileBufOff + n..c.fileBufLen], c.fileData[c.fileRead..];
    BufferedPending(c);
    BufferSplits(c.fileBuf[..], c.fileBufOff, n, c.fileBufLen);
    Regrouped(c.wire, sending, left, rest);
    c.wire := c.wire + sending;
    c.fileBufOff := c.fileBufOff + n;
    BufferedPending(c);
  }

  /** With the queue sent, what is buffered comes first. */
  lemma BufferedPending(c: ClientCon)
    requires FileOk(c) && c.sent >= |c.responseOut|
    ensures Pending(c) == c.fileBuf[c.fileBufOff..c.fileBufLen] + c.fileData[c.fileRead..]
  {}

  lemma BufferSplits(buf: string, off: nat, n: nat, len: nat)
    requires off + n <= len <= |buf|
    ensures buf[off..len] == buf[off..off + n] + buf[off + n..len]
  {}

  /** The next thing to do is to read from the file. */
  predicate NeedsBlock(c: ClientCon)
    reads c`sent, c`responseOut, c`fileStreamActive, c`fileBufOff, c`fileBufLen, c`fileBytesRemaining
  {
    c.sent >= |c.responseOut| && c.fileStreamActive && c.fileBufOff >= c.fileBufLen && c.fileBytesRemaining > 0
  }

  /**
   * What the read of the next block and the send that follows it may return: `data` is empty at the end of the file or
   * on an error.
   */
  ghost predicate Offered(c: ClientCon, data: string, n: int)
    requires FileOk(c)
    reads c`fileStreamActive, c`fileBytesRemaining, c`fileBufLen, c`fileBufOff, c`fileData, c`fileRead
  {
    if c.fileBufOff < c.fileBufLen then n <= c.fileBufLen - c.fileBufOff
    else
      && |data| <= c.fileBytesRemaining && |data| <= FILE_BUF_SIZE && n <= |data|
      && data == c.fileData[c.fileRead..c.fileRead + |data|]
  }

  /**
   * One step of a static response: refill the buffer if it is empty, then send once. Bytes are conserved; the stream
   * ends only when every byte is on the wire, and fails only on an error or when the file is shorter than announced.
   */
  method WriteStaticFileChunk(c: ClientCon, data: string, n: int) returns (o: Outcome)
    requires FileOk(c) && c.fileStreamActive && c.sent >= |c.responseOut| && Offered(c, data, n)
    modifies c`fileStreamActive, c`fileBytesRemaining, c`fileBufLen, c`fileBufOff, c`fileData, c`fileRead, c`wire
    modifies c.fileBuf
    ensures FileOk(c) && old(c.wire) <= c.wire
    ensures o.Keep? ==> c.fileStreamActive && Whole(c) == old(Whole(c))
    ensures o.Keep? ==> |c.wire| == old(|c.wire|) + if n > 0 then n else 0
    ensures n > 0 && old(Pending(c)) != "" && !o.Broken? ==> |c.wire| == old(|c.wire|) + n
    ensures o.Drained? ==> !c.fileStreamActive && c.wire == old(Whole(c))
    ensures o.Broken? ==> c.wire == old(c.wire) && (n < 0 || (data == "" && old(NeedsBlock(c))))
  {
    if c.fileBufOff >= c.fileBufLen {
      if c.fileBytesRemaining == 0 {
        assert c.wire == Whole(c);
        ResetStaticFileStream(c);
        return Drained;
      }
      if data == "" {
        return Broken;
      }
      FillBuffer(c, data);
    }
    o := SendChunk(c, n);
  }

  method SendChunk(c: ClientCon, n: int) returns (o: Outcome)
    requires FileOk(c) && c.fileStreamActive && c.sent >= |c.responseOut| && c.fileBufOff < c.fileBufLen
    requires n <= c.fileBufLen - c.fileBufOff
    modifies c`fileStreamActive, c`fileBytesRemaining, c`fileBufLen, c`fileBufOff, c`fileData, c`fileRead, c`wire
    ensures FileOk(c) && old(c.wire) <= c.wire
    ensures o.Keep? ==> c.fileStreamActive && Whole(c) == old(Whole(c))
    ensures o.Keep? ==> |c.wire| == old(|c.wire|) + if n > 0 then n else 0
    ensures n > 0 && old(Pending(c)) != "" && !o.Broken? ==> |c.wire| == old(|c.wire|) + n
    ensures o.Drained? ==> !c.fileStreamActive && c.wire == old(Whole(c))
    ensures o.Broken? ==> c.wire == old(c.wire) && n < 0
  {
    if n > 0 {
      SendBuffered(c, n);
      if c.fileBufOff == c.fileBufLen && c.fileBytesRemaining == 0 {
        assert c.wire == Whole(c);
        ResetStaticFileStream(c);
        return Drained;
      }
      return Keep;
    }
    o := if n == 0 then Keep else Broken;
  }

  /**
   * While a file is being streamed: what has been delivered, what is buffered and what is left add up to its size, and
   * each is the right part of it.
   */
  lemma StreamAccounts(c: ClientCon, head: string, file: string)
    requires FileOk(c) && c.fileStreamActive && c.sent >= |c.responseOut| && |head| <= |c.wire|
    requires Whole(c) == head + file
    ensures var delivered, buffered := |c.wire| - |head|, c.fileBufLen - c.fileBufOff;
            && delivered + buffered + c.fileBytesRemaining == |file|
            && c.wire == head + file[..delivered]
            && c.fileBuf[c.fileBufOff..c.fileBufLen] == file[delivered..delivered + buffered]
            && c.fileData[c.fileRead..] == file[delivered + buffered..]
  {
    var delivered, buffered := |c.wire| - |head|, c.fileBufLen - c.fileBufOff;
    var whole := head + file;
    assert c.wire == whole[..|c.wire|];
    assert c.fileBuf[c.fileBufOff..c.fileBufLen] == whole[|c.wire|..|c.wire| + buffered];
    assert whole[|c.wire|..|c.wire| + buffered] == file[delivered..delivered + buffered];
    assert c.fileData[c.fileRead..] == whole[|c.wire| + buffered..];
    assert whole[|c.wire| + buffered..] == file[delivered + buffered..];
  }
}
