/** One running CGI script: its pipes, the bytes on their way in and out, and how it ended. */
module CgiProcesses {
  import opened Http
  import opened Text
  import opened Connection
  import opened CgiOutput
  import Coding = ChunkedCoding

  const BACKPRESSURE_THRESHOLD: nat := 128 * 1024

  const NO_FD: int := -1

  datatype CgiTermination = Normal | ClientGone | Timeout | ExecFailure | InvalidHeaders | ServerShutdown

  /** Reasons for which the client gets no answer any more. */
  predicate IsGone(reason: CgiTermination) { reason.ClientGone? || reason.ServerShutdown? }

  /** The status the manager reports when a script ends without having started a response. */
  function ErrorStatus(reason: CgiTermination): int {
    if reason.Timeout? then GATEWAY_TIMEOUT else BAD_GATEWAY
  }

  /** How long a script may run and be idle, in milliseconds, and when it was launched, in seconds. */
  datatype Timing = Timing(absoluteMs: nat, idleMs: nat, start: int)

  /** What is on its way to a script, and the rest of what there is to say about it, but for what its client sees. */
  datatype ScriptView = ScriptView(
    stdinFd: int, stdoutFd: int, stderrFd: int, pid: int, childReaped: bool, pauseStdout: bool,
    fed: string, stdinBuffer: string, stdinOffset: nat, chunks: seq<string>, relay: Relay, headerMap: Headers,
    stderrBuffer: string, lastActivity: int)

  /** More of the body is fed: while stdin is open it is appended to what is to be written. */
  function Give(v: ScriptView, more: string, now: int): ScriptView {
    if more == "" then v
    else if v.stdinFd == NO_FD then v.(fed := v.fed + more)
    else v.(fed := v.fed + more, stdinBuffer := v.stdinBuffer + more, lastActivity := now)
  }

  /** No more of the body is due: a stdin is closed exactly if nothing is left to be written to it. */
  function EndBody(v: ScriptView): ScriptView {
    if v.stdinOffset >= |v.stdinBuffer| then v.(stdinFd := NO_FD) else v
  }

  /** The clock has not run backwards, nor have so many milliseconds passed that they exceed 64 bits. */
  predicate ClockOk(timing: Timing, lastActivity: int, now: int) {
    0 <= 1000 * (now - lastActivity) < TWO_64 && 0 <= 1000 * (now - timing.start) < TWO_64
  }

  /** More milliseconds have passed than a script may be idle, or may run; a limit of 0 is none. */
  predicate IsLate(timing: Timing, lastActivity: int, now: int) {
    || (timing.idleMs > 0 && 1000 * now > 1000 * lastActivity + timing.idleMs)
    || (timing.absoluteMs > 0 && 1000 * now > 1000 * timing.start + timing.absoluteMs)
  }

  class CgiProcess {
    const client: ClientCon
    /** The response head that emitResponse builds from the script's headers and the connection's keep-alive flag. */
    const respond: (Headers, bool) -> string
    /** The flags of the connection when the script was launched, and the head that follows from them. */
    ghost const persistent: bool
    ghost const closing: bool
    ghost const head: Headers -> string
    const absoluteTimeoutMs: nat
    const idleTimeoutMs: nat
    const startTime: int

    var pid: int
    var stdinFd: int
    var stdoutFd: int
    var stderrFd: int
    var stdinClosed: bool
    var stdoutClosed: bool
    var stderrClosed: bool

    var headersComplete: bool
    var responseStarted: bool
    var chunkedMode: bool
    var hasContentLength: bool
    var waitingChunkTerminator: bool
    var terminated: bool
    var childReaped: bool
    var pauseStdout: bool
    var forceClose: bool
    var contentLengthSent: nat

    var headerBuffer: string
    var headerMap: Headers
    var stderrBuffer: string
    var stdinBuffer: string
    var stdinOffset: nat
    var lastActivity: int

    /** What has been read from the script so far, read by read, and what that amounts to. */
    ghost var chunks: seq<string>
    ghost var relay: Relay
    /** The initial body and every block fed later; what the script has been given of them. */
    ghost var fed: string
    ghost var written: string
    /** How often each pipe end has been closed. */
    ghost var inCloses: nat
    ghost var outCloses: nat
    ghost var errCloses: nat
    /** How many response heads have been queued, and how the script ended. */
    ghost var headsQueued: nat
    ghost var ended: Option<CgiTermination>
    ghost var errorStatus: Option<int>

    constructor (client: ClientCon, respond: (Headers, bool) -> string, absoluteTimeoutMs: nat, idleTimeoutMs: nat,
                 now: int, body: string)
      ensures this.client == client && this.respond == respond
      ensures persistent == client.keepAlive && closing == client.closeAfterSend
      ensures this.absoluteTimeoutMs == absoluteTimeoutMs && this.idleTimeoutMs == idleTimeoutMs
      ensures startTime == lastActivity == now
      ensures pid == stdinFd == stdoutFd == stderrFd == NO_FD && !childReaped && !pauseStdout
      ensures chunks == [] && fed == stdinBuffer == body && stdinOffset == 0 && IsBlank()
    {
      this.client, this.respond := client, respond;
      var keep := client.keepAlive;
      persistent, closing := keep, client.closeAfterSend;
      head := h => respond(h, keep && "content-length" in h);
      this.absoluteTimeoutMs, this.idleTimeoutMs, startTime := absoluteTimeoutMs, idleTimeoutMs, now;
      pid, stdinFd, stdoutFd, stderrFd := NO_FD, NO_FD, NO_FD, NO_FD;
      stdinClosed, stdoutClosed, stderrClosed := false, false, false;
      headersComplete, responseStarted, chunkedMode := false, false, false;
      hasContentLength, waitingChunkTerminator := false, false;
      terminated, childReaped, pauseStdout, forceClose, contentLengthSent := false, false, false, false, 0;
      headerBuffer, headerMap, stderrBuffer, stdinBuffer, stdinOffset := "", map[], "", body, 0;
      lastActivity := now;
      chunks, relay, fed, written := [], START, body, "";
      inCloses, outCloses, errCloses, headsQueued, ended, errorStatus := 0, 0, 0, 0, None, None;
    }

    /** Nothing has been read from the script, written to it or closed. */
    ghost predicate IsBlank()
      reads `relay, `chunks, `headersComplete, `headerBuffer, `headerMap, `hasContentLength, `forceClose, `stdoutClosed
      reads `chunkedMode, `waitingChunkTerminator, `terminated, `responseStarted, `headsQueued, `ended, `errorStatus
      reads `stdinOffset, `stdinBuffer, `written, `fed, `stdinClosed, `stderrClosed, `inCloses, `outCloses, `errCloses
      reads client`keepAlive, client`closeAfterSend
    {
      && RelayOk() && relay == START && FlagsOk() && KeepOk() && !headersComplete
      && fed == stdinBuffer && stdinOffset == 0 && written == ""
      && !stdinClosed && !stderrClosed && inCloses == outCloses == errCloses == 0
    }

    predicate StdinDone()
      reads this
    {
      stdinOffset >= |stdinBuffer|
    }

    /** The elapsed seconds in milliseconds, as the size_t that the timeouts are compared with. */
    static function ElapsedMs(since: int, now: int): nat { ((now - since) * 1000) % TWO_64 }

    predicate IsExpired(now: int)
      reads this
    {
      || (idleTimeoutMs > 0 && ElapsedMs(lastActivity, now) > idleTimeoutMs)
      || (absoluteTimeoutMs > 0 && ElapsedMs(startTime, now) > absoluteTimeoutMs)
    }

    function Limits(): Timing { Timing(absoluteTimeoutMs, idleTimeoutMs, startTime) }

    lemma ExpiredMeans(now: int)
      requires ClockOk(Limits(), lastActivity, now)
      ensures IsExpired(now) <==> IsLate(Limits(), lastActivity, now)
    {}

    /** A clock that runs backwards, if only by a second, ends a script that has a limit at once. */
    lemma ClockRunsBack(now: int)
      requires now < startTime && 0 < absoluteTimeoutMs && 1000 * (startTime - now) + absoluteTimeoutMs < TWO_64
      ensures IsExpired(now)
    {
      NegativeWraps((now - startTime) * 1000);
    }

    static lemma NegativeWraps(n: int)
      requires n < 0 < n + TWO_64
      ensures n % TWO_64 == n + TWO_64
    {
      assert n / TWO_64 == -1;
    }

    /** The relay's state is what the reads so far amount to. */
    ghost predicate RelayOk()
      reads `relay, `chunks, `headersComplete, `headerBuffer, `headerMap
    {
      && relay == TakeAll(START, chunks, head) && ReadsUpTo(chunks, READ_SIZE)
      && relay.phase == (if headersComplete then Streaming else Reading)
      && relay.buffer == headerBuffer
      && (if headersComplete then relay.headers == Some(headerMap) else relay.out == "" && relay.headers == None)
    }

    /**
     * Whether the connection is to be kept is settled at the launch and, for good, by the headers: without a length the
     * end of the response is the end of the connection.
     */
    ghost predicate KeepOk()
      reads `headersComplete, `headerMap, `hasContentLength, `forceClose, client`keepAlive, client`closeAfterSend
    {
      && hasContentLength == (headersComplete && "content-length" in headerMap)
      && forceClose == (headersComplete && !hasContentLength)
      && client.keepAlive == (persistent && !forceClose) && client.closeAfterSend == (closing || forceClose)
      && HeadOk()
    }

    ghost predicate HeadOk() { forall h :: head(h) == respond(h, persistent && "content-length" in h) }

    /**
     * What the client has been sent and what it is still to be sent is what the script's output amounts to, byte for
     * byte.
     */
    ghost predicate Conserved()
      reads `relay, client`sent, client`responseOut, client`wire
    {
      client.sent <= |client.responseOut| && relay.out == client.wire + client.responseOut[client.sent..]
    }

    ghost predicate ClientOk()
      reads `relay, client`cgiActive, client`sent, client`responseOut, client`wire, client`resReady
    {
      && client.cgiActive && Conserved() && (client.responseOut != "" ==> client.resReady)
      && (!relay.phase.Streaming? ==> client.responseOut == "" && client.sent == 0)
    }

    /** A paused script's client has more than the threshold to send. */
    ghost predicate PauseOk()
      reads `pauseStdout, client`responseOut, client`sent
    {
      pauseStdout ==> |client.responseOut| - client.sent > BACKPRESSURE_THRESHOLD
    }

    ghost predicate FlagsOk()
      reads `stdoutClosed, `chunkedMode, `waitingChunkTerminator, `terminated, `responseStarted, `headersComplete
      reads `headsQueued, `ended, `errorStatus
    {
      && !stdoutClosed && !chunkedMode && !waitingChunkTerminator && !terminated
      && responseStarted == headersComplete
      && headsQueued == (if responseStarted then 1 else 0)
      && ended == None && errorStatus == None
    }

    /** The script has been given a prefix of its body, in order; nothing is skipped while its stdin is open. */
    ghost predicate InputOk()
      reads `stdinOffset, `stdinBuffer, `written, `fed, `stdinClosed, client`cgiFed
    {
      && stdinOffset <= |stdinBuffer| && written == stdinBuffer[..stdinOffset]
      && stdinBuffer <= fed && (!stdinClosed ==> stdinBuffer == fed) && |fed| == client.cgiFed
    }

    /**
     * The reads of one event have been taken: all of them, in order, with a normal end behind them or none; or they
     * have ended the script, and then what has been read amounts to a refusal.
     */
    twostate predicate StdoutTook(parts: seq<string>, eof: bool, now: int)
      reads this, client
    {
      var all := old(chunks) + parts;
      if stdoutFd != NO_FD then
        && !eof && chunks == all && stdoutFd == old(stdoutFd)
        && lastActivity == (if parts == [] then old(lastActivity) else now)
        && InputKept() && ErrorsKept() && pid == old(pid) && childReaped == old(childReaped)
        && (pauseStdout <==>
              old(pauseStdout) || |client.responseOut| - client.sent > BACKPRESSURE_THRESHOLD)
      else
        || (ended == Some(InvalidHeaders) && Finish(TakeAll(START, all, head)) == REFUSED)
        || (eof && ended == Some(Normal) && chunks == all && RelayOk() && relay.phase.Streaming? && LeftRest())
    }

    /**
     * What a script that ends normally leaves behind: the rest of its response, and what the headers say comes next.
     */
    ghost predicate LeftRest()
      reads this, client
    {
      Conserved() && KeepOk() && !client.cgiActive && (client.sent < |client.responseOut| ==> client.resReady)
    }

    /**
     * One write of up to `n` bytes went to the script's stdin; it is closed once the buffer is drained or the write
     * fails.
     */
    twostate predicate StdinTook(n: int, now: int)
      reads this
    {
      && stdinBuffer == old(stdinBuffer) && fed == old(fed) && OutputKept() && ErrorsKept()
      && stdinOffset == old(stdinOffset) + (if n > 0 then n else 0) <= |stdinBuffer|
      && written == stdinBuffer[..stdinOffset] && lastActivity == (if n > 0 then now else old(lastActivity))
      && stdinFd == (if n < 0 || stdinOffset == |stdinBuffer| then NO_FD else old(stdinFd))
    }

    ghost function View(): ScriptView
      reads `stdinFd, `stdoutFd, `stderrFd, `pid, `childReaped, `pauseStdout, `fed, `stdinBuffer, `stdinOffset, `chunks
      reads `relay, `headerMap, `stderrBuffer, `lastActivity
    {
      ScriptView(stdinFd, stdoutFd, stderrFd, pid, childReaped, pauseStdout, fed, stdinBuffer, stdinOffset, chunks,
                 relay, headerMap, stderrBuffer, lastActivity)
    }

    /** What has been read from the script, and whether more is to be read, has not changed. */
    twostate predicate OutputKept()
      reads `stdoutFd, `chunks, `relay, `headerMap, `pauseStdout, `childReaped, `pid
    {
      && stdoutFd == old(stdoutFd) && chunks == old(chunks) && relay == old(relay) && headerMap == old(headerMap)
      && pauseStdout == old(pauseStdout) && childReaped == old(childReaped) && pid == old(pid)
    }

    /** What the script has been given, and is still to be given, has not changed. */
    twostate predicate InputKept()
      reads `stdinFd, `stdinBuffer, `stdinOffset, `fed, `written
    {
      && stdinFd == old(stdinFd) && stdinBuffer == old(stdinBuffer) && stdinOffset == old(stdinOffset)
      && fed == old(fed) && written == old(written)
    }

    twostate predicate ErrorsKept()
      reads `stderrFd, `stderrBuffer
    {
      stderrFd == old(stderrFd) && stderrBuffer == old(stderrBuffer)
    }

    /** What has been read from stderr is logged line by line, but for the last, incomplete line, which is kept. */
    twostate predicate StderrTook(parts: seq<string>, eof: bool, lines: seq<string>)
      reads this
    {
      && lastActivity == old(lastActivity) && OutputKept() && InputKept()
      && Unlines(lines) + stderrBuffer == old(stderrBuffer) + Concat(parts)
      && (forall i :: 0 <= i < |lines| ==> '\n' !in lines[i])
      && stderrFd == if eof then NO_FD else old(stderrFd)
    }

    /** Each open pipe end has not been closed yet, each closed one exactly once. */
    ghost predicate ClosesOk()
      reads `stdinFd, `stdoutFd, `stderrFd, `stdinClosed, `stderrClosed, `inCloses, `outCloses, `errCloses
    {
      && stdinClosed == (stdinFd == NO_FD) && inCloses == (if stdinFd == NO_FD then 1 else 0)
      && stderrClosed == (stderrFd == NO_FD) && errCloses == (if stderrFd == NO_FD then 1 else 0)
      && stdoutFd != NO_FD && outCloses == 0
    }

    ghost predicate LiveBytes()
      reads `relay, `chunks, `headersComplete, `headerBuffer, `headerMap, `hasContentLength, `forceClose, `stdoutClosed
      reads `chunkedMode, `waitingChunkTerminator, `terminated, `responseStarted, `headsQueued, `ended, `errorStatus
      reads `stdinOffset, `stdinBuffer, `written, `fed, `stdinFd, `stdoutFd, `stderrFd, `stdinClosed, `stderrClosed
      reads `inCloses, `outCloses, `errCloses
      reads client`cgiActive, client`sent, client`responseOut, client`wire, client`resReady, client`cgiFed
      reads client`keepAlive, client`closeAfterSend
    {
      RelayOk() && ClientOk() && FlagsOk() && KeepOk() && InputOk() && ClosesOk()
    }

    ghost predicate Live()
      reads `pauseStdout
      reads `relay, `chunks, `headersComplete, `headerBuffer, `headerMap, `hasContentLength, `forceClose, `stdoutClosed
      reads `chunkedMode, `waitingChunkTerminator, `terminated, `responseStarted, `headsQueued, `ended, `errorStatus
      reads `stdinOffset, `stdinBuffer, `written, `fed, `stdinFd, `stdoutFd, `stderrFd, `stdinClosed, `stderrClosed
      reads `inCloses, `outCloses, `errCloses
      reads client`cgiActive, client`sent, client`responseOut, client`wire, client`resReady, client`cgiFed
      reads client`keepAlive, client`closeAfterSend
    {
      LiveBytes() && PauseOk()
    }

    /** A script that has been launched now, with this body and these limits, and of which nothing has been read. */
    ghost predicate JustStarted(client: ClientCon, respond: (Headers, bool) -> string, body: string, timing: Timing)
      reads `chunks, `fed, `stdinBuffer, `stdinOffset, `lastActivity
    {
      && this.client == client && this.respond == respond && chunks == []
      && fed == stdinBuffer == body && stdinOffset == 0
      && absoluteTimeoutMs == timing.absoluteMs && idleTimeoutMs == timing.idleMs
      && startTime == lastActivity == timing.start
    }

    /** What must be known of a script's output for a given reason to end it. */
    ghost predicate OutputEnds(reason: CgiTermination)
      reads `relay, `chunks, `responseStarted
    {
      && relay == TakeAll(START, chunks, head) && ReadsUpTo(chunks, READ_SIZE)
      && (reason.Normal? ==> responseStarted && relay.phase == Streaming)
      && (reason.InvalidHeaders? ==> !responseStarted && Finish(relay) == REFUSED)
      && (reason.ExecFailure? ==> !responseStarted)
    }

    /** What must hold of a script for a given reason to end it. */
    ghost predicate EndingOk(reason: CgiTermination)
      reads this, client`responseOut, client`sent, client`resReady
    {
      && !terminated && ended == None && errorStatus == None
      && ClosesOk() && written <= fed && OutputEnds(reason)
      && headsQueued == (if responseStarted then 1 else 0)
      && (!responseStarted && !IsGone(reason) ==> client.responseOut == "" && client.sent == 0)
      && (!IsGone(reason) && client.responseOut != "" ==> client.resReady)
    }

    /** Every pipe end has been closed, exactly once. */
    ghost predicate AllClosed()
      reads `stdinFd, `stdoutFd, `stderrFd, `stdinClosed, `stdoutClosed, `stderrClosed, `inCloses, `outCloses
      reads `errCloses
    {
      && stdinFd == stdoutFd == stderrFd == NO_FD
      && stdinClosed && stdoutClosed && stderrClosed
      && inCloses == outCloses == errCloses == 1
    }

    ghost predicate Closed()
      reads `stdinFd, `stdoutFd, `stderrFd, `stdinClosed, `stdoutClosed, `stderrClosed, `inCloses, `outCloses
      reads `errCloses
      reads `terminated, `pid
    {
      terminated && pid == NO_FD && AllClosed()
    }

    /** At most one response head; exactly one, with the right status, unless the client or the server has gone. */
    ghost predicate Answered()
      reads `relay, `chunks, `responseStarted, `ended, `headsQueued, `errorStatus
    {
      && ended.Some? && OutputEnds(ended.value)
      && if IsGone(ended.value) then headsQueued <= 1 && errorStatus == None
         else
           && headsQueued == 1
           && errorStatus == (if responseStarted then None else Some(ErrorStatus(ended.value)))
    }

    /** How every script ends. */
    ghost predicate Ended()
      reads this
    {
      Closed() && Answered() && written <= fed
    }
  }
}
