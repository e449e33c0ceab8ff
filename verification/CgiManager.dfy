/** The CGI manager: five tables over the running scripts, updated by every event of the server's loop. */
module CgiManagement {
  import opened Http
  import opened Text
  import opened Connection
  import opened CgiOutput
  import opened CgiProcesses
  import opened EventPolling
  import opened CgiTables
  import Coding = ChunkedCoding

  /** What a client has queued, and what is to become of its connection. */
  datatype ClientView = ClientView(responseOut: string, resReady: bool, keepAlive: bool, closeAfterSend: bool)

  class CgiManager {
    const poller: EventPoller
    /** The error page that answers for a script that never started a response. */
    const errorResponse: int -> string

    var processes: Table
    var stdinMap: Table
    var stderrMap: Table
    var clientMap: Table
    var pidMap: Table
    /** Every script that was ever launched, and its numbers. */
    ghost var launched: set<CgiProcess>
    ghost var wires: map<CgiProcess, Wire>
    /** The scripts whose entry in `pidMap` another one, with the same pid, has taken along at its end. */
    ghost var lost: set<CgiProcess>

    constructor (poller: EventPoller, errorResponse: int -> string)
      requires poller.pipes == {} && poller.open == {} && poller.sockets == {} && poller.interest == map[]
      ensures Valid() && this.poller == poller && this.errorResponse == errorResponse
      ensures launched == {} && processes == map[] && clientMap == map[] && pidMap == map[] && lost == {}
    {
      this.poller, this.errorResponse := poller, errorResponse;
      processes, stdinMap, stderrMap, clientMap, pidMap := map[], map[], map[], map[], map[];
      launched, wires, lost := {}, map[], {};
    }

    // -------------------------------------------------------------------------
    // The invariant
    // -------------------------------------------------------------------------

    /** The tables, the poller and the open descriptors as one value. */
    ghost function T(): Tables
      reads this, poller
    {
      Tables(processes, stdinMap, stderrMap, clientMap, pidMap, poller.interest, poller.pipes, poller.open,
             poller.sockets, poller.writers, lost)
    }

    static ghost function WireOf(p: CgiProcess): Wire
      reads p`stdinFd, p`stdoutFd, p`stderrFd, p`pid, p`childReaped, p`pauseStdout, p.client`sent, p.client`responseOut
    {
      Wire(p.stdinFd, p.stdoutFd, p.stderrFd, p.client.fd, p.pid, p.childReaped, p.pauseStdout,
           p.client.sent < |p.client.responseOut|)
    }

    predicate IsOwned(p: CgiProcess)
      reads this, p`stdoutFd
    {
      IsIn(processes, p)
    }

    /** The client of a script, while it waits for it. */
    ghost function Waiting(p: CgiProcess): set<ClientCon>
      reads this, p`stdoutFd
    {
      if IsOwned(p) then {p.client} else {}
    }

    /** An owned script is live, every other one has ended properly. */
    ghost predicate StateOk(p: CgiProcess)
      reads this, p, Waiting(p)`cgiActive, Waiting(p)`sent, Waiting(p)`responseOut, Waiting(p)`wire
      reads Waiting(p)`resReady, Waiting(p)`cgiFed, Waiting(p)`keepAlive, Waiting(p)`closeAfterSend
    {
      && p in wires && wires[p].stdoutFd == p.stdoutFd
      && if IsOwned(p) then wires[p] == WireOf(p) && p.Live() else p.Ended()
    }

    /** The clients that wait for a script. */
    ghost function Clients(): set<ClientCon>
      reads this, launched
    {
      set p | p in launched && IsOwned(p) :: p.client
    }

    /** The tables agree, and every script ever launched is live or has ended as it should. */
    ghost predicate Valid()
      reads this, poller, launched, Clients()`cgiActive, Clients()`sent, Clients()`responseOut, Clients()`wire
      reads Clients()`resReady, Clients()`cgiFed, Clients()`keepAlive, Clients()`closeAfterSend
    {
      wires.Keys == launched && TablesOk(T(), wires) && ScriptsOk()
    }

    ghost predicate ScriptsOk()
      reads this, launched, Clients()`cgiActive, Clients()`sent, Clients()`responseOut, Clients()`wire
      reads Clients()`resReady, Clients()`cgiFed, Clients()`keepAlive, Clients()`closeAfterSend
    {
      forall p :: p in launched ==> StateOk(p)
    }

    static ghost function ClientsOf(scripts: set<CgiProcess>): set<ClientCon> { set p | p in scripts :: p.client }

    /** The objects that the scripts other than `p` depend on. */
    ghost function Rest(p: CgiProcess): set<object>
      reads this, launched
    {
      (set q | q in launched && q != p :: q as object)
      + (set q | q in launched && q != p && IsOwned(q) :: q.client as object)
    }

    static predicate IsIn(table: Table, p: CgiProcess)
      reads p`stdoutFd
    {
      p.stdoutFd in table && table[p.stdoutFd] == p
    }

    /** The scripts other than `p` are as they should be, and depend on nothing outside `rest`. */
    static ghost predicate OthersOk(table: Table, wires: map<CgiProcess, Wire>, p: CgiProcess?, rest: set<object>)
      reads rest
    {
      forall q :: q in wires && q != p ==>
        && q in rest && wires[q].stdoutFd == q.stdoutFd
        && if IsIn(table, q) then q.client in rest && wires[q] == WireOf(q) && q.Live() else q.Ended()
    }

    static lemma OthersAfterDrop(table: Table, wires: map<CgiProcess, Wire>, p: CgiProcess, rest: set<object>, fd: int)
      requires OthersOk(table, wires, p, rest) && fd in table && table[fd] == p
      ensures OthersOk(table - {fd}, wires, p, rest)
    {
      hide CgiProcess.Live, CgiProcess.Ended;
    }

    static lemma OthersAfterRewire(table: Table, wires: map<CgiProcess, Wire>, p: CgiProcess, rest: set<object>,
                                   w: Wire)
      requires OthersOk(table, wires, p, rest)
      ensures OthersOk(table, wires[p := w], p, rest)
    {
      hide CgiProcess.Live, CgiProcess.Ended;
    }

    /** Valid, except for what the bytes of `p` and its client say: the middle of a step on `p`. */
    ghost predicate ValidBut(p: CgiProcess, rest: set<object>)
      reads this, poller, rest
      reads p`stdinFd, p`stdoutFd, p`stderrFd, p`pid, p`childReaped, p`pauseStdout, p.client`sent, p.client`responseOut
    {
      && wires.Keys == launched && TablesOk(T(), wires) && OthersOk(processes, wires, p, rest)
      && p in launched && IsOwned(p) && wires[p] == WireOf(p).(pending := wires[p].pending)
      && p !in rest && p.client !in rest && this !in rest && poller !in rest
    }

    /** Valid, seen from `p`. */
    ghost predicate Settled(p: CgiProcess, rest: set<object>)
      reads this, poller, p, p.client, rest
    {
      ValidBut(p, rest) && wires[p] == WireOf(p) && p.Live()
    }

    /** Two owned scripts never serve the same client. */
    lemma OneClientEach(p: CgiProcess)
      requires Valid() && p in launched && IsOwned(p)
      ensures Settled(p, Rest(p))
    {
      assert StateOk(p);
      var rest := Rest(p);
      forall q | q in launched && q != p
        ensures q in rest && q in wires && wires[q].stdoutFd == q.stdoutFd
        ensures if IsOwned(q) then q.client in rest && wires[q] == WireOf(q) && q.Live() && q.client != p.client
                else q.Ended()
      {
        hide CgiProcess.Live, CgiProcess.Ended;
        assert StateOk(q);
        if IsOwned(q) {
          Apart(T(), wires, p, q);
        }
      }
    }

    /** The end of a step on `p`, which may have been dropped. */
    lemma ValidAgain(p: CgiProcess, rest: set<object>)
      requires wires.Keys == launched && TablesOk(T(), wires) && OthersOk(processes, wires, p, rest)
      requires p in launched && wires[p].stdoutFd == p.stdoutFd
               && if IsOwned(p) then wires[p] == WireOf(p) && p.Live() else p.Ended()
      ensures Valid()
    {
      hide CgiProcess.Live, CgiProcess.Ended, TablesOk;
    }

    // -------------------------------------------------------------------------
    // What the invariant says
    // -------------------------------------------------------------------------

    static ghost predicate Absent(table: Table, p: CgiProcess) { forall k :: k in table ==> table[k] != p }

    /**
     * An owned script is filed under its numbers and nothing else: an open pipe end is in its table and registered,
     * a closed one is in no table, and its stdout is always open. A running one is filed under its pid unless
     * another one has taken the entry along, a reaped one is not.
     */
    lemma Agreement(p: CgiProcess)
      requires Valid() && p in launched && IsOwned(p)
      ensures p.stdoutFd in poller.pipes && p.stdoutFd != NO_FD && processes[p.stdoutFd] == p && !p.stdoutClosed
      ensures !p.terminated
      ensures p.stdinClosed <==> p.stdinFd == NO_FD
      ensures !p.stdinClosed ==> p.stdinFd in stdinMap && stdinMap[p.stdinFd] == p && p.stdinFd in poller.pipes
      ensures p.stdinClosed ==> Absent(stdinMap, p)
      ensures p.stderrClosed <==> p.stderrFd == NO_FD
      ensures !p.stderrClosed ==> p.stderrFd in stderrMap && stderrMap[p.stderrFd] == p && p.stderrFd in poller.pipes
      ensures p.stderrClosed ==> Absent(stderrMap, p)
      ensures p.client.fd in clientMap && clientMap[p.client.fd] == p && p.client.cgiActive
      ensures p.childReaped ==> Absent(pidMap, p)
      ensures !p.childReaped && p !in lost ==> p.pid in pidMap && pidMap[p.pid] == p
      ensures Absent(pidMap, p) || (p.pid in pidMap && pidMap[p.pid] == p)
    {
      hide CgiProcess.RelayOk, CgiProcess.InputOk, CgiProcess.PauseOk, CgiProcess.Conserved, CgiProcess.Ended;
      hide CgiProcess.KeepOk, CgiProcess.HeadOk;
      assert StateOk(p);
      assert Wired(T(), p, wires[p]);
    }

    /**
     * What is registered are exactly the open pipe ends of owned scripts and the connections: nothing that is open is
     * left out, and nothing that has been closed is left in or put back.
     */
    lemma PipesAreOwned(fd: int)
      requires Valid()
      ensures fd in poller.pipes <==>
                exists p :: p in launched && IsOwned(p) && fd != NO_FD && fd in {p.stdinFd, p.stdoutFd, p.stderrFd}
      ensures fd in poller.interest <==> fd in poller.pipes || fd in poller.open
      ensures !(fd in poller.pipes && fd in poller.open)
    {
      hide CgiProcess.Live, CgiProcess.Ended;
      forall p | p in launched ensures StateOk(p) {}
      if fd in poller.pipes {
        var p := if fd in processes then processes[fd] else if fd in stdinMap then stdinMap[fd] else stderrMap[fd];
        assert p in launched && IsOwned(p) && fd in {p.stdinFd, p.stdoutFd, p.stderrFd};
      } else {
        forall p | p in launched && IsOwned(p) ensures fd == NO_FD || fd !in {p.stdinFd, p.stdoutFd, p.stderrFd} {
          assert Wired(T(), p, wires[p]);
        }
      }
    }

    /** A script is paused exactly when its stdout is not watched; its client then has enough to send to wake it up. */
    lemma PausedHasWriter(p: CgiProcess)
      requires Valid() && p in launched && IsOwned(p)
      ensures p.stdoutFd in poller.interest && poller.interest[p.stdoutFd] == Interest(!p.pauseStdout, false)
      ensures p.pauseStdout ==>
                && |p.client.responseOut| - p.client.sent > BACKPRESSURE_THRESHOLD && p.client.resReady
                && p.client.fd in poller.interest && poller.interest[p.client.fd] == WRITABLE
    {
      hide CgiProcess.RelayOk, CgiProcess.InputOk, CgiProcess.ClosesOk, CgiProcess.FlagsOk, CgiProcess.Conserved;
      hide CgiProcess.Ended, CgiProcess.KeepOk, CgiProcess.HeadOk;
      assert StateOk(p);
      assert Wired(T(), p, wires[p]);
    }

    /** What a live script's client has received and is still to receive is what the script's output amounts to. */
    lemma LiveOutput(p: CgiProcess)
      requires Valid() && p in launched && IsOwned(p)
      ensures ReadsUpTo(p.chunks, READ_SIZE) && TakeAll(START, p.chunks, p.head).phase != Failed
      ensures p.client.sent <= |p.client.responseOut|
      ensures TakeAll(START, p.chunks, p.head).out == p.client.wire + p.client.responseOut[p.client.sent..]
      ensures p.headsQueued == if TakeAll(START, p.chunks, p.head).phase == Streaming then 1 else 0
      ensures p.written <= p.fed
    {
      hide TakeAll, ReadsUpTo;
      assert StateOk(p);
    }

    /**
     * A script that ended normally was relayed in full and in order, whatever the reads were, unless its block came
     * near the limit.
     */
    lemma NormalOutput(p: CgiProcess)
      requires Valid() && p in launched && !IsOwned(p) && p.ended == Some(Normal)
      requires !NearLimit(Concat(p.chunks), READ_SIZE)
      ensures p.relay == Ideal(Concat(p.chunks), p.head) && p.headsQueued == 1 && p.errorStatus == None
    {
      assert StateOk(p);
      hide Ideal, TakeAll;
      FromStart(p.chunks, READ_SIZE, p.head);
    }

    /** How a script that has left the tables was answered. */
    lemma EndedAnswer(p: CgiProcess)
      requires Valid() && p in launched && !IsOwned(p)
      ensures p.ended.Some? && p.headsQueued <= 1 && (p.headsQueued == 0 ==> IsGone(p.ended.value))
      ensures p.ended.value.Timeout? && !p.responseStarted ==> p.errorStatus == Some(GATEWAY_TIMEOUT)
      ensures p.ended.value.ExecFailure? || p.ended.value.InvalidHeaders? ==>
                !p.responseStarted && p.errorStatus == Some(BAD_GATEWAY)
      ensures p.ended.value.Normal? ==> p.responseStarted && p.errorStatus == None
      ensures p.inCloses == 1 && p.outCloses == 1 && p.errCloses == 1
      ensures Absent(processes, p) && Absent(stdinMap, p) && Absent(stderrMap, p) && Absent(clientMap, p)
      ensures Absent(pidMap, p)
    {
      hide TakeAll, ReadsUpTo, CgiProcess.Live;
      forall q | q in launched ensures StateOk(q) {}
    }

    // -------------------------------------------------------------------------
    // Towards the client
    // -------------------------------------------------------------------------

    /** Queue the response head; without a length the end of the response is the end of the connection. */
    method EmitResponse(p: CgiProcess)
      modifies p`hasContentLength, p`chunkedMode, p`forceClose, p`responseStarted, p`headsQueued, poller`interest
      modifies p.client`responseOut, p.client`resReady, p.client`keepAlive, p.client`closeAfterSend
      modifies p.client`cgiForceClose
      ensures p.responseStarted && !p.chunkedMode && p.headsQueued == old(p.headsQueued) + 1
      ensures p.client.responseOut == old(p.client.responseOut) + p.respond(p.headerMap, p.client.keepAlive)
      ensures p.client.resReady
      ensures poller.interest == old(poller.interest)[p.client.fd := WRITABLE]
      ensures p.hasContentLength == (old(p.hasContentLength) || "content-length" in p.headerMap)
      ensures p.forceClose == (old(p.forceClose) || !p.hasContentLength)
      ensures p.client.keepAlive == (old(p.client.keepAlive) && !p.forceClose)
      ensures p.client.closeAfterSend == (old(p.client.closeAfterSend) || !p.hasContentLength)
    {
      if "content-length" in p.headerMap {
        p.hasContentLength := true;
      }
      p.chunkedMode := false;
      if !p.hasContentLength {
        p.forceClose := true;
        p.client.cgiForceClose := true;
        p.client.closeAfterSend := true;
      }
      if p.forceClose {
        p.client.keepAlive := false;
      }
      p.responseStarted := true;
      p.headsQueued := p.headsQueued + 1;
      p.client.responseOut := p.client.responseOut + p.respond(p.headerMap, p.client.keepAlive);
      p.client.resReady := true;
      poller.Update(p.client.fd, false, true);
    }

    /** Queue body bytes, as one chunk in chunked mode; nothing before the head or after the end. */
    method ForwardBody(p: CgiProcess, data: string, now: int)
      modifies p`lastActivity, p`contentLengthSent, p.client`responseOut, p.client`resReady, poller`interest
      ensures p.responseStarted && !p.terminated ==>
                && p.client.responseOut
                   == old(p.client.responseOut) + (if p.chunkedMode then Coding.EncodeChunk(data) else data)
                && p.client.resReady && p.lastActivity == now
                && poller.interest == old(poller.interest)[p.client.fd := WRITABLE]
      ensures !(p.responseStarted && !p.terminated) ==>
                && p.client.responseOut == old(p.client.responseOut)
                && p.client.resReady == old(p.client.resReady) && poller.interest == old(poller.interest)
    {
      if !p.responseStarted || p.terminated {
        return;
      }
      p.lastActivity := now;
      if p.chunkedMode {
        p.client.responseOut := p.client.responseOut + Coding.EncodeChunk(data);
      } else {
        p.client.responseOut := p.client.responseOut + data;
        p.contentLengthSent := p.contentLengthSent + |data|;
      }
      p.client.resReady := true;
      poller.Update(p.client.fd, false, true);
    }

    /** Queue the chunk terminator, once. */
    method FinalizeChunk(p: CgiProcess)
      modifies p`waitingChunkTerminator, p.client`responseOut, p.client`resReady, poller`interest
      ensures old(p.responseStarted && !p.waitingChunkTerminator) ==>
                && p.client.responseOut == old(p.client.responseOut) + Coding.TERMINATOR && p.waitingChunkTerminator
                && p.client.resReady && poller.interest == old(poller.interest)[p.client.fd := WRITABLE]
      ensures !old(p.responseStarted && !p.waitingChunkTerminator) ==>
                && p.client.responseOut == old(p.client.responseOut) && p.client.resReady == old(p.client.resReady)
                && p.waitingChunkTerminator == old(p.waitingChunkTerminator)
                && poller.interest == old(poller.interest)
    {
      if !p.responseStarted || p.waitingChunkTerminator {
        return;
      }
      p.waitingChunkTerminator := true;
      p.client.responseOut := p.client.responseOut + Coding.TERMINATOR;
      p.client.resReady := true;
      poller.Update(p.client.fd, false, true);
    }

    // -------------------------------------------------------------------------
    // The end of a script
    // -------------------------------------------------------------------------

    method EraseEntries(p: CgiProcess)
      requires p.stdinFd == NO_FD ==> NO_FD !in stdinMap
      requires p.stderrFd == NO_FD ==> NO_FD !in stderrMap
      requires p.pid > 0
      modifies `processes, `stdinMap, `stderrMap, `clientMap, `pidMap
      ensures processes == old(processes) - {p.stdoutFd} && stdinMap == old(stdinMap) - {p.stdinFd}
      ensures stderrMap == old(stderrMap) - {p.stderrFd} && clientMap == old(clientMap) - {p.client.fd}
      ensures pidMap == old(pidMap) - {p.pid}
    {
      processes := processes - {p.stdoutFd};
      if p.stdinFd != NO_FD {
        stdinMap := stdinMap - {p.stdinFd};
      }
      if p.stderrFd != NO_FD {
        stderrMap := stderrMap - {p.stderrFd};
      }
      clientMap := clientMap - {p.client.fd};
      if p.pid > 0 {
        pidMap := pidMap - {p.pid};
      }
    }

    /** Unregister and close a script's stdin. */
    method ReleaseStdin(p: CgiProcess)
      requires p.stdinFd in poller.pipes
      modifies poller`interest, poller`pipes, p`stdinFd, p`stdinClosed, p`inCloses
      ensures poller.interest == old(poller.interest) - {old(p.stdinFd)}
      ensures poller.pipes == old(poller.pipes) - {old(p.stdinFd)}
      ensures p.stdinFd == NO_FD && p.stdinClosed && p.inCloses == old(p.inCloses) + 1
    {
      poller.Remove(p.stdinFd);
      poller.Close(p.stdinFd);
      p.inCloses := p.inCloses + 1;
      p.stdinFd := NO_FD;
      p.stdinClosed := true;
    }

    method ReleaseStdout(p: CgiProcess)
      requires p.stdoutFd in poller.pipes
      modifies poller`interest, poller`pipes, p`stdoutFd, p`stdoutClosed, p`outCloses
      ensures poller.interest == old(poller.interest) - {old(p.stdoutFd)}
      ensures poller.pipes == old(poller.pipes) - {old(p.stdoutFd)}
      ensures p.stdoutFd == NO_FD && p.stdoutClosed && p.outCloses == old(p.outCloses) + 1
    {
      poller.Remove(p.stdoutFd);
      poller.Close(p.stdoutFd);
      p.outCloses := p.outCloses + 1;
      p.stdoutFd := NO_FD;
      p.stdoutClosed := true;
    }

    method ReleaseStderr(p: CgiProcess)
      requires p.stderrFd in poller.pipes
      modifies poller`interest, poller`pipes, p`stderrFd, p`stderrClosed, p`errCloses
      ensures poller.interest == old(poller.interest) - {old(p.stderrFd)}
      ensures poller.pipes == old(poller.pipes) - {old(p.stderrFd)}
      ensures p.stderrFd == NO_FD && p.stderrClosed && p.errCloses == old(p.errCloses) + 1
    {
      poller.Remove(p.stderrFd);
      poller.Close(p.stderrFd);
      p.errCloses := p.errCloses + 1;
      p.stderrFd := NO_FD;
      p.stderrClosed := true;
    }

    /** Close whatever is still open. */
    method ReleaseAll(p: CgiProcess)
      requires p.stdoutFd in poller.pipes && p.stdoutFd != p.stdinFd && p.stdoutFd != p.stderrFd
      requires p.stdinFd != NO_FD ==> p.stdinFd in poller.pipes && p.stdinFd != p.stderrFd
      requires p.stderrFd != NO_FD ==> p.stderrFd in poller.pipes
      requires NO_FD !in poller.interest && NO_FD !in poller.pipes
      modifies poller`interest, poller`pipes, p`stdinFd, p`stdoutFd, p`stderrFd, p`stdinClosed, p`stdoutClosed
      modifies p`stderrClosed
      modifies p`inCloses, p`outCloses, p`errCloses
      ensures var fds := old({p.stdinFd, p.stdoutFd, p.stderrFd});
              poller.interest == old(poller.interest) - fds && poller.pipes == old(poller.pipes) - fds
      ensures p.stdinFd == p.stdoutFd == p.stderrFd == NO_FD
      ensures old(p.stdinFd) == NO_FD ==> p.stdinClosed == old(p.stdinClosed) && p.inCloses == old(p.inCloses)
      ensures old(p.stdinFd) != NO_FD ==> p.stdinClosed && p.inCloses == old(p.inCloses) + 1
      ensures old(p.stderrFd) == NO_FD ==> p.stderrClosed == old(p.stderrClosed) && p.errCloses == old(p.errCloses)
      ensures old(p.stderrFd) != NO_FD ==> p.stderrClosed && p.errCloses == old(p.errCloses) + 1
      ensures p.stdoutClosed && p.outCloses == old(p.outCloses) + 1
    {
      if p.stdinFd != NO_FD {
        ReleaseStdin(p);
      }
      ReleaseStdout(p);
      if p.stderrFd != NO_FD {
        ReleaseStderr(p);
      }
    }

    /** An owned script's open pipe ends are open and distinct; a closed one is in no table. */
    lemma NumbersOf(p: CgiProcess, rest: set<object>)
      requires ValidBut(p, rest)
      ensures var w := WireOf(p);
              && w.pid > 0
              && w.stdoutFd in poller.pipes && w.stdoutFd != NO_FD
              && w.stdoutFd != w.stdinFd && w.stdoutFd != w.stderrFd
              && (w.stdinFd != NO_FD ==> w.stdinFd in poller.pipes && w.stdinFd != w.stderrFd)
              && (w.stderrFd != NO_FD ==> w.stderrFd in poller.pipes)
              && NO_FD !in stdinMap && NO_FD !in stderrMap && NO_FD !in poller.interest && NO_FD !in poller.pipes
              && w.clientFd !in poller.pipes && w.clientFd != NO_FD
              && w.clientFd in poller.interest && w.clientFd in poller.sockets && w.clientFd in poller.open
              && w.clientFd in clientMap && clientMap[w.clientFd] == p
              && w.stdoutFd in poller.interest && poller.interest[w.stdoutFd] == Interest(!w.paused, false)
              && (wires[p].pending ==> poller.interest[w.clientFd] == WRITABLE)
              && (w.stdinFd != NO_FD ==>
                    w.stdinFd in stdinMap && w.stdinFd in poller.interest && poller.interest[w.stdinFd] == WRITABLE)
    {
      hide OthersOk;
      assert Wired(T(), p, wires[p]);
    }

    /** A script's pipe ends are open, unless they have been closed, and different. */
    ghost predicate HasEnds(p: CgiProcess)
      reads this, poller, p`stdinFd, p`stdoutFd, p`stderrFd, p`pid
    {
      && p.stdoutFd in poller.pipes && p.stdoutFd != p.stdinFd && p.stdoutFd != p.stderrFd
      && (p.stdinFd != NO_FD ==> p.stdinFd in poller.pipes && p.stdinFd != p.stderrFd)
      && (p.stderrFd != NO_FD ==> p.stderrFd in poller.pipes)
      && NO_FD !in poller.interest && NO_FD !in poller.pipes && NO_FD !in stdinMap && NO_FD !in stderrMap
      && p.pid > 0
    }

    lemma EndsOf(p: CgiProcess, rest: set<object>)
      requires ValidBut(p, rest)
      ensures HasEnds(p) && p.client.fd in poller.open && p.client.fd !in poller.pipes && p.client.fd != NO_FD
    {
      hide ValidBut;
      NumbersOf(p, rest);
    }

    /** Take a script out of every table and close its pipe ends. */
    method Dismantle(p: CgiProcess)
      requires HasEnds(p) && p.ClosesOk()
      modifies `processes, `stdinMap, `stderrMap, `clientMap, `pidMap, poller`interest, poller`pipes, poller`sockets
      modifies p`stdinFd, p`stdoutFd, p`stderrFd, p`stdinClosed, p`stdoutClosed, p`stderrClosed
      modifies p`inCloses, p`outCloses, p`errCloses
      ensures T() == Drop(old(T()), old(WireOf(p))) && p.AllClosed()
      ensures processes == old(processes) - {old(p.stdoutFd)} && pidMap == old(pidMap) - {p.pid}
      ensures clientMap == old(clientMap) - {p.client.fd} && poller.sockets == old(poller.sockets) - {p.client.fd}
      ensures poller.pipes <= old(poller.pipes)
      ensures poller.interest == old(poller.interest) - {old(p.stdinFd), old(p.stdoutFd), old(p.stderrFd)}
    {
      EraseEntries(p);
      ReleaseAll(p);
      poller.sockets := poller.sockets - {p.client.fd};
    }

    /**
     * No client has been added. One that is not served any more has been told so, and is watched for writing exactly if
     * there is something to send; nothing else is changed about what connections wait for.
     */
    ghost predicate ServesFewer(served: Table, writers: set<int>)
      reads `clientMap, poller`sockets, poller`writers, (set fd | fd in served :: served[fd].client)`cgiActive
      reads (set fd | fd in served :: served[fd].client)`resReady
    {
      && SubTable(clientMap, served)
      && (forall fd :: fd in served && fd !in clientMap ==>
            && !served[fd].client.cgiActive
            && (fd in poller.sockets ==> (served[fd].client.resReady <==> fd in poller.writers)))
      && (forall fd :: fd !in served ==> (fd in poller.writers <==> fd in writers))
    }

    /** Valid, except for what the answer of `p` says: the middle of its end. */
    ghost predicate Forgotten(p: CgiProcess, rest: set<object>)
      reads this, poller, p, p.client, rest
    {
      && wires.Keys == launched && TablesOk(T(), wires) && OthersOk(processes, wires, p, rest)
      && p in launched && !IsOwned(p) && wires[p].stdoutFd == p.stdoutFd
      && p.client.fd in poller.open && p.client.fd !in poller.pipes && p.client.fd !in clientMap
      && p.client.fd != NO_FD
      && p !in rest && p.client !in rest && this !in rest && poller !in rest
    }

    ghost method NoteLost(p: CgiProcess, t0: Tables)
      requires p in wires && T() == Drop(t0, wires[p])
      modifies `lost
      ensures T() == Dropped(t0, wires, p)
    {
      lost := lost + Namesakes(t0, wires, p);
    }

    ghost method NoteDropped(p: CgiProcess, t0: Tables, rest: set<object>)
      requires wires.Keys == launched && TablesOk(t0, wires) && OthersOk(t0.processes, wires, p, rest)
      requires p in launched && Owned(t0, p, wires[p]) && T() == Dropped(t0, wires, p) && p.stdoutFd == NO_FD
      requires wires[p].clientFd == p.client.fd && p.client.fd !in poller.pipes && p.client.fd != NO_FD
      requires p.client.fd in poller.open
      requires p.client.fd !in clientMap && p !in rest && p.client !in rest && this !in rest && poller !in rest
      modifies `wires
      ensures Forgotten(p, rest) && !IsOwned(p)
    {
      hide TablesOk, OthersOk, Dropped;
      DroppedOk(t0, wires, p, WireOf(p), rest);
      wires := wires[p := WireOf(p)];
    }

    static lemma DropIgnoresPending(t: Tables, v: Wire, w: Wire)
      requires w == v.(pending := w.pending)
      ensures Drop(t, v) == Drop(t, w)
    {}

    static lemma DroppedOk(t0: Tables, wires: map<CgiProcess, Wire>, p: CgiProcess, w: Wire, rest: set<object>)
      requires TablesOk(t0, wires) && OthersOk(t0.processes, wires, p, rest) && p in wires && Owned(t0, p, wires[p])
      requires w.stdoutFd == NO_FD
      ensures var t := Dropped(t0, wires, p);
              && TablesOk(t, wires[p := w]) && OthersOk(t.processes, wires[p := w], p, rest) && !Owned(t, p, w)
    {
      hide TablesOk, OthersOk, Reused;
      DropKeeps(t0, wires, p, w);
      OthersAfterDrop(t0.processes, wires, p, rest, wires[p].stdoutFd);
      OthersAfterRewire(Dropped(t0, wires, p).processes, wires, p, rest, w);
    }

    /** The script has left the tables, its pipe ends are not registered, and nothing else has changed in the tables. */
    twostate predicate Left(p: CgiProcess)
      reads `launched, `processes, `pidMap, `clientMap, poller`interest, p`stdoutFd
    {
      && old(p.stdinFd) !in poller.interest && old(p.stdoutFd) !in poller.interest
      && old(p.stderrFd) !in poller.interest
      && launched == old(launched) && processes == old(processes) - {old(p.stdoutFd)} && p.stdoutFd == NO_FD
      && pidMap == old(pidMap) - {old(p.pid)} && clientMap == old(clientMap) - {p.client.fd}
    }

    /** The client of one script is served no more. */
    lemma OneFewer(served: Table, writers: set<int>, client: ClientCon)
      requires client.fd in served && served[client.fd].client == client && clientMap == served - {client.fd}
      requires !client.cgiActive
      requires if client.fd in poller.sockets then poller.writers == Settle(writers, client.fd, client.resReady)
               else poller.writers == writers
      ensures ServesFewer(served, writers)
    {}

    lemma NoneFewer()
      ensures ServesFewer(clientMap, poller.writers)
    {}

    static ghost function ViewOf(c: ClientCon): ClientView
      reads c`responseOut, c`resReady, c`keepAlive, c`closeAfterSend
    {
      ClientView(c.responseOut, c.resReady, c.keepAlive, c.closeAfterSend)
    }

    /** What the end of a script leaves its client with: what was queued, or an error page in its place. */
    ghost predicate Told(p: CgiProcess, reason: CgiTermination, was: ClientView)
      reads p`responseStarted, p`forceClose, p.client`responseOut, p.client`sent, p.client`resReady, p.client`keepAlive
      reads p.client`closeAfterSend, p.client`cgiActive
    {
      && !p.client.cgiActive
      && if IsGone(reason) then p.client.responseOut == was.responseOut
         else if p.responseStarted then
           && p.client.responseOut == was.responseOut && (was.resReady ==> p.client.resReady)
           && p.client.keepAlive == (was.keepAlive && !p.forceClose && reason.Normal?)
           && p.client.closeAfterSend == was.closeAfterSend
         else
           && p.client.responseOut == errorResponse(ErrorStatus(reason)) && p.client.sent == 0 && p.client.resReady
           && !p.client.keepAlive && p.client.closeAfterSend
    }

    /** Close and forget a script, and note why. */
    method Retire(p: CgiProcess, reason: CgiTermination, ghost rest: set<object>)
      requires ValidBut(p, rest) && p.ClosesOk()
      modifies this, poller`interest, poller`pipes, poller`sockets
      modifies p`stdinFd, p`stdoutFd, p`stderrFd, p`stdinClosed, p`stdoutClosed, p`stderrClosed, p`pid
      modifies p`inCloses, p`outCloses, p`errCloses, p`terminated, p`pauseStdout, p`ended
      ensures Left(p) && !IsOwned(p)
      ensures Forgotten(p, rest) && p.Closed() && p.ended == Some(reason)
      ensures poller.sockets == old(poller.sockets) - {p.client.fd}
      ensures poller.pipes <= old(poller.pipes)
    {
      hide TablesOk, OthersOk, Forgotten, Drop, Dropped, HasEnds, CgiProcess.ClosesOk, CgiProcess.AllClosed;
      ghost var t0 := T();
      EndsOf(p, rest);
      Dismantle(p);
      Mark(p, reason);
      DropIgnoresPending(t0, wires[p], old(WireOf(p)));
      NoteLost(p, t0);
      NoteDropped(p, t0, rest);
    }

    method Mark(p: CgiProcess, reason: CgiTermination)
      requires p.AllClosed()
      modifies p`pid, p`terminated, p`pauseStdout, p`ended
      ensures p.Closed() && p.ended == Some(reason)
      ensures p.stdoutFd == NO_FD
    {
      p.pid, p.terminated, p.pauseStdout, p.ended := NO_FD, true, false, Some(reason);
    }

    /** The error page, for a script that never started a response. */
    method AnswerWithError(p: CgiProcess, reason: CgiTermination, status: int)
      modifies p`headsQueued, p`errorStatus, poller`interest
      modifies p.client`responseOut, p.client`resReady, p.client`keepAlive, p.client`closeAfterSend
      ensures var finalStatus := if reason == Normal then BAD_GATEWAY else status;
              p.client.responseOut == errorResponse(finalStatus) && p.errorStatus == Some(finalStatus)
      ensures p.headsQueued == old(p.headsQueued) + 1 && p.client.resReady
      ensures !p.client.keepAlive && p.client.closeAfterSend
      ensures poller.interest == old(poller.interest)[p.client.fd := WRITABLE]
    {
      var finalStatus := if reason == Normal then BAD_GATEWAY else status;
      p.client.responseOut := errorResponse(finalStatus);
      p.headsQueued := p.headsQueued + 1;
      p.errorStatus := Some(finalStatus);
      p.client.resReady := true;
      p.client.keepAlive := false;
      p.client.closeAfterSend := true;
      poller.Update(p.client.fd, false, true);
    }

    /**
     * Watch the client for what comes next: the rest of its response, its next request, or the end of the connection.
     */
    method WatchOnEnd(client: ClientCon)
      modifies poller`interest, client`resReady
      ensures var idle := !old(client.resReady) && client.responseOut == "" && client.keepAlive;
              && poller.interest == old(poller.interest)[client.fd := if idle then READABLE else WRITABLE]
              && (client.responseOut == "" ==> client.resReady == !idle) && (old(client.resReady) ==> client.resReady)
              && (old(client.resReady) || client.responseOut == "" ==>
                    poller.interest[client.fd] == if client.resReady then WRITABLE else READABLE)
    {
      if client.resReady || client.responseOut != "" {
        poller.Update(client.fd, false, true);
      } else if client.keepAlive {
        poller.Update(client.fd, true, false);
      } else {
        client.resReady := true;
        poller.Update(client.fd, false, true);
      }
    }

    /** Leave the client with an answer, or with the rest of its response, and watched for what comes next. */
    method AnswerOnEnd(p: CgiProcess, reason: CgiTermination, status: int)
      requires p.ended == Some(reason) && p.OutputEnds(reason) && p.errorStatus == None
      requires p.headsQueued == (if p.responseStarted then 1 else 0)
      requires !IsGone(reason) && !p.responseStarted ==> p.client.sent == 0
      requires !IsGone(reason) && p.client.responseOut != "" ==> p.client.resReady
      requires !IsGone(reason) && !reason.Normal? ==> status == ErrorStatus(reason)
      modifies p`headsQueued, p`errorStatus, poller`interest
      modifies p.client`responseOut, p.client`resReady, p.client`keepAlive, p.client`closeAfterSend
      modifies p.client`cgiActive, p.client`cgiForceClose
      ensures p.Answered() && Told(p, reason, old(ViewOf(p.client)))
      ensures IsGone(reason) ==> poller.interest == old(poller.interest)
      ensures !IsGone(reason) ==>
                var idle := p.responseStarted && !old(p.client.resReady) && old(p.client.responseOut) == ""
                            && p.client.keepAlive;
                && poller.interest == old(poller.interest)[p.client.fd := if idle then READABLE else WRITABLE]
                && p.client.resReady == !idle
    {
      hide CgiProcess.OutputEnds;
      var client := p.client;
      if IsGone(reason) {
        client.cgiActive := false;
        client.cgiForceClose := false;
      } else if p.responseStarted {
        if p.forceClose || reason != Normal {
          client.keepAlive := false;
        }
        client.cgiForceClose := false;
      } else {
        AnswerWithError(p, reason, status);
      }
      client.cgiActive := false;
      client.cgiForceClose := false;
      if IsGone(reason) {
        return;
      }
      WatchOnEnd(client);
    }

    /** The socket of a script that has left the tables is a plain connection's again. */
    ghost method TakeSocketBack(fd: int, t1: Tables, write: bool)
      requires TablesOk(t1, wires) && fd in t1.open && fd !in t1.pipes && fd !in t1.clientMap && fd != NO_FD
      requires T() == t1.(interest := t1.interest[fd := if write then WRITABLE else READABLE])
      modifies poller`sockets, poller`writers
      ensures TablesOk(T(), wires) && poller.sockets == old(poller.sockets) + {fd}
      ensures poller.writers == Settle(old(poller.writers), fd, write)
    {
      hide TablesOk;
      SocketAdded(t1, wires, fd, write);
      assert t1.open + {fd} == t1.open;
      poller.sockets := poller.sockets + {fd};
      poller.writers := Settle(poller.writers, fd, write);
    }

    /** Answer for a script that has left the tables, and take its client back into account. */
    method AnswerAndWatch(p: CgiProcess, reason: CgiTermination, status: int)
      requires TablesOk(T(), wires) && p.client.fd in poller.open && p.client.fd !in poller.pipes
      requires p.client.fd !in clientMap && p.client.fd != NO_FD
      requires p.ended == Some(reason) && p.OutputEnds(reason) && p.errorStatus == None
      requires !p.responseStarted && !IsGone(reason) ==> p.client.sent == 0
      requires p.headsQueued == (if p.responseStarted then 1 else 0)
      requires !IsGone(reason) && p.client.responseOut != "" ==> p.client.resReady
      requires !IsGone(reason) && !reason.Normal? ==> status == ErrorStatus(reason)
      modifies p`headsQueued, p`errorStatus, poller`interest, poller`sockets, poller`writers
      modifies p.client`responseOut, p.client`resReady, p.client`keepAlive, p.client`closeAfterSend
      modifies p.client`cgiActive, p.client`cgiForceClose
      ensures TablesOk(T(), wires) && p.Answered() && Told(p, reason, old(ViewOf(p.client)))
      ensures IsGone(reason) ==> poller.interest == old(poller.interest) && poller.writers == old(poller.writers)
      ensures !IsGone(reason) ==>
                && poller.interest
                   == old(poller.interest)[p.client.fd := if p.client.resReady then WRITABLE else READABLE]
                && poller.writers == Settle(old(poller.writers), p.client.fd, p.client.resReady)
      ensures poller.sockets == if IsGone(reason) then old(poller.sockets) else old(poller.sockets) + {p.client.fd}
    {
      hide TablesOk, Told, ViewOf, CgiProcess.Answered, CgiProcess.OutputEnds, Settle;
      ghost var t1 := T();
      AnswerOnEnd(p, reason, status);
      if !IsGone(reason) {
        TakeSocketBack(p.client.fd, t1, p.client.resReady);
      }
    }

    /** Answer for a script that has left the tables. */
    method Conclude(p: CgiProcess, reason: CgiTermination, status: int, ghost rest: set<object>)
      requires Forgotten(p, rest) && (!p.responseStarted && !IsGone(reason) ==> p.client.sent == 0) && p.Closed()
      requires p.written <= p.fed
      requires p.ended == Some(reason) && p.OutputEnds(reason) && p.errorStatus == None
      requires p.headsQueued == (if p.responseStarted then 1 else 0)
      requires !IsGone(reason) && p.client.responseOut != "" ==> p.client.resReady
      requires !IsGone(reason) && !reason.Normal? ==> status == ErrorStatus(reason)
      modifies p`headsQueued, p`errorStatus, poller`interest, poller`sockets, poller`writers
      modifies p.client`responseOut, p.client`resReady, p.client`keepAlive, p.client`closeAfterSend
      modifies p.client`cgiActive, p.client`cgiForceClose
      ensures Valid() && p.Ended() && Told(p, reason, old(ViewOf(p.client)))
      ensures !IsGone(reason) ==>
                && p.client.fd in poller.interest
                && poller.interest[p.client.fd] == if p.client.resReady then WRITABLE else READABLE
      ensures poller.writers
              == if IsGone(reason) then old(poller.writers)
                 else Settle(old(poller.writers), p.client.fd, p.client.resReady)
      ensures poller.sockets == if IsGone(reason) then old(poller.sockets) else old(poller.sockets) + {p.client.fd}
      ensures poller.interest.Keys <= old(poller.interest.Keys) + {p.client.fd}
    {
      hide OthersOk, TablesOk, Told, ViewOf, CgiProcess.Closed, CgiProcess.Answered, CgiProcess.OutputEnds, Settle,
           Valid, CgiProcess.Live;
      AnswerAndWatch(p, reason, status);
      ValidAgain(p, rest);
    }

    /** End a script: close what is open, forget it, and leave its client with exactly one response head. */
    method CleanupProcess(p: CgiProcess, reason: CgiTermination, status: int, ghost rest: set<object>)
      requires ValidBut(p, rest) && p.EndingOk(reason)
      requires !IsGone(reason) && !reason.Normal? ==> status == ErrorStatus(reason)
      modifies this, poller`interest, poller`pipes, poller`sockets, poller`writers
      modifies p`stdinFd, p`stdoutFd, p`stderrFd, p`stdinClosed, p`stdoutClosed, p`stderrClosed, p`pid
      modifies p`inCloses, p`outCloses, p`errCloses, p`terminated, p`pauseStdout, p`ended, p`headsQueued, p`errorStatus
      modifies p.client`responseOut, p.client`resReady, p.client`keepAlive, p.client`closeAfterSend
      modifies p.client`cgiActive, p.client`cgiForceClose
      ensures Valid() && p.Ended() && p.ended == Some(reason) && !IsOwned(p) && Left(p)
      ensures Told(p, reason, old(ViewOf(p.client)))
      ensures ServesFewer(old(clientMap), old(poller.writers))
      ensures !IsGone(reason) ==>
                && p.client.fd in poller.interest
                && poller.interest[p.client.fd] == if p.client.resReady then WRITABLE else READABLE
      ensures poller.sockets == if IsGone(reason) then old(poller.sockets) - {p.client.fd} else old(poller.sockets)
      ensures poller.pipes <= old(poller.pipes)
    {
      hide OthersOk, TablesOk, Valid, ValidBut, Forgotten, ViewOf, IsOwned, CgiProcess.Closed, CgiProcess.OutputEnds;
      hide CgiProcess.Ended, CgiProcess.ClosesOk, ServesFewer, Settle;
      if p.terminated {
        return;
      }
      NumbersOf(p, rest);
      Retire(p, reason, rest);
      assert poller.sockets + {p.client.fd} == old(poller.sockets);
      Conclude(p, reason, status, rest);
      OneFewer(old(clientMap), old(poller.writers), p.client);
    }

    // -------------------------------------------------------------------------
    // The script's output
    // -------------------------------------------------------------------------

    /** What is queued behind unsent bytes is sent behind them. */
    static lemma Queued(out: string, wire: string, queued: string, sent: nat, extra: string)
      requires sent <= |queued| && out == wire + queued[sent..]
      ensures out + extra == wire + (queued + extra)[sent..]
    {
      assert (queued + extra)[sent..] == queued[sent..] + extra;
    }

    /** Queue the head and what followed it in the same read. */
    method QueueHead(p: CgiProcess, headers: Headers, body: string, now: int)
      requires !p.terminated && !p.headersComplete && p.KeepOk()
      modifies p`headerMap, p`headersComplete, p`hasContentLength, p`chunkedMode, p`forceClose, p`responseStarted
      modifies p`headsQueued, p`lastActivity, p`contentLengthSent, poller`interest
      modifies p.client`responseOut, p.client`resReady, p.client`keepAlive, p.client`closeAfterSend
      modifies p.client`cgiForceClose
      ensures p.headersComplete && p.responseStarted && !p.chunkedMode && p.headsQueued == old(p.headsQueued) + 1
      ensures p.KeepOk() && p.headerMap == headers
      ensures p.client.responseOut == old(p.client.responseOut) + (p.head(headers) + body) && p.client.resReady
      ensures poller.interest == old(poller.interest)[p.client.fd := WRITABLE]
      ensures p.lastActivity == if body != "" then now else old(p.lastActivity)
    {
      p.headerMap := headers;
      p.headersComplete := true;
      EmitResponse(p);
      if body != "" {
        ForwardBody(p, body, now);
      }
    }

    /** The end of the header block. */
    method CompleteHeaders(p: CgiProcess, headers: Headers, body: string, now: int)
      requires p.FlagsOk() && p.KeepOk() && !p.headersComplete && p.ClientOk() && p.relay.out == "" && p.PauseOk()
      modifies p`headerMap, p`headersComplete, p`hasContentLength, p`chunkedMode, p`forceClose, p`responseStarted
      modifies p`headsQueued, p`lastActivity, p`contentLengthSent, p`relay, poller`interest
      modifies p.client`responseOut, p.client`resReady, p.client`keepAlive, p.client`closeAfterSend
      modifies p.client`cgiForceClose
      ensures p.FlagsOk() && p.KeepOk() && p.headersComplete && p.ClientOk() && p.PauseOk()
      ensures p.relay == Relay(Streaming, "", p.head(headers) + body, Some(headers)) && p.headerMap == headers
      ensures poller.interest == old(poller.interest)[p.client.fd := WRITABLE]
      ensures p.lastActivity == if body != "" then now else old(p.lastActivity)
    {
      QueueHead(p, headers, body, now);
      Queued("", p.client.wire, old(p.client.responseOut), p.client.sent, p.head(headers) + body);
      p.relay := Relay(Streaming, "", p.head(headers) + body, Some(headers));
    }

    /** Collect one read of the header block. */
    method CollectHeader(p: CgiProcess, data: string, now: int) returns (ok: bool)
      requires p.FlagsOk() && p.KeepOk() && !p.headersComplete && p.ClientOk() && p.PauseOk()
      requires p.relay == Collecting(p.headerBuffer)
      modifies p`headerBuffer, p`headerMap, p`headersComplete, p`hasContentLength, p`chunkedMode, p`forceClose
      modifies p`responseStarted
      modifies p`headsQueued, p`lastActivity, p`contentLengthSent, p`relay, poller`interest
      modifies p.client`responseOut, p.client`resReady, p.client`keepAlive, p.client`closeAfterSend
      modifies p.client`cgiForceClose
      ensures p.relay == Take(old(p.relay), data, p.head)
      ensures ok == !p.relay.phase.Failed? && p.FlagsOk() && p.KeepOk() && p.ClientOk() && p.PauseOk()
      ensures !ok ==> p.relay == REFUSED && !p.headersComplete
      ensures ok ==> p.relay.buffer == p.headerBuffer && p.headersComplete == p.relay.phase.Streaming?
      ensures ok && !p.headersComplete ==> p.relay.out == "" && p.relay.headers == None
      ensures ok && p.headersComplete ==> p.relay.headers == Some(p.headerMap)
      ensures p.lastActivity == now || p.lastActivity == old(p.lastActivity)
      ensures !p.headersComplete ==>
                poller.interest == old(poller.interest) && p.client.responseOut == old(p.client.responseOut)
      ensures p.headersComplete ==> poller.interest == old(poller.interest)[p.client.fd := WRITABLE]
    {
      hide Find, ParseBlock;
      ghost var before := p.relay;
      p.headerBuffer := p.headerBuffer + data;
      if |p.headerBuffer| > MAX_HEADER_BLOCK {
        p.relay := REFUSED;
        return false;
      }
      var pos := Find(p.headerBuffer, BLANK_LINE, 0);
      p.relay := p.relay.(buffer := p.headerBuffer);
      ok := true;
      if pos.Some? {
        var block, body := p.headerBuffer[..pos.value + 2], p.headerBuffer[pos.value + 4..];
        p.headerBuffer := "";
        var headers;
        ok, headers := ReadHeaderLines(block);
        if !ok {
          p.relay := REFUSED;
          return;
        }
        CompleteHeaders(p, headers, body, now);
      }
    }

    /** Pass one read of the body on. */
    method ForwardRead(p: CgiProcess, data: string, now: int)
      requires p.FlagsOk() && p.headersComplete && p.ClientOk() && p.relay.phase.Streaming? && p.PauseOk()
      modifies p`lastActivity, p`contentLengthSent, p`relay, p.client`responseOut, p.client`resReady, poller`interest
      ensures p.relay == Take(old(p.relay), data, p.head)
      ensures p.relay == old(p.relay).(out := p.relay.out) && p.FlagsOk() && p.ClientOk()
      ensures p.PauseOk()
      ensures p.lastActivity == now && poller.interest == old(poller.interest)[p.client.fd := WRITABLE]
    {
      ForwardBody(p, data, now);
      Queued(p.relay.out, p.client.wire, old(p.client.responseOut), p.client.sent, data);
      p.relay := p.relay.(out := p.relay.out + data);
    }

    /** One read from a script's stdout, as far as the script and its client are concerned. */
    method Collect(p: CgiProcess, data: string, now: int) returns (ok: bool)
      requires p.Live() && 0 < |data| <= READ_SIZE
      modifies p`headerBuffer, p`headerMap, p`headersComplete, p`hasContentLength, p`chunkedMode, p`forceClose
      modifies p`responseStarted
      modifies p`headsQueued, p`lastActivity, p`contentLengthSent, p`relay, p`chunks, poller`interest
      modifies p.client`responseOut, p.client`resReady, p.client`keepAlive, p.client`closeAfterSend
      modifies p.client`cgiForceClose
      ensures p.chunks == old(p.chunks) + [data] && p.lastActivity == now
      ensures ok ==> p.Live()
      ensures !ok ==> p.EndingOk(InvalidHeaders) && !p.headersComplete && p.relay == REFUSED
      ensures p.headersComplete ==> poller.interest == old(poller.interest)[p.client.fd := WRITABLE]
      ensures !p.headersComplete ==>
                poller.interest == old(poller.interest) && p.client.responseOut == old(p.client.responseOut)
    {
      hide TakeAll, Take, ReadsUpTo, CgiProcess.InputOk, CgiProcess.ClosesOk, CgiProcess.ClientOk;
      hide CgiProcess.PauseOk, CgiProcess.KeepOk, CgiProcess.HeadOk, CgiProcess.FlagsOk, CgiProcess.EndingOk;
      GivenPrefix(p);
      ghost var before := p.relay;
      if !p.headersComplete {
        ok := CollectHeader(p, data, now);
      } else {
        ForwardRead(p, data, now);
        ok := true;
      }
      NoteRead(p, data, now, before, ok);
    }

    /** A read has been dealt with. */
    method NoteRead(p: CgiProcess, data: string, now: int, ghost before: Relay, ok: bool)
      requires before == TakeAll(START, p.chunks, p.head) && ReadsUpTo(p.chunks, READ_SIZE) && 0 < |data| <= READ_SIZE
      requires p.relay == Take(before, data, p.head) && p.ClientOk() && p.FlagsOk() && p.ClosesOk()
               && p.written <= p.fed
      requires ok ==>
                 && p.KeepOk() && p.InputOk() && p.PauseOk() && p.relay.buffer == p.headerBuffer
                 && p.relay.phase == (if p.headersComplete then Streaming else Reading)
                 && if p.headersComplete then p.relay.headers == Some(p.headerMap)
                    else p.relay.out == "" && p.relay.headers == None
      requires !ok ==> p.relay == REFUSED && !p.headersComplete
      modifies p`lastActivity, p`chunks
      ensures p.chunks == old(p.chunks) + [data] && p.lastActivity == now
      ensures if ok then p.Live() else p.EndingOk(InvalidHeaders)
    {
      hide TakeAll, Take, ReadsUpTo, CgiProcess.InputOk, CgiProcess.ClosesOk, CgiProcess.ClientOk, CgiProcess.FlagsOk;
      hide CgiProcess.PauseOk, CgiProcess.KeepOk, CgiProcess.EndingOk;
      TakeAllSnoc(START, p.chunks, data, p.head);
      ReadsSnoc(p.chunks, data, READ_SIZE);
      p.lastActivity := now;
      p.chunks := p.chunks + [data];
      if !ok {
        RefusedEnds(p);
      }
    }

    static lemma RefusedEnds(p: CgiProcess)
      requires p.FlagsOk() && p.ClosesOk() && p.ClientOk() && p.written <= p.fed && !p.headersComplete
      requires p.relay == REFUSED == TakeAll(START, p.chunks, p.head) && ReadsUpTo(p.chunks, READ_SIZE)
      ensures p.EndingOk(InvalidHeaders)
    {
      hide TakeAll, ReadsUpTo, CgiProcess.ClosesOk;
    }

    static lemma GivenPrefix(p: CgiProcess)
      requires p.Live()
      ensures p.written <= p.fed
      ensures !p.headersComplete ==> p.client.responseOut == "" && p.client.sent == 0
    {
      assert p.InputOk() && p.RelayOk() && p.ClientOk();
    }

    static lemma ReadsSnoc(parts: seq<string>, data: string, size: nat)
      requires ReadsUpTo(parts, size) && 0 < |data| <= size
      ensures ReadsUpTo(parts + [data], size)
    {}

    /** The client of `p` is watched for writing from now on, whatever it has pending. */
    ghost method NoteWatched(p: CgiProcess, t0: Tables, rest: set<object>)
      requires wires.Keys == launched && TablesOk(t0, wires) && OthersOk(processes, wires, p, rest)
      requires p in launched && Owned(t0, p, wires[p]) && T() == WatchClient(t0, wires[p], WRITABLE)
      requires WireOf(p) == wires[p].(pending := WireOf(p).pending)
      requires p !in rest && p.client !in rest && this !in rest && poller !in rest
      modifies `wires
      ensures ValidBut(p, rest) && wires[p] == WireOf(p)
    {
      hide TablesOk, OthersOk;
      WatchClientKeeps(t0, wires, p, WRITABLE, WireOf(p).pending);
      OthersAfterRewire(processes, wires, p, rest, WireOf(p));
      wires := wires[p := WireOf(p)];
    }

    /** A read has been taken, which has queued something for the client or nothing at all. */
    ghost method NoteTaken(p: CgiProcess, t0: Tables, rest: set<object>, watched: bool)
      requires wires.Keys == launched && TablesOk(t0, wires) && OthersOk(processes, wires, p, rest)
      requires p in launched && Owned(t0, p, wires[p])
      requires T() == t0.(interest := poller.interest) && WireOf(p) == wires[p].(pending := WireOf(p).pending)
      requires poller.interest == if watched then t0.interest[p.client.fd := WRITABLE] else t0.interest
      requires !watched ==> WireOf(p) == wires[p]
      requires p !in rest && p.client !in rest && this !in rest && poller !in rest
      modifies `wires
      ensures ValidBut(p, rest) && wires[p] == WireOf(p)
    {
      hide TablesOk, OthersOk;
      if watched {
        NoteWatched(p, t0, rest);
      }
    }

    /** The same, seen from the tables. */
    method CollectOne(p: CgiProcess, data: string, now: int) returns (ok: bool)
      requires p.Live() && 0 < |data| <= READ_SIZE
      modifies p`headerBuffer, p`headerMap, p`headersComplete, p`hasContentLength, p`chunkedMode, p`forceClose
      modifies p`responseStarted
      modifies p`headsQueued, p`lastActivity, p`contentLengthSent, p`relay, p`chunks, poller`interest
      modifies p.client`responseOut, p.client`resReady, p.client`keepAlive, p.client`closeAfterSend
      modifies p.client`cgiForceClose
      ensures p.chunks == old(p.chunks) + [data] && p.lastActivity == now
      ensures if ok then p.Live() else p.EndingOk(InvalidHeaders) && p.relay == REFUSED
      ensures T() == old(T()).(interest := poller.interest)
      ensures p.headersComplete ==> poller.interest == old(poller.interest)[p.client.fd := WRITABLE]
      ensures !p.headersComplete ==>
                poller.interest == old(poller.interest) && p.client.responseOut == old(p.client.responseOut)
    {
      hide CgiProcess.Live, CgiProcess.EndingOk, CgiProcess.ClientOk, CgiProcess.OutputEnds;
      ok := Collect(p, data, now);
    }

    /** One read from a script's stdout that may still fail the script. */
    method TryRead(p: CgiProcess, data: string, now: int, ghost rest: set<object>) returns (ok: bool)
      requires Settled(p, rest) && 0 < |data| <= READ_SIZE
      modifies `wires, p`headerBuffer, p`headerMap, p`headersComplete, p`hasContentLength, p`chunkedMode, p`forceClose
      modifies p`responseStarted
      modifies p`headsQueued, p`lastActivity, p`contentLengthSent, p`relay, p`chunks, poller`interest
      modifies p.client`responseOut, p.client`resReady, p.client`keepAlive, p.client`closeAfterSend
      modifies p.client`cgiForceClose
      ensures p.chunks == old(p.chunks) + [data] && p.lastActivity == now && p.stdoutFd == old(p.stdoutFd)
      ensures if ok then Settled(p, rest) else ValidBut(p, rest) && p.EndingOk(InvalidHeaders) && p.relay == REFUSED
    {
      hide TablesOk, OthersOk, CgiProcess.Live, CgiProcess.EndingOk;
      ghost var t0 := T();
      ok := CollectOne(p, data, now);
      hide WatchClient;
      NoteTaken(p, t0, rest, p.headersComplete);
    }

    /** Reading from a script affects nothing but its output. */
    static twostate predicate ReadOnly(p: CgiProcess)
      reads p
    {
      && p.InputKept() && p.ErrorsKept() && p.pid == old(p.pid) && p.childReaped == old(p.childReaped)
      && p.pauseStdout == old(p.pauseStdout)
    }

    /** One read from a script's stdout. */
    method TakeRead(p: CgiProcess, data: string, now: int, ghost rest: set<object>) returns (done: bool)
      requires Settled(p, rest) && 0 < |data| <= READ_SIZE
      modifies this, poller`interest, poller`pipes, poller`sockets, poller`writers, p
      modifies p.client`responseOut, p.client`resReady, p.client`keepAlive, p.client`closeAfterSend
      modifies p.client`cgiActive, p.client`cgiForceClose
      ensures launched == old(launched) && ServesFewer(old(clientMap), old(poller.writers))
      ensures p.chunks == old(p.chunks) + [data]
      ensures !done ==> p.lastActivity == now && p.stdoutFd == old(p.stdoutFd)
      ensures !done ==> Settled(p, rest) && clientMap == old(clientMap) && processes == old(processes)
      ensures !done ==> poller.writers == old(poller.writers)
      ensures !done ==> ReadOnly(p)
      ensures done ==> Valid() && p.Ended() && p.ended == Some(InvalidHeaders) && !IsOwned(p)
      ensures done ==> TakeAll(START, p.chunks, p.head) == REFUSED && p.stdoutFd == NO_FD && !p.client.cgiActive
      ensures done ==>
                processes == old(processes) - {old(p.stdoutFd)} && clientMap == old(clientMap) - {p.client.fd}
      ensures poller.sockets == old(poller.sockets)
    {
      hide Valid, Settled, ValidBut, IsOwned, TakeAll, ReadsUpTo, CgiProcess.EndingOk, ServesFewer, CgiProcess.Ended;
      hide ViewOf;
      var ok := TryRead(p, data, now, rest);
      if !ok {
        assert TakeAll(START, p.chunks, p.head) == p.relay by {
          EndingRelay(p, InvalidHeaders);
        }
        CleanupProcess(p, InvalidHeaders, BAD_GATEWAY, rest);
      } else {
        NoneFewer();
      }
      done := !ok;
    }

    static lemma EndingRelay(p: CgiProcess, reason: CgiTermination)
      requires p.EndingOk(reason)
      ensures p.relay == TakeAll(START, p.chunks, p.head)
    {}

    /** The end of a script's output. */
    method StdoutEof(p: CgiProcess, ghost rest: set<object>)
      requires Settled(p, rest)
      modifies this, poller`interest, poller`pipes, poller`sockets, poller`writers, p
      modifies p.client`responseOut, p.client`resReady, p.client`keepAlive, p.client`closeAfterSend
      modifies p.client`cgiActive, p.client`cgiForceClose
      ensures Valid() && launched == old(launched) && ServesFewer(old(clientMap), old(poller.writers))
      ensures p.Ended() && !IsOwned(p)
      ensures p.chunks == old(p.chunks) && p.stdoutFd == NO_FD && !p.client.cgiActive
      ensures p.ended == Some(if old(p.headersComplete) then Normal else InvalidHeaders)
      ensures p.ended == Some(Normal) ==> p.RelayOk() && p.relay.phase.Streaming? && p.LeftRest()
      ensures p.ended == Some(InvalidHeaders) ==> Finish(TakeAll(START, p.chunks, p.head)) == REFUSED
      ensures processes == old(processes) - {old(p.stdoutFd)} && clientMap == old(clientMap) - {p.client.fd}
      ensures poller.sockets == old(poller.sockets)
    {
      hide TablesOk, OthersOk, Valid, ValidBut, TakeAll, ReadsUpTo, CgiProcess.Ended, CgiProcess.Live;
      hide CgiProcess.EndingOk, CgiProcess.RelayOk, CgiProcess.LeftRest, CgiProcess.KeepOk, CgiProcess.HeadOk,
           CgiProcess.Conserved;
      hide IsOwned;
      CloseStdout(p, rest);
      if !p.headersComplete {
        CleanupProcess(p, InvalidHeaders, BAD_GATEWAY, rest);
        return;
      }
      // A live script is never in chunked mode, so no terminator is due here.
      assert !p.chunkedMode;
      EndNormally(p, rest);
    }

    /** Nothing more can be read: what a live script may end for now. */
    method CloseStdout(p: CgiProcess, ghost rest: set<object>)
      requires Settled(p, rest)
      modifies p`stdoutClosed
      ensures ValidBut(p, rest) && p.EndingOk(if p.headersComplete then Normal else InvalidHeaders)
      ensures !p.chunkedMode && p.RelayOk() && p.KeepOk() && p.Conserved()
      ensures p.client.responseOut != "" ==> p.client.resReady
      ensures if p.headersComplete then p.relay.phase.Streaming?
              else Finish(TakeAll(START, p.chunks, p.head)) == REFUSED && !p.responseStarted
    {
      hide TablesOk, OthersOk, TakeAll, ReadsUpTo, CgiProcess.KeepOk, CgiProcess.HeadOk;
      p.stdoutClosed := true;
    }

    /** A script whose response has begun ends: what is queued for its client stays queued. */
    method EndNormally(p: CgiProcess, ghost rest: set<object>)
      requires ValidBut(p, rest) && p.EndingOk(Normal) && p.RelayOk() && p.KeepOk() && p.Conserved()
      requires p.relay.phase.Streaming? && (p.client.responseOut != "" ==> p.client.resReady)
      modifies this, poller`interest, poller`pipes, poller`sockets, poller`writers
      modifies p`stdinFd, p`stdoutFd, p`stderrFd, p`stdinClosed, p`stdoutClosed, p`stderrClosed, p`pid
      modifies p`inCloses, p`outCloses, p`errCloses, p`terminated, p`pauseStdout, p`ended, p`headsQueued, p`errorStatus
      modifies p.client`responseOut, p.client`resReady, p.client`keepAlive, p.client`closeAfterSend
      modifies p.client`cgiActive, p.client`cgiForceClose
      ensures Valid() && launched == old(launched) && ServesFewer(old(clientMap), old(poller.writers))
      ensures p.Ended() && !IsOwned(p)
      ensures p.ended == Some(Normal) && p.stdoutFd == NO_FD && p.RelayOk() && p.LeftRest() && !p.client.cgiActive
      ensures processes == old(processes) - {old(p.stdoutFd)} && clientMap == old(clientMap) - {p.client.fd}
      ensures poller.sockets == old(poller.sockets)
    {
      hide TablesOk, OthersOk, Valid, ValidBut, IsOwned, TakeAll, ReadsUpTo, CgiProcess.Ended, CgiProcess.RelayOk;
      hide CgiProcess.HeadOk, CgiProcess.EndingOk;
      NormalMeans(p);
      CleanupProcess(p, Normal, INTERNAL_SERVER_ERROR, rest);
    }

    static lemma NormalMeans(p: CgiProcess)
      requires p.EndingOk(Normal) && p.KeepOk()
      ensures p.responseStarted && p.client.keepAlive == (p.client.keepAlive && !p.forceClose)
    {
      hide CgiProcess.HeadOk;
    }

    ghost method NotePaused(p: CgiProcess, t0: Tables, rest: set<object>, paused: bool)
      requires wires.Keys == launched && TablesOk(t0, wires) && OthersOk(processes, wires, p, rest)
      requires p in launched && Owned(t0, p, wires[p]) && T() == SetPaused(t0, wires[p], paused)
      requires WireOf(p) == wires[p].(paused := paused)
      requires p !in rest && p.client !in rest && this !in rest && poller !in rest
      modifies `wires
      ensures ValidBut(p, rest) && wires[p] == WireOf(p)
    {
      hide TablesOk, OthersOk;
      SetPausedKeeps(t0, wires, p, paused);
      OthersAfterRewire(processes, wires, p, rest, WireOf(p));
      wires := wires[p := WireOf(p)];
    }

    /** Stop reading from a script. */
    method Pause(p: CgiProcess, ghost rest: set<object>)
      requires Settled(p, rest) && |p.client.responseOut| - p.client.sent > BACKPRESSURE_THRESHOLD
      modifies `wires, poller`interest, p`pauseStdout
      ensures Settled(p, rest) && p.pauseStdout && poller.interest == old(poller.interest)[p.stdoutFd := NOTHING]
    {
      hide TablesOk, OthersOk, CgiProcess.LiveBytes;
      ghost var t0 := T();
      p.pauseStdout := true;
      poller.Update(p.stdoutFd, false, false);
      NotePaused(p, t0, rest, true);
    }

    /** Stop reading from a script while its client has too much to send. */
    method EnforceBackpressure(p: CgiProcess, ghost rest: set<object>)
      requires Settled(p, rest)
      modifies `wires, poller`interest, p`pauseStdout
      ensures Settled(p, rest)
      ensures p.pauseStdout <==> old(p.pauseStdout) || |p.client.responseOut| - p.client.sent > BACKPRESSURE_THRESHOLD
      ensures p.stdoutFd in poller.interest && poller.interest[p.stdoutFd] == Interest(!p.pauseStdout, false)
    {
      hide ValidBut, CgiProcess.Live;
      NumbersOf(p, rest);
      var inflight := if p.client.sent < |p.client.responseOut| then |p.client.responseOut| - p.client.sent else 0;
      if !p.pauseStdout && inflight > BACKPRESSURE_THRESHOLD {
        Pause(p, rest);
      }
    }

    /** The reads of one event, until one of them fails the script. */
    method TakeReads(p: CgiProcess, parts: seq<string>, now: int, ghost rest: set<object>) returns (done: bool)
      requires Settled(p, rest) && ReadsUpTo(parts, READ_SIZE)
      modifies this, poller`interest, poller`pipes, poller`sockets, poller`writers, p
      modifies p.client`responseOut, p.client`resReady, p.client`keepAlive, p.client`closeAfterSend
      modifies p.client`cgiActive, p.client`cgiForceClose
      ensures launched == old(launched) && ServesFewer(old(clientMap), old(poller.writers))
      ensures !done ==>
                && Settled(p, rest) && p.chunks == old(p.chunks) + parts
                && p.lastActivity == (if parts == [] then old(p.lastActivity) else now)
      ensures !done ==> clientMap == old(clientMap) && processes == old(processes) && p.stdoutFd == old(p.stdoutFd)
      ensures !done ==> poller.writers == old(poller.writers)
      ensures !done ==> ReadOnly(p)
      ensures done ==> Valid() && p.Ended() && p.ended == Some(InvalidHeaders) && !IsOwned(p)
      ensures done ==> Finish(TakeAll(START, old(p.chunks) + parts, p.head)) == REFUSED && p.stdoutFd == NO_FD
      ensures done ==> !p.client.cgiActive
      ensures done ==>
                processes == old(processes) - {old(p.stdoutFd)} && clientMap == old(clientMap) - {p.client.fd}
      ensures poller.sockets == old(poller.sockets)
    {
      hide Valid, Settled, ReadsUpTo, TakeAll, CgiProcess.Ended, CgiProcess.Conserved;
      var i := 0;
      done := false;
      assert parts[..0] == [];
      while i < |parts|
        invariant i <= |parts| && launched == old(launched) && clientMap == old(clientMap)
        invariant processes == old(processes) && poller.writers == old(poller.writers)
        invariant ReadOnly(p)
        invariant Settled(p, rest) && p.chunks == old(p.chunks) + parts[..i]
        invariant p.stdoutFd == old(p.stdoutFd) && poller.sockets == old(poller.sockets)
        invariant p.lastActivity == if i == 0 then old(p.lastActivity) else now
      {
        InBounds(parts, READ_SIZE, i);
        done := TakeRead(p, parts[i], now, rest);
        assert parts[..i + 1] == parts[..i] + [parts[i]];
        assert old(p.chunks) + parts[..i] + [parts[i]] == old(p.chunks) + parts[..i + 1];
        if done {
          StaysRefused(old(p.chunks), parts, i + 1, p.head);
          return;
        }
        i := i + 1;
      }
      assert parts[..i] == parts;
    }

    static lemma StaysRefused(chunks: seq<string>, parts: seq<string>, n: nat, head: Headers -> string)
      requires n <= |parts| && TakeAll(START, chunks + parts[..n], head) == REFUSED
      ensures Finish(TakeAll(START, chunks + parts, head)) == REFUSED
    {
      hide TakeAll;
      assert chunks + parts == chunks + parts[..n] + parts[n..];
      TakeAllAppend(START, chunks + parts[..n], parts[n..], head);
      StaysFailed(parts[n..], head);
    }

    /** A readable event on a script's stdout: read until nothing is left, then see to backpressure. */
    method HandleStdout(p: CgiProcess, parts: seq<string>, eof: bool, now: int)
      requires Valid() && p in launched && IsOwned(p) && ReadsUpTo(parts, READ_SIZE)
      modifies this, poller`interest, poller`pipes, poller`sockets, poller`writers, p
      modifies p.client`responseOut, p.client`resReady, p.client`keepAlive, p.client`closeAfterSend
      modifies p.client`cgiActive, p.client`cgiForceClose
      ensures Valid() && launched == old(launched) && ServesFewer(old(clientMap), old(poller.writers))
      ensures p.StdoutTook(parts, eof, now)
      ensures if p.stdoutFd != NO_FD then processes == old(processes) && clientMap == old(clientMap)
              else
                && processes == old(processes) - {old(p.stdoutFd)} && clientMap == old(clientMap) - {p.client.fd}
                && !p.client.cgiActive
      ensures poller.sockets == old(poller.sockets)
    {
      hide Valid, Settled, ReadsUpTo, IsOwned, TakeAll, CgiProcess.Answered, CgiProcess.RelayOk, CgiProcess.LeftRest;
      hide CgiProcess.KeepOk, CgiProcess.HeadOk;
      OneClientEach(p);
      ghost var rest := Rest(p);
      var done := TakeReads(p, parts, now, rest);
      if done {
        return;
      }
      if eof {
        StdoutEof(p, rest);
        return;
      }
      EnforceBackpressure(p, rest);
      StillOwned(p, rest);
    }

    static lemma InBounds(parts: seq<string>, size: nat, i: nat)
      requires ReadsUpTo(parts, size) && i < |parts|
      ensures 0 < |parts[i]| <= size
    {}

    lemma StillOwned(p: CgiProcess, rest: set<object>)
      requires Settled(p, rest)
      ensures Valid() && IsOwned(p) && p.stdoutFd != NO_FD
    {
      hide OthersOk, TablesOk, CgiProcess.Live, CgiProcess.Ended, Valid;
      NumbersOf(p, rest);
      ValidAgain(p, rest);
    }

    // -------------------------------------------------------------------------
    // The script's input
    // -------------------------------------------------------------------------

    ghost method NoteStdinClosed(p: CgiProcess, t0: Tables, rest: set<object>)
      requires wires.Keys == launched && TablesOk(t0, wires) && OthersOk(processes, wires, p, rest)
      requires p in launched && Owned(t0, p, wires[p]) && wires[p].stdinFd != NO_FD && T() == CloseStdin(t0, wires[p])
      requires WireOf(p) == wires[p].(stdinFd := NO_FD)
      requires p !in rest && p.client !in rest && this !in rest && poller !in rest
      modifies `wires
      ensures ValidBut(p, rest) && wires[p] == WireOf(p)
    {
      hide TablesOk, OthersOk;
      CloseStdinKeeps(t0, wires, p);
      OthersAfterRewire(processes, wires, p, rest, WireOf(p));
      wires := wires[p := WireOf(p)];
    }

    method CloseStdinOf(p: CgiProcess)
      requires p.Live() && p.stdinFd in poller.pipes && p.stdinFd != NO_FD
      modifies poller`interest, poller`pipes, p`stdinFd, p`stdinClosed, p`inCloses
      ensures poller.interest == old(poller.interest) - {old(p.stdinFd)}
      ensures poller.pipes == old(poller.pipes) - {old(p.stdinFd)}
      ensures p.stdinFd == NO_FD && p.Live()
    {
      hide CgiProcess.RelayOk, CgiProcess.ClientOk, CgiProcess.FlagsOk, CgiProcess.PauseOk, CgiProcess.KeepOk,
           CgiProcess.HeadOk;
      ReleaseStdin(p);
    }

    /** Unregister, close and forget a script's stdin. */
    method ShutStdin(p: CgiProcess, ghost rest: set<object>)
      requires Settled(p, rest) && p.stdinFd != NO_FD
      modifies `stdinMap, `wires, poller`interest, poller`pipes, p`stdinFd, p`stdinClosed, p`inCloses
      ensures Settled(p, rest) && p.stdinFd == NO_FD
    {
      hide TablesOk, OthersOk, CgiProcess.Live;
      NumbersOf(p, rest);
      ghost var t0 := T();
      var fd := p.stdinFd;
      CloseStdinOf(p);
      stdinMap := stdinMap - {fd};
      NoteStdinClosed(p, t0, rest);
    }

    /**
     * Write to a script's stdin once, with result `n`; the pipe is to be closed once the buffer is drained, or on an
     * error.
     */
    method WriteStdin(p: CgiProcess, n: int, now: int) returns (close: bool)
      requires p.Live() && n <= |p.stdinBuffer| - p.stdinOffset
      modifies p`stdinOffset, p`written, p`lastActivity
      ensures p.Live() && p.stdinOffset == old(p.stdinOffset) + (if n > 0 then n else 0) <= |p.stdinBuffer|
      ensures p.written == p.stdinBuffer[..p.stdinOffset]
      ensures p.lastActivity == if n > 0 then now else old(p.lastActivity)
      ensures close <==> n < 0 || p.stdinOffset == |p.stdinBuffer|
    {
      hide CgiProcess.RelayOk, CgiProcess.ClientOk, CgiProcess.FlagsOk, CgiProcess.PauseOk, CgiProcess.ClosesOk;
      hide CgiProcess.KeepOk, CgiProcess.HeadOk;
      if p.StdinDone() {
        return true;
      }
      if n > 0 {
        p.stdinOffset := p.stdinOffset + n;
        p.written := p.stdinBuffer[..p.stdinOffset];
        p.lastActivity := now;
        return p.StdinDone();
      } else if n == 0 {
        // No progress: try again on the next event.
        return false;
      }
      close := true;
    }

    /**
     * A writable event on a script's stdin: one write; the pipe is closed once the buffer is drained, or on an error.
     */
    method HandleStdin(p: CgiProcess, n: int, now: int)
      requires Valid() && p in launched && IsOwned(p) && p.stdinFd != NO_FD
      requires n <= |p.stdinBuffer| - p.stdinOffset
      modifies `stdinMap, `wires, poller`interest, poller`pipes, p
      ensures Valid() && IsOwned(p) && p.StdinTook(n, now)
    {
      hide ValidBut, WireOf, Valid, CgiProcess.Live;
      OneClientEach(p);
      ghost var rest := Rest(p);
      var close := WriteStdin(p, n, now);
      if close {
        ShutStdin(p, rest);
      }
      StillOwned(p, rest);
    }

    /** The script that serves a client. */
    function Serving(clientFd: int): set<CgiProcess>
      reads this
    {
      if clientFd in clientMap then {clientMap[clientFd]} else {}
    }

    lemma ServedIsOwned(clientFd: int)
      requires Valid() && clientFd in clientMap
      ensures clientMap[clientFd] in launched && IsOwned(clientMap[clientFd])
      ensures clientMap[clientFd].client.fd == clientFd
    {
      hide CgiProcess.Live, CgiProcess.Ended;
      var p := clientMap[clientFd];
      assert p in wires && Owned(T(), p, wires[p]);
      assert StateOk(p);
    }

    /** Append to a script's stdin buffer, unless its stdin has been closed. */
    method Append(p: CgiProcess, data: string, now: int)
      requires p.Live()
      modifies p`stdinBuffer, p`fed, p`lastActivity, p.client`cgiFed
      ensures p.Live() && p.client.cgiFed == old(p.client.cgiFed) + |data|
      ensures data != "" ==> p.View() == Give(old(p.View()), data, now)
    {
      hide CgiProcess.RelayOk, CgiProcess.ClientOk, CgiProcess.FlagsOk, CgiProcess.PauseOk, CgiProcess.KeepOk,
           CgiProcess.HeadOk;
      p.fed := p.fed + data;
      p.client.cgiFed := p.client.cgiFed + |data|;
      if p.stdinClosed || p.stdinFd == NO_FD {
        return;
      }
      p.stdinBuffer := p.stdinBuffer + data;
      p.lastActivity := now;
    }

    method FeedScript(p: CgiProcess, data: string, now: int)
      requires Valid() && p in launched && IsOwned(p)
      modifies poller`interest, p`stdinBuffer, p`fed, p`lastActivity, p.client`cgiFed
      ensures Valid() && poller.interest == old(poller.interest) && p.client.cgiFed == old(p.client.cgiFed) + |data|
      ensures data != "" ==> p.View() == Give(old(p.View()), data, now)
    {
      hide TablesOk, OthersOk, Valid, CgiProcess.Live, CgiProcess.View, Give;
      OneClientEach(p);
      ghost var rest := Rest(p);
      NumbersOf(p, rest);
      ghost var t0 := T();
      Append(p, data, now);
      if p.stdinFd != NO_FD && p.stdinFd in stdinMap {
        poller.Update(p.stdinFd, false, true);
        assert T() == t0;
      }
      StillOwned(p, rest);
    }

    /** More of the body for the script behind a client. */
    method FeedStdin(clientFd: int, data: string, now: int)
      requires Valid()
      modifies poller`interest, Serving(clientFd)`stdinBuffer, Serving(clientFd)`fed, Serving(clientFd)`lastActivity
      modifies ClientsOf(Serving(clientFd))`cgiFed
      ensures Valid() && poller.interest == old(poller.interest)
      ensures forall p :: p in Serving(clientFd) ==>
                && p.client.cgiFed == old(p.client.cgiFed) + |data|
                && (data != "" ==> p.View() == Give(old(p.View()), data, now))
    {
      hide Valid;
      if clientFd !in clientMap {
        return;
      }
      ServedIsOwned(clientFd);
      FeedScript(clientMap[clientFd], data, now);
    }

    method FinishScript(p: CgiProcess, ghost rest: set<object>)
      requires Settled(p, rest)
      modifies `stdinMap, `wires, poller`interest, poller`pipes, p`stdinFd, p`stdinClosed, p`inCloses
      ensures Valid() && p.View() == EndBody(old(p.View()))
    {
      hide TablesOk, OthersOk, WireOf, Valid, ValidBut, IsOwned, CgiProcess.Live;
      if p.stdinClosed {
        ClosedMeans(p);
      } else if p.StdinDone() && p.stdinFd != NO_FD {
        ShutStdin(p, rest);
      }
      StillOwned(p, rest);
    }

    /** No more of the body is due: close a drained stdin at once. */
    method FinishStdin(clientFd: int)
      requires Valid()
      modifies `stdinMap, `wires, poller`interest, poller`pipes, Serving(clientFd)`stdinFd
      modifies Serving(clientFd)`stdinClosed, Serving(clientFd)`inCloses
      ensures Valid()
      ensures forall p :: p in Serving(clientFd) ==> p.View() == EndBody(old(p.View()))
    {
      hide Valid, Settled, IsOwned;
      if clientFd !in clientMap {
        return;
      }
      var p := clientMap[clientFd];
      ServedIsOwned(clientFd);
      OneClientEach(p);
      FinishScript(p, Rest(p));
    }

    static lemma ClosedMeans(p: CgiProcess)
      requires p.Live()
      ensures p.stdinClosed <==> p.stdinFd == NO_FD
      ensures p.stderrClosed <==> p.stderrFd == NO_FD
      ensures !p.stdoutClosed && !p.chunkedMode && !p.terminated
    {
      assert p.ClosesOk() && p.FlagsOk();
    }

    // -------------------------------------------------------------------------
    // The script's stderr
    // -------------------------------------------------------------------------

    /** Log the complete lines of what a script has written to its stderr. */
    method LogLines(p: CgiProcess, data: string) returns (lines: seq<string>)
      modifies p`stderrBuffer
      ensures Unlines(lines) + p.stderrBuffer == old(p.stderrBuffer) + data
      ensures '\n' !in p.stderrBuffer && forall i :: 0 <= i < |lines| ==> '\n' !in lines[i]
    {
      hide Find;
      p.stderrBuffer := p.stderrBuffer + data;
      lines := [];
      ghost var all := p.stderrBuffer;
      assert Unlines(lines) + p.stderrBuffer == all;
      while true
        invariant Unlines(lines) + p.stderrBuffer == all && forall i :: 0 <= i < |lines| ==> '\n' !in lines[i]
        decreases |p.stderrBuffer|
      {
        var pos := Find(p.stderrBuffer, "\n", 0);
        if pos == None {
          NoNewline(p.stderrBuffer);
          return;
        }
        LineHasNoNewline(p.stderrBuffer);
        ghost var before, rest := Unlines(lines), p.stderrBuffer;
        var line := p.stderrBuffer[..pos.value];
        p.stderrBuffer := p.stderrBuffer[pos.value + 1..];
        assert before + line + "\n" + p.stderrBuffer == before + rest;
        assert (lines + [line])[..|lines|] == lines;
        lines := lines + [line];
      }
    }

    ghost method NoteStderrClosed(p: CgiProcess, t0: Tables, rest: set<object>)
      requires wires.Keys == launched && TablesOk(t0, wires) && OthersOk(processes, wires, p, rest)
      requires p in launched && Owned(t0, p, wires[p]) && wires[p].stderrFd != NO_FD && T() == CloseStderr(t0, wires[p])
      requires WireOf(p) == wires[p].(stderrFd := NO_FD)
      requires p !in rest && p.client !in rest && this !in rest && poller !in rest
      modifies `wires
      ensures ValidBut(p, rest) && wires[p] == WireOf(p)
    {
      hide TablesOk, OthersOk;
      CloseStderrKeeps(t0, wires, p);
      OthersAfterRewire(processes, wires, p, rest, WireOf(p));
      wires := wires[p := WireOf(p)];
    }

    method CloseStderrOf(p: CgiProcess)
      requires p.Live() && p.stderrFd in poller.pipes && p.stderrFd != NO_FD
      modifies poller`interest, poller`pipes, p`stderrFd, p`stderrClosed, p`errCloses
      ensures poller.interest == old(poller.interest) - {old(p.stderrFd)}
      ensures poller.pipes == old(poller.pipes) - {old(p.stderrFd)}
      ensures p.stderrFd == NO_FD && p.Live()
    {
      hide CgiProcess.RelayOk, CgiProcess.ClientOk, CgiProcess.FlagsOk, CgiProcess.PauseOk, CgiProcess.KeepOk,
           CgiProcess.HeadOk;
      ReleaseStderr(p);
    }

    method ShutStderr(p: CgiProcess, ghost rest: set<object>)
      requires Settled(p, rest) && p.stderrFd != NO_FD
      modifies `stderrMap, `wires, poller`interest, poller`pipes, p`stderrFd, p`stderrClosed, p`errCloses
      ensures Settled(p, rest) && p.stderrFd == NO_FD
    {
      hide TablesOk, OthersOk, CgiProcess.Live;
      NumbersOf(p, rest);
      ghost var t0 := T();
      var fd := p.stderrFd;
      CloseStderrOf(p);
      stderrMap := stderrMap - {fd};
      NoteStderrClosed(p, t0, rest);
    }

    /** A readable event on a script's stderr: log complete lines, keep the rest of the last one, close at the end. */
    method HandleStderr(p: CgiProcess, parts: seq<string>, eof: bool) returns (lines: seq<string>)
      requires Valid() && p in launched && IsOwned(p) && p.stderrFd != NO_FD
      modifies `stderrMap, `wires, poller`interest, poller`pipes, p
      ensures Valid() && IsOwned(p) && launched == old(launched) && p.StderrTook(parts, eof, lines)
    {
      hide ValidBut, WireOf, Valid, CgiProcess.Live, Concat, Unlines;
      OneClientEach(p);
      ghost var rest := Rest(p);
      lines := LogReads(p, parts);
      if eof {
        ShutStderr(p, rest);
      }
      StillOwned(p, rest);
    }

    method LogReads(p: CgiProcess, parts: seq<string>) returns (lines: seq<string>)
      requires p.Live()
      modifies p`stderrBuffer
      ensures p.Live() && Unlines(lines) + p.stderrBuffer == old(p.stderrBuffer) + Concat(parts)
      ensures forall i :: 0 <= i < |lines| ==> '\n' !in lines[i]
    {
      hide CgiProcess.RelayOk, CgiProcess.ClientOk, CgiProcess.FlagsOk, CgiProcess.InputOk, CgiProcess.ClosesOk;
      hide CgiProcess.PauseOk, CgiProcess.KeepOk, CgiProcess.HeadOk;
      lines := [];
      var i := 0;
      assert parts[0..] == parts;
      while i < |parts|
        invariant i <= |parts| && p.Live() && forall k :: 0 <= k < |lines| ==> '\n' !in lines[k]
        invariant Unlines(lines) + p.stderrBuffer + Concat(parts[i..]) == old(p.stderrBuffer) + Concat(parts)
      {
        ghost var before, held := Unlines(lines), p.stderrBuffer;
        var more := LogLines(p, parts[i]);
        UnlinesAppend(lines, more);
        assert Concat(parts[i..]) == parts[i] + Concat(parts[i + 1..]) by { assert parts[i..][1..] == parts[i + 1..]; }
        Regroup(before, held, parts[i], Concat(parts[i + 1..]), Unlines(more), p.stderrBuffer);
        lines := lines + more;
        i := i + 1;
      }
      assert Concat(parts[i..]) == "";
      assert Unlines(lines) + p.stderrBuffer + "" == Unlines(lines) + p.stderrBuffer;
    }

    static lemma Regroup(before: string, held: string, part: string, tail: string, more: string, kept: string)
      requires more + kept == held + part
      ensures before + more + kept + tail == before + held + (part + tail)
    {
      assert before + more + kept + tail == before + (more + kept) + tail;
    }

    // -------------------------------------------------------------------------
    // Events
    // -------------------------------------------------------------------------

    /** The script behind a descriptor. */
    ghost function Behind(fd: int): set<CgiProcess>
      reads this
    {
      (if fd in processes then {processes[fd]} else {}) + (if fd in stdinMap then {stdinMap[fd]} else {})
      + (if fd in stderrMap then {stderrMap[fd]} else {})
    }

    /** Every table entry is an owned script, filed under its own number. */
    lemma EntriesAreOwned(fd: int)
      requires Valid()
      ensures fd in processes ==> processes[fd] in launched && IsOwned(processes[fd]) && processes[fd].stdoutFd == fd
      ensures fd in stdinMap ==>
                stdinMap[fd] in launched && IsOwned(stdinMap[fd]) && stdinMap[fd].stdinFd == fd != NO_FD
      ensures fd in stderrMap ==>
                stderrMap[fd] in launched && IsOwned(stderrMap[fd]) && stderrMap[fd].stderrFd == fd != NO_FD
      ensures fd in pidMap ==>
                pidMap[fd] in launched && IsOwned(pidMap[fd]) && pidMap[fd].pid == fd && !pidMap[fd].childReaped
      ensures fd in stdinMap ==> fd !in stderrMap
    {
      hide CgiProcess.Live, CgiProcess.Ended;
      forall p | p in launched ensures StateOk(p) {}
      if fd in pidMap {
        assert Wired(T(), pidMap[fd], wires[pidMap[fd]]);
      }
    }

    /** What a readiness event does to the script behind the descriptor, and what is logged. */
    twostate predicate EventTaken(fd: int, readable: bool, writable: bool, parts: seq<string>, eof: bool, n: int,
                                  now: int, lines: seq<string>)
      reads *
    {
      && (old(fd in processes) && readable ==>
            var p := old(processes[fd]);
            && p.StdoutTook(parts, eof, now) && p.client.Kept()
            && if p.stdoutFd != NO_FD then processes == old(processes) && clientMap == old(clientMap)
               else
                 && processes == old(processes) - {fd} && clientMap == old(clientMap) - {p.client.fd}
                 && !p.client.cgiActive)
      && (old(fd !in processes && fd in stdinMap) && writable ==> old(stdinMap[fd]).StdinTook(n, now))
      && (if old(fd !in processes && fd !in stdinMap && fd in stderrMap) && readable
          then old(stderrMap[fd]).StderrTook(parts, eof, lines) else lines == [])
    }

    /**
     * One readiness event: `parts` and `eof` are what the reads return before they would block, `n` what the write
     * returns. Nothing but the script behind the descriptor and its client is touched.
     */
    method HandleEvent(fd: int, readable: bool, writable: bool, parts: seq<string>, eof: bool, n: int, now: int)
      returns (lines: seq<string>)
      requires Valid() && ReadsUpTo(parts, READ_SIZE)
      requires fd in stdinMap ==> n <= |stdinMap[fd].stdinBuffer| - stdinMap[fd].stdinOffset
      modifies this, poller`interest, poller`pipes, poller`sockets, poller`writers, Behind(fd)
      modifies ClientsOf(Behind(fd))`responseOut, ClientsOf(Behind(fd))`resReady, ClientsOf(Behind(fd))`keepAlive
      modifies ClientsOf(Behind(fd))`closeAfterSend, ClientsOf(Behind(fd))`cgiActive,
               ClientsOf(Behind(fd))`cgiForceClose
      ensures Valid() && launched == old(launched) && ServesFewer(old(clientMap), old(poller.writers))
      ensures EventTaken(fd, readable, writable, parts, eof, n, now, lines)
      ensures old(fd in processes) && !readable ==> T() == old(T())
      ensures old(fd !in processes && fd !in stdinMap && fd !in stderrMap) ==> T() == old(T())
      ensures poller.sockets == old(poller.sockets)
    {
      hide Valid, ReadsUpTo, IsOwned, ServesFewer, CgiProcess.StdoutTook, CgiProcess.StdinTook, CgiProcess.StderrTook;
      lines := [];
      NoneFewer();
      EntriesAreOwned(fd);
      if fd in processes {
        if readable {
          HandleStdout(processes[fd], parts, eof, now);
        }
        return;
      }
      if fd in stdinMap && writable {
        HandleStdin(stdinMap[fd], n, now);
        return;
      }
      if fd in stderrMap && readable {
        lines := HandleStderr(stderrMap[fd], parts, eof);
      }
    }

    /** A live script may end for a timeout, a lost client or a shutdown at any time. */
    static lemma LiveMayEnd(p: CgiProcess, reason: CgiTermination)
      requires p.Live() && (IsGone(reason) || reason.Timeout? || (reason.ExecFailure? && !p.headersComplete))
      ensures p.EndingOk(reason)
    {
      hide TakeAll, ReadsUpTo;
    }

    /** The script of a client may be given up. */
    ghost predicate MayAbandon(clientFd: int, rest: set<object>)
      reads this, poller, rest, launched, Serving(clientFd), Clients()`cgiActive, Clients()`sent
      reads Clients()`responseOut, Clients()`wire, Clients()`resReady, Clients()`cgiFed
      reads Clients()`keepAlive, Clients()`closeAfterSend
      reads Clients()`keepAlive, Clients()`closeAfterSend
      reads ClientsOf(Serving(clientFd))`sent, ClientsOf(Serving(clientFd))`responseOut
    {
      if clientFd in clientMap
      then ValidBut(clientMap[clientFd], rest) && clientMap[clientFd].EndingOk(ClientGone)
      else Valid()
    }

    lemma SocketIsNoPipe(clientFd: int, rest: set<object>)
      requires MayAbandon(clientFd, rest) && clientFd in poller.sockets
      ensures clientFd !in poller.pipes
    {
      hide CgiProcess.Live, CgiProcess.Ended, CgiProcess.EndingOk, OthersOk;
    }

    /** The script behind a descriptor or pid, and an expired one, serve a client. */
    lemma OwnedServes(p: CgiProcess)
      requires Valid() && p in launched && IsOwned(p)
      ensures p.client.fd in clientMap && clientMap[p.client.fd] == p
    {
      Agreement(p);
    }

    lemma ValidMayAbandon(clientFd: int)
      requires Valid()
      ensures MayAbandon(clientFd, if clientFd in clientMap then Rest(clientMap[clientFd]) else {})
    {
      hide Valid, ValidBut, CgiProcess.Live, CgiProcess.EndingOk;
      if clientFd in clientMap {
        ServedIsOwned(clientFd);
        OneClientEach(clientMap[clientFd]);
        LiveMayEnd(clientMap[clientFd], ClientGone);
      }
    }

    /** A connection that no script serves is left out of account. */
    ghost method ForgetSocket(fd: int)
      requires Valid() && fd !in clientMap
      modifies poller`sockets
      ensures Valid() && poller.sockets == old(poller.sockets) - {fd}
    {
      hide CgiProcess.Live, CgiProcess.Ended, TablesOk;
      SocketLost(T(), wires, fd);
      poller.sockets := poller.sockets - {fd};
    }

    lemma AbandonNothing(clientFd: int, rest: set<object>)
      requires MayAbandon(clientFd, rest) && clientFd !in clientMap
      ensures Valid()
    {}

    lemma AbandonMeans(clientFd: int, rest: set<object>)
      requires MayAbandon(clientFd, rest) && clientFd in clientMap
      ensures ValidBut(clientMap[clientFd], rest) && clientMap[clientFd].EndingOk(ClientGone)
      ensures clientMap[clientFd].client.fd == clientFd
    {
      hide OthersOk, CgiProcess.EndingOk;
    }

    /** The pid of the script that serves a client. */
    ghost function PidsOf(clientFd: int): set<int>
      reads this, Serving(clientFd)`pid
    {
      set p | p in Serving(clientFd) :: p.pid
    }

    /**
     * The loss of a client has ended the scripts that served it, and taken their entries out of what the tables were.
     */
    ghost predicate ClientLost(clientFd: int, served: Table, pids: Table, scripts: set<CgiProcess>, numbers: set<int>)
      reads `clientMap, `pidMap, scripts, ClientsOf(scripts)`cgiActive
    {
      && clientMap == served - {clientFd} && pidMap == pids - numbers
      && forall p :: p in scripts ==> p.Ended() && p.ended == Some(ClientGone) && !p.client.cgiActive
    }

    /** The client has closed its connection. */
    method HandleClientClose(clientFd: int, ghost rest: set<object>)
      requires MayAbandon(clientFd, rest)
      modifies this, poller`interest, poller`pipes, poller`sockets, poller`writers, Serving(clientFd)
      modifies ClientsOf(Serving(clientFd))`responseOut, ClientsOf(Serving(clientFd))`resReady
      modifies ClientsOf(Serving(clientFd))`keepAlive, ClientsOf(Serving(clientFd))`closeAfterSend
      modifies ClientsOf(Serving(clientFd))`cgiActive, ClientsOf(Serving(clientFd))`cgiForceClose
      ensures Valid() && launched == old(launched) && clientFd !in clientMap
      ensures ServesFewer(old(clientMap), old(poller.writers))
      ensures ClientLost(clientFd, old(clientMap), old(pidMap), old(Serving(clientFd)), old(PidsOf(clientFd)))
      ensures poller.sockets == old(poller.sockets) - {clientFd}
      ensures poller.pipes <= old(poller.pipes)
    {
      hide Valid, MayAbandon, ValidBut, IsOwned, ServesFewer, CgiProcess.Ended, CgiProcess.EndingOk;
      if clientFd !in clientMap {
        assert clientMap - {clientFd} == clientMap && pidMap - {} == pidMap;
        AbandonNothing(clientFd, rest);
        ForgetSocket(clientFd);
        NoneFewer();
        return;
      }
      AbandonMeans(clientFd, rest);
      var p := clientMap[clientFd];
      assert PidsOf(clientFd) == {p.pid};
      CleanupProcess(p, ClientGone, 499, rest);
    }

    ghost method NoteReaped(p: CgiProcess, t0: Tables, rest: set<object>)
      requires wires.Keys == launched && TablesOk(t0, wires) && OthersOk(processes, wires, p, rest)
      requires p in launched && Owned(t0, p, wires[p]) && FiledPid(t0, p, wires[p]) && T() == Reap(t0, wires[p])
      requires WireOf(p) == wires[p].(reaped := true)
      requires p !in rest && p.client !in rest && this !in rest && poller !in rest
      modifies `wires
      ensures ValidBut(p, rest) && wires[p] == WireOf(p)
    {
      hide TablesOk, OthersOk;
      ReapKeeps(t0, wires, p);
      OthersAfterRewire(processes, wires, p, rest, WireOf(p));
      wires := wires[p := WireOf(p)];
    }

    /** The script behind a pid. */
    ghost function Child(pid: int): set<CgiProcess>
      reads this
    {
      if pid in pidMap then {pidMap[pid]} else {}
    }

    method Reaped(p: CgiProcess, ghost rest: set<object>)
      requires Settled(p, rest) && !p.childReaped && p.pid in pidMap && pidMap[p.pid] == p
      modifies `pidMap, `wires, p`childReaped
      ensures Settled(p, rest) && p.childReaped && pidMap == old(pidMap) - {p.pid}
    {
      hide TablesOk, OthersOk, CgiProcess.Live;
      ghost var t0 := T();
      pidMap := pidMap - {p.pid};
      p.childReaped := true;
      NoteReaped(p, t0, rest);
    }

    /** The script of a reaped child ends here only if the child failed before its header block was complete. */
    method ChildDone(p: CgiProcess, exited: bool, code: int, ghost rest: set<object>)
      requires Settled(p, rest) && !p.childReaped && p.pid in pidMap && pidMap[p.pid] == p
      modifies this, poller`interest, poller`pipes, poller`sockets, poller`writers, p
      modifies p.client`responseOut, p.client`resReady, p.client`keepAlive, p.client`closeAfterSend
      modifies p.client`cgiActive, p.client`cgiForceClose
      ensures Valid() && launched == old(launched) && ServesFewer(old(clientMap), old(poller.writers)) && p.childReaped
      ensures pidMap == old(pidMap) - {old(p.pid)}
      ensures if exited && code != 0 && old(!p.headersComplete)
              then !IsOwned(p) && p.ended == Some(ExecFailure)
              else
                && IsOwned(p) && processes == old(processes) && clientMap == old(clientMap) && OnlyReaped(p)
      ensures poller.sockets == old(poller.sockets)
    {
      hide TablesOk, Valid, ValidBut, IsOwned, CgiProcess.Live, CgiProcess.Ended, CgiProcess.EndingOk, Told;
      Reaped(p, rest);
      if exited && code != 0 && !p.headersComplete {
        LiveMayEnd(p, ExecFailure);
        CleanupProcess(p, ExecFailure, BAD_GATEWAY, rest);
        return;
      }
      // Whatever the source does here for a script whose stdout has been closed never happens.
      ClosedMeans(p);
      assert !p.stdoutClosed;
      StillOwned(p, rest);
    }

    /** That its child has been reaped is all that has happened to a script, and nothing has to its client. */
    twostate predicate OnlyReaped(p: CgiProcess)
      reads p, p.client
    {
      p.View() == old(p.View()).(childReaped := true) && ViewOf(p.client) == old(ViewOf(p.client))
    }

    /** What the exit of a child does: its script ends exactly if it failed before its header block was complete. */
    twostate predicate ChildTaken(pid: int, exited: bool, code: int)
      reads *
    {
      && pidMap == old(pidMap) - {pid}
      && forall p :: p in old(Child(pid)) ==>
           && p.childReaped && p.client.Kept()
           && if exited && code != 0 && old(!p.headersComplete)
              then !IsOwned(p) && p.ended == Some(ExecFailure)
              else
                && IsOwned(p) && processes == old(processes) && clientMap == old(clientMap) && p.pid == pid
                && OnlyReaped(p)
    }

    /** A child has been reaped. */
    method HandleChildExit(pid: int, exited: bool, code: int)
      requires Valid()
      modifies this, poller`interest, poller`pipes, poller`sockets, poller`writers, Child(pid)
      modifies ClientsOf(Child(pid))`responseOut, ClientsOf(Child(pid))`resReady, ClientsOf(Child(pid))`keepAlive
      modifies ClientsOf(Child(pid))`closeAfterSend, ClientsOf(Child(pid))`cgiActive,
               ClientsOf(Child(pid))`cgiForceClose
      ensures Valid() && launched == old(launched) && ServesFewer(old(clientMap), old(poller.writers))
      ensures ChildTaken(pid, exited, code)
      ensures poller.sockets == old(poller.sockets)
    {
      hide Valid, Settled, IsOwned, ServesFewer;
      if pid !in pidMap {
        NoneFewer();
        return;
      }
      var p := pidMap[pid];
      EntriesAreOwned(pid);
      OneClientEach(p);
      ChildDone(p, exited, code, Rest(p));
    }

    // -------------------------------------------------------------------------
    // Backpressure
    // -------------------------------------------------------------------------

    /** Valid, except that bytes have just been sent to the client of `p`. */
    ghost predicate Sending(p: CgiProcess, rest: set<object>)
      reads this, poller, p, p.client, rest
    {
      ValidBut(p, rest) && p.LiveBytes() && (WireOf(p).pending ==> wires[p].pending)
    }

    ghost method NoteSent(p: CgiProcess, rest: set<object>)
      requires Sending(p, rest)
      modifies `wires
      ensures ValidBut(p, rest) && wires[p] == WireOf(p)
    {
      hide TablesOk, OthersOk, CgiProcess.LiveBytes;
      NumbersOf(p, rest);
      PendingKeeps(T(), wires, p, WireOf(p).pending);
      OthersAfterRewire(processes, wires, p, rest, WireOf(p));
      wires := wires[p := WireOf(p)];
    }

    method Unpause(p: CgiProcess, ghost rest: set<object>)
      requires ValidBut(p, rest) && wires[p] == WireOf(p)
      modifies `wires, poller`interest, p`pauseStdout
      ensures ValidBut(p, rest) && wires[p] == WireOf(p) && !p.pauseStdout
    {
      hide TablesOk, OthersOk;
      if p.pauseStdout {
        ghost var t0 := T();
        p.pauseStdout := false;
        poller.Update(p.stdoutFd, true, false);
        NotePaused(p, t0, rest, false);
      }
    }

    /** Bytes have been sent to a client: its script's output is read again. */
    method NotifyClientWritable(clientFd: int, ghost rest: set<object>)
      requires clientFd in clientMap ==> Sending(clientMap[clientFd], rest)
      modifies `wires, poller`interest, Serving(clientFd)`pauseStdout
      ensures forall p :: p in Serving(clientFd) ==>
                && Settled(p, rest) && !p.pauseStdout
                && p.stdoutFd in poller.interest && poller.interest[p.stdoutFd] == READABLE
    {
      hide ValidBut, WireOf, CgiProcess.RelayOk, CgiProcess.ClientOk, CgiProcess.FlagsOk, CgiProcess.InputOk;
      hide CgiProcess.ClosesOk, CgiProcess.KeepOk, CgiProcess.HeadOk;
      if clientFd !in clientMap {
        return;
      }
      var p := clientMap[clientFd];
      NoteSent(p, rest);
      Unpause(p, rest);
      Awake(p, rest);
    }

    lemma Awake(p: CgiProcess, rest: set<object>)
      requires ValidBut(p, rest) && !p.pauseStdout
      ensures p.stdoutFd in poller.interest && poller.interest[p.stdoutFd] == READABLE
    {
      NumbersOf(p, rest);
    }

    // -------------------------------------------------------------------------
    // Many scripts at once
    // -------------------------------------------------------------------------

    /** End one script for a reason that may end any live script. */
    method CleanupOne(p: CgiProcess, reason: CgiTermination, status: int)
      requires Valid() && p in launched && IsOwned(p)
      requires reason.ServerShutdown? || (reason.Timeout? && status == GATEWAY_TIMEOUT)
      modifies this, poller`interest, poller`pipes, poller`sockets, poller`writers, p
      modifies p.client`responseOut, p.client`resReady, p.client`keepAlive, p.client`closeAfterSend
      modifies p.client`cgiActive, p.client`cgiForceClose
      ensures Valid() && launched == old(launched) && ServesFewer(old(clientMap), old(poller.writers)) && p.Ended()
      ensures p.ended == Some(reason)
      ensures processes == old(processes) - {old(p.stdoutFd)}
      ensures poller.sockets <= old(poller.sockets)
      ensures reason.Timeout? ==> poller.sockets == old(poller.sockets)
    {
      hide Valid, ValidBut, IsOwned, CgiProcess.Live, CgiProcess.Ended, CgiProcess.EndingOk;
      OneClientEach(p);
      LiveMayEnd(p, reason);
      CleanupProcess(p, reason, status, Rest(p));
    }

    /** `after` is `before` without the entries of some scripts. */
    static ghost predicate Without(after: Table, before: Table, gone: set<CgiProcess>) {
      && (forall fd :: fd in after <==> fd in before && before[fd] !in gone)
      && (forall fd :: fd in after ==> after[fd] == before[fd])
    }

    static lemma OneMoreGone(after: Table, before: Table, gone: set<CgiProcess>, p: CgiProcess, fd: int)
      requires Without(after, before, gone) && fd in after && after[fd] == p
      requires forall other :: other in after && after[other] == p ==> other == fd
      ensures Without(after - {fd}, before, gone + {p})
    {}

    /** Halfway through ending a set of scripts. */
    ghost predicate Ending(todo: set<CgiProcess>, done: set<CgiProcess>, before: Table, served: Table,
                           writers: set<int>, reason: CgiTermination)
      reads this, todo, done, poller`sockets, poller`writers, (set fd | fd in served :: served[fd].client)`cgiActive
      reads (set fd | fd in served :: served[fd].client)`resReady
    {
      && todo !! done && Without(processes, before, done) && ServesFewer(served, writers)
      && (forall fd :: fd in served ==> served[fd].client.fd == fd)
      && (forall p :: p in todo ==> p in launched && IsOwned(p))
      && (forall p :: p in done ==> p.Ended() && p.ended == Some(reason))
    }

    method EndNext(p: CgiProcess, reason: CgiTermination, status: int, ghost todo: set<CgiProcess>,
                   ghost done: set<CgiProcess>, ghost before: Table, ghost served: Table, ghost writers: set<int>)
      requires Valid() && p in todo && Ending(todo, done, before, served, writers, reason)
      requires reason.ServerShutdown? || (reason.Timeout? && status == GATEWAY_TIMEOUT)
      modifies this, poller`interest, poller`pipes, poller`sockets, poller`writers, p
      modifies p.client`responseOut, p.client`resReady, p.client`keepAlive
      modifies p.client`closeAfterSend, p.client`cgiActive, p.client`cgiForceClose
      ensures Valid() && launched == old(launched)
      ensures Ending(todo - {p}, done + {p}, before, served, writers, reason)
      ensures reason.Timeout? ==> poller.sockets == old(poller.sockets)
    {
      hide Valid, Without, CgiProcess.Ended;
      EntriesAreFiled();
      Agreement(p);
      OneMoreGone(processes, before, done, p, p.stdoutFd);
      CleanupOne(p, reason, status);
    }

    /** The rest of the loop over a set of scripts. */
    method CleanupRest(reason: CgiTermination, status: int, todo: set<CgiProcess>, ghost done: set<CgiProcess>,
                       ghost before: Table, ghost served: Table, ghost writers: set<int>)
      requires Valid() && Ending(todo, done, before, served, writers, reason)
      requires reason.ServerShutdown? || (reason.Timeout? && status == GATEWAY_TIMEOUT)
      modifies this, poller`interest, poller`pipes, poller`sockets, poller`writers, todo
      modifies ClientsOf(todo)`responseOut, ClientsOf(todo)`resReady, ClientsOf(todo)`keepAlive
      modifies ClientsOf(todo)`closeAfterSend, ClientsOf(todo)`cgiActive, ClientsOf(todo)`cgiForceClose
      ensures Valid() && launched == old(launched)
      ensures Ending({}, done + todo, before, served, writers, reason)
      ensures reason.Timeout? ==> poller.sockets == old(poller.sockets)
      decreases todo
    {
      hide Valid, Ending, Without, CgiProcess.Ended;
      if todo == {} {
        assert done + todo == done;
        return;
      }
      var p :| p in todo;
      EndNext(p, reason, status, todo, done, before, served, writers);
      CleanupRest(reason, status, todo - {p}, done + {p}, before, served, writers);
      assert done + {p} + (todo - {p}) == done + todo;
    }

    /** End every script of a set. */
    method CleanupAll(all: set<CgiProcess>, reason: CgiTermination, status: int)
      requires Valid() && (forall p :: p in all ==> p in launched && IsOwned(p))
      requires reason.ServerShutdown? || (reason.Timeout? && status == GATEWAY_TIMEOUT)
      modifies this, poller`interest, poller`pipes, poller`sockets, poller`writers, all
      modifies ClientsOf(all)`responseOut, ClientsOf(all)`resReady, ClientsOf(all)`keepAlive
      modifies ClientsOf(all)`closeAfterSend, ClientsOf(all)`cgiActive, ClientsOf(all)`cgiForceClose
      ensures Valid() && launched == old(launched) && ServesFewer(old(clientMap), old(poller.writers))
      ensures forall p :: p in all ==> p.Ended() && p.ended == Some(reason)
      ensures Without(processes, old(processes), all)
      ensures reason.Timeout? ==> poller.sockets == old(poller.sockets)
    {
      ClientsAreFiled();
      assert Ending(all, {}, processes, clientMap, poller.writers, reason);
      hide Valid, Ending, Without, CgiProcess.Ended;
      CleanupRest(reason, status, all, {}, processes, clientMap, poller.writers);
      assert {} + all == all;
      EndingMeans(all, old(processes), old(clientMap), old(poller.writers), reason);
    }

    lemma EndingMeans(done: set<CgiProcess>, before: Table, served: Table, writers: set<int>, reason: CgiTermination)
      requires Ending({}, done, before, served, writers, reason)
      ensures ServesFewer(served, writers) && Without(processes, before, done)
      ensures forall p :: p in done ==> p.Ended() && p.ended == Some(reason)
    {}

    lemma ClientsAreFiled()
      requires Valid()
      ensures forall fd :: fd in clientMap ==> clientMap[fd].client.fd == fd
    {
      hide CgiProcess.Live, CgiProcess.Ended, AllWired, Descriptors;
      forall fd | fd in clientMap ensures clientMap[fd].client.fd == fd {
        assert StateOk(clientMap[fd]);
      }
    }

    lemma EntriesAreFiled()
      requires Valid()
      ensures forall fd :: fd in processes ==>
                processes[fd] in launched && IsOwned(processes[fd]) && processes[fd].stdoutFd == fd
      ensures forall p :: p in processes.Values ==> p in launched && IsOwned(p)
    {
      hide Valid;
      forall fd | fd in processes
        ensures processes[fd] in launched && IsOwned(processes[fd]) && processes[fd].stdoutFd == fd
      {
        EntriesAreOwned(fd);
      }
      forall p | p in processes.Values ensures p in launched && IsOwned(p) {
        var fd :| fd in processes && processes[fd] == p;
      }
    }

    /** The scripts that have been idle or running for too long. */
    ghost function Expired(now: int): set<CgiProcess>
      reads this, processes.Values
    {
      set p | p in processes.Values && p.IsExpired(now)
    }

    /** They are those for which more milliseconds have passed than are allowed. */
    lemma ExpiredInMs(now: int)
      requires Valid()
      ensures forall p :: p in launched && IsOwned(p) && ClockOk(p.Limits(), p.lastActivity, now) ==>
                (p in Expired(now) <==> IsLate(p.Limits(), p.lastActivity, now))
    {
      hide Valid, CgiProcess.IsExpired, IsLate;
      forall p | p in launched && IsOwned(p) && ClockOk(p.Limits(), p.lastActivity, now)
        ensures p in Expired(now) <==> IsLate(p.Limits(), p.lastActivity, now)
      {
        p.ExpiredMeans(now);
        assert processes[p.stdoutFd] in processes.Values;
      }
    }

    /** No descriptor, pid or client but its own stands for a script. */
    lemma NumbersAreOwn(p: CgiProcess)
      requires Valid() && p in launched && IsOwned(p)
      ensures forall fd :: p in Behind(fd) ==> fd != NO_FD && fd in {p.stdinFd, p.stdoutFd, p.stderrFd}
      ensures forall pid :: p in Child(pid) ==> pid == p.pid
      ensures forall fd :: p in Serving(fd) ==> fd == p.client.fd
    {
      hide CgiProcess.Live, CgiProcess.Ended, AllWired;
      assert StateOk(p);
    }

    /** A script whose output is open is owned. */
    lemma OpenIsOwned(p: CgiProcess)
      requires Valid() && p in launched && p.stdoutFd != NO_FD
      ensures IsOwned(p)
    {
      hide CgiProcess.Live, CgiProcess.Answered;
      assert StateOk(p);
    }

    /** End the scripts that have been idle or running for too long, and no other. */
    method CheckTimeouts(now: int)
      requires Valid()
      modifies this, poller`interest, poller`pipes, poller`sockets, poller`writers, Expired(now)
      modifies ClientsOf(Expired(now))`responseOut, ClientsOf(Expired(now))`resReady, ClientsOf(Expired(now))`keepAlive
      modifies ClientsOf(Expired(now))`closeAfterSend, ClientsOf(Expired(now))`cgiActive,
               ClientsOf(Expired(now))`cgiForceClose
      ensures Valid() && launched == old(launched) && ServesFewer(old(clientMap), old(poller.writers))
      ensures Without(processes, old(processes), old(Expired(now)))
      ensures forall p :: p in old(Expired(now)) ==> p.Ended() && p.ended == Some(Timeout)
      ensures poller.sockets == old(poller.sockets)
    {
      hide Valid, CgiProcess.Live, CgiProcess.Ended, CgiProcess.IsExpired;
      EntriesAreFiled();
      var rest, timedOut: set<CgiProcess> := processes.Values, {};
      while rest != {}
        invariant rest <= processes.Values
        invariant forall p :: p in timedOut <==> p in processes.Values && p !in rest && p.IsExpired(now)
        decreases rest
      {
        var p :| p in rest;
        if p.IsExpired(now) {
          timedOut := timedOut + {p};
        }
        rest := rest - {p};
      }
      assert timedOut == Expired(now);
      hide ServesFewer, Without;
      CleanupAll(timedOut, Timeout, GATEWAY_TIMEOUT);
    }

    /** End every script; nothing stays open or registered. */
    method Shutdown()
      requires Valid()
      modifies this, poller`interest, poller`pipes, poller`sockets, poller`writers, processes.Values
      modifies ClientsOf(processes.Values)`responseOut, ClientsOf(processes.Values)`resReady,
               ClientsOf(processes.Values)`keepAlive
      modifies ClientsOf(processes.Values)`closeAfterSend, ClientsOf(processes.Values)`cgiActive,
               ClientsOf(processes.Values)`cgiForceClose
      ensures Valid() && launched == old(launched) && poller.pipes == {}
      ensures processes == map[] && stdinMap == map[] && stderrMap == map[] && clientMap == map[] && pidMap == map[]
      ensures forall p :: p in launched ==> p.Ended()
      ensures forall fd :: fd in old(processes) ==> old(processes[fd]).ended == Some(ServerShutdown)
    {
      hide Valid, CgiProcess.Live, CgiProcess.Ended;
      EntriesAreFiled();
      CleanupAll(processes.Values, ServerShutdown, INTERNAL_SERVER_ERROR);
      assert forall fd :: fd in old(processes) ==> old(processes[fd]) in old(processes.Values);
      assert forall fd :: fd !in processes;
      assert processes == map[];
      NoneLeft();
    }

    lemma NoneLeft()
      requires Valid() && processes == map[]
      ensures stdinMap == map[] && stderrMap == map[] && clientMap == map[] && pidMap == map[] && poller.pipes == {}
      ensures forall p :: p in launched ==> p.Ended()
    {
      hide CgiProcess.Live, CgiProcess.Ended;
      assert forall fd ::
          fd !in stdinMap && fd !in stderrMap && fd !in clientMap && fd !in pidMap && fd !in poller.pipes;
      forall p | p in launched ensures p.Ended() {
        assert StateOk(p);
      }
    }

    // -------------------------------------------------------------------------
    // Launching a script
    // -------------------------------------------------------------------------

    /** Everything that the scripts depend on. */
    ghost function Everything(): set<object>
      reads this, launched
    {
      (set q | q in launched :: q as object) + (set q | q in launched && IsOwned(q) :: q.client as object)
    }

    /** Valid, seen from outside: no script depends on a client that is not waiting for one. */
    lemma AllOthers(client: ClientCon)
      requires Valid() && client.fd !in clientMap
      ensures OthersOk(processes, wires, null, Everything())
      ensures client !in Everything() && this !in Everything() && poller !in Everything()
    {
      hide CgiProcess.Live, CgiProcess.Ended;
      forall q | q in launched ensures StateOk(q) && (IsOwned(q) ==> q.client.fd in clientMap) {
        assert StateOk(q);
        if IsOwned(q) {
          assert Wired(T(), q, wires[q]);
        }
      }
    }

    static lemma OthersAfterAdd(table: Table, wires: map<CgiProcess, Wire>, p: CgiProcess, rest: set<object>, fd: int,
                                w: Wire)
      requires OthersOk(table, wires, null, rest) && fd !in table
      ensures OthersOk(table[fd := p], wires[p := w], p, rest)
    {
      hide CgiProcess.Live, CgiProcess.Ended;
    }

    /** The numbers that a launch may be given. */
    ghost predicate MayLaunch(client: ClientCon, w: Wire)
      reads this, poller
    {
      && IsFresh(T(), w) && w.stdinFd != NO_FD && w.clientFd == client.fd
      && !w.reaped && !w.paused && !w.pending
    }

    /** Pipe ends that are not open, and a pid that no running script is filed under. */
    predicate AreUnused(w: Wire)
      reads this, poller
    {
      && w.stdoutFd !in poller.interest && w.stderrFd !in poller.interest && w.stdinFd !in poller.interest
      && w.stdoutFd != NO_FD && w.stderrFd != NO_FD && w.stdinFd != NO_FD
      && w.stdoutFd != w.stderrFd && w.stdinFd != w.stdoutFd && w.stdinFd != w.stderrFd
      && w.pid > 0 && w.pid !in pidMap
      && !w.reaped && !w.paused && !w.pending
    }

    lemma UnusedMayLaunch(client: ClientCon, w: Wire)
      requires Valid() && AreUnused(w) && w.clientFd == client.fd && client.fd in poller.sockets
      requires client.fd !in clientMap
      ensures MayLaunch(client, w)
    {
      hide Valid;
    }

    /**
     * What the kernel hands out is not registered and not open, and all of it is fresh even if stdin is closed at once.
     */
    ghost predicate NewNumbers(w: Wire)
      reads this, poller
    {
      && w.stdinFd !in poller.pipes && w.stdoutFd !in poller.pipes && w.stderrFd !in poller.pipes
      && w.stdinFd !in poller.interest && w.stdoutFd !in poller.interest && w.stderrFd !in poller.interest
      && w.stdoutFd != w.stderrFd && w.stdinFd != w.stdoutFd && w.stdinFd != w.stderrFd && w.stdinFd != NO_FD
      && w.stdoutFd !in processes && !w.reaped && !w.paused && !w.pending
      && IsFresh(T(), w) && IsFresh(T(), w.(stdinFd := NO_FD))
    }

    lemma FreshMeans(client: ClientCon, w: Wire)
      requires Valid() && MayLaunch(client, w)
      ensures wires.Keys == launched && TablesOk(T(), wires) && NewNumbers(w)
      ensures client.fd !in clientMap && w.clientFd == client.fd && !w.reaped && !w.paused && !w.pending
      ensures w.stdinFd != NO_FD && w.stdoutFd != NO_FD && w.stderrFd != NO_FD
    {
      hide AllWired, StateOk;
    }

    /** Register a script's pipe ends; a stdin for which no byte is due is closed at once. */
    method EnterPipes(p: CgiProcess, moreDue: bool)
      requires p.stdoutFd !in poller.interest && p.stderrFd !in poller.interest && p.stdinFd !in poller.interest
      requires p.stdoutFd != p.stderrFd && p.stdinFd != p.stdoutFd && p.stdinFd != p.stderrFd && p.stdinFd != NO_FD
      requires p.stdinFd !in poller.pipes && p.stdoutFd !in poller.pipes && p.stderrFd !in poller.pipes
      requires p.Live()
      modifies `stdinMap, poller`interest, poller`pipes, p`stdinFd, p`stdinClosed, p`inCloses
      ensures p.Live()
      ensures var outputs := old(poller.interest)[p.stdoutFd := READABLE][p.stderrFd := READABLE];
              if old(p.StdinDone()) && !moreDue then
                && p.stdinFd == NO_FD && stdinMap == old(stdinMap)
                && poller.interest == outputs && poller.pipes == old(poller.pipes) + {p.stdoutFd} + {p.stderrFd}
              else
                && p.stdinFd == old(p.stdinFd)
                && stdinMap == old(stdinMap)[p.stdinFd := p] && poller.interest == outputs[p.stdinFd := WRITABLE]
                && poller.pipes == old(poller.pipes) + {p.stdoutFd} + {p.stderrFd} + {p.stdinFd}
    {
      hide CgiProcess.Live;
      poller.Open(p.stdinFd);
      poller.Open(p.stdoutFd);
      poller.Open(p.stderrFd);
      poller.Add(p.stdoutFd, true, false);
      poller.Add(p.stderrFd, true, false);
      if !p.StdinDone() || moreDue {
        poller.Add(p.stdinFd, false, true);
        stdinMap := stdinMap[p.stdinFd := p];
      } else {
        CloseUnused(p);
      }
    }

    method CloseUnused(p: CgiProcess)
      requires p.Live() && p.stdinFd in poller.pipes && p.stdinFd !in poller.interest && p.stdinFd != NO_FD
      modifies poller`pipes, p`stdinFd, p`stdinClosed, p`inCloses
      ensures p.Live() && p.stdinFd == NO_FD && poller.pipes == old(poller.pipes) - {old(p.stdinFd)}
    {
      hide CgiProcess.RelayOk, CgiProcess.ClientOk, CgiProcess.FlagsOk, CgiProcess.PauseOk, CgiProcess.KeepOk,
           CgiProcess.HeadOk;
      poller.Close(p.stdinFd);
      p.inCloses := p.inCloses + 1;
      p.stdinFd := NO_FD;
      p.stdinClosed := true;
    }

    /** Register a script's pipe ends and file the script. */
    method Enter(p: CgiProcess, moreDue: bool)
      requires p.stdoutFd !in poller.interest && p.stderrFd !in poller.interest && p.stdinFd !in poller.interest
      requires p.stdoutFd != p.stderrFd && p.stdinFd != p.stdoutFd && p.stdinFd != p.stderrFd && p.stdinFd != NO_FD
      requires p.stdinFd !in poller.pipes && p.stdoutFd !in poller.pipes && p.stderrFd !in poller.pipes
      requires p.Live()
      modifies `processes, `stdinMap, `stderrMap, `clientMap, `pidMap, poller`interest, poller`pipes, p`stdinFd
      modifies p`stdinClosed, p`inCloses
      ensures T() == Register(old(T()), p, WireOf(p)) && p.Live() && WireOf(p) == old(WireOf(p)).(stdinFd := p.stdinFd)
      ensures p.stdinFd == if old(p.StdinDone()) && !moreDue then NO_FD else old(p.stdinFd)
    {
      hide CgiProcess.Live, CgiProcess.StdinDone, Register;
      ghost var t0 := T();
      EnterPipes(p, moreDue);
      stderrMap := stderrMap[p.stderrFd := p];
      clientMap := clientMap[p.client.fd := p];
      pidMap := pidMap[p.pid := p];
      processes := processes[p.stdoutFd := p];
      RegisterFields(t0, p, WireOf(p));
    }

    /** A new script has been filed under its numbers. */
    ghost predicate FiledAs(p: CgiProcess, w: Wire, was: Tables)
      reads `processes, `clientMap, `pidMap, `stderrMap, p`stdoutFd, p`stderrFd, p`pid, p`childReaped
    {
      && processes == was.processes[w.stdoutFd := p] && clientMap == was.clientMap[w.clientFd := p]
      && pidMap == was.pidMap[w.pid := p] && p.stdoutFd == w.stdoutFd && p.pid == w.pid && !p.childReaped
      && stderrMap == was.stderrMap[w.stderrFd := p] && p.stderrFd == w.stderrFd
    }

    /** A new script with the numbers the kernel has handed out. */
    method Start(client: ClientCon, respond: (Headers, bool) -> string, absoluteTimeoutMs: nat, idleTimeoutMs: nat,
                 now: int, body: string, w: Wire)
      returns (p: CgiProcess)
      requires w.stdinFd != NO_FD && w.stdoutFd != NO_FD && w.stderrFd != NO_FD && w.clientFd == client.fd
      requires !w.reaped && !w.paused && !w.pending
      requires client.responseOut == "" && client.sent == 0
      modifies client`cgiActive, client`cgiForceClose, client`wire, client`cgiFed
      ensures fresh(p) && p.Live() && client.cgiActive && client.cgiFed == |body|
              && p.JustStarted(client, respond, body, Timing(absoluteTimeoutMs, idleTimeoutMs, now))
      ensures WireOf(p) == w && p.stdinFd == w.stdinFd && p.stdoutFd == w.stdoutFd && p.stderrFd == w.stderrFd
      ensures p.StdinDone() <==> body == ""
    {
      hide CgiProcess.IsBlank, CgiProcess.Live;
      p := new CgiProcess(client, respond, absoluteTimeoutMs, idleTimeoutMs, now, body);
      p.pid, p.stdinFd, p.stdoutFd, p.stderrFd := w.pid, w.stdinFd, w.stdoutFd, w.stderrFd;
      client.cgiActive := true;
      client.cgiForceClose := false;
      client.wire := "";
      client.cgiFed := |body|;
      NewIsLive(p);
    }

    static lemma NewIsLive(p: CgiProcess)
      requires p.IsBlank() && !p.pauseStdout && |p.fed| == p.client.cgiFed
      requires p.stdinFd != NO_FD && p.stdoutFd != NO_FD && p.stderrFd != NO_FD
      requires p.client.cgiActive && p.client.responseOut == "" && p.client.sent == 0 && p.client.wire == ""
      ensures p.Live()
    {
      hide CgiProcess.RelayOk, CgiProcess.FlagsOk, CgiProcess.KeepOk;
    }

    ghost method NoteEntered(p: CgiProcess, t0: Tables, rest: set<object>)
      requires TablesOk(t0, wires) && OthersOk(t0.processes, wires, null, rest) && wires.Keys == launched
      requires p !in launched
      requires IsFresh(t0, WireOf(p)) && T() == Register(t0, p, WireOf(p)) && WireOf(p).stdoutFd !in t0.processes
      requires !WireOf(p).reaped && !WireOf(p).paused && !WireOf(p).pending
      requires p !in rest && p.client !in rest && this !in rest && poller !in rest
      modifies `wires, `launched
      ensures ValidBut(p, rest) && wires[p] == WireOf(p) && launched == old(launched) + {p}
    {
      hide TablesOk, OthersOk, IsFresh, Register;
      RegisterFields(t0, p, WireOf(p));
      RegisterKeeps(t0, wires, p, WireOf(p));
      OthersAfterAdd(t0.processes, wires, p, rest, p.stdoutFd, WireOf(p));
      wires := wires[p := WireOf(p)];
      launched := launched + {p};
    }

    /** File a new script. */
    method Admit(p: CgiProcess, moreDue: bool, ghost rest: set<object>)
      requires wires.Keys == launched && TablesOk(T(), wires) && OthersOk(processes, wires, null, rest)
      requires p !in launched
      requires p !in rest && p.client !in rest && this !in rest && poller !in rest
      requires NewNumbers(WireOf(p)) && p.Live()
      modifies this, poller`interest, poller`pipes, p`stdinFd, p`stdinClosed, p`inCloses
      ensures Valid() && launched == old(launched) + {p} && IsOwned(p) && p.Live()
      ensures p.stdinFd == if old(p.StdinDone()) && !moreDue then NO_FD else old(p.stdinFd)
      ensures T() == Register(old(T()), p, WireOf(p)) && WireOf(p) == old(WireOf(p)).(stdinFd := p.stdinFd)
    {
      hide TablesOk, OthersOk, IsFresh, Valid, Register, CgiProcess.Live, CgiProcess.StdinDone;
      ghost var t0 := T();
      Enter(p, moreDue);
      NoteEntered(p, t0, rest);
      StillOwned(p, rest);
    }

    method LaunchWith(client: ClientCon, respond: (Headers, bool) -> string, absoluteTimeoutMs: nat, idleTimeoutMs: nat,
                      now: int, body: string, moreDue: bool, w: Wire)
      returns (p: CgiProcess)
      requires Valid() && MayLaunch(client, w) && client.responseOut == "" && client.sent == 0
      modifies this, poller`interest, poller`pipes, client`cgiActive, client`cgiForceClose, client`wire, client`cgiFed
      ensures Valid() && fresh(p) && launched == old(launched) + {p} && IsOwned(p) && p.Live()
      ensures p.JustStarted(client, respond, body, Timing(absoluteTimeoutMs, idleTimeoutMs, now))
      ensures p.stdinFd == if body == "" && !moreDue then NO_FD else w.stdinFd
      ensures T() == Register(old(T()), p, WireOf(p)) && WireOf(p) == w.(stdinFd := p.stdinFd)
      ensures client.cgiFed == |body|
    {
      hide TablesOk, OthersOk, MayLaunch, NewNumbers, Valid, CgiProcess.Live;
      ghost var rest := Everything();
      FreshMeans(client, w);
      AllOthers(client);
      assert OthersOk(processes, wires, null, rest);
      p := Start(client, respond, absoluteTimeoutMs, idleTimeoutMs, now, body, w);
      assert p !in rest;
      hide Everything;
      Admit(p, moreDue, rest);
    }

    /**
     * Launch a script for a client that waits for nothing: `w` holds the numbers the kernel hands out, and `osOk`
     * tells whether pipe, fork and fcntl succeed.
     */
    method Launch(client: ClientCon, scriptPath: string, respond: (Headers, bool) -> string, absoluteTimeoutMs: nat,
                  idleTimeoutMs: nat, now: int, body: string, moreDue: bool, osOk: bool, w: Wire)
      returns (p: CgiProcess?)
      requires Valid() && MayLaunch(client, w) && client.responseOut == "" && client.sent == 0
      modifies this, poller`interest, poller`pipes, client`cgiActive, client`cgiForceClose, client`wire, client`cgiFed
      ensures Valid() && (p != null <==> scriptPath != "" && osOk)
      ensures p == null ==>
                && launched == old(launched) && T() == old(T()) && clientMap == old(clientMap)
                && client.cgiActive == old(client.cgiActive)
      ensures p != null ==>
                && fresh(p) && launched == old(launched) + {p} && IsOwned(p) && p.Live()
                && p.JustStarted(client, respond, body, Timing(absoluteTimeoutMs, idleTimeoutMs, now))
                && p.stdinFd == (if body == "" && !moreDue then NO_FD else w.stdinFd)
                && T() == Register(old(T()), p, WireOf(p)) && WireOf(p) == w.(stdinFd := p.stdinFd)
                && FiledAs(p, w, old(T())) && client.cgiFed == |body|
    {
      if scriptPath == "" || !osOk {
        return null;
      }
      hide Valid, CgiProcess.Live, CgiProcess.JustStarted, IsFresh, Register;
      assert w.clientFd == client.fd && !w.reaped;
      hide MayLaunch;
      p := LaunchWith(client, respond, absoluteTimeoutMs, idleTimeoutMs, now, body, moreDue, w);
      RegisterFields(old(T()), p, WireOf(p));
    }

    // -------------------------------------------------------------------------
    // What the server does around the manager
    // -------------------------------------------------------------------------

    /** A client that is in no table waits for no script. */
    lemma NotWaiting(client: ClientCon)
      requires Valid() && client.fd !in clientMap
      ensures client !in Clients()
    {
      hide CgiProcess.Live, CgiProcess.Ended;
      forall q | q in launched ensures StateOk(q) && (IsOwned(q) ==> q.client.fd in clientMap) {
        assert StateOk(q);
        if IsOwned(q) {
          assert Wired(T(), q, wires[q]);
        }
      }
    }

    /** Watch a connection that waits for no script, for reading or writing. */
    method WatchOutside(fd: int, readable: bool, writable: bool)
      requires Valid() && fd in poller.sockets && fd !in clientMap && readable == !writable
      modifies poller`interest, poller`writers
      ensures Valid() && poller.interest == old(poller.interest)[fd := if writable then WRITABLE else READABLE]
      ensures poller.writers == Settle(old(poller.writers), fd, writable)
    {
      hide TablesOk, CgiProcess.Live, CgiProcess.Ended;
      SocketsAreOpen(fd);
      OutsideKeeps(T(), wires, fd, writable);
      poller.Update(fd, readable, writable);
      poller.writers := Settle(poller.writers, fd, writable);
    }

    lemma SocketsAreOpen(fd: int)
      requires TablesOk(T(), wires) && fd in poller.sockets
      ensures fd in poller.open
    {}

    /** A connection that no script serves has been watched for reading or writing. */
    lemma WatchedOutside(t0: Tables, fd: int, write: bool)
      requires wires.Keys == launched && TablesOk(t0, wires) && ScriptsOk()
      requires fd in t0.sockets && fd !in t0.clientMap
      requires T() == t0.(interest := t0.interest[fd := if write then WRITABLE else READABLE],
                          writers := Settle(t0.writers, fd, write))
      ensures Valid()
    {
      hide ScriptsOk, Filed, AllWired;
      assert fd in t0.open;
      OutsideKeeps(t0, wires, fd, write);
    }

    /** The client of a script has been watched for writing. */
    lemma WatchedClient(p: CgiProcess, t0: Tables, rest: set<object>)
      requires wires.Keys == launched && TablesOk(t0, wires) && OthersOk(processes, wires, p, rest)
      requires p in launched && Owned(t0, p, wires[p]) && wires[p] == WireOf(p).(pending := wires[p].pending)
      requires T() == t0.(interest := t0.interest[p.client.fd := WRITABLE])
      requires p !in rest && p.client !in rest && this !in rest && poller !in rest
      ensures ValidBut(p, rest)
    {
      hide TablesOk, OthersOk;
      WatchClientKeeps(t0, wires, p, WRITABLE, wires[p].pending);
      assert wires[p := wires[p].(pending := wires[p].pending)] == wires;
    }

    lemma IsNew(fd: int)
      requires TablesOk(T(), wires) && fd !in poller.interest
      ensures fd !in poller.pipes && fd !in poller.open && fd !in clientMap
    {}

    /** A connection has been accepted. */
    method AddSocket(fd: int)
      requires Valid() && fd !in poller.interest && fd != NO_FD
      modifies poller`interest, poller`sockets, poller`writers, poller`open
      ensures Valid() && poller.sockets == old(poller.sockets) + {fd} && poller.open == old(poller.open) + {fd}
      ensures poller.writers == old(poller.writers) - {fd}
      ensures poller.interest == old(poller.interest)[fd := READABLE]
    {
      hide TablesOk, CgiProcess.Live, CgiProcess.Ended;
      IsNew(fd);
      SocketAdded(T(), wires, fd, false);
      poller.Add(fd, true, false);
      poller.open, poller.sockets := poller.open + {fd}, poller.sockets + {fd};
      poller.writers := Settle(poller.writers, fd, false);
    }

    /** A connection that is of no account any more is closed. */
    method RemoveSocket(fd: int)
      requires Valid() && fd !in poller.sockets && fd !in poller.pipes
      modifies poller`interest, poller`open
      ensures Valid() && poller.interest == old(poller.interest) - {fd} && poller.open == old(poller.open) - {fd}
    {
      hide CgiProcess.Live, CgiProcess.Ended, TablesOk;
      Deregistered(T(), wires, fd);
      poller.Remove(fd);
      poller.open := poller.open - {fd};
    }

    /** A script's client has nothing left to send for now: it is not watched until more output arrives. */
    method Park(p: CgiProcess, ghost rest: set<object>)
      requires Settled(p, rest) && p.client.responseOut == ""
      modifies `wires, poller`interest, p.client`resReady
      ensures Settled(p, rest) && !p.client.resReady
      ensures poller.interest == old(poller.interest)[p.client.fd := Interest(false, false)]
    {
      hide TablesOk, OthersOk, CgiProcess.RelayOk, CgiProcess.FlagsOk, CgiProcess.InputOk, CgiProcess.ClosesOk;
      hide CgiProcess.Conserved, CgiProcess.PauseOk, CgiProcess.KeepOk, CgiProcess.HeadOk;
      p.client.resReady := false;
      WatchClientKeeps(T(), wires, p, NOTHING, false);
      poller.Update(p.client.fd, false, false);
      assert wires[p := WireOf(p)] == wires;
    }
  }
}
