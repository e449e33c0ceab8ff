/** Two runs of the server, each of which ends where a property that one would expect of it does not hold. */
module ConnectionReuse {
  import opened Text
  import opened Connection
  import opened CgiOutput
  import opened CgiProcesses
  import opened EventPolling
  import opened CgiTables
  import opened CgiManagement
  import opened ResponseWriting
  import opened ChunkedCoding
  import opened Servers

  /** What the first script prints, and what is sent for it. */
  const OUTPUT: string := "Content-Length: 0\r\n\r\n"
  const RESPONSE: string := "HTTP/1.1 200 OK\r\n\r\n"
  const FIRST: Wire := Wire(4, 5, 6, 3, 100, false, false, false)

  function Respond(headers: Headers, keepAlive: bool): string { RESPONSE }

  /** Nothing occurs before its first character does. */
  lemma FirstOf(before: string, p: string, behind: string)
    requires p != "" && p[0] !in before
    ensures Find(before + p + behind, p, 0) == Some(|before|)
  {
    var s := before + p + behind;
    FindIsFirst(s, p, 0);
    hide Find;
    assert s[|before|..|before| + |p|] == p;
    forall j | 0 <= j < |before| ensures !At(s, p, j) {
      if At(s, p, j) {
        AtChar(s, p, j, 0);
        assert false;
      }
    }
    assert IsFirst(s, p, 0, Some(|before|));
  }

  /** A block of one line holds one header. */
  lemma OneLine(block: string, line: string, nl: nat, colon: nat)
    requires Find(block, "\n", 0) == Some(nl) && line != "" && DropCR(block[..nl]) == line && block[nl + 1..] == ""
    requires Find(line, ":", 0) == Some(colon)
    ensures ParseBlock(block) == Some(map[ToLower(line[..colon]) := DropLeadingBlanks(line[colon + 1..])])
  {
    hide Find, ToLower, DropLeadingBlanks, DropCR;
    var h: Headers := map[ToLower(line[..colon]) := DropLeadingBlanks(line[colon + 1..])];
    assert map[][ToLower(line[..colon]) := DropLeadingBlanks(line[colon + 1..])] == h;
    assert ParseLines("", h) == Some(h);
  }

  lemma OneHeader(name: string, value: string)
    requires ':' !in name && '\n' !in name && '\n' !in value && value != "" && value[0] != ' ' && value[0] != '\t'
    ensures ParseBlock(name + ":" + (" " + value) + "\r" + "\n" + "") == Some(map[ToLower(name) := value])
  {
    var line := name + ":" + (" " + value);
    var block := line + "\r" + "\n" + "";
    FirstOf(line + "\r", "\n", "");
    FirstOf(name, ":", " " + value);
    hide Find, ToLower, ParseBlock;
    assert block[..|line| + 1] == line + "\r" && block[|line| + 2..] == "";
    assert DropCR(line + "\r") == line by { assert (line + "\r")[..|line|] == line; }
    assert line[..|name|] == name && line[|name| + 1..] == " " + value;
    assert DropLeadingBlanks(" " + value) == value by { assert (" " + value)[1..] == value; }
    OneLine(block, line, |line| + 1, |name|);
  }

  lemma LowerCase()
    ensures ToLower("Content-Length") == "content-length"
  {}

  lemma BlockHasLength()
    ensures ParseBlock("Content-Length: 0\r\n") == Some(map["content-length" := "0"])
  {
    OneHeader("Content-Length", "0");
    LowerCase();
    hide ParseBlock, ToLower;
    assert "Content-Length" + ":" + (" " + "0") + "\r" + "\n" + "" == "Content-Length: 0\r\n";
  }

  lemma TakesBlock(read: string, headers: Headers, head: Headers -> string)
    requires 4 <= |read| <= 1000 && Find(read, BLANK_LINE, 0) == Some(|read| - 4)
    requires ParseBlock(read[..|read| - 2]) == Some(headers)
    ensures TakeAll(START, [read], head) == Relay(Streaming, "", head(headers), Some(headers))
  {
    hide Find, ParseBlock;
    assert "" + read == read && read[|read|..] == "" && "" + head(headers) + "" == head(headers);
    assert Take(START, read, head) == Relay(Streaming, "", head(headers), Some(headers));
    assert [read][1..] == [];
  }

  /** A read that holds one line and the blank line behind it is a whole header block. */
  lemma WholeBlock(line: string, headers: Headers, head: Headers -> string)
    requires '\r' !in line && |line| <= 900 && ParseBlock(line + CRLF) == Some(headers)
    ensures TakeAll(START, [line + BLANK_LINE], head) == Relay(Streaming, "", head(headers), Some(headers))
  {
    var read: string := line + BLANK_LINE;
    FirstOf(line, BLANK_LINE, "");
    hide Find, ParseBlock, TakeAll;
    assert read + "" == read;
    assert read[..|read| - 2] == line + CRLF;
    TakesBlock(read, headers, head);
  }

  /** The output is a complete response of known length, and so the connection is to be kept. */
  lemma OutputIsComplete(head: Headers -> string)
    ensures var headers := map["content-length" := "0"];
            TakeAll(START, [OUTPUT], head) == Relay(Streaming, "", head(headers), Some(headers))
  {
    BlockHasLength();
    hide TakeAll, ParseBlock;
    var line := "Content-Length: 0";
    assert line + CRLF == "Content-Length: 0\r\n" && line + BLANK_LINE == OUTPUT;
    WholeBlock(line, map["content-length" := "0"], head);
  }

  lemma OutputStands(head: Headers -> string)
    ensures Finish(TakeAll(START, [OUTPUT], head)) != REFUSED
  {
    OutputIsComplete(head);
    hide TakeAll;
  }

  lemma NothingInBounds()
    ensures InBounds("" + "")
  {}

  /** A connection that has been accepted and has not been used. */
  ghost predicate Unused(s: Server, fd: int)
    reads s, s.manager, s.clients.Values
  {
    && fd in s.clients && fd !in s.manager.clientMap
    && var c := s.clients[fd];
    && c.responseOut == "" && c.sent == 0 && !c.fileStreamActive && !c.closeAfterSend && c.chunkBuf == ""
    && !c.cgiStreaming && !c.cgiChunked
  }

  method Accept(s: Server, fd: int, errorPage: (int, bool) -> string)
    requires s.Valid() && fd !in s.poller.interest && fd != NO_FD && fd !in s.manager.clientMap
    modifies s.Footprint()
    ensures s.Valid() && Unused(s, fd) && unchanged(s.manager) && forall p :: p in s.manager.launched ==> unchanged(p)
    ensures s.poller.interest == old(s.poller.interest)[fd := READABLE]
    ensures forall o :: o in s.Footprint() ==> o in old(s.Footprint()) || fresh(o)
  {
    hide Server.Valid, Server.Footprint;
    var _ := s.Handle(Accepted(fd, errorPage));
  }

  /** How the body of a request reaches its script: five bytes of it are still due. */
  ghost predicate FiveDue(c: ClientCon)
    reads c
  {
    c.cgiStreaming && !c.cgiChunked && c.cgiBodyRemaining == 5 && c.chunkBuf == ""
  }

  /** The first script runs, and nothing has been read from it. */
  ghost predicate FirstRuns(s: Server)
    reads s, s.manager, s.manager.processes.Values, s.clients.Values
  {
    && 3 in s.clients && 5 in s.manager.processes
    && var c, p := s.clients[3], s.manager.processes[5];
    && s.manager.clientMap == map[3 := p] && s.manager.pidMap == map[100 := p]
    && p.pid == 100 && p.client == c && p.respond == Respond && p.chunks == [] && p.stdoutFd == 5
    && c.keepAlive && !c.closeAfterSend && !c.fileStreamActive && FiveDue(c)
  }

  /** A request for a script, on a connection that may take one. */
  method Request(s: Server, fd: int, conn: ClientCon, path: string, contentLength: nat, due: bool, w: Wire)
    requires s.Valid() && fd in s.clients && s.clients[fd] == conn && s.MayStart(fd, "", w) && path != ""
    modifies s.Footprint()
    ensures s.Valid() && s.clients == old(s.clients)
    ensures s.Started(fd, conn, true, path, Respond, Timing(0, 0, 0), false, contentLength, "", due, true, w)
    ensures forall o :: o in s.Footprint() ==> o in old(s.Footprint()) || fresh(o)
  {
    hide Server.Valid, Server.Footprint, Server.Started, Server.MayStart;
    var _ := s.Handle(CgiRequested(fd, true, path, Respond, 0, 0, 0, false, contentLength, "", due, true, w));
  }

  method LaunchFirst(s: Server)
    requires s.Valid() && Unused(s, 3) && s.poller.interest == map[3 := READABLE]
    requires s.manager.clientMap == map[] && s.manager.pidMap == map[]
    modifies s.Footprint()
    ensures s.Valid() && FirstRuns(s)
    ensures forall o :: o in s.Footprint() ==> o in old(s.Footprint()) || fresh(o)
  {
    assert s.manager.poller == s.poller;
    MayStartWith(s, 3, FIRST);
    hide Server.Valid, Server.Footprint, Server.MayStart, InBounds, Decode;
    Request(s, 3, s.clients[3], "/a.cgi", 5, true, FIRST);
  }

  /** The first script has ended normally, and its response is still to be sent. */
  ghost predicate FirstDone(s: Server)
    reads s, s.clients.Values
  {
    && 3 in s.clients
    && var c := s.clients[3];
    && FiveDue(c) && !c.cgiActive && c.keepAlive && !c.closeAfterSend && !c.fileStreamActive && c.resReady
    && c.sent < |c.responseOut| && |c.responseOut| - c.sent <= 1000
  }

  /** Launched for a connection that is kept, with a response of its own. */
  ghost predicate IsKept(p: CgiProcess) {
    p.persistent && !p.closing && forall h: Headers :: p.head(h) == RESPONSE
  }

  /** What is known of a script from which nothing has been read. */
  lemma AtLaunch(s: Server)
    requires s.Valid() && FirstRuns(s)
    ensures 3 in s.clients && 5 in s.manager.processes
    ensures var p := s.manager.processes[5];
            && p.client == s.clients[3] && !p.client.fileStreamActive && FiveDue(p.client)
            && p.client.wire == "" && p.chunks == [] && IsKept(p)
  {
    hide Server.Valid;
    s.ConnOf(3);
    hide CgiManager.ValidBut, CgiProcess.InputOk, CgiProcess.ClosesOk, CgiProcess.PauseOk;
    var p := s.manager.processes[5];
    assert p.LiveBytes();
    assert p.relay == START;
  }

  /** Its only read ends it normally. */
  lemma EndsNormally(p: CgiProcess)
    requires IsKept(p) && p.RelayOk() && p.LeftRest() && p.chunks == [OUTPUT] && p.client.wire == ""
    ensures var c := p.client;
            && !c.cgiActive && c.keepAlive && !c.closeAfterSend && c.resReady
            && c.sent < |c.responseOut| && |c.responseOut| - c.sent <= 1000
  {
    OutputIsComplete(p.head);
    hide TakeAll;
    assert p.relay.out == RESPONSE;
    assert |RESPONSE| == 19;
  }

  /** All that a script prints arrives in one read, and its output ends. */
  method ReadOutput(s: Server, p: CgiProcess)
    requires s.Valid() && 5 in s.manager.processes && s.manager.processes[5] == p
    modifies s.Footprint()
    ensures s.Valid() && s.clients == old(s.clients) && p.StdoutTook([OUTPUT], true, 0) && p.client.Kept()
    ensures forall o :: o in s.Footprint() ==> o in old(s.Footprint()) || fresh(o)
  {
    hide Server.Valid, Server.Footprint, CgiProcess.StdoutTook, ClientCon.Kept;
    var _ := s.Handle(CgiReady(5, true, false, [OUTPUT], true, 0, 0));
  }

  /** It is complete, and so the script ends normally. */
  method ReadToEnd(s: Server, p: CgiProcess)
    requires s.Valid() && 5 in s.manager.processes && s.manager.processes[5] == p && p.chunks == []
    modifies s.Footprint()
    ensures s.Valid() && s.clients == old(s.clients) && (old(FiveDue(p.client)) ==> FiveDue(p.client))
    ensures p.client.fileStreamActive == old(p.client.fileStreamActive) && p.client.wire == old(p.client.wire)
    ensures p.RelayOk() && p.LeftRest() && p.chunks == [OUTPUT]
    ensures forall o :: o in s.Footprint() ==> o in old(s.Footprint()) || fresh(o)
  {
    OutputStands(p.head);
    assert p.chunks + [OUTPUT] == [OUTPUT];
    hide Server.Valid, Server.Footprint, TakeAll, CgiProcess.LeftRest, CgiProcess.RelayOk, Finish;
    ReadOutput(s, p);
  }

  method EndFirst(s: Server)
    requires s.Valid() && FirstRuns(s)
    modifies s.Footprint()
    ensures s.Valid() && FirstDone(s)
    ensures forall o :: o in s.Footprint() ==> o in old(s.Footprint()) || fresh(o)
  {
    hide Server.Valid, Server.Footprint, CgiProcess.LeftRest, CgiProcess.RelayOk, IsKept, FirstRuns;
    AtLaunch(s);
    var p := s.manager.processes[5];
    ReadToEnd(s, p);
    EndsNormally(p);
  }

  /** The kernel takes all that is left of a short queue. */
  lemma TakesAll(c: ClientCon)
    requires FileOk(c) && !c.fileStreamActive && c.sent < |c.responseOut| && |c.responseOut| - c.sent <= 1000
    ensures Server.Taken(c, 1000, 0) == |Pending(c)| > 0
  {}

  /** The connection can take what is queued for it. */
  method Send(s: Server, conn: ClientCon)
    requires s.Valid() && 3 in s.clients && s.clients[3] == conn
    modifies s.Footprint()
    ensures s.Valid() && old(FileOk(conn))
    ensures s.Written(3, conn, old(Server.Taken(conn, 1000, 0)), old(Server.Block(conn, 0)))
    ensures forall o :: o in s.Footprint() ==> o in old(s.Footprint()) || fresh(o)
  {
    hide Server.Valid, Server.Footprint, Server.Written, Server.Taken, Server.Block, FileOk;
    var _ := s.Handle(Writable(3, 1000, 0));
  }

  /**
   * The response has been sent and the connection kept: it waits for the next request, and five bytes are still due.
   */
  ghost predicate StillDue(s: Server)
    reads s, s.manager, s.clients.Values
  {
    s.IsFree(3) && FiveDue(s.clients[3])
  }

  method SendFirst(s: Server)
    requires s.Valid() && FirstDone(s)
    modifies s.Footprint()
    ensures s.Valid() && StillDue(s)
    ensures forall o :: o in s.Footprint() ==> o in old(s.Footprint()) || fresh(o)
  {
    hide Server.Valid, Server.Footprint, Pending, FileOk, Server.Taken, Server.Block, CgiManager.Settled;
    var conn := s.clients[3];
    s.ConnOf(3);
    TakesAll(conn);
    Send(s, conn);
    s.ConnOf(3);
  }

  /** Three numbers in a row that are not in use. */
  function Spare(inUse: set<int>, from: nat): (n: nat)
    ensures from <= n && n !in inUse && n + 1 !in inUse && n + 2 !in inUse
    decreases |inUse|
  {
    if from in inUse then Spare(inUse - {from}, from + 1)
    else if from + 1 in inUse then Spare(inUse - {from + 1}, from + 2)
    else if from + 2 in inUse then Spare(inUse - {from + 2}, from + 3)
    else from
  }

  /** The script of a request without a body runs, and the connection says that five bytes of it are due. */
  ghost predicate SecondRuns(s: Server)
    reads s, s.manager, s.manager.clientMap.Values, s.clients.Values
  {
    && 3 in s.clients && 3 in s.manager.clientMap
    && var c := s.clients[3];
    && c.cgiStreaming && !c.cgiChunked && c.cgiBodyTotal == 0 && c.cgiFed == 0 && c.cgiBodyRemaining == 5
  }

  lemma MayStartWith(s: Server, fd: int, w: Wire)
    requires s.Valid() && s.IsFree(fd) && s.clients[fd].chunkBuf == "" && w.clientFd == fd && s.manager.AreUnused(w)
    ensures s.MayStart(fd, "", w)
  {
    NothingInBounds();
    hide InBounds;
    assert s.clients[fd].chunkBuf + "" == "" + "";
  }

  /** The numbers that the kernel may hand out next. */
  function NextNumbers(s: Server, fd: int): Wire
    reads s.poller`interest, s.manager`pidMap
  {
    var n := Spare(s.poller.interest.Keys + s.manager.pidMap.Keys, 0);
    Wire(n, n + 1, n + 2, fd, n + 1, false, false, false)
  }

  lemma MayStartNext(s: Server, fd: int)
    requires s.Valid() && s.IsFree(fd) && s.clients[fd].chunkBuf == ""
    ensures s.MayStart(fd, "", NextNumbers(s, fd))
  {
    assert s.manager.poller == s.poller;
    hide Server.Valid, Server.MayStart;
    var w := NextNumbers(s, fd);
    assert s.manager.AreUnused(w);
    MayStartWith(s, fd, w);
  }

  method LaunchSecond(s: Server)
    requires s.Valid() && StillDue(s)
    modifies s.Footprint()
    ensures s.Valid() && SecondRuns(s)
    ensures forall o :: o in s.Footprint() ==> o in old(s.Footprint()) || fresh(o)
  {
    hide Server.Valid, Server.Footprint, Server.MayStart, InBounds, Decode;
    var w := NextNumbers(s, 3);
    MayStartNext(s, 3);
    Request(s, 3, s.clients[3], "/a.cgi", 0, false, w);
  }

  /**
   * A run of the server after which what a script has been given and what is due do not add up to the length of the
   * body: a request is answered before its body has come, and the next one on the connection finds the flag still set.
   */
  method StaleRun(errorResponse: int -> string, errorPage: (int, bool) -> string) returns (s: Server)
    ensures fresh(s) && s.Valid() && SecondRuns(s)
    ensures var c := s.clients[3]; c.cgiStreaming && !c.cgiChunked && c.cgiFed + c.cgiBodyRemaining != c.cgiBodyTotal
  {
    hide Server.Valid, Server.Footprint, Unused, FirstRuns, FirstDone, StillDue;
    s := new Server(errorResponse);
    s.StartsAlone();
    Accept(s, 3, errorPage);
    LaunchFirst(s);
    EndFirst(s);
    SendFirst(s);
    LaunchSecond(s);
  }

  /**
   * The next five bytes of the connection, whatever they are, are then taken for the body of a request that has none.
   */
  method TakeNext(s: Server, data: string)
    requires s.Valid() && SecondRuns(s) && |data| == 5
    modifies s.Footprint()
    ensures s.Valid() && s.clients == old(s.clients) && !s.clients[3].cgiStreaming
    ensures Server.Given(old(Server.Views({s.manager.clientMap[3]})), data, true, 0)
  {
    hide Server.Valid, Server.Footprint;
    IsActive(s);
    var _ := s.Handle(BodyRead(3, data, 0));
    assert data[..5] == data;
  }

  lemma IsActive(s: Server)
    requires s.Valid() && SecondRuns(s)
    ensures s.clients[3].cgiActive && s.manager.poller == s.poller
  {
    hide Server.Valid;
    s.ConnOf(3);
  }

  // ---------------------------------------------------------------------------
  // A pid that is used again
  // ---------------------------------------------------------------------------

  /** The script that serves a connection is one of the manager's. */
  lemma ServedIsKnown(s: Server, fd: int)
    requires s.Valid() && fd in s.manager.clientMap
    ensures fd in s.clients && s.manager.poller == s.poller
    ensures s.manager.clientMap[fd] in s.manager.launched && s.manager.IsOwned(s.manager.clientMap[fd])
  {
    hide CgiManager.Valid;
    s.AllServed();
    s.manager.ServedIsOwned(fd);
  }

  /** The first script's child has been reaped; its output has not ended. */
  ghost predicate FirstReaped(s: Server)
    reads s, s.manager, s.manager.clientMap.Values
  {
    3 in s.clients && 3 in s.manager.clientMap && s.manager.clientMap.Keys == {3} && s.manager.pidMap == map[]
    && s.manager.clientMap[3].pid == 100
  }

  method ReapFirst(s: Server)
    requires s.Valid() && FirstRuns(s)
    modifies s.Footprint()
    ensures s.Valid() && FirstReaped(s)
    ensures forall o :: o in s.Footprint() ==> o in old(s.Footprint()) || fresh(o)
  {
    hide Server.Valid, Server.Footprint;
    var _ := s.Handle(ChildExited(100, true, 0));
  }

  /** Another connection is accepted. */
  method AcceptAnother(s: Server, errorPage: (int, bool) -> string) returns (fd: int)
    requires s.Valid() && FirstReaped(s)
    modifies s.Footprint()
    ensures s.Valid() && FirstReaped(s) && fd != 3 && Unused(s, fd)
    ensures forall o :: o in s.Footprint() ==> o in old(s.Footprint()) || fresh(o)
  {
    hide Server.Valid, Server.Footprint;
    fd := Spare(s.poller.interest.Keys + {3}, 0);
    ServedIsKnown(s, 3);
    Accept(s, fd, errorPage);
    ServedIsKnown(s, 3);
  }

  /** Two scripts run with the same pid, which is that of the one that has not been reaped. */
  ghost predicate BothRun(s: Server, fd: int)
    reads s, s.manager, s.manager.clientMap.Values
  {
    && fd != 3 && 3 in s.manager.clientMap && fd in s.manager.clientMap
    && var p, q := s.manager.clientMap[3], s.manager.clientMap[fd];
    && p != q && p.pid == q.pid == 100 && !q.childReaped && s.manager.pidMap == map[100 := q]
  }

  /** The kernel gives its child the pid of the one that has been reaped. */
  method LaunchAnother(s: Server, fd: int)
    requires s.Valid() && FirstReaped(s) && fd != 3 && Unused(s, fd)
    modifies s.Footprint()
    ensures s.Valid() && BothRun(s, fd)
    ensures forall o :: o in s.Footprint() ==> o in old(s.Footprint()) || fresh(o)
  {
    hide Server.Valid, Server.Footprint, Server.MayStart, InBounds, Decode;
    var w := NextNumbers(s, fd).(pid := 100);
    ServedIsKnown(s, 3);
    MayStartWith(s, fd, w);
    Request(s, fd, s.clients[fd], "/b.cgi", 5, true, w);
  }

  /**
   * The remaining script runs, has not been reaped, and is filed under no pid: the exit of its child goes unnoticed.
   */
  ghost predicate IsUnfiled(s: Server, fd: int)
    reads s, s.manager, s.manager.clientMap.Values
  {
    && fd in s.manager.clientMap
    && var q := s.manager.clientMap[fd];
    s.manager.IsOwned(q) && !q.childReaped && q.pid == 100 && s.manager.pidMap == map[]
  }

  method LoseFirst(s: Server, fd: int)
    requires s.Valid() && BothRun(s, fd)
    modifies s.Footprint()
    ensures s.Valid() && IsUnfiled(s, fd)
    ensures forall o :: o in s.Footprint() ==> o in old(s.Footprint()) || fresh(o)
  {
    hide Server.Valid, Server.Footprint;
    ServedIsKnown(s, fd);
    ServedIsKnown(s, 3);
    var _ := s.Handle(Lost(3));
    ServedIsKnown(s, fd);
  }

  /** A run of the server after which a running script is filed under no pid. */
  method PidRun(errorResponse: int -> string, errorPage: (int, bool) -> string) returns (s: Server, fd: int)
    ensures fresh(s) && s.Valid() && IsUnfiled(s, fd)
  {
    hide Server.Valid, Server.Footprint, Unused, FirstRuns, FirstReaped, BothRun, IsUnfiled;
    s := new Server(errorResponse);
    s.StartsAlone();
    Accept(s, 3, errorPage);
    LaunchFirst(s);
    ReapFirst(s);
    fd := AcceptAnother(s, errorPage);
    LaunchAnother(s, fd);
    LoseFirst(s, fd);
  }
}
