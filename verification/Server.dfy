/** The event loop's view: connections, the CGI manager behind them, and every event in any order. */
module Servers {
  import opened Http
  import opened Text
  import opened Connection
  import opened CgiOutput
  import opened CgiProcesses
  import opened EventPolling
  import opened CgiTables
  import opened CgiManagement
  import opened ResponseWriting
  import opened ChunkedCoding
  import Upload

  /**
   * What the event loop, the kernel and the request pipeline can make happen; each comes with what the kernel returns.
   */
  datatype Event =
    | Accepted(fd: int, errorPage: (int, bool) -> string)
    | CgiReady(fd: int, readable: bool, writable: bool, parts: seq<string>, eof: bool, n: int, now: int)
    | ChildExited(pid: int, exited: bool, code: int)
    | Writable(fd: int, n: int, ready: nat)
    | BodyRead(fd: int, data: string, now: int)
    | FileRequested(fd: int, keepAlive: bool, file: Option<string>, status: int, head: nat -> string,
                    errorResponse: int -> string)
    | CgiRequested(fd: int, keepAlive: bool, scriptPath: string, respond: (Headers, bool) -> string,
                   absoluteTimeoutMs: nat, idleTimeoutMs: nat, now: int, chunked: bool, contentLength: nat,
                   received: string, due: bool, osOk: bool, w: Wire)
    | Lost(fd: int)
    | Drain(fd: int)
    | Tick(now: int)

  /** What is noted of a body that is streamed to a script. */
  datatype StreamView = StreamView(streaming: bool, chunked: bool, remaining: nat)

  class Server {
    const poller: EventPoller
    const manager: CgiManager
    var clients: map<int, ClientCon>

    constructor (errorResponse: int -> string)
      ensures Valid() && clients == map[] && manager.launched == {}
      ensures poller.interest == map[] && manager.clientMap == map[] && manager.pidMap == map[]
      ensures fresh(poller) && fresh(manager)
    {
      var p := new EventPoller();
      var m := new CgiManager(p, errorResponse);
      poller, manager, clients := p, m, map[];
    }

    lemma StartsAlone()
      requires clients == map[] && manager.launched == {}
      ensures Footprint() == {this, manager, poller}
    {}

    // -------------------------------------------------------------------------
    // The invariant
    // -------------------------------------------------------------------------

    /**
     * While a fixed-length body is streamed to a script, what it has been given and what is due add up to its length.
     */
    static ghost predicate BodyOk(c: ClientCon)
      reads c`cgiStreaming, c`cgiChunked, c`cgiBodyRemaining, c`cgiBodyTotal, c`cgiFed, c`cgiOwnStream
    {
      c.cgiOwnStream && c.cgiStreaming && !c.cgiChunked ==> c.cgiFed + c.cgiBodyRemaining == c.cgiBodyTotal
    }

    /** A connection is registered, and the script that serves it, if any, serves it and nobody else. */
    static ghost predicate ConnOk(fd: int, serving: Table, sockets: set<int>, c: ClientCon)
      reads c`fileStreamActive, c`fileBytesRemaining, c`fileBufLen, c`fileBufOff, c`fileData
      reads c`fileRead, c`cgiStreaming, c`cgiChunked, c`cgiBodyRemaining, c`cgiBodyTotal, c`cgiFed, c`cgiOwnStream
    {
      && c.fd == fd && fd in sockets && FileOk(c)
      && (fd in serving ==>
            serving[fd].client == c && !c.fileStreamActive && BodyOk(c))
    }

    /**
     * Every connection is in order, every script serves one of them, and no two share a file buffer. This depends
     * on nothing but the given connections and scripts.
     */
    static ghost predicate ConnsIn(clients: map<int, ClientCon>, serving: Table, sockets: set<int>,
                                   conns: set<ClientCon>)
      reads conns`fileStreamActive, conns`fileBytesRemaining, conns`fileBufLen, conns`fileBufOff, conns`fileData
      reads conns`fileRead, conns`cgiStreaming, conns`cgiChunked, conns`cgiBodyRemaining, conns`cgiBodyTotal
      reads conns`cgiFed, conns`cgiOwnStream
    {
      && (forall fd :: fd in serving ==> fd in clients)
      && (forall fd :: fd in clients ==> clients[fd] in conns && ConnOk(fd, serving, sockets, clients[fd]))
      && (forall a, b :: a in clients && b in clients && a != b ==> clients[a].fileBuf != clients[b].fileBuf)
    }

    static lemma ConnIn(clients: map<int, ClientCon>, serving: Table, sockets: set<int>, conns: set<ClientCon>, fd: int)
      requires ConnsIn(clients, serving, sockets, conns) && fd in clients
      ensures ConnOk(fd, serving, sockets, clients[fd])
    {}

    /** A script has stopped serving. */
    static lemma ConnsShrink(clients: map<int, ClientCon>, serving: Table, fewer: Table, sockets: set<int>,
                             conns: set<ClientCon>)
      requires ConnsIn(clients, serving, sockets, conns) && SubTable(fewer, serving)
      ensures ConnsIn(clients, fewer, sockets, clients.Values)
    {
      hide FileOk, BodyOk;
      forall fd | fd in clients ensures ConnOk(fd, fewer, sockets, clients[fd]) {
        ConnIn(clients, serving, sockets, conns, fd);
      }
    }

    /** A connection is left out of consideration, with the script that serves it. */
    static lemma ConnsDrop(clients: map<int, ClientCon>, serving: Table, sockets: set<int>, fd: int)
      requires ConnsIn(clients, serving, sockets, clients.Values) && fd in clients
      ensures ConnsIn(clients - {fd}, serving - {fd}, sockets - {fd}, clients.Values - {clients[fd]})
      ensures forall f :: f in clients && f != fd ==> clients[f].fileBuf != clients[fd].fileBuf
    {
      hide FileOk, BodyOk;
      forall f | f in clients ensures ConnOk(f, serving, sockets, clients[f]) {
        ConnIn(clients, serving, sockets, clients.Values, f);
      }
    }

    /** A connection is taken into consideration again. */
    static lemma ConnsBack(clients: map<int, ClientCon>, serving: Table, sockets: set<int>, fd: int,
                           conns: set<ClientCon>)
      requires ConnsIn(clients - {fd}, serving - {fd}, sockets - {fd}, conns) && fd in clients
      requires ConnOk(fd, serving, sockets, clients[fd])
      requires forall f :: f in clients && f != fd ==> clients[f].fileBuf != clients[fd].fileBuf
      ensures ConnsIn(clients, serving, sockets, clients.Values)
    {
      hide FileOk, BodyOk;
      assert forall f :: f in serving && f != fd ==> f in serving - {fd};
      forall f | f in clients ensures ConnOk(f, serving, sockets, clients[f]) {
        if f != fd {
          ConnIn(clients - {fd}, serving - {fd}, sockets - {fd}, conns, f);
        }
      }
      forall a, b | a in clients && b in clients && a != b ensures clients[a].fileBuf != clients[b].fileBuf {
        assert a != fd && b != fd ==> a in clients - {fd} && b in clients - {fd};
      }
    }

    /**
     * How a connection is that no script serves: it is not marked active, and waits to be written to exactly if there
     * is something to send.
     */
    static ghost predicate Unserved(c: ClientCon, writes: bool)
      reads c`cgiActive, c`resReady, c`fileStreamActive
    {
      !c.cgiActive && c.resReady == writes && (c.fileStreamActive ==> c.resReady)
    }

    static ghost predicate ActiveOk(clients: map<int, ClientCon>, serving: Table, writers: set<int>)
      reads clients.Values`cgiActive, clients.Values`resReady, clients.Values`fileStreamActive
    {
      forall fd :: fd in clients && fd !in serving ==> Unserved(clients[fd], fd in writers)
    }

    /** The connections of the server are those that are open, and all are in order. */
    ghost predicate ConnsOk()
      reads `clients, manager`clientMap, poller`sockets, poller`writers, poller`open
      reads clients.Values`fileStreamActive, clients.Values`fileBytesRemaining, clients.Values`fileBufLen
      reads clients.Values`fileBufOff, clients.Values`fileData
      reads clients.Values`fileRead, clients.Values`cgiStreaming, clients.Values`cgiChunked
      reads clients.Values`cgiBodyRemaining, clients.Values`cgiBodyTotal, clients.Values`cgiFed
      reads clients.Values`cgiOwnStream
      reads clients.Values`cgiActive, clients.Values`resReady
    {
      && poller.open == clients.Keys
      && ConnsIn(clients, manager.clientMap, poller.sockets, clients.Values)
      && ActiveOk(clients, manager.clientMap, poller.writers)
    }

    /** The same, but for what this connection, which is about to be closed, waits for. */
    ghost predicate ConnsBut(fd: int)
      reads `clients, manager`clientMap, poller`sockets, poller`writers, poller`open
      reads clients.Values`fileStreamActive, clients.Values`fileBytesRemaining, clients.Values`fileBufLen
      reads clients.Values`fileBufOff, clients.Values`fileData
      reads clients.Values`fileRead, clients.Values`cgiStreaming, clients.Values`cgiChunked
      reads clients.Values`cgiBodyRemaining, clients.Values`cgiBodyTotal, clients.Values`cgiFed
      reads clients.Values`cgiOwnStream
      reads clients.Values`cgiActive, clients.Values`resReady
    {
      && poller.open == clients.Keys
      && ConnsIn(clients, manager.clientMap, poller.sockets, clients.Values)
      && ActiveOk(clients - {fd}, manager.clientMap, poller.writers)
    }

    lemma ButOne(fd: int)
      requires ConnsOk()
      ensures ConnsBut(fd)
    {
      hide ConnsIn;
    }

    ghost predicate Valid()
      reads this, poller, manager, manager.launched, clients.Values
      reads manager.Clients()`cgiActive, manager.Clients()`sent, manager.Clients()`responseOut, manager.Clients()`wire
      reads manager.Clients()`resReady, manager.Clients()`cgiFed, manager.Clients()`keepAlive
      reads manager.Clients()`closeAfterSend
    {
      manager.poller == poller && manager.Valid() && ConnsOk()
    }

    /** What a step on a connection starts from. */
    lemma ConnOf(fd: int)
      requires Valid() && fd in clients
      ensures var c := clients[fd];
              && c.fd == fd && fd in poller.sockets && FileOk(c) && manager.poller == poller && manager.Valid()
              && (fd in manager.clientMap ==>
                    var p := manager.clientMap[fd];
                    && p.client == c && !c.fileStreamActive && c.cgiActive
                    && manager.Settled(p, manager.Rest(p)) && c !in manager.Rest(p))
              && (fd !in manager.clientMap ==> c !in manager.Clients() && Unserved(c, fd in poller.writers))
    {
      hide FileOk, ConnsIn, CgiManager.Valid, CgiProcess.RelayOk, CgiProcess.FlagsOk, CgiProcess.InputOk;
      hide CgiProcess.ClosesOk, CgiProcess.PauseOk, CgiProcess.Conserved, TablesOk, CgiManager.OthersOk;
      hide CgiProcess.KeepOk;
      ConnIn(clients, manager.clientMap, poller.sockets, clients.Values, fd);
      if fd in manager.clientMap {
        manager.ServedIsOwned(fd);
        manager.OneClientEach(manager.clientMap[fd]);
      } else {
        manager.NotWaiting(clients[fd]);
      }
    }

    /** One connection is left out of consideration, and everything else is in order: the middle of a step on it. */
    ghost predicate Aside(fd: int, conns: set<ClientCon>)
      reads `clients, manager`clientMap, poller`sockets, poller`writers, poller`open
      reads conns`fileStreamActive, conns`fileBytesRemaining, conns`fileBufLen, conns`fileBufOff, conns`fileData
      reads conns`fileRead, conns`cgiStreaming, conns`cgiChunked, conns`cgiBodyRemaining, conns`cgiBodyTotal
      reads conns`cgiFed, conns`cgiOwnStream, conns`cgiActive, conns`resReady
    {
      && poller.open == clients.Keys
      && fd in clients && clients[fd].fd == fd && fd in poller.sockets && clients[fd] !in conns
      && ConnsIn(clients - {fd}, manager.clientMap - {fd}, poller.sockets - {fd}, conns)
      && (forall f :: f in clients && f != fd ==> clients[f].fileBuf != clients[fd].fileBuf)
      && (forall f :: f in clients && f != fd ==> clients[f] in conns)
      && (forall f :: f in clients && f != fd && f !in manager.clientMap ==>
            Unserved(clients[f], f in poller.writers))
    }

    lemma SetAside(fd: int)
      requires Valid() && fd in clients
      ensures Aside(fd, clients.Values - {clients[fd]}) && FileOk(clients[fd]) && clients[fd].fd == fd
      ensures fd !in manager.clientMap ==> Unserved(clients[fd], fd in poller.writers)
    {
      hide FileOk, BodyOk, CgiManager.Valid;
      AllServed();
      ConnIn(clients, manager.clientMap, poller.sockets, clients.Values, fd);
      ConnsDrop(clients, manager.clientMap, poller.sockets, fd);
      hide ConnsIn;
    }

    lemma TakeBack(fd: int, conns: set<ClientCon>)
      requires manager.poller == poller && manager.Valid() && Aside(fd, conns) && FileOk(clients[fd])
      requires var c := clients[fd];
               && (fd in manager.clientMap ==> manager.clientMap[fd].client == c && !c.fileStreamActive && BodyOk(c))
               && (fd !in manager.clientMap ==> Unserved(c, fd in poller.writers))
      ensures Valid()
    {
      hide FileOk, BodyOk, ConnsIn, CgiManager.Valid;
      ConnsBack(clients, manager.clientMap, poller.sockets, fd, conns);
    }

    /** Send from the queue of a script's client; its backpressure is for the manager to see to. */
    method SendFrom(p: CgiProcess, n: nat)
      requires p.Live() && FileOk(p.client)
      requires p.client.sent < |p.client.responseOut| && 0 < n <= |p.client.responseOut| - p.client.sent && n <= INT_MAX
      modifies p.client`sent, p.client`wire
      ensures p.LiveBytes() && p.client.sent == old(p.client.sent) + n
      ensures p.client.wire == old(p.client.wire) + old(Pending(p.client))[..n]
      ensures |p.client.wire| == old(|p.client.wire|) + n
      ensures Whole(p.client) == old(Whole(p.client))
    {
      hide FileOk, Pending, CgiProcess.RelayOk, CgiProcess.FlagsOk, CgiProcess.InputOk, CgiProcess.ClosesOk;
      hide CgiProcess.PauseOk, CgiProcess.KeepOk;
      Requeue(p, n);
      SendQueued(p.client, n);
    }

    /** A successful send to a client that waits for a script. */
    method SendWaiting(p: CgiProcess, n: nat, ghost rest: set<object>)
      requires manager.Settled(p, rest) && p.client.fd in manager.clientMap && manager.clientMap[p.client.fd] == p
      requires FileOk(p.client)
      requires p.client.sent < |p.client.responseOut| && 0 < n <= |p.client.responseOut| - p.client.sent && n <= INT_MAX
      modifies p.client`sent, p.client`wire, manager`wires, manager.poller`interest, p`pauseStdout
      ensures FileOk(p.client) && manager.Settled(p, rest) && p.client.sent == old(p.client.sent) + n
      ensures p.client.wire == old(p.client.wire) + old(Pending(p.client))[..n]
      ensures |p.client.wire| == old(|p.client.wire|) + n
      ensures Whole(p.client) == old(Whole(p.client))
      ensures !p.pauseStdout && p.stdoutFd in manager.poller.interest && manager.poller.interest[p.stdoutFd] == READABLE
    {
      hide FileOk, Pending, TablesOk, CgiManager.OthersOk, CgiProcess.Live, CgiProcess.LiveBytes;
      SendFrom(p, n);
      manager.NotifyClientWritable(p.client.fd, rest);
    }

    static lemma Requeue(p: CgiProcess, n: nat)
      requires p.Live() && 0 < n <= |p.client.responseOut| - p.client.sent
      ensures var c := p.client;
              p.relay.out == (c.wire + c.responseOut[c.sent..c.sent + n]) + c.responseOut[c.sent + n..]
    {
      hide TakeAll, ReadsUpTo;
      assert p.Conserved();
      var c := p.client;
      assert c.responseOut[c.sent..] == c.responseOut[c.sent..c.sent + n] + c.responseOut[c.sent + n..];
    }

    /**
     * What a connection is watched for. One that no script serves is watched for writing exactly if there is something
     * to do for it, and for reading otherwise; one that a script serves for writing as long as bytes are queued.
     */
    lemma Watched(fd: int)
      requires Valid() && fd in clients
      ensures fd in poller.interest
      ensures fd !in manager.clientMap ==> poller.interest[fd] == if HasOutput(clients[fd]) then WRITABLE else READABLE
      ensures fd in manager.clientMap && clients[fd].sent < |clients[fd].responseOut| ==>
                poller.interest[fd] == WRITABLE && HasOutput(clients[fd])
      ensures poller.interest[fd] == NOTHING ==> clients[fd].cgiActive && fd in manager.clientMap
    {
      hide FileOk, BodyOk, CgiProcess.RelayOk, CgiProcess.FlagsOk, CgiProcess.InputOk, CgiProcess.ClosesOk;
      hide CgiProcess.PauseOk, CgiProcess.KeepOk, CgiManager.OthersOk;
      ConnOf(fd);
      if fd in manager.clientMap {
        var p := manager.clientMap[fd];
        assert Wired(manager.T(), p, manager.wires[p]);
      }
    }

    /** As long as bytes are pending for a connection, the poller waits until it can be written to. */
    ghost predicate WaitsToWrite(fd: int, conn: ClientCon)
      requires FileOk(conn)
      reads poller`interest, conn, conn.fileBuf
    {
      HasOutput(conn) && Pending(conn) != "" ==> fd in poller.interest && poller.interest[fd] == WRITABLE
    }

    lemma PendingIsWatched(fd: int)
      requires Valid() && fd in clients && FileOk(clients[fd])
      ensures WaitsToWrite(fd, clients[fd])
    {
      hide FileOk, ConnsOk, Pending, CgiManager.Valid, CgiManager.Settled;
      ConnOf(fd);
      Watched(fd);
      if clients[fd].sent >= |clients[fd].responseOut| && !clients[fd].fileStreamActive {
        NothingPending(clients[fd]);
      }
    }

    /** The script behind a connection, if any, is not paused, and its output is watched. */
    ghost predicate Resumed(fd: int)
      reads manager, poller`interest, manager.Serving(fd)
    {
      forall p :: p in manager.Serving(fd) ==>
        !p.pauseStdout && p.stdoutFd in poller.interest && poller.interest[p.stdoutFd] == READABLE
    }

    /** A successful send to a connection, which wakes up the script behind it. */
    method SendAndDrain(fd: int, conn: ClientCon, n: nat)
      requires Valid() && fd in clients && clients[fd] == conn && FileOk(conn)
      requires conn.sent < |conn.responseOut| && 0 < n <= |conn.responseOut| - conn.sent && n <= INT_MAX
      modifies conn`sent, conn`wire, manager`wires, poller`interest, manager.Serving(fd)`pauseStdout
      ensures FileOk(conn) && Valid() && conn.sent == old(conn.sent) + n
      ensures conn.wire == old(conn.wire) + old(Pending(conn))[..n] && |conn.wire| == old(|conn.wire|) + n
      ensures Whole(conn) == old(Whole(conn))
      ensures Resumed(fd)
    {
      hide FileOk, Pending, ConnsOk, CgiManager.Valid, CgiManager.Settled;
      ConnOf(fd);
      if fd in manager.clientMap {
        ghost var p := manager.clientMap[fd];
        ghost var rest := manager.Rest(p);
        SendWaiting(manager.clientMap[fd], n, rest);
        manager.StillOwned(p, rest);
      } else {
        SendQueued(conn, n);
      }
    }

    method ClearWaiting(p: CgiProcess, ghost rest: set<object>)
      requires manager.Settled(p, rest) && FileOk(p.client) && p.client.sent >= |p.client.responseOut|
      modifies p.client`responseOut, p.client`sent
      ensures manager.Settled(p, rest) && p.client.responseOut == "" && p.client.sent == 0
      ensures Pending(p.client) == old(Pending(p.client))
    {
      hide FileOk, Pending, TablesOk, CgiManager.OthersOk, CgiProcess.RelayOk, CgiProcess.FlagsOk;
      hide CgiProcess.InputOk, CgiProcess.ClosesOk, CgiProcess.KeepOk;
      ClearQueue(p.client);
    }

    /** Forget a queue that has been sent. */
    method ClearSent(fd: int, conn: ClientCon)
      requires Valid() && fd in clients && clients[fd] == conn && FileOk(conn) && conn.sent >= |conn.responseOut|
      modifies conn`responseOut, conn`sent
      ensures Valid() && conn.responseOut == "" && conn.sent == 0 && Pending(conn) == old(Pending(conn))
    {
      hide FileOk, Pending, ConnsOk, CgiManager.Valid, CgiManager.Settled;
      ConnOf(fd);
      if fd in manager.clientMap {
        ghost var p := manager.clientMap[fd];
        ghost var rest := manager.Rest(p);
        ClearWaiting(manager.clientMap[fd], rest);
        manager.StillOwned(p, rest);
      } else {
        ClearQueue(conn);
      }
    }

    /** Give up what a connection holds: the file it streams, and the file of an upload that is not complete. */
    method ResetConn(fd: int, conn: ClientCon, ghost rest: set<object>)
      requires FileOk(conn) && conn.fd == fd && manager.MayAbandon(fd, rest)
      requires fd in manager.clientMap ==> manager.clientMap[fd].client == conn
      modifies conn`fileStreamActive, conn`fileBytesRemaining, conn`fileBufLen, conn`fileBufOff, conn`fileData
      modifies conn`fileRead, conn`uploadStream, conn`uploadFile
      ensures manager.MayAbandon(fd, rest)
      ensures old(conn.uploadActive) ==> conn.uploadStream == CLOSED && conn.uploadFile == ""
    {
      hide FileOk, CgiManager.Valid, CgiManager.ValidBut, CgiProcess.EndingOk;
      if fd in manager.clientMap {
        Abandoned(fd, rest);
      } else {
        NothingToAbandon(fd, rest);
        manager.NotWaiting(conn);
      }
      if conn.uploadActive {
        conn.uploadStream, conn.uploadFile := CLOSED, "";
      }
      ResetStaticFileStream(conn);
    }

    /** Nothing more is sent on the connections, and the file of an upload that was not complete is gone. */
    static twostate predicate LetGo(conns: set<ClientCon>)
      reads conns
    {
      forall c :: c in conns ==>
        && c.wire == old(c.wire)
        && (old(c.uploadActive) ==> c.uploadStream == CLOSED && c.uploadFile == "")
    }

    /** Give up what a connection holds, its script and its registration. */
    method Release(fd: int, conn: ClientCon, ghost rest: set<object>)
      requires fd in manager.poller.sockets && FileOk(conn) && conn.fd == fd && manager.MayAbandon(fd, rest)
      requires fd in manager.clientMap ==> manager.clientMap[fd].client == conn
      modifies manager, manager.poller`interest, manager.poller`pipes, manager.poller`sockets, manager.poller`writers,
               manager.poller`open
      modifies manager.Serving(fd), conn
      ensures manager.Valid() && fd !in manager.clientMap && manager.launched == old(manager.launched)
      ensures manager.poller.sockets == old(manager.poller.sockets) - {fd}
      ensures manager.poller.open == old(manager.poller.open) - {fd}
      ensures manager.ServesFewer(old(manager.clientMap), old(manager.poller.writers))
      ensures manager.ClientLost(fd, old(manager.clientMap), old(manager.pidMap), old(manager.Serving(fd)),
                                 old(manager.PidsOf(fd)))
      ensures LetGo({conn})
    {
      hide FileOk, CgiManager.ServesFewer, CgiManager.ClientLost, CgiManager.Valid, CgiManager.MayAbandon;
      manager.SocketIsNoPipe(fd, rest);
      ResetConn(fd, conn, rest);
      manager.HandleClientClose(fd, rest);
      manager.RemoveSocket(fd);
    }

    /** Close a connection; its script, if any, is given up. */
    method CloseClient(fd: int, ghost rest: set<object>)
      requires manager.poller == poller && ConnsBut(fd) && manager.MayAbandon(fd, rest)
      modifies `clients, manager, poller`interest, poller`pipes, poller`sockets, poller`writers, poller`open
      modifies manager.Serving(fd), Conn(fd)
      ensures Valid() && clients == old(clients) - {fd} && manager.launched == old(manager.launched)
      ensures fd in old(clients) ==>
                manager.ClientLost(fd, old(manager.clientMap), old(manager.pidMap), old(manager.Serving(fd)),
                                   old(manager.PidsOf(fd)))
      ensures LetGo(old(Conn(fd)))
    {
      hide ConnsBut, CgiManager.Valid, CgiManager.MayAbandon, CgiManager.ClientLost;
      if fd in clients {
        CloseKnown(fd, clients[fd], rest);
      } else {
        NoConn(fd);
        NothingToAbandon(fd, rest);
      }
    }

    lemma NotAmongOthers(fd: int)
      requires ConnsIn(clients, manager.clientMap, poller.sockets, clients.Values) && fd in clients
      ensures clients[fd] !in (clients - {fd}).Values
    {
      hide ConnsIn;
      AllServedIn();
      var others := clients - {fd};
      forall f | f in others ensures others[f] != clients[fd] {
        assert clients[f].fd == f;
      }
    }

    lemma LostMeans(fd: int, served: Table, pids: Table, scripts: set<CgiProcess>, numbers: set<int>)
      requires manager.ClientLost(fd, served, pids, scripts, numbers)
      ensures manager.clientMap == served - {fd}
    {}

    /** The loss of one connection is no news about the others. */
    lemma StillActive(others: map<int, ClientCon>, serving: Table, writers: set<int>, fd: int)
      requires ActiveOk(others, serving, writers) && fd !in others
      requires manager.clientMap == serving - {fd} && manager.ServesFewer(serving, writers)
      ensures ActiveOk(others, manager.clientMap, manager.poller.writers)
    {}

    method CloseKnown(fd: int, conn: ClientCon, ghost rest: set<object>)
      requires manager.poller == poller && ConnsBut(fd) && manager.MayAbandon(fd, rest)
      requires fd in clients && clients[fd] == conn
      modifies `clients, manager, poller`interest, poller`pipes, poller`sockets, poller`writers, poller`open
      modifies manager.Serving(fd), conn
      ensures Valid() && clients == old(clients) - {fd} && manager.launched == old(manager.launched)
      ensures manager.ClientLost(fd, old(manager.clientMap), old(manager.pidMap), old(manager.Serving(fd)),
                                 old(manager.PidsOf(fd)))
      ensures LetGo({conn})
    {
      hide FileOk, BodyOk, ConnsIn, SubTable, ActiveOk, CgiManager.ServesFewer, CgiManager.Valid;
      hide CgiManager.MayAbandon, CgiManager.ClientLost, LetGo;
      ghost var serving, sockets, writers := manager.clientMap, poller.sockets, poller.writers;
      ghost var conns := clients.Values - {conn};
      ConnIn(clients, serving, sockets, clients.Values, fd);
      ConnsDrop(clients, serving, sockets, fd);
      AllServedIn();
      NotAmongOthers(fd);
      Release(fd, conn, rest);
      LostMeans(fd, serving, old(manager.pidMap), old(manager.Serving(fd)), old(manager.PidsOf(fd)));
      clients := clients - {fd};
      Fewer(manager.clientMap, serving, fd);
      StillActive(clients, serving, writers, fd);
      ConnsShrink(clients, serving - {fd}, manager.clientMap, sockets - {fd}, conns);
    }

    /** Close a connection while nothing else is going on. */
    method GiveUp(fd: int)
      requires manager.poller == poller && manager.Valid() && ConnsBut(fd)
      modifies `clients, manager, poller`interest, poller`pipes, poller`sockets, poller`writers, poller`open
      modifies manager.Serving(fd), Conn(fd)
      ensures Valid() && clients == old(clients) - {fd} && manager.launched == old(manager.launched)
      ensures fd in old(clients) ==>
                manager.ClientLost(fd, old(manager.clientMap), old(manager.pidMap), old(manager.Serving(fd)),
                                   old(manager.PidsOf(fd)))
      ensures LetGo(old(Conn(fd)))
      ensures OnlyFor(old(Conn(fd)), old(manager.Serving(fd)))
    {
      hide Valid, ConnsBut, CgiManager.PidsOf, CgiManager.Valid, CgiManager.MayAbandon, CgiManager.ClientLost, LetGo;
      SeparateBut(fd);
      manager.ValidMayAbandon(fd);
      CloseClient(fd, if fd in manager.clientMap then manager.Rest(manager.clientMap[fd]) else {});
    }

    lemma NothingToAbandon(fd: int, rest: set<object>)
      requires manager.MayAbandon(fd, rest) && fd !in manager.clientMap
      ensures manager.Valid()
    {}

    static lemma Fewer(fewer: Table, serving: Table, fd: int)
      requires SubTable(fewer, serving) && fd !in fewer
      ensures SubTable(fewer, serving - {fd})
    {}

    lemma ValidBut(fd: int)
      requires Valid()
      ensures manager.poller == poller && manager.Valid() && ConnsBut(fd)
    {
      hide ConnsBut, ConnsIn, CgiManager.Valid;
      ButOne(fd);
    }

    lemma NoConn(fd: int)
      requires ConnsBut(fd) && fd !in clients
      ensures fd !in manager.clientMap && ConnsOk()
    {
      hide FileOk, BodyOk;
      assert clients - {fd} == clients;
    }

    lemma Abandoned(fd: int, rest: set<object>)
      requires manager.MayAbandon(fd, rest) && fd in manager.clientMap
      ensures manager.clientMap[fd].client !in rest
    {}

    function Conn(fd: int): set<ClientCon>
      reads `clients
    {
      if fd in clients then {clients[fd]} else {}
    }

    /** Nothing is changed but these connections, with their file buffers, and these scripts. */
    twostate predicate OnlyFor(conns: set<ClientCon>, scripts: set<CgiProcess>)
      reads *
    {
      && (forall f :: f in old(clients) && old(clients[f]) !in conns ==>
            && f in clients && clients[f] == old(clients[f])
            && unchanged(old(clients[f])) && unchanged(old(clients[f]).fileBuf))
      && (forall p :: p in old(manager.launched) && p !in scripts ==> unchanged(p))
    }

    /** No two connections are the same, nor do they share a file buffer. */
    lemma Separate(fd: int)
      requires Valid()
      ensures Apart(fd)
    {
      hide ConnsBut, CgiManager.Valid;
      ButOne(fd);
      SeparateBut(fd);
    }

    lemma SeparateBut(fd: int)
      requires ConnsBut(fd)
      ensures Apart(fd)
    {
      hide FileOk, BodyOk, ConnOk, ActiveOk;
    }

    predicate Apart(fd: int)
      reads `clients
    {
      forall f :: f in clients && clients[f] !in Conn(fd) ==>
        forall c :: c in Conn(fd) ==> clients[f] != c && clients[f].fileBuf != c.fileBuf
    }

    /** Nothing happens. */
    ghost method Idle(conns: set<ClientCon>, scripts: set<CgiProcess>)
      requires Valid()
      ensures Valid() && OnlyFor(conns, scripts) && OnlyFor({}, {})
    {
      hide ConnsOk, CgiManager.Valid;
    }

    /**
     * Nothing is left to send for now: wait for the script, close the connection, or wait for the next request.
     * A connection is left unwatched only while a script is running for it.
     */
    method FinalizeResponseWrite(fd: int, conn: ClientCon)
      requires Valid() && fd in clients && clients[fd] == conn && conn.responseOut == "" && !conn.fileStreamActive
      modifies `clients, manager, poller`interest, poller`pipes, poller`sockets, poller`writers, poller`open, conn
      ensures Valid() && manager.launched == old(manager.launched) && conn.wire == old(conn.wire)
      ensures old(Resumed(fd)) && !old(IsLast(conn)) ==> Resumed(fd)
      ensures clients == if old(IsLast(conn)) then old(clients) - {fd} else old(clients)
      ensures !old(IsLast(conn)) ==>
                && FileOk(conn) && Pending(conn) == old(Pending(conn)) && Whole(conn) == old(Whole(conn))
                && !conn.resReady && IsWatched(fd, conn)
                && Finished(conn)
    {
      hide FileOk, Pending, ConnsOk, CgiManager.Valid, CgiManager.Settled, TablesOk, CgiManager.OthersOk;
      hide CgiManager.ClientLost, CgiManager.PidsOf, CgiManager.Rest;
      ConnOf(fd);
      if conn.cgiActive {
        AwaitScript(fd, conn);
      } else if conn.closeAfterSend || !conn.keepAlive {
        CloseDone(fd, conn);
      } else {
        AwaitRequest(fd, conn);
      }
    }

    /** A response is complete, and another request may follow. */
    method AwaitRequest(fd: int, conn: ClientCon)
      requires Valid() && fd in clients && clients[fd] == conn && fd !in manager.clientMap && !conn.fileStreamActive
      modifies poller`interest, poller`writers, conn`resReady, conn`closeAfterSend
      ensures Valid() && !conn.resReady && !conn.closeAfterSend
      ensures poller.interest == old(poller.interest)[fd := READABLE]
    {
      hide FileOk, BodyOk, ConnsIn, ActiveOk, CgiManager.Valid;
      ConnOf(fd);
      OthersActive(fd);
      ghost var writers := poller.writers;
      conn.resReady := false;
      conn.closeAfterSend := false;
      manager.WatchOutside(fd, true, false);
      Rejoin(fd, writers, false);
    }

    /** A response is complete, and it was the last one. */
    method CloseDone(fd: int, conn: ClientCon)
      requires Valid() && fd in clients && clients[fd] == conn && fd !in manager.clientMap
      modifies `clients, manager, poller`interest, poller`pipes, poller`sockets, poller`writers, poller`open, conn
      ensures Valid() && manager.launched == old(manager.launched) && conn.wire == old(conn.wire)
      ensures clients == old(clients) - {fd}
    {
      hide ConnsIn, ConnsBut, CgiManager.Valid, CgiManager.ClientLost, CgiManager.PidsOf;
      ConnOf(fd);
      AllServed();
      conn.resReady := false;
      conn.closeAfterSend := false;
      ButThis(fd);
      GiveUp(fd);
    }

    lemma ButThis(fd: int)
      requires poller.open == clients.Keys && ConnsIn(clients, manager.clientMap, poller.sockets, clients.Values)
      requires ActiveOk(clients - {fd}, manager.clientMap, poller.writers)
      ensures ConnsBut(fd)
    {
      hide ConnsIn, ActiveOk;
    }

    /** The connection ends with the response that is being sent. */
    static predicate IsLast(conn: ClientCon)
      reads conn`cgiActive, conn`closeAfterSend, conn`keepAlive
    {
      !conn.cgiActive && (conn.closeAfterSend || !conn.keepAlive)
    }

    /** The connection is watched for its next request, or not at all while a script runs for it. */
    ghost predicate IsWatched(fd: int, conn: ClientCon)
      reads poller`interest, conn`cgiActive
    {
      fd in poller.interest && poller.interest[fd] == Interest(!conn.cgiActive, false)
    }

    /** What a response that has been sent leaves of a connection that is kept. */
    static twostate predicate Finished(conn: ClientCon)
      reads conn
    {
      && conn.StreamKept() && conn.keepAlive == old(conn.keepAlive) && conn.cgiActive == old(conn.cgiActive)
      && conn.responseOut == old(conn.responseOut) && conn.sent == old(conn.sent)
      && conn.fileStreamActive == old(conn.fileStreamActive)
      && conn.closeAfterSend == old(conn.closeAfterSend)
    }

    /** A drained connection of a running script: reads stay disabled until the manager has more to send. */
    method AwaitScript(fd: int, conn: ClientCon)
      requires Valid() && fd in clients && clients[fd] == conn && conn.responseOut == "" && conn.cgiActive
      modifies manager`wires, poller`interest, conn`resReady
      ensures Valid() && !conn.resReady && poller.interest == old(poller.interest)[fd := NOTHING]
      ensures old(Resumed(fd)) ==> Resumed(fd)
    {
      hide FileOk, ConnsIn, CgiManager.Valid, CgiManager.Settled, TablesOk, CgiManager.OthersOk;
      ConnOf(fd);
      AllServed();
      ghost var p := manager.clientMap[fd];
      ghost var rest := manager.Rest(p);
      OutputIsNoSocket(fd);
      manager.Park(manager.clientMap[fd], rest);
      manager.StillOwned(p, rest);
    }

    lemma OutputIsNoSocket(fd: int)
      requires Valid() && fd in manager.clientMap
      ensures manager.clientMap[fd].stdoutFd != fd
    {
      hide CgiManager.Valid;
      manager.ServedIsOwned(fd);
      manager.Agreement(manager.clientMap[fd]);
      Registered();
      AllServed();
    }

    /** One step of a static response on a connection. */
    method StreamStep(fd: int, conn: ClientCon, data: string, n: int) returns (o: Outcome)
      requires Valid() && fd in clients && clients[fd] == conn && FileOk(conn) && conn.fileStreamActive
      requires conn.sent >= |conn.responseOut| && Offered(conn, data, n)
      modifies conn`fileStreamActive, conn`fileBytesRemaining, conn`fileBufLen, conn`fileBufOff, conn`fileData
      modifies conn`fileRead, conn`wire, conn.fileBuf
      ensures Valid() && FileOk(conn) && fd !in manager.clientMap && old(conn.wire) <= conn.wire
      ensures o.Keep? ==> Whole(conn) == old(Whole(conn)) && conn.fileStreamActive
      ensures o.Keep? ==> |conn.wire| == old(|conn.wire|) + if n > 0 then n else 0
      ensures n > 0 && old(Pending(conn)) != "" && !o.Broken? ==> |conn.wire| == old(|conn.wire|) + n
      ensures o.Drained? ==> !conn.fileStreamActive && conn.wire == old(Whole(conn))
      ensures o.Broken? ==> conn.wire == old(conn.wire) && (n < 0 || (data == "" && old(NeedsBlock(conn))))
    {
      hide FileOk, BodyOk, ConnsIn, CgiManager.Valid, CgiManager.Settled, Offered, Pending;
      ConnOf(fd);
      ghost var serving, sockets := manager.clientMap, poller.sockets;
      ghost var conns := clients.Values - {conn};
      ConnIn(clients, serving, sockets, clients.Values, fd);
      ConnsDrop(clients, serving, sockets, fd);
      o := WriteStaticFileChunk(conn, data, n);
      ConnsBack(clients, serving, sockets, fd, conns);
    }

    // -------------------------------------------------------------------------
    // Events of the scripts
    // -------------------------------------------------------------------------

    lemma BehindServes(fd: int)
      requires Valid()
      ensures forall p :: p in manager.Behind(fd) ==> p.client.fd in manager.clientMap
    {
      hide ConnsOk, CgiManager.Valid;
      manager.EntriesAreOwned(fd);
      forall p | p in manager.Behind(fd) ensures p.client.fd in manager.clientMap {
        manager.OwnedServes(p);
      }
    }

    lemma ChildServes(pid: int)
      requires Valid()
      ensures forall p :: p in manager.Child(pid) ==> p.client.fd in manager.clientMap
    {
      hide ConnsOk, CgiManager.Valid;
      manager.EntriesAreOwned(pid);
      forall p | p in manager.Child(pid) ensures p.client.fd in manager.clientMap {
        manager.OwnedServes(p);
      }
    }

    /** The connections and the clients of scripts are the same objects. */
    lemma AllServed()
      requires ConnsOk()
      ensures forall fd :: fd in clients ==> clients[fd].fd == fd
      ensures forall fd :: fd in manager.clientMap ==> fd in clients && manager.clientMap[fd].client == clients[fd]
    {
      hide ConnsIn;
      AllServedIn();
    }

    lemma AllServedIn()
      requires ConnsIn(clients, manager.clientMap, poller.sockets, clients.Values)
      ensures forall fd :: fd in clients ==> clients[fd].fd == fd
      ensures forall fd :: fd in manager.clientMap ==> fd in clients && manager.clientMap[fd].client == clients[fd]
    {
      hide FileOk, BodyOk;
      forall fd | fd in clients ensures ConnOk(fd, manager.clientMap, poller.sockets, clients[fd]) {
        ConnIn(clients, manager.clientMap, poller.sockets, clients.Values, fd);
      }
    }

    /** No connection is marked active but those that a script serves. */
    lemma OnlyServedActive()
      requires Valid()
      ensures manager.poller == poller && manager.Valid() && ConnsOk() && poller.open == clients.Keys
      ensures ConnsIn(clients, manager.clientMap, poller.sockets, clients.Values)
      ensures forall fd :: fd in clients && fd !in manager.clientMap ==> Unserved(clients[fd], fd in poller.writers)
    {
      hide ConnsIn;
    }

    /** Scripts have stopped serving, and the connections they served are not active any more. */
    lemma ServedLess(serving: Table, writers: set<int>)
      requires ConnsIn(clients, serving, poller.sockets, clients.Values) && poller.open == clients.Keys
      requires manager.poller == poller && manager.Valid() && manager.ServesFewer(serving, writers)
      requires forall fd :: fd in serving ==> fd in clients && serving[fd].client == clients[fd]
      requires forall fd :: fd in clients && fd !in serving ==> Unserved(clients[fd], fd in writers)
      ensures Valid()
    {
      hide ConnsIn, SubTable, CgiManager.Valid;
      forall fd | fd in clients && fd in serving ensures !clients[fd].fileStreamActive && fd in poller.sockets {
        ConnIn(clients, serving, poller.sockets, clients.Values, fd);
      }
      ConnsShrink(clients, serving, manager.clientMap, poller.sockets, clients.Values);
      assert SubTable(manager.clientMap, serving);
    }

    /** A readiness event on a script's descriptor. */
    method DispatchCgiEvent(fd: int, readable: bool, writable: bool, parts: seq<string>, eof: bool, n: int, now: int)
      returns (lines: seq<string>)
      requires Valid() && ReadsUpTo(parts, READ_SIZE)
      requires fd in manager.stdinMap ==> n <= |manager.stdinMap[fd].stdinBuffer| - manager.stdinMap[fd].stdinOffset
      modifies manager, poller`interest, poller`pipes, poller`sockets, poller`writers, manager.Behind(fd)
      modifies CgiManager.ClientsOf(manager.Behind(fd))`responseOut, CgiManager.ClientsOf(manager.Behind(fd))`resReady
      modifies CgiManager.ClientsOf(manager.Behind(fd))`keepAlive
      modifies CgiManager.ClientsOf(manager.Behind(fd))`closeAfterSend
      modifies CgiManager.ClientsOf(manager.Behind(fd))`cgiActive
      modifies CgiManager.ClientsOf(manager.Behind(fd))`cgiForceClose
      ensures Valid() && manager.launched == old(manager.launched)
      ensures manager.EventTaken(fd, readable, writable, parts, eof, n, now, lines)
    {
      hide Valid, ConnsOk, ConnsIn, ReadsUpTo, CgiManager.Valid, CgiManager.EventTaken, CgiManager.ServesFewer;
      ghost var serving, writers := manager.clientMap, poller.writers;
      OnlyServedActive();
      BehindServes(fd);
      AllServed();
      lines := manager.HandleEvent(fd, readable, writable, parts, eof, n, now);
      ServedLess(serving, writers);
    }

    /** A reaped child. */
    method OnChildExit(pid: int, exited: bool, code: int)
      requires Valid()
      modifies manager, poller`interest, poller`pipes, poller`sockets, poller`writers, manager.Child(pid)
      modifies CgiManager.ClientsOf(manager.Child(pid))`responseOut
      modifies CgiManager.ClientsOf(manager.Child(pid))`resReady
      modifies CgiManager.ClientsOf(manager.Child(pid))`keepAlive
      modifies CgiManager.ClientsOf(manager.Child(pid))`closeAfterSend
      modifies CgiManager.ClientsOf(manager.Child(pid))`cgiActive
      modifies CgiManager.ClientsOf(manager.Child(pid))`cgiForceClose
      ensures Valid() && manager.launched == old(manager.launched)
      ensures manager.ChildTaken(pid, exited, code)
    {
      hide Valid, ConnsOk, ConnsIn, CgiManager.Valid, CgiManager.ChildTaken, CgiManager.ServesFewer;
      ghost var serving, writers := manager.clientMap, poller.writers;
      OnlyServedActive();
      ChildServes(pid);
      AllServed();
      manager.HandleChildExit(pid, exited, code);
      ServedLess(serving, writers);
    }

    lemma ExpiredServes(now: int)
      requires Valid()
      ensures forall p :: p in manager.Expired(now) ==> p.client.fd in manager.clientMap
    {
      hide ConnsOk, CgiManager.Valid, CgiProcess.IsExpired;
      manager.EntriesAreFiled();
      forall p | p in manager.Expired(now) ensures p.client.fd in manager.clientMap {
        manager.OwnedServes(p);
      }
    }

    /** The scripts' share of check_timeouts. */
    method CheckScriptTimeouts(now: int)
      requires Valid()
      modifies manager, poller`interest, poller`pipes, poller`sockets, poller`writers
      modifies manager.Expired(now)
      modifies CgiManager.ClientsOf(manager.Expired(now))`responseOut,
               CgiManager.ClientsOf(manager.Expired(now))`resReady,
               CgiManager.ClientsOf(manager.Expired(now))`keepAlive
      modifies CgiManager.ClientsOf(manager.Expired(now))`closeAfterSend,
               CgiManager.ClientsOf(manager.Expired(now))`cgiActive,
               CgiManager.ClientsOf(manager.Expired(now))`cgiForceClose
      ensures Valid() && manager.launched == old(manager.launched)
      ensures forall p :: p in old(manager.Expired(now)) ==> p.Ended() && p.ended == Some(Timeout)
    {
      hide Valid, ConnsOk, ConnsIn, CgiManager.Valid, CgiProcess.Ended, CgiManager.Without, CgiProcess.IsExpired;
      hide CgiManager.ServesFewer;
      ghost var serving, writers := manager.clientMap, poller.writers;
      OnlyServedActive();
      ExpiredServes(now);
      AllServed();
      manager.CheckTimeouts(now);
      ServedLess(serving, writers);
    }

    // -------------------------------------------------------------------------
    // Writable connections
    // -------------------------------------------------------------------------

    /**
     * What one writable event may be given by the kernel: the result of the send, and of the read of the next file
     * block.
     */
    static ghost predicate WriteOffered(conn: ClientCon, n: int, data: string)
      requires FileOk(conn)
      reads conn
    {
      if conn.sent < |conn.responseOut| then n <= |conn.responseOut| - conn.sent && n <= INT_MAX
      else conn.fileStreamActive ==> Offered(conn, data, n)
    }

    /** There is something to do for the connection when it becomes writable. */
    static predicate HasOutput(conn: ClientCon)
      reads conn`resReady, conn`fileStreamActive
    {
      conn.resReady || conn.fileStreamActive
    }

    /** One writable event, up to the point where the connection has nothing left to send for now or is to be closed. */
    method WriteSome(fd: int, conn: ClientCon, n: int, data: string) returns (o: Outcome)
      requires Valid() && fd in clients && clients[fd] == conn && FileOk(conn) && WriteOffered(conn, n, data)
      modifies conn`sent, conn`wire, conn`responseOut, conn`fileStreamActive, conn`fileBytesRemaining, conn`fileBufLen
      modifies conn`fileBufOff, conn`fileData, conn`fileRead, conn.fileBuf
      modifies manager`wires, poller`interest, manager.Serving(fd)`pauseStdout
      ensures Valid() && FileOk(conn) && old(conn.wire) <= conn.wire
      ensures !o.Broken? ==> Whole(conn) == old(Whole(conn))
      ensures n > 0 && old(HasOutput(conn) && Pending(conn) != "") && !o.Broken? ==> |conn.wire| == old(|conn.wire|) + n
      ensures n > 0 && old(HasOutput(conn) && conn.sent < |conn.responseOut|) ==> Resumed(fd)
      ensures o.Drained? ==> Pending(conn) == "" && conn.wire == Whole(conn) && conn.responseOut == ""
      ensures o.Drained? && old(conn.sent <= |conn.responseOut|) ==> conn.sent == 0
      ensures o.Drained? ==> !conn.fileStreamActive && old(HasOutput(conn))
      ensures o.Keep? ==> HasOutput(conn) == old(HasOutput(conn))
      ensures o.Keep? && conn.fileStreamActive ==> old(conn.fileStreamActive)
      ensures o.Keep? && HasOutput(conn) && Pending(conn) == "" ==> conn.fileStreamActive
      ensures o.Broken? ==> conn.wire == old(conn.wire) && (n < 0 || (data == "" && old(NeedsBlock(conn))))
    {
      hide FileOk, Pending, Offered, ConnsOk, CgiManager.Valid;
      o := Keep;
      if !HasOutput(conn) {
        return;
      }
      if conn.responseOut != "" {
        if conn.sent >= |conn.responseOut| {
          ClearSent(fd, conn);
        } else {
          o := WriteQueue(fd, conn, n);
          return;
        }
      }
      o := WriteFile(fd, conn, n, data);
    }

    /** The queue comes first. */
    method WriteQueue(fd: int, conn: ClientCon, n: int) returns (o: Outcome)
      requires Valid() && fd in clients && clients[fd] == conn && FileOk(conn) && HasOutput(conn)
      requires conn.sent < |conn.responseOut| && n <= |conn.responseOut| - conn.sent && n <= INT_MAX
      modifies conn`sent, conn`wire, conn`responseOut, manager`wires, poller`interest, manager.Serving(fd)`pauseStdout
      ensures Valid() && FileOk(conn) && old(conn.wire) <= conn.wire
      ensures (o.Broken? <==> n < 0) && (o.Broken? ==> conn.wire == old(conn.wire))
      ensures Whole(conn) == old(Whole(conn))
      ensures |conn.wire| == old(|conn.wire|) + (if n > 0 then n else 0) && (n > 0 ==> Resumed(fd))
      ensures o.Drained? ==> Pending(conn) == "" && conn.responseOut == "" && conn.sent == 0 && !conn.fileStreamActive
      ensures o.Keep? && Pending(conn) == "" ==> conn.fileStreamActive
    {
      hide FileOk, Pending, ConnsOk, CgiManager.Valid;
      QueuePending(conn);
      if n <= 0 {
        return if n == 0 then Keep else Broken;
      }
      SendAndDrain(fd, conn, n);
      o := Keep;
      if conn.sent == |conn.responseOut| {
        ClearSent(fd, conn);
        if !conn.fileStreamActive {
          NothingPending(conn);
          o := Drained;
        }
      } else {
        QueuePending(conn);
      }
    }

    static lemma QueuePending(conn: ClientCon)
      requires FileOk(conn) && conn.sent < |conn.responseOut|
      ensures Pending(conn) != ""
    {}

    /** Then the file. */
    method WriteFile(fd: int, conn: ClientCon, n: int, data: string) returns (o: Outcome)
      requires Valid() && fd in clients && clients[fd] == conn && FileOk(conn) && HasOutput(conn)
      requires conn.responseOut == "" && (conn.fileStreamActive ==> Offered(conn, data, n))
      modifies conn`fileStreamActive, conn`fileBytesRemaining, conn`fileBufLen, conn`fileBufOff, conn`fileData
      modifies conn`fileRead, conn`wire, conn.fileBuf
      ensures Valid() && FileOk(conn) && old(conn.wire) <= conn.wire
      ensures !o.Broken? ==> Whole(conn) == old(Whole(conn))
      ensures n > 0 && old(Pending(conn)) != "" && !o.Broken? ==> |conn.wire| == old(|conn.wire|) + n
      ensures o.Drained? ==> Pending(conn) == "" && !conn.fileStreamActive
      ensures o.Keep? ==> conn.fileStreamActive && old(conn.fileStreamActive)
      ensures o.Broken? ==> conn.wire == old(conn.wire) && (n < 0 || (data == "" && old(NeedsBlock(conn))))
    {
      hide FileOk, Pending, Offered, ConnsOk, CgiManager.Valid;
      if conn.fileStreamActive {
        o := StreamStep(fd, conn, data, n);
        if o.Drained? {
          NothingPending(conn);
          assert conn.wire + "" == conn.wire;
        }
      } else {
        NothingPending(conn);
        o := Drained;
      }
    }

    static lemma NothingPending(conn: ClientCon)
      requires FileOk(conn) && !conn.fileStreamActive && conn.sent >= |conn.responseOut|
      ensures Pending(conn) == ""
    {}

    /**
     * No byte is lost, repeated or reordered, and a connection with nothing left to send is watched for what is next.
     */
    twostate predicate StillOpen(fd: int, conn: ClientCon)
      requires old(FileOk(conn))
      reads conn, conn.fileBuf, poller`interest
    {
      FileOk(conn) && Whole(conn) == old(Whole(conn)) && SameTerms(conn) && GoesOn(fd, conn)
    }

    /** Nothing is changed about how a connection goes on, nor about what it is to pass to a script. */
    static twostate predicate SameTerms(conn: ClientCon)
      reads conn
    {
      && conn.StreamKept() && conn.keepAlive == old(conn.keepAlive) && conn.cgiActive == old(conn.cgiActive)
      && conn.closeAfterSend == old(conn.closeAfterSend) && (conn.fileStreamActive ==> old(conn.fileStreamActive))
    }

    /** With nothing left to send it is watched for what is next; there is as much to do for it as before if not. */
    twostate predicate GoesOn(fd: int, conn: ClientCon)
      requires FileOk(conn)
      reads conn, conn.fileBuf, poller`interest
    {
      if Pending(conn) == "" && !conn.fileStreamActive && old(HasOutput(conn)) then
        && !old(IsLast(conn)) && IsWatched(fd, conn) && !conn.resReady && conn.responseOut == ""
        && (old(conn.sent <= |conn.responseOut|) ==> conn.sent == 0)
      else HasOutput(conn) == old(HasOutput(conn))
    }

    /**
     * What a writable event does to a connection. No byte is lost, repeated or reordered: as long as the connection is
     * kept, sent and pending bytes make up the same response; it is closed without an error only when all are sent and
     * it is the last response. A positive send makes progress by as many bytes.
     */
    twostate predicate Written(fd: int, conn: ClientCon, n: int, data: string)
      reads `clients, conn, conn.fileBuf, poller`interest
    {
      && old(FileOk(conn)) && old(conn.wire) <= conn.wire
      && (clients == old(clients) || clients == old(clients) - {fd})
      && (fd in clients ==> StillOpen(fd, conn))
      && (fd !in clients ==>
            || (conn.wire == old(Whole(conn)) && old(IsLast(conn)))
            || (conn.wire == old(conn.wire) && (n < 0 || (data == "" && old(NeedsBlock(conn))))))
      && (n > 0 && old(HasOutput(conn) && Pending(conn) != "" && (NeedsBlock(conn) ==> data != "")) ==>
            |conn.wire| == old(|conn.wire|) + n)
    }

    /** Send what the kernel takes, and see what is next when nothing is left to send. */
    method WriteOn(fd: int, conn: ClientCon, n: int, data: string) returns (o: Outcome)
      requires Valid() && fd in clients && clients[fd] == conn && FileOk(conn) && WriteOffered(conn, n, data)
      modifies `clients, manager, poller`interest, poller`pipes, poller`sockets, poller`writers, poller`open
      modifies conn, conn.fileBuf, manager.Serving(fd)`pauseStdout
      ensures Valid() && manager.launched == old(manager.launched) && old(conn.wire) <= conn.wire
      ensures o.Broken? ==> clients == old(clients) && manager.clientMap == old(manager.clientMap)
      ensures o.Broken? ==> conn.wire == old(conn.wire)
      ensures o.Broken? ==> n < 0 || (data == "" && old(NeedsBlock(conn)))
      ensures !o.Broken? ==> if fd in clients then clients == old(clients) && StillOpen(fd, conn)
                else clients == old(clients) - {fd} && conn.wire == old(Whole(conn)) && old(IsLast(conn))
      ensures n > 0 && old(HasOutput(conn) && conn.sent < |conn.responseOut|) && fd in clients ==> Resumed(fd)
      ensures n > 0 && old(HasOutput(conn) && Pending(conn) != "") && !o.Broken? ==> |conn.wire| == old(|conn.wire|) + n
    {
      hide FileOk, Pending, Whole, WriteOffered, NeedsBlock, HasOutput, Resumed, IsLast, Valid;
      o := WriteSome(fd, conn, n, data);
      if o.Drained? {
        FinalizeResponseWrite(fd, conn);
      }
    }

    /** A writable event. */
    method ClientWrite(fd: int, conn: ClientCon, n: int, data: string)
      requires Valid() && fd in clients && clients[fd] == conn && FileOk(conn) && WriteOffered(conn, n, data)
      modifies `clients, manager, poller`interest, poller`pipes, poller`sockets, poller`writers, poller`open
      modifies conn, conn.fileBuf, manager.Serving(fd)
      ensures Valid() && manager.launched == old(manager.launched) && Written(fd, conn, n, data)
      ensures clients == old(clients) || clients == old(clients) - {fd}
      ensures n > 0 && old(HasOutput(conn) && conn.sent < |conn.responseOut|) && fd in clients ==> Resumed(fd)
      ensures fd in clients ==> StillActiveSince(old(manager.Serving(fd)))
    {
      hide FileOk, Pending, WriteOffered, ConnsOk, NeedsBlock, CgiManager.Valid, CgiManager.MayAbandon, HasOutput;
      hide CgiManager.ClientLost, CgiManager.PidsOf, IsLast, StillOpen, Resumed;
      var o := WriteOn(fd, conn, n, data);
      if o.Broken? {
        ButOne(fd);
        GiveUp(fd);
      }
    }

    /** Every step takes a byte at least, and every read returns one. */
    static ghost predicate Willing(steps: seq<(int, nat)>) {
      forall i :: 0 <= i < |steps| ==> steps[i].0 > 0 && steps[i].1 > 0
    }

    /** One step with a send of up to `n` bytes and a read of up to `ready` bytes. */
    method DeliverOne(fd: int, conn: ClientCon, n: int, ready: nat)
      requires Valid() && fd in clients && clients[fd] == conn && FileOk(conn)
      modifies `clients, manager, poller`interest, poller`pipes, poller`sockets, poller`writers, poller`open
      modifies conn, conn.fileBuf, manager.Serving(fd)
      ensures Valid() && manager.launched == old(manager.launched)
      ensures old(FileOk(conn)) && Written(fd, conn, old(Taken(conn, n, ready)), old(Block(conn, ready)))
      ensures clients == old(clients) || clients == old(clients) - {fd}
      ensures n > 0 && old(HasOutput(conn) && conn.sent < |conn.responseOut|) && fd in clients ==> Resumed(fd)
      ensures OnlyFor(old(Conn(fd)), old(manager.Serving(fd)))
      ensures fd in clients ==> StillActiveSince(old(manager.Serving(fd)))
    {
      hide ConnsOk, FileOk, Pending, WriteOffered, NextBlock, Room, NeedsBlock, CgiManager.Valid, Written, Clip;
      hide Resumed;
      Separate(fd);
      ClippedIsOffered(conn, n, ready);
      QueueIsTaken(conn, n, ready);
      var block := NextBlock(conn, ready);
      ClientWrite(fd, conn, Clip(n, Room(conn, block)), block);
    }

    /** One such step, if the poller waits for it. */
    method DeliverWatched(fd: int, conn: ClientCon, n: int, ready: nat)
      requires Valid() && fd in clients && clients[fd] == conn && FileOk(conn)
      modifies `clients, manager, poller`interest, poller`pipes, poller`sockets, poller`writers, poller`open
      modifies conn, conn.fileBuf, manager.Serving(fd)
      ensures Valid() && old(conn.wire) <= conn.wire && manager.launched == old(manager.launched)
      ensures clients == old(clients) || clients == old(clients) - {fd}
      ensures fd in clients ==> clients[fd] == conn && FileOk(conn) && Whole(conn) == old(Whole(conn))
      ensures fd in clients && Pending(conn) != "" ==> HasOutput(conn) == old(HasOutput(conn))
      ensures fd !in clients ==> conn.wire <= old(Whole(conn))
      ensures fd !in clients && n >= 0 && ready > 0 ==> conn.wire == old(Whole(conn))
      ensures n > 0 && ready > 0 && old(HasOutput(conn) && Pending(conn) != "") ==> |conn.wire| > old(|conn.wire|)
      ensures forall p :: p in manager.launched && p !in old(manager.Serving(fd)) ==> unchanged(p)
    {
      hide ConnsOk, FileOk, Pending, Taken, Block, NeedsBlock, CgiManager.Valid;
      StepIsWilling(conn, n, ready);
      PendingIsWatched(fd);
      Watched(fd);
      if poller.interest[fd].writable {
        DeliverOne(fd, conn, n, ready);
      }
    }

    /**
     * A run of events on one connection: if the poller watches it for writing, the next of the `steps` tells how many
     * bytes the kernel takes (or that it fails) and how many a read from the file returns; an event that the poller
     * does not wait for does not happen. The peer has always been sent a prefix of the response, and all of it if
     * the connection is closed before the steps are used up and no send failed and no read came back empty, or if there
     * are as many willing steps as bytes.
     */
    method Deliver(fd: int, conn: ClientCon, steps: seq<(int, nat)>) returns (used: nat)
      requires Valid() && fd in clients && clients[fd] == conn && FileOk(conn)
      modifies Footprint()
      ensures Valid() && used <= |steps| && old(conn.wire) <= conn.wire
      ensures fd in clients ==>
                && used == |steps| && clients[fd] == conn && FileOk(conn)
                && Whole(conn) == old(Whole(conn))
      ensures fd !in clients ==> conn.wire <= old(Whole(conn))
      ensures fd !in clients && (forall i :: 0 <= i < used ==> steps[i].0 >= 0 && steps[i].1 > 0) ==>
                conn.wire == old(Whole(conn))
      ensures old(HasOutput(conn)) && Willing(steps) && |steps| >= old(|Pending(conn)|) ==>
                conn.wire == old(Whole(conn))
      decreases |steps|
    {
      hide Valid, FileOk, Pending, HasOutput;
      if steps == [] {
        assert old(|Pending(conn)|) == 0 ==> Whole(conn) == conn.wire;
        return 0;
      }
      ServingWithin(fd);
      ghost var all := Whole(conn);
      DeliverWatched(fd, conn, steps[0].0, steps[0].1);
      used := 1;
      if fd in clients {
        assert |all| == |conn.wire| + |Pending(conn)|;
        used := Deliver(fd, conn, steps[1..]);
        used := used + 1;
      }
    }

    // -------------------------------------------------------------------------
    // Connections and requests
    // -------------------------------------------------------------------------

    static lemma ConnsAdd(clients: map<int, ClientCon>, serving: Table, sockets: set<int>, conns: set<ClientCon>,
                          fd: int, c: ClientCon)
      requires ConnsIn(clients, serving, sockets, conns) && fd !in clients
      requires c.fd == fd && FileOk(c) && forall f :: f in clients ==> clients[f].fileBuf != c.fileBuf
      ensures ConnsIn(clients[fd := c], serving, sockets + {fd}, clients[fd := c].Values)
    {
      hide FileOk, BodyOk;
      var more := clients[fd := c];
      forall f | f in more ensures ConnOk(f, serving, sockets + {fd}, more[f]) {
        if f != fd {
          ConnIn(clients, serving, sockets, conns, f);
        }
      }
    }

    /** What is registered are the connections and the open pipe ends of scripts, all of them and nothing else. */
    lemma Registered()
      requires Valid()
      ensures poller.interest.Keys == poller.pipes + clients.Keys && poller.pipes !! clients.Keys
    {
      hide ConnsIn, ActiveOk, CgiManager.Valid;
      forall fd ensures fd in poller.interest <==> fd in poller.pipes + clients.Keys {
        manager.PipesAreOwned(fd);
      }
      forall fd ensures !(fd in poller.pipes && fd in clients) {
        manager.PipesAreOwned(fd);
      }
    }

    static lemma NewIsOk(conn: ClientCon, fd: int, errorPage: (int, bool) -> string)
      requires conn.IsNew(fd, errorPage)
      ensures conn.fd == fd && FileOk(conn) && Unserved(conn, false)
    {}

    static lemma ActiveAdd(clients: map<int, ClientCon>, serving: Table, writers: set<int>, fd: int, conn: ClientCon)
      requires ActiveOk(clients, serving, writers) && Unserved(conn, false)
      ensures ActiveOk(clients[fd := conn], serving, writers - {fd})
    {}

    /** A connection is accepted. */
    method NewConnection(fd: int, errorPage: (int, bool) -> string)
      requires Valid() && fd !in poller.interest && fd != NO_FD
      modifies `clients, poller`interest, poller`sockets, poller`writers, poller`open
      ensures Valid() && fd in clients && fresh(clients[fd]) && fresh(clients[fd].fileBuf)
      ensures clients == old(clients)[fd := clients[fd]] && clients[fd].IsNew(fd, errorPage)
      ensures poller.interest == old(poller.interest)[fd := READABLE]
    {
      hide ConnsIn, ActiveOk, FileOk, CgiManager.Valid, ClientCon.IsNew;
      Registered();
      ghost var serving, sockets, conns := manager.clientMap, poller.sockets, clients.Values;
      ghost var writers := poller.writers;
      manager.AddSocket(fd);
      var conn := new ClientCon(fd, errorPage);
      assert conn !in manager.Clients();
      NewIsOk(conn, fd, errorPage);
      ConnsAdd(clients, serving, sockets, conns, fd, conn);
      ActiveAdd(clients, serving, writers, fd, conn);
      clients := clients[fd := conn];
    }

    /** A request has been parsed and its server block found: what it says about the connection is noted. */
    method BeginRequest(fd: int, conn: ClientCon, keepAlive: bool)
      requires Valid() && fd in clients && clients[fd] == conn && fd !in manager.clientMap
      modifies conn`keepAlive, conn`hasServConf
      ensures Valid() && conn.keepAlive == keepAlive && conn.hasServConf
    {
      hide FileOk, ConnsOk, CgiManager.Valid;
      ConnOf(fd);
      conn.keepAlive, conn.hasServConf := keepAlive, true;
    }

    /** An error response to a connection that no script serves. */
    method ErrorUnserved(fd: int, conn: ClientCon, status: int)
      requires manager.Valid() && fd in manager.poller.sockets && fd !in manager.clientMap && conn !in manager.Clients()
      requires conn.fd == fd
      modifies conn`responseOut, conn`resReady, conn`keepAlive, conn`lastError, conn`wire
      modifies manager.poller`interest, manager.poller`writers
      ensures manager.Valid() && conn.responseOut == conn.errorPage(status, conn.keepAlive) && conn.wire == ""
      ensures conn.resReady && manager.poller.writers == old(manager.poller.writers) + {fd}
      ensures conn.keepAlive == (old(conn.keepAlive) && conn.hasServConf)
      ensures manager.poller.interest == old(manager.poller.interest)[fd := WRITABLE]
    {
      hide TablesOk, CgiManager.ScriptsOk;
      ghost var t0 := manager.T();
      assert conn !in manager.Clients();
      conn.FallbackError(manager.poller, status);
      conn.wire := "";
      manager.poller.writers := Settle(manager.poller.writers, fd, true);
      manager.WatchedOutside(t0, fd, true);
    }

    /** An error response instead of anything else. */
    method FallbackError(fd: int, conn: ClientCon, status: int)
      requires Valid() && fd in clients && clients[fd] == conn && fd !in manager.clientMap
      modifies conn`responseOut, conn`resReady, conn`keepAlive, conn`lastError, conn`wire
      modifies poller`interest, poller`writers
      ensures Valid() && conn.responseOut == conn.errorPage(status, conn.keepAlive) && conn.resReady && conn.wire == ""
      ensures conn.keepAlive == (old(conn.keepAlive) && conn.hasServConf)
      ensures poller.interest == old(poller.interest)[fd := WRITABLE]
    {
      hide FileOk, ConnsIn, CgiManager.Valid;
      ConnOf(fd);
      AllServed();
      ErrorUnserved(fd, conn, status);
    }

    /** The other connections, seen from one that no script serves. */
    lemma OthersActive(fd: int)
      requires Valid() && fd in clients
      ensures ActiveOk(clients - {fd}, manager.clientMap, poller.writers) && clients[fd] !in (clients - {fd}).Values
    {
      hide ConnsIn, CgiManager.Valid;
      ButOne(fd);
      NotAmongOthers(fd);
    }

    /** It is settled what the connection waits for from now on. */
    lemma Rejoin(fd: int, writers: set<int>, write: bool)
      requires poller.open == clients.Keys && fd in clients
      requires ConnsIn(clients, manager.clientMap, poller.sockets, clients.Values)
      requires ActiveOk(clients - {fd}, manager.clientMap, writers) && poller.writers == Settle(writers, fd, write)
      requires Unserved(clients[fd], write)
      ensures ConnsOk()
    {
      hide ConnsIn, Unserved;
      forall f | f in clients && f != fd && f !in manager.clientMap ensures Unserved(clients[f], f in poller.writers) {
        assert f in clients - {fd} && (clients - {fd})[f] == clients[f];
      }
    }

    /** A request for a file. */
    method ServeFile(fd: int, conn: ClientCon, file: Option<string>, status: int, head: nat -> string,
                     errorResponse: int -> string)
      requires Valid() && fd in clients && clients[fd] == conn && fd !in manager.clientMap
      modifies poller`interest, poller`writers
      modifies conn`fileStreamActive, conn`fileBytesRemaining, conn`fileBufLen, conn`fileBufOff, conn`fileData
      modifies conn`fileRead
      modifies conn`responseOut, conn`sent, conn`resReady, conn`closeAfterSend, conn`wire
      ensures Valid() && FileOk(conn) && conn.wire == "" && conn.resReady && !conn.closeAfterSend
      ensures conn.sent == 0
      ensures Pending(conn) == if file.Some? then head(|file.value|) + file.value else errorResponse(status)
      ensures poller.interest == old(poller.interest)[fd := WRITABLE]
    {
      hide FileOk, BodyOk, ConnsIn, ActiveOk, Pending, CgiManager.Valid;
      ConnOf(fd);
      OthersActive(fd);
      ghost var writers := poller.writers;
      ghost var serving, sockets := manager.clientMap, poller.sockets;
      ghost var conns := clients.Values - {conn};
      ConnIn(clients, serving, sockets, clients.Values, fd);
      ConnsDrop(clients, serving, sockets, fd);
      StartStaticFileStream(conn, file, status, head, errorResponse);
      ConnsBack(clients, serving, sockets, fd, conns);
      manager.WatchOutside(fd, false, true);
      Rejoin(fd, writers, true);
    }

    // -------------------------------------------------------------------------
    // Request bodies on their way to a script
    // -------------------------------------------------------------------------

    /** Decode one read of a chunked body that is streamed to a script. */
    method DecodeServed(conn: ClientCon, p: CgiProcess, data: string, ghost rest: set<object>)
      returns (decoded: string, state: ParseState)
      requires manager.Settled(p, rest) && p.client == conn && InBounds(conn.chunkBuf + data)
      modifies conn`chunkBuf, conn`uploadedBytes, conn`responseOut, conn`resReady, conn`keepAlive, conn`lastError
      modifies manager.poller`interest
      ensures if state == ERROR then manager.ValidBut(p, rest) && p.EndingOk(ClientGone) else manager.Settled(p, rest)
      ensures var d := Decode(old(conn.chunkBuf) + data);
              state == d.state && decoded == (if state == ERROR then "" else d.out) && conn.chunkBuf == d.rest
      ensures state != ERROR ==>
                && conn.responseOut == old(conn.responseOut) && conn.keepAlive == old(conn.keepAlive)
                && conn.resReady == old(conn.resReady)
                && manager.poller.interest == old(manager.poller.interest)
                && manager.poller.writers == old(manager.poller.writers)
    {
      hide InBounds, Decode, TablesOk, CgiManager.OthersOk, CgiProcess.Live, CgiProcess.OutputEnds;
      hide CgiProcess.ClosesOk;
      CgiManager.LiveMayEnd(p, ClientGone);
      ghost var t0 := manager.T();
      decoded, state := Upload.ProcessChunkedBody(manager.poller, conn, data);
      if state == ERROR {
        manager.WatchedClient(p, t0, rest);
      }
    }

    /** The same while no script has been launched for it. */
    method DecodeUnserved(fd: int, conn: ClientCon, data: string) returns (decoded: string, state: ParseState)
      requires manager.Valid() && fd in manager.poller.sockets && fd !in manager.clientMap && conn !in manager.Clients()
      requires conn.fd == fd && InBounds(conn.chunkBuf + data)
      modifies conn`chunkBuf, conn`uploadedBytes, conn`responseOut, conn`resReady, conn`keepAlive, conn`lastError
      modifies manager.poller`interest, manager.poller`writers
      ensures manager.Valid()
      ensures state == ERROR ==> conn.keepAlive == (old(conn.keepAlive) && conn.hasServConf)
      ensures state == ERROR ==> conn.resReady && manager.poller.writers == old(manager.poller.writers) + {fd}
      ensures state != ERROR ==> conn.resReady == old(conn.resReady)
      ensures var d := Decode(old(conn.chunkBuf) + data);
              state == d.state && decoded == (if state == ERROR then "" else d.out) && conn.chunkBuf == d.rest
      ensures state != ERROR ==>
                && conn.responseOut == old(conn.responseOut) && conn.keepAlive == old(conn.keepAlive)
                && conn.resReady == old(conn.resReady)
                && manager.poller.interest == old(manager.poller.interest)
                && manager.poller.writers == old(manager.poller.writers)
    {
      hide InBounds, Decode, TablesOk, CgiManager.ScriptsOk;
      ghost var t0 := manager.T();
      assert conn !in manager.Clients();
      decoded, state := Upload.ProcessChunkedBody(manager.poller, conn, data);
      if state == ERROR {
        manager.poller.writers := Settle(manager.poller.writers, fd, true);
        manager.WatchedOutside(t0, fd, true);
      }
    }

    /** Decode one read of a chunked body. On an error nothing is left to be done for the script but to give it up. */
    method DecodeRead(fd: int, conn: ClientCon, data: string)
      returns (decoded: string, state: ParseState, ghost rest: set<object>)
      requires Valid() && fd in clients && clients[fd] == conn && InBounds(conn.chunkBuf + data)
      modifies conn`chunkBuf, conn`uploadedBytes, conn`responseOut, conn`resReady, conn`keepAlive, conn`lastError
      modifies poller`interest, poller`writers
      ensures manager.poller == poller && ConnsOk()
      ensures if state == ERROR then manager.MayAbandon(fd, rest) else manager.Valid()
      ensures var d := Decode(old(conn.chunkBuf) + data);
              state == d.state && decoded == (if state == ERROR then "" else d.out) && conn.chunkBuf == d.rest
      ensures state == ERROR && fd !in manager.clientMap ==>
                conn.keepAlive == (old(conn.keepAlive) && conn.hasServConf)
      ensures state != ERROR ==>
                && conn.responseOut == old(conn.responseOut) && conn.keepAlive == old(conn.keepAlive)
                && conn.resReady == old(conn.resReady)
                && manager.poller.interest == old(manager.poller.interest)
                && manager.poller.writers == old(manager.poller.writers)
    {
      hide FileOk, ConnsIn, InBounds, Decode, CgiManager.Valid, CgiManager.ValidBut, CgiManager.Settled;
      hide CgiProcess.EndingOk;
      ConnOf(fd);
      AllServed();
      rest := {};
      if fd in manager.clientMap {
        rest := manager.Rest(manager.clientMap[fd]);
        decoded, state := DecodeServed(conn, manager.clientMap[fd], data, rest);
        if state != ERROR {
          manager.StillOwned(manager.clientMap[fd], rest);
        }
      } else {
        decoded, state := DecodeUnserved(fd, conn, data);
      }
    }

    static ghost function Views(scripts: set<CgiProcess>): map<CgiProcess, ScriptView>
      reads scripts
    {
      map p | p in scripts :: p.View()
    }

    /** The scripts have been given `more`, and no more is due if `ends`; nothing else has happened to them. */
    static ghost predicate Given(was: map<CgiProcess, ScriptView>, more: string, ends: bool, now: int)
      reads was.Keys
    {
      forall p :: p in was ==>
        p.View() == var v := Give(was[p], more, now); if ends then EndBody(v) else v
    }

    /** Pass bytes on to the script that serves a connection. */
    method Pour(fd: int, data: string, now: int)
      requires manager.Valid()
      modifies manager.poller`interest, CgiManager.ClientsOf(manager.Serving(fd))`cgiFed
      modifies manager.Serving(fd)`stdinBuffer, manager.Serving(fd)`fed, manager.Serving(fd)`lastActivity
      ensures manager.Valid() && manager.poller.interest == old(manager.poller.interest)
      ensures Given(old(Views(manager.Serving(fd))), data, false, now)
      ensures forall p :: p in manager.Serving(fd) ==> p.client.cgiFed == old(p.client.cgiFed) + |data|
    {
      hide CgiManager.Valid, CgiProcess.View;
      if data != "" {
        manager.FeedStdin(fd, data, now);
      }
    }

    /** Pass one read of a fixed-length body on, but never more than is due. */
    method PourFixed(fd: int, conn: ClientCon, data: string, now: int)
      requires manager.Valid() && ConnOk(fd, manager.clientMap, manager.poller.sockets, conn)
      requires fd !in manager.clientMap ==> conn !in manager.Clients()
      requires conn.cgiStreaming && !conn.cgiChunked
      modifies manager.poller`interest, conn`cgiFed, conn`cgiBodyRemaining, conn`cgiStreaming
      modifies manager.Serving(fd)`stdinBuffer, manager.Serving(fd)`fed, manager.Serving(fd)`lastActivity
      ensures manager.Valid() && ConnOk(fd, manager.clientMap, manager.poller.sockets, conn)
      ensures conn.cgiBodyRemaining == old(conn.cgiBodyRemaining) - Min(|data|, old(conn.cgiBodyRemaining))
      ensures conn.cgiStreaming <==> conn.cgiBodyRemaining > 0
      ensures Given(old(Views(manager.Serving(fd))), data[..Min(|data|, old(conn.cgiBodyRemaining))], false, now)
    {
      hide FileOk, Given, Views, CgiManager.Valid;
      var toFeed := Min(|data|, conn.cgiBodyRemaining);
      Pour(fd, data[..toFeed], now);
      conn.cgiBodyRemaining := conn.cgiBodyRemaining - toFeed;
      if conn.cgiBodyRemaining == 0 {
        conn.cgiStreaming := false;
      }
    }

    method FeedFixed(fd: int, conn: ClientCon, data: string, now: int)
      requires Valid() && fd in clients && clients[fd] == conn && conn.cgiStreaming && !conn.cgiChunked
      modifies poller`interest, conn`cgiFed, conn`cgiBodyRemaining, conn`cgiStreaming
      modifies manager.Serving(fd)`stdinBuffer, manager.Serving(fd)`fed, manager.Serving(fd)`lastActivity
      ensures Valid() && conn.cgiBodyRemaining == old(conn.cgiBodyRemaining) - Min(|data|, old(conn.cgiBodyRemaining))
      ensures conn.cgiStreaming <==> conn.cgiBodyRemaining > 0
      ensures Given(old(Views(manager.Serving(fd))), data[..Min(|data|, old(conn.cgiBodyRemaining))], false, now)
    {
      hide FileOk, ConnOk, ConnsIn, Given, Views, CgiManager.Valid, CgiManager.Settled;
      ConnOf(fd);
      ghost var serving, sockets, conns := manager.clientMap, poller.sockets, clients.Values - {conn};
      ConnIn(clients, serving, sockets, clients.Values, fd);
      ConnsDrop(clients, serving, sockets, fd);
      PourFixed(fd, conn, data, now);
      ConnsBack(clients, serving, sockets, fd, conns);
    }

    /** Pass decoded bytes of a chunked body on. */
    method PourDecoded(fd: int, conn: ClientCon, decoded: string, complete: bool, now: int)
      requires manager.Valid() && ConnOk(fd, manager.clientMap, manager.poller.sockets, conn)
      requires fd !in manager.clientMap ==> conn !in manager.Clients()
      requires conn.cgiChunked
      modifies manager.poller`interest, conn`cgiFed, conn`cgiStreaming
      modifies manager.Serving(fd)`stdinBuffer, manager.Serving(fd)`fed, manager.Serving(fd)`lastActivity
      ensures manager.Valid() && ConnOk(fd, manager.clientMap, manager.poller.sockets, conn)
      ensures conn.cgiStreaming == (old(conn.cgiStreaming) && !complete)
      ensures Given(old(Views(manager.Serving(fd))), decoded, false, now)
    {
      hide FileOk, Given, Views, CgiManager.Valid;
      Pour(fd, decoded, now);
      if complete {
        conn.cgiStreaming := false;
      }
    }

    method FeedDecoded(fd: int, conn: ClientCon, decoded: string, complete: bool, now: int)
      requires Valid() && fd in clients && clients[fd] == conn && conn.cgiChunked
      modifies poller`interest, conn`cgiFed, conn`cgiStreaming
      modifies manager.Serving(fd)`stdinBuffer, manager.Serving(fd)`fed, manager.Serving(fd)`lastActivity
      ensures Valid() && conn.cgiStreaming == (old(conn.cgiStreaming) && !complete)
      ensures Given(old(Views(manager.Serving(fd))), decoded, false, now)
    {
      hide FileOk, ConnOk, ConnsIn, Given, Views, CgiManager.Valid, CgiManager.Settled;
      ConnOf(fd);
      ghost var serving, sockets, conns := manager.clientMap, poller.sockets, clients.Values - {conn};
      ConnIn(clients, serving, sockets, clients.Values, fd);
      ConnsDrop(clients, serving, sockets, fd);
      PourDecoded(fd, conn, decoded, complete, now);
      ConnsBack(clients, serving, sockets, fd, conns);
    }

    /** What the connection is sent, and what becomes of it, is not affected. */
    static twostate predicate OutputUntouched(conn: ClientCon)
      reads conn
    {
      && conn.responseOut == old(conn.responseOut) && conn.sent == old(conn.sent) && conn.wire == old(conn.wire)
      && conn.resReady == old(conn.resReady) && conn.keepAlive == old(conn.keepAlive)
      && conn.closeAfterSend == old(conn.closeAfterSend) && conn.cgiActive == old(conn.cgiActive)
      && conn.fileStreamActive == old(conn.fileStreamActive)
    }

    /** No more body is due. */
    method FinishBody(fd: int)
      requires Valid()
      modifies manager`stdinMap, manager`wires, poller`interest, poller`pipes, manager.Serving(fd)`stdinFd
      modifies manager.Serving(fd)`stdinClosed, manager.Serving(fd)`inCloses
      ensures Valid() && Given(old(Views(manager.Serving(fd))), "", true, 0)
    {
      hide ConnsOk, CgiManager.Valid, CgiProcess.View;
      manager.FinishStdin(fd);
    }

    method PassDecoded(fd: int, conn: ClientCon, decoded: string, complete: bool, now: int)
      requires Valid() && fd in clients && clients[fd] == conn && conn.cgiChunked
      modifies manager`stdinMap, manager`wires, poller`interest, poller`pipes, conn`cgiFed, conn`cgiStreaming
      modifies manager.Serving(fd)`stdinBuffer, manager.Serving(fd)`fed, manager.Serving(fd)`lastActivity
      modifies manager.Serving(fd)`stdinFd, manager.Serving(fd)`stdinClosed, manager.Serving(fd)`inCloses
      ensures Valid() && conn.cgiStreaming == (old(conn.cgiStreaming) && !complete)
      ensures Given(old(Views(manager.Serving(fd))), decoded, complete, now)
    {
      hide FileOk, ConnsOk, CgiManager.Valid;
      FeedDecoded(fd, conn, decoded, complete, now);
      if complete {
        FinishBody(fd);
      }
    }

    /**
     * What a read from a connection does while a chunked body is streamed to a script: what the bytes decode to is
     * passed on and the rest is kept, or the connection is closed.
     */
    twostate predicate ChunkTaken(fd: int, conn: ClientCon, data: string, now: int)
      reads *
    {
      var d := Decode(old(conn.chunkBuf) + data);
      if d.state == ERROR then
        && clients == old(clients) - {fd} && conn.wire == old(conn.wire)
        && manager.ClientLost(fd, old(manager.clientMap), old(manager.pidMap), old(manager.Serving(fd)),
                              old(manager.PidsOf(fd)))
      else
        && clients == old(clients) && conn.chunkBuf == d.rest
        && conn.cgiStreaming == (old(conn.cgiStreaming) && d.state != COMPLETE)
        && OutputUntouched(conn) && Given(old(Views(manager.Serving(fd))), d.out, d.state == COMPLETE, now)
    }

    /** The coding of a body cannot be read: the connection is closed, and its script is given up. */
    method CloseBad(fd: int, conn: ClientCon, ghost rest: set<object>)
      requires manager.poller == poller && ConnsOk() && manager.MayAbandon(fd, rest)
      requires fd in clients && clients[fd] == conn
      modifies `clients, manager, poller`interest, poller`pipes, poller`sockets, poller`writers, poller`open
      modifies conn, manager.Serving(fd)
      ensures Valid() && clients == old(clients) - {fd} && manager.launched == old(manager.launched)
      ensures conn.wire == old(conn.wire)
      ensures manager.ClientLost(fd, old(manager.clientMap), old(manager.pidMap), old(manager.Serving(fd)),
                                 old(manager.PidsOf(fd)))
    {
      hide Valid, ConnsOk, ConnsBut, CgiManager.MayAbandon, CgiManager.ClientLost, CgiManager.PidsOf;
      ButOne(fd);
      assert conn in Conn(fd);
      CloseClient(fd, rest);
    }

    method TakeChunk(fd: int, conn: ClientCon, data: string, now: int)
      requires Valid() && fd in clients && clients[fd] == conn && conn.cgiChunked && InBounds(conn.chunkBuf + data)
      modifies `clients, manager, poller`interest, poller`pipes, poller`sockets, poller`writers, poller`open
      modifies conn, manager.Serving(fd)
      ensures Valid() && manager.launched == old(manager.launched) && ChunkTaken(fd, conn, data, now)
      ensures clients == old(clients) || clients == old(clients) - {fd}
    {
      hide FileOk, ConnsOk, ConnsBut, LetGo, Given, Views, InBounds, Decode, CgiManager.Valid, CgiManager.MayAbandon;
      hide CgiManager.ClientLost, CgiManager.PidsOf;
      ghost var pids := manager.PidsOf(fd);
      var decoded, state;
      ghost var rest;
      decoded, state, rest := DecodeRead(fd, conn, data);
      assert manager.PidsOf(fd) == pids;
      if state == ERROR {
        CloseBad(fd, conn, rest);
      } else {
        PassDecoded(fd, conn, decoded, state == COMPLETE, now);
      }
    }

    /** A read from a connection while the body of its request is streamed to a script: chunked. */
    method ReadChunkedBody(fd: int, conn: ClientCon, data: string, now: int)
      requires Valid() && fd in clients && clients[fd] == conn && conn.cgiChunked && InBounds(conn.chunkBuf + data)
      modifies `clients, manager, poller`interest, poller`pipes, poller`sockets, poller`writers, poller`open
      modifies conn, manager.Serving(fd)
      ensures Valid() && manager.launched == old(manager.launched) && ChunkTaken(fd, conn, data, now)
      ensures clients == old(clients) || clients == old(clients) - {fd}
      ensures OnlyFor(old(Conn(fd)), old(manager.Serving(fd)))
    {
      hide Valid, ChunkTaken, InBounds;
      Separate(fd);
      TakeChunk(fd, conn, data, now);
    }

    /**
     * What such a read does for a body of fixed length: never more than is due is passed on, and once nothing is due
     * any more a drained stdin is closed.
     */
    twostate predicate FixedTaken(fd: int, conn: ClientCon, data: string, now: int)
      reads *
    {
      var n := Min(|data|, old(conn.cgiBodyRemaining));
      && clients == old(clients) && conn.cgiBodyRemaining == old(conn.cgiBodyRemaining) - n
      && (conn.cgiStreaming <==> conn.cgiBodyRemaining > 0)
      && OutputUntouched(conn) && Given(old(Views(manager.Serving(fd))), data[..n], !conn.cgiStreaming, now)
    }

    /** A read from a connection while the body of its request is streamed to a script: fixed length. */
    method ReadFixedBody(fd: int, conn: ClientCon, data: string, now: int)
      requires Valid() && fd in clients && clients[fd] == conn && conn.cgiStreaming && !conn.cgiChunked
      modifies manager`stdinMap, manager`wires, poller`interest, poller`pipes, conn`cgiFed, conn`cgiBodyRemaining
      modifies conn`cgiStreaming
      modifies manager.Serving(fd)`stdinBuffer, manager.Serving(fd)`fed, manager.Serving(fd)`lastActivity
      modifies manager.Serving(fd)`stdinFd, manager.Serving(fd)`stdinClosed, manager.Serving(fd)`inCloses
      ensures Valid() && FixedTaken(fd, conn, data, now)
      ensures OnlyFor(old(Conn(fd)), old(manager.Serving(fd)))
    {
      hide FileOk, ConnsOk, CgiManager.Valid;
      Separate(fd);
      FeedFixed(fd, conn, data, now);
      if conn.cgiBodyRemaining == 0 {
        FinishBody(fd);
      }
    }

    // -------------------------------------------------------------------------
    // Requests for a script
    // -------------------------------------------------------------------------

    static ghost function StreamOf(conn: ClientCon): StreamView
      reads conn`cgiStreaming, conn`cgiChunked, conn`cgiBodyRemaining
    {
      StreamView(conn.cgiStreaming, conn.cgiChunked, conn.cgiBodyRemaining)
    }

    /** How the rest of a request's body will reach its script. */
    static ghost predicate StreamSet(conn: ClientCon, chunked: bool, contentLength: nat, received: nat, due: bool,
                                     was: StreamView)
      reads conn`cgiStreaming, conn`cgiChunked, conn`cgiBodyRemaining, conn`cgiBodyTotal
    {
      && conn.cgiBodyTotal == contentLength
      && if due then
           && conn.cgiStreaming == (chunked || received < contentLength) && conn.cgiChunked == chunked
           && (!chunked && received < contentLength ==> conn.cgiBodyRemaining == contentLength - received)
         else
           && conn.cgiStreaming == was.streaming && conn.cgiBodyRemaining == was.remaining
           && (!(chunked && received > 0) ==> conn.cgiChunked == was.chunked)
    }

    /**
     * Note how the rest of a request's body will reach its script. What has been fed and what is due add up to the
     * length of the body, unless the request is complete and a flag left over from an earlier script says otherwise.
     */
    static method SetUpStreaming(conn: ClientCon, chunked: bool, contentLength: nat, received: nat, due: bool)
      returns (finish: bool)
      requires conn.cgiFed == received || chunked
      modifies conn`cgiStreaming, conn`cgiChunked, conn`cgiBodyRemaining, conn`cgiBodyTotal, conn`cgiOwnStream
      ensures BodyOk(conn) && conn.cgiOwnStream == (due || !old(conn.cgiStreaming))
              && conn.cgiBodyTotal == contentLength
      ensures StreamSet(conn, chunked, contentLength, received, due, old(StreamOf(conn)))
      ensures (conn.cgiStreaming && !conn.cgiChunked ==> conn.cgiFed + conn.cgiBodyRemaining == contentLength) <==>
                || due || !old(conn.cgiStreaming) || old(conn.cgiChunked)
                || conn.cgiFed + old(conn.cgiBodyRemaining) == contentLength
      ensures finish == !(due && (chunked || received < contentLength))
    {
      conn.cgiBodyTotal, conn.cgiOwnStream := contentLength, due || !conn.cgiStreaming;
      if due {
        conn.cgiStreaming := true;
        conn.cgiChunked := chunked;
        if !chunked && contentLength > received {
          conn.cgiBodyRemaining := contentLength - received;
        } else if !chunked {
          conn.cgiStreaming := false;
          return true;
        }
        return false;
      }
      finish := true;
    }

    lemma NotServed(conn: ClientCon, w: Wire)
      requires manager.Valid() && manager.MayLaunch(conn, w)
      ensures conn.fd !in manager.clientMap && w.clientFd == conn.fd
    {
      manager.FreshMeans(conn, w);
    }

    /** Launch a script for a connection that waits for nothing, and see to the rest of its body. */
    method LaunchFor(fd: int, conn: ClientCon, scriptPath: string, respond: (Headers, bool) -> string,
                     absoluteTimeoutMs: nat, idleTimeoutMs: nat, now: int, chunked: bool, contentLength: nat,
                     received: nat, body: string, due: bool, osOk: bool, w: Wire)
      returns (p: CgiProcess?, finish: bool)
      requires Valid() && fd in clients && clients[fd] == conn && manager.MayLaunch(conn, w)
      requires conn.responseOut == "" && conn.sent == 0 && !conn.fileStreamActive && (|body| == received || chunked)
      modifies manager, poller`interest, poller`pipes, conn`cgiActive, conn`cgiForceClose, conn`wire, conn`cgiFed
      modifies conn`cgiStreaming, conn`cgiChunked, conn`cgiBodyRemaining, conn`cgiBodyTotal, conn`cgiOwnStream
      ensures Valid() && (p != null <==> scriptPath != "" && osOk)
      ensures p == null ==> fd !in manager.clientMap && manager.launched == old(manager.launched)
      ensures p != null ==>
                && fresh(p) && manager.launched == old(manager.launched) + {p}
                && manager.FiledAs(p, w, old(manager.T()))
                && fd in manager.clientMap && manager.clientMap[fd] == p
                && p.JustStarted(conn, respond, body, Timing(absoluteTimeoutMs, idleTimeoutMs, now))
                && conn.cgiFed == |body|
                && p.stdinFd == (if body == "" && !(chunked || contentLength > |body|) then NO_FD else w.stdinFd)
                && StreamSet(conn, chunked, contentLength, received, due, old(StreamOf(conn)))
                && finish == !(due && (chunked || received < contentLength))
    {
      hide FileOk, BodyOk, ConnsOk, Aside, CgiManager.Valid, CgiManager.MayLaunch, CgiManager.Settled;
      ConnOf(fd);
      NotServed(conn, w);
      ghost var conns := clients.Values - {conn};
      SetAside(fd);
      p := LaunchAside(fd, conn, scriptPath, respond, absoluteTimeoutMs, idleTimeoutMs, now, body,
                       chunked || contentLength > |body|, osOk, w, conns);
      if p == null {
        TakeBack(fd, conns);
        return p, false;
      }
      hide CgiManager.FiledAs, CgiProcess.JustStarted;
      finish := StreamTo(fd, conn, chunked, contentLength, received, due, conns);
    }

    /** Set up the rest of a body for the script that has just been launched. */
    method StreamTo(fd: int, conn: ClientCon, chunked: bool, contentLength: nat, received: nat, due: bool,
                    ghost conns: set<ClientCon>)
      returns (finish: bool)
      requires manager.poller == poller && manager.Valid() && Aside(fd, conns) && clients[fd] == conn && FileOk(conn)
      requires fd in manager.clientMap && manager.clientMap[fd].client == conn && !conn.fileStreamActive
      requires conn in manager.Clients() && (conn.cgiFed == received || chunked)
      modifies conn`cgiStreaming, conn`cgiChunked, conn`cgiBodyRemaining, conn`cgiBodyTotal, conn`cgiOwnStream
      ensures Valid() && StreamSet(conn, chunked, contentLength, received, due, old(StreamOf(conn)))
      ensures finish == !(due && (chunked || received < contentLength))
    {
      hide FileOk, BodyOk, ConnsOk, ConnsIn, StreamSet, CgiManager.Valid;
      finish := SetUpStreaming(conn, chunked, contentLength, received, due);
      TakeBack(fd, conns);
    }

    /** The launch itself; how the rest of the body will reach the script has not been noted yet. */
    method LaunchAside(fd: int, conn: ClientCon, scriptPath: string, respond: (Headers, bool) -> string,
                       absoluteTimeoutMs: nat, idleTimeoutMs: nat, now: int, body: string, more: bool, osOk: bool,
                       w: Wire, ghost conns: set<ClientCon>)
      returns (p: CgiProcess?)
      requires manager.poller == poller && manager.Valid() && manager.MayLaunch(conn, w) && Aside(fd, conns)
      requires clients[fd] == conn && w.clientFd == conn.fd == fd && fd !in manager.clientMap && !conn.cgiActive
      requires conn.responseOut == "" && conn.sent == 0
      modifies manager, poller`interest, poller`pipes
      modifies conn`cgiActive, conn`cgiForceClose, conn`wire, conn`cgiFed
      ensures manager.Valid() && Aside(fd, conns) && (p != null <==> scriptPath != "" && osOk)
      ensures p == null ==>
                fd !in manager.clientMap && manager.launched == old(manager.launched) && !conn.cgiActive
      ensures p != null ==>
                && fresh(p) && manager.launched == old(manager.launched) + {p}
                && manager.FiledAs(p, w, old(manager.T()))
                && fd in manager.clientMap && manager.clientMap[fd] == p
                && p.JustStarted(conn, respond, body, Timing(absoluteTimeoutMs, idleTimeoutMs, now))
                && p.stdinFd == (if body == "" && !more then NO_FD else w.stdinFd)
                && conn.cgiFed == |body| && conn in manager.Clients()
    {
      hide FileOk, BodyOk, ConnsIn, Register, CgiManager.Valid, CgiManager.MayLaunch, CgiManager.WireOf;
      hide CgiProcess.Live;
      ghost var serving := manager.clientMap;
      p := manager.Launch(conn, scriptPath, respond, absoluteTimeoutMs, idleTimeoutMs, now, body, more, osOk, w);
      if p != null {
        assert manager.clientMap - {fd} == serving - {fd};
      }
    }

    /** The part of a request's body that is at hand when its script is launched; None if it cannot be decoded. */
    method InitialBody(fd: int, conn: ClientCon, chunked: bool, received: string) returns (body: Option<string>)
      requires Valid() && fd in clients && clients[fd] == conn && fd !in manager.clientMap
      requires InBounds(conn.chunkBuf + received)
      modifies conn`chunkBuf, conn`uploadedBytes, conn`responseOut, conn`resReady, conn`keepAlive, conn`lastError
      modifies poller`interest, poller`writers, conn`cgiChunked
      ensures Valid() && FileOk(conn)
      ensures body == None <==> chunked && received != "" && Decode(old(conn.chunkBuf) + received).state == ERROR
      ensures !(chunked && received != "") ==> conn.chunkBuf == old(conn.chunkBuf)
      ensures body == None ==> conn.keepAlive == (old(conn.keepAlive) && conn.hasServConf)
      ensures body.Some? ==>
                && conn.responseOut == old(conn.responseOut) && conn.keepAlive == old(conn.keepAlive)
                && poller.interest == old(poller.interest) && poller.writers == old(poller.writers)
                && (!(chunked && received != "") ==> conn.cgiChunked == old(conn.cgiChunked))
                && body.value
                   == if chunked && received != "" then Decode(old(conn.chunkBuf) + received).out else received
    {
      hide FileOk, ConnOk, ConnsIn, InBounds, Decode, CgiManager.Valid;
      ConnOf(fd);
      if !chunked || received == "" {
        return Some(received);
      }
      SetChunked(fd, conn);
      var decoded, state;
      ghost var rest;
      decoded, state, rest := DecodeRead(fd, conn, received);
      if state == ERROR {
        AbandonNothing(fd, rest);
        return None;
      }
      body := Some(decoded);
    }

    method SetChunked(fd: int, conn: ClientCon)
      requires Valid() && fd in clients && clients[fd] == conn && fd !in manager.clientMap
      modifies conn`cgiChunked
      ensures Valid() && FileOk(conn)
    {
      hide FileOk, BodyOk, ConnsIn, CgiManager.Valid;
      ConnOf(fd);
      ghost var serving, sockets, conns := manager.clientMap, poller.sockets, clients.Values - {conn};
      ConnIn(clients, serving, sockets, clients.Values, fd);
      ConnsDrop(clients, serving, sockets, fd);
      conn.cgiChunked := true;
      ConnsBack(clients, serving, sockets, fd, conns);
    }

    lemma AbandonNothing(fd: int, rest: set<object>)
      requires manager.MayAbandon(fd, rest) && fd !in manager.clientMap
      ensures manager.Valid()
    {}

    /** No more of a request's body is due to its script. */
    static predicate IsAll(chunked: bool, contentLength: nat, received: nat, body: string, due: bool) {
      !(due && (chunked || received < contentLength)) || !(chunked || contentLength > |body|)
    }

    /** A script runs for a connection, with the given body to begin with. */
    ghost predicate Running(fd: int, conn: ClientCon, respond: (Headers, bool) -> string, timing: Timing, chunked: bool,
                            contentLength: nat, received: nat, body: string, due: bool, w: Wire, tables: Tables,
                            was: StreamView)
      reads manager, manager.Serving(fd), conn
    {
      && fd in manager.clientMap
      && var p := manager.clientMap[fd];
      && manager.FiledAs(p, w, tables) && p.JustStarted(conn, respond, body, timing) && conn.cgiFed == |body|
      && p.stdinFd == (if body == "" && IsAll(chunked, contentLength, received, body, due) then NO_FD else w.stdinFd)
      && StreamSet(conn, chunked, contentLength, received, due, was)
    }

    /** A script that could not be launched is answered for at once. */
    ghost predicate Refused(fd: int, conn: ClientCon, status: int)
      reads manager, conn, poller`interest
    {
      && fd !in manager.clientMap && conn.resReady && conn.responseOut == conn.errorPage(status, conn.keepAlive)
      && fd in poller.interest && poller.interest[fd] == WRITABLE
    }

    /** All of the body is at hand: an empty one leaves nothing to be written. */
    method FinishLaunch(fd: int, p: CgiProcess)
      requires Valid() && fd in manager.clientMap && manager.clientMap[fd] == p
      modifies manager`stdinMap, manager`wires, poller`interest, poller`pipes, p`stdinFd, p`stdinClosed, p`inCloses
      ensures Valid() && p.stdinFd == if p.StdinDone() then NO_FD else old(p.stdinFd)
    {
      hide Valid;
      ghost var was := Views(manager.Serving(fd));
      assert p in was && was[p] == p.View();
      FinishBody(fd);
    }

    lemma JustStartedStdin(p: CgiProcess, conn: ClientCon, respond: (Headers, bool) -> string, body: string,
                           timing: Timing)
      requires p.JustStarted(conn, respond, body, timing)
      ensures p.StdinDone() <==> body == ""
    {}

    /** Launch the script of a request whose body can be decoded so far. */
    method StartScript(fd: int, conn: ClientCon, scriptPath: string, respond: (Headers, bool) -> string,
                       absoluteTimeoutMs: nat, idleTimeoutMs: nat, now: int, chunked: bool, contentLength: nat,
                       received: nat, body: string, due: bool, osOk: bool, w: Wire)
      returns (p: CgiProcess?)
      requires Valid() && fd in clients && clients[fd] == conn && manager.MayLaunch(conn, w) && w.clientFd == fd
      requires conn.responseOut == "" && conn.sent == 0 && !conn.fileStreamActive && (|body| == received || chunked)
      modifies manager, poller`interest, poller`writers, poller`pipes
      modifies conn`cgiActive, conn`cgiForceClose, conn`wire, conn`cgiFed
      modifies conn`cgiStreaming, conn`cgiChunked, conn`cgiBodyRemaining, conn`cgiBodyTotal, conn`cgiOwnStream
      modifies conn`responseOut, conn`resReady, conn`keepAlive, conn`lastError
      ensures Valid() && (p != null <==> scriptPath != "" && osOk)
      ensures p == null ==> manager.launched == old(manager.launched) && Refused(fd, conn, BAD_GATEWAY)
      ensures conn.hasServConf ==> conn.keepAlive == old(conn.keepAlive)
      ensures p != null ==>
                && fresh(p) && manager.launched == old(manager.launched) + {p} && conn.keepAlive == old(conn.keepAlive)
                && fd in manager.clientMap && manager.clientMap[fd] == p
                && Running(fd, conn, respond, Timing(absoluteTimeoutMs, idleTimeoutMs, now), chunked, contentLength,
                           received, body, due, w, old(manager.T()), old(StreamOf(conn)))
    {
      hide FileOk, BodyOk, ConnsOk, StreamSet, StreamOf, CgiManager.Valid, CgiManager.MayLaunch, CgiManager.T;
      hide CgiProcess.JustStarted, CgiManager.FiledAs;
      var finish;
      p, finish := LaunchFor(fd, conn, scriptPath, respond, absoluteTimeoutMs, idleTimeoutMs, now, chunked,
                             contentLength, received, body, due, osOk, w);
      if p == null {
        FallbackError(fd, conn, BAD_GATEWAY);
      } else if finish {
        JustStartedStdin(p, conn, respond, body, Timing(absoluteTimeoutMs, idleTimeoutMs, now));
        FinishLaunch(fd, p);
      }
    }

    /** What becomes of a request for a script. */
    twostate predicate Started(fd: int, conn: ClientCon, keepAlive: bool, scriptPath: string,
                               respond: (Headers, bool) -> string, timing: Timing, chunked: bool, contentLength: nat,
                               received: string, due: bool, osOk: bool, w: Wire)
      reads *
    {
      var d := Decode(old(conn.chunkBuf) + received);
      var bad := chunked && received != "" && d.state == ERROR;
      && (forall q :: q in old(manager.launched) ==> unchanged(q))
      && conn.fileStreamActive == old(conn.fileStreamActive) && conn.keepAlive == keepAlive
      && conn.closeAfterSend == old(conn.closeAfterSend) && conn.sent == old(conn.sent) && clients == old(clients)
      && (!(chunked && received != "") ==> conn.chunkBuf == old(conn.chunkBuf))
      && if bad || scriptPath == "" || !osOk then
           manager.launched == old(manager.launched) && Refused(fd, conn, if bad then BAD_REQUEST else BAD_GATEWAY)
         else
           && fd in manager.clientMap
           && var p, body := manager.clientMap[fd], if chunked && received != "" then d.out else received;
           && fresh(p) && manager.launched == old(manager.launched) + {p}
           && Running(fd, conn, respond, timing, chunked, contentLength, |received|, body, due, w, old(manager.T()),
                      old(StreamOf(conn)))
    }

    /** Note what the request says about the connection, and decode what has come of its body. */
    method Prepare(fd: int, conn: ClientCon, keepAlive: bool, chunked: bool, received: string)
      returns (body: Option<string>)
      requires Valid() && fd in clients && clients[fd] == conn && fd !in manager.clientMap
      requires InBounds(conn.chunkBuf + received)
      modifies conn`chunkBuf, conn`uploadedBytes, conn`responseOut, conn`resReady, conn`keepAlive, conn`lastError
      modifies poller`interest, poller`writers, conn`cgiChunked, conn`hasServConf
      ensures Valid() && FileOk(conn) && conn.hasServConf
      ensures var d := Decode(old(conn.chunkBuf) + received);
              if chunked && received != "" && d.state == ERROR then body == None && conn.keepAlive == keepAlive
              else
                && body == Some(if chunked && received != "" then d.out else received)
                && conn.responseOut == old(conn.responseOut) && conn.keepAlive == keepAlive
      ensures !(chunked && received != "") ==> conn.chunkBuf == old(conn.chunkBuf)
      ensures var was := old(StreamOf(conn));
              && StreamOf(conn) == was.(chunked := StreamOf(conn).chunked)
              && ((chunked && received != "") || StreamOf(conn) == was)
      ensures body.Some? ==> poller.interest == old(poller.interest) && poller.writers == old(poller.writers)
    {
      hide FileOk, ConnsOk, InBounds, Decode, CgiManager.Valid;
      BeginRequest(fd, conn, keepAlive);
      body := InitialBody(fd, conn, chunked, received);
    }

    /** A request for a script. `due` tells whether more of its body is to come. */
    method HandleCgiRequest(fd: int, conn: ClientCon, keepAlive: bool, scriptPath: string,
                            respond: (Headers, bool) -> string, absoluteTimeoutMs: nat, idleTimeoutMs: nat, now: int,
                            chunked: bool, contentLength: nat, received: string, due: bool, osOk: bool, w: Wire)
      requires Valid() && fd in clients && clients[fd] == conn && manager.MayLaunch(conn, w)
      requires InBounds(conn.chunkBuf + received)
      requires conn.responseOut == "" && conn.sent == 0 && !conn.fileStreamActive
      modifies manager, poller`interest, poller`writers, poller`pipes, conn
      ensures Valid()
      ensures Started(fd, conn, keepAlive, scriptPath, respond, Timing(absoluteTimeoutMs, idleTimeoutMs, now), chunked,
                      contentLength, received, due, osOk, w)
      ensures old(manager.launched) <= manager.launched
      ensures forall p :: p in manager.launched && p !in old(manager.launched) ==> fresh(p)
    {
      hide Valid, FileOk, InBounds, Decode, Running, Refused, StreamOf, CgiManager.T, CgiManager.Valid;
      hide CgiManager.MayLaunch, CgiManager.Settled;
      ConnOf(fd);
      NotServed(conn, w);
      ghost var tables, was := manager.T(), StreamOf(conn);
      var body := Prepare(fd, conn, keepAlive, chunked, received);
      ghost var decoded := StreamOf(conn);
      if body == None {
        RefuseBody(fd, conn);
        return;
      }
      var p := StartScript(fd, conn, scriptPath, respond, absoluteTimeoutMs, idleTimeoutMs, now, chunked, contentLength,
                           |received|, body.value, due, osOk, w);
      if p != null {
        ChunkedAnyway(fd, conn, respond, Timing(absoluteTimeoutMs, idleTimeoutMs, now), chunked, contentLength,
                      |received|, body.value, due, w, tables, decoded, was);
      }
    }

    /** That the first bytes of a chunked body have been decoded is no news about the stream. */
    lemma ChunkedAnyway(fd: int, conn: ClientCon, respond: (Headers, bool) -> string, timing: Timing, chunked: bool,
                        contentLength: nat, received: nat, body: string, due: bool, w: Wire, tables: Tables,
                        later: StreamView, was: StreamView)
      requires Running(fd, conn, respond, timing, chunked, contentLength, received, body, due, w, tables, later)
      requires later == was.(chunked := later.chunked) && ((chunked && received > 0) || later == was)
      ensures Running(fd, conn, respond, timing, chunked, contentLength, received, body, due, w, tables, was)
    {}

    /** A body that cannot be decoded is answered with 400. */
    method RefuseBody(fd: int, conn: ClientCon)
      requires Valid() && fd in clients && clients[fd] == conn && fd !in manager.clientMap && conn.hasServConf
      modifies conn`responseOut, conn`resReady, conn`keepAlive, conn`lastError, conn`wire
      modifies poller`interest, poller`writers
      ensures Valid() && Refused(fd, conn, BAD_REQUEST) && conn.keepAlive == old(conn.keepAlive)
    {
      hide Valid;
      FallbackError(fd, conn, BAD_REQUEST);
    }

    // -------------------------------------------------------------------------
    // Whole runs
    // -------------------------------------------------------------------------

    /** Everything that a step may change: scripts that have ended are not part of it. */
    ghost function Footprint(): set<object>
      reads `clients, manager`launched, manager.launched`stdoutFd
    {
      {this, manager, poller} + (set p | p in manager.launched && p.stdoutFd != NO_FD :: p as object)
      + (set fd | fd in clients :: clients[fd] as object) + (set fd | fd in clients :: clients[fd].fileBuf as object)
    }

    lemma OwnedWithin(p: CgiProcess)
      requires Valid() && p in manager.launched && manager.IsOwned(p)
      ensures p in Footprint() && p.client in Footprint()
    {
      hide FileOk, BodyOk, CgiManager.Valid;
      manager.Agreement(p);
      ConnIn(clients, manager.clientMap, poller.sockets, clients.Values, p.client.fd);
    }

    lemma BehindWithin(fd: int)
      requires Valid()
      ensures forall p :: p in manager.Behind(fd) ==> p in Footprint()
      ensures forall c :: c in CgiManager.ClientsOf(manager.Behind(fd)) ==> c in Footprint()
    {
      hide ConnsOk, CgiManager.Valid, CgiProcess.Live;
      manager.EntriesAreOwned(fd);
      forall p | p in manager.Behind(fd) ensures p in Footprint() && p.client in Footprint() {
        OwnedWithin(p);
      }
    }

    lemma ChildWithin(pid: int)
      requires Valid()
      ensures forall p :: p in manager.Child(pid) ==> p in Footprint()
      ensures forall c :: c in CgiManager.ClientsOf(manager.Child(pid)) ==> c in Footprint()
    {
      hide ConnsOk, CgiManager.Valid;
      manager.EntriesAreOwned(pid);
      forall p | p in manager.Child(pid) ensures p in Footprint() && p.client in Footprint() {
        OwnedWithin(p);
      }
    }

    /** What a write to a script may be told to have taken: no more than it was offered. */
    static function Offer(m: CgiManager, fd: int, n: int): int
      reads m, m.stdinMap.Values
    {
      if fd in m.stdinMap && m.stdinMap[fd].stdinOffset <= |m.stdinMap[fd].stdinBuffer|
      then Clip(n, |m.stdinMap[fd].stdinBuffer| - m.stdinMap[fd].stdinOffset)
      else Clip(n, 0)
    }

    lemma OfferFits(fd: int, n: int)
      requires Valid() && fd in manager.stdinMap
      ensures Offer(manager, fd, n) <= |manager.stdinMap[fd].stdinBuffer| - manager.stdinMap[fd].stdinOffset
    {
      hide ConnsOk, CgiProcess.RelayOk, CgiProcess.FlagsOk, CgiProcess.ClosesOk, CgiProcess.ClientOk, CgiProcess.KeepOk;
      var p := manager.stdinMap[fd];
      manager.EntriesAreOwned(fd);
      manager.OneClientEach(p);
      assert p.InputOk();
    }

    /** What the report that a script's descriptor is ready does. */
    twostate predicate ScriptReady(fd: int, readable: bool, writable: bool, parts: seq<string>, eof: bool, n: int,
                                   now: int, lines: seq<string>)
      reads *
    {
      && clients == old(clients)
      && manager.EventTaken(fd, readable, writable, parts, eof, old(Offer(manager, fd, n)), now, lines)
    }

    /** The kernel reports a script's descriptor ready. No write takes more than it is offered. */
    method TakeCgiEvent(fd: int, readable: bool, writable: bool, parts: seq<string>, eof: bool, n: int, now: int)
      returns (lines: seq<string>)
      requires Valid() && ReadsUpTo(parts, READ_SIZE)
      modifies manager, poller`interest, poller`pipes, poller`sockets, poller`writers
      modifies manager.Behind(fd), CgiManager.ClientsOf(manager.Behind(fd))
      ensures Valid() && manager.launched == old(manager.launched)
      ensures ScriptReady(fd, readable, writable, parts, eof, n, now, lines)
    {
      hide ReadsUpTo, Offer, Valid, CgiManager.EventTaken, CgiManager.Behind, CgiManager.ClientsOf;
      if fd in manager.stdinMap {
        OfferFits(fd, n);
      }
      lines := DispatchCgiEvent(fd, readable, writable, parts, eof, Offer(manager, fd, n), now);
    }

    method OnCgiEvent(fd: int, readable: bool, writable: bool, parts: seq<string>, eof: bool, n: int, now: int)
      returns (lines: seq<string>)
      requires Valid()
      modifies Footprint()
      ensures Valid() && manager.launched == old(manager.launched) && Footprint() <= old(Footprint())
      ensures ReadsUpTo(parts, READ_SIZE) ==> ScriptReady(fd, readable, writable, parts, eof, n, now, lines)
      ensures OnlyFor(old(CgiManager.ClientsOf(manager.Behind(fd))), old(manager.Behind(fd)))
    {
      hide ReadsUpTo, Valid, ScriptReady, CgiManager.Behind, CgiManager.ClientsOf;
      if !ReadsUpTo(parts, READ_SIZE) {
        Idle(CgiManager.ClientsOf(manager.Behind(fd)), manager.Behind(fd));
        return [];
      }
      BehindWithin(fd);
      lines := TakeCgiEvent(fd, readable, writable, parts, eof, n, now);
    }

    twostate predicate ChildReaped(pid: int, exited: bool, code: int)
      reads *
    {
      clients == old(clients) && manager.ChildTaken(pid, exited, code)
    }

    /** The kernel reports that a child has exited. */
    method OnExit(pid: int, exited: bool, code: int)
      requires Valid()
      modifies Footprint()
      ensures Valid() && manager.launched == old(manager.launched) && Footprint() <= old(Footprint())
      ensures ChildReaped(pid, exited, code)
      ensures OnlyFor(old(CgiManager.ClientsOf(manager.Child(pid))), old(manager.Child(pid)))
    {
      hide ConnsOk, CgiManager.Valid, CgiManager.ChildTaken, CgiManager.Child, CgiManager.ClientsOf;
      ChildWithin(pid);
      OnChildExit(pid, exited, code);
    }

    /**
     * Time has passed: exactly the scripts whose time is up are given up, which is a matter of milliseconds as long as
     * the clock does not run backwards.
     */
    twostate predicate TimedOut(now: int)
      reads *
    {
      && clients == old(clients)
      && (forall p :: p in old(manager.Expired(now)) ==> p.Ended() && p.ended == Some(Timeout))
      && (forall p :: p in old(manager.launched) && p !in old(manager.Expired(now)) ==> unchanged(p))
      && (forall p :: p in old(manager.launched) && old(manager.IsOwned(p)) ==>
            var late := IsLate(p.Limits(), old(p.lastActivity), now);
            ClockOk(p.Limits(), old(p.lastActivity), now) ==>
              if late then p.Ended() && p.ended == Some(Timeout) else unchanged(p))
    }

    method TakeTick(now: int)
      requires Valid()
      modifies manager, poller`interest, poller`pipes, poller`sockets, poller`writers
      modifies manager.Expired(now), CgiManager.ClientsOf(manager.Expired(now))
      ensures Valid() && manager.launched == old(manager.launched) && TimedOut(now)
    {
      hide Valid, CgiProcess.IsExpired, CgiProcess.Ended, IsLate, ClockOk, CgiManager.Expired;
      hide CgiManager.ClientsOf;
      TimesMean(now);
      CheckScriptTimeouts(now);
    }

    lemma TimesMean(now: int)
      requires Valid()
      ensures forall p :: p in manager.launched && manager.IsOwned(p) && ClockOk(p.Limits(), p.lastActivity, now) ==>
                (p in manager.Expired(now) <==> IsLate(p.Limits(), p.lastActivity, now))
    {
      hide CgiManager.Valid, CgiProcess.IsExpired, IsLate, ClockOk;
      manager.ExpiredInMs(now);
    }

    method OnTick(now: int)
      requires Valid()
      modifies Footprint()
      ensures Valid() && manager.launched == old(manager.launched) && Footprint() <= old(Footprint()) && TimedOut(now)
      ensures OnlyFor(old(CgiManager.ClientsOf(manager.Expired(now))), old(manager.Expired(now)))
    {
      hide ConnsOk, CgiManager.Valid, CgiProcess.IsExpired, CgiProcess.Ended, TimedOut;
      manager.EntriesAreFiled();
      forall p | p in manager.Expired(now) ensures p in Footprint() && p.client in Footprint() {
        OwnedWithin(p);
      }
      TakeTick(now);
    }

    lemma ServingWithin(fd: int)
      requires Valid()
      ensures forall p :: p in manager.Serving(fd) ==> p in Footprint()
      ensures fd in clients ==> clients[fd] in Footprint() && clients[fd].fileBuf in Footprint()
    {
      hide ConnsOk, CgiManager.Valid;
      if fd in manager.clientMap {
        manager.ServedIsOwned(fd);
        OwnedWithin(manager.clientMap[fd]);
      }
    }

    /** A connection is closed: it is forgotten, and so is the script that served it; no other script is touched. */
    twostate predicate Closed(fd: int)
      reads *
    {
      && clients == old(clients) - {fd} && LetGo(old(Conn(fd)))
      && (fd in old(clients) ==>
            && manager.ClientLost(fd, old(manager.clientMap), old(manager.pidMap), old(manager.Serving(fd)),
                                  old(manager.PidsOf(fd)))
            && OnlyFor(old(Conn(fd)), old(manager.Serving(fd))))
    }

    /** A connection is lost, or has been idle for too long. */
    method OnClose(fd: int)
      requires Valid()
      modifies Footprint()
      ensures Valid() && manager.launched == old(manager.launched) && Footprint() <= old(Footprint()) && Closed(fd)
      ensures OnlyFor(old(Conn(fd)), old(manager.Serving(fd)))
    {
      hide Valid, ConnsBut, OnlyFor, LetGo, CgiManager.Valid, CgiManager.ClientLost, CgiManager.PidsOf;
      ServingWithin(fd);
      ValidBut(fd);
      GiveUp(fd);
    }

    /** A connection that is only to be closed, with nothing left to do for it. */
    predicate IsDrained(fd: int)
      reads `clients, clients.Values
    {
      && fd in clients
      && var conn := clients[fd];
      !conn.cgiActive && conn.closeAfterSend && !conn.resReady && conn.responseOut == "" && !conn.fileStreamActive
    }

    /** What close_drained_clients does about one connection. */
    twostate predicate DrainedClosed(fd: int)
      reads *
    {
      if old(IsDrained(fd)) then Closed(fd) else clients == old(clients) && OnlyFor({}, {})
    }

    method OnDrained(fd: int)
      requires Valid()
      modifies Footprint()
      ensures Valid() && manager.launched == old(manager.launched) && Footprint() <= old(Footprint())
      ensures DrainedClosed(fd)
      ensures OnlyFor(old(Conn(fd)), old(manager.Serving(fd)))
    {
      hide ConnsOk, CgiManager.Valid, Closed;
      if IsDrained(fd) {
        OnClose(fd);
      }
    }

    /** What the arrival of a connection does; the kernel hands out a descriptor that is not in use. */
    twostate predicate Accepting(fd: int, errorPage: (int, bool) -> string)
      reads *
    {
      && unchanged(manager) && (forall p :: p in manager.launched ==> unchanged(p))
      && if old(fd in poller.interest) || fd == NO_FD then
           clients == old(clients) && poller.interest == old(poller.interest)
         else
           && fd in clients && fresh(clients[fd]) && clients[fd].IsNew(fd, errorPage)
           && clients == old(clients)[fd := clients[fd]] && poller.interest == old(poller.interest)[fd := READABLE]
    }

    /** A new connection, and nothing else. */
    method TakeConnection(fd: int, errorPage: (int, bool) -> string)
      requires Valid() && fd !in poller.interest && fd != NO_FD
      modifies `clients, poller`interest, poller`sockets, poller`writers, poller`open
      ensures Valid() && Accepting(fd, errorPage) && OnlyFor({}, {})
      ensures fd in clients && fresh(clients[fd]) && fresh(clients[fd].fileBuf)
      ensures clients == old(clients)[fd := clients[fd]]
    {
      hide Valid, ClientCon.IsNew;
      IsNewcomer(fd);
      NewConnection(fd, errorPage);
    }

    lemma IsNewcomer(fd: int)
      requires Valid() && fd !in poller.interest
      ensures fd !in clients
    {
      hide Valid;
      Registered();
    }

    /** A new connection. */
    method OnAccept(fd: int, errorPage: (int, bool) -> string)
      requires Valid()
      modifies Footprint()
      ensures Valid() && manager.launched == old(manager.launched) && fresh(Footprint() - old(Footprint()))
      ensures Accepting(fd, errorPage)
      ensures OnlyFor({}, {})
    {
      hide Valid, OnlyFor, ClientCon.IsNew;
      if fd in poller.interest || fd == NO_FD {
        Idle({}, {});
        return;
      }
      TakeConnection(fd, errorPage);
    }

    static function Clip(n: int, most: nat): int { if n < most then n else most }

    /** The next block of the file, as a read of up to `ready` bytes returns it. */
    static function NextBlock(conn: ClientCon, ready: nat): string
      requires conn.fileRead + conn.fileBytesRemaining == |conn.fileData|
      reads conn
    {
      if conn.sent < |conn.responseOut| || !conn.fileStreamActive || conn.fileBufOff < conn.fileBufLen then ""
      else conn.fileData[conn.fileRead..conn.fileRead + Min(ready, Min(FILE_BUF_SIZE, conn.fileBytesRemaining))]
    }

    /** What a send is offered: the rest of the queue, else the buffered block, else the block just read. */
    static function Room(conn: ClientCon, block: string): nat
      requires conn.fileBufOff <= conn.fileBufLen
      reads conn
    {
      if conn.sent < |conn.responseOut| then Min(|conn.responseOut| - conn.sent, INT_MAX)
      else if conn.fileBufOff < conn.fileBufLen then conn.fileBufLen - conn.fileBufOff
      else |block|
    }

    static ghost function Block(conn: ClientCon, ready: nat): string
      requires FileOk(conn)
      reads conn
    {
      NextBlock(conn, ready)
    }

    /** How many bytes a send of up to `n` bytes takes. */
    static ghost function Taken(conn: ClientCon, n: int, ready: nat): int
      requires FileOk(conn)
      reads conn
    {
      Clip(n, Room(conn, NextBlock(conn, ready)))
    }

    lemma ClippedIsOffered(conn: ClientCon, n: int, ready: nat)
      requires FileOk(conn)
      ensures conn.fileRead + conn.fileBytesRemaining == |conn.fileData| && conn.fileBufOff <= conn.fileBufLen
      ensures WriteOffered(conn, Taken(conn, n, ready), Block(conn, ready))
    {}

    static lemma QueueIsTaken(conn: ClientCon, n: int, ready: nat)
      requires FileOk(conn)
      ensures n > 0 && conn.sent < |conn.responseOut| ==> Taken(conn, n, ready) > 0
    {}

    /** A willing step takes a byte as long as one is pending, and never sees the end of the file too early. */
    static lemma StepIsWilling(conn: ClientCon, n: int, ready: nat)
      requires FileOk(conn)
      ensures n >= 0 ==> Taken(conn, n, ready) >= 0
      ensures NeedsBlock(conn) && ready > 0 ==> Block(conn, ready) != ""
      ensures Pending(conn) != "" && n > 0 && ready > 0 ==> Taken(conn, n, ready) > 0
    {}

    /** What a writable connection does, if it is one; bytes sent from its queue wake up the script behind it. */
    twostate predicate Writing(fd: int, n: int, ready: nat)
      reads *
    {
      if fd !in old(clients) then clients == old(clients)
      else
        var conn := old(clients[fd]);
        && old(FileOk(conn)) && Written(fd, conn, old(Taken(conn, n, ready)), old(Block(conn, ready)))
        && (n > 0 && old(HasOutput(conn) && conn.sent < |conn.responseOut|) && fd in clients ==> Resumed(fd))
        && (fd in clients ==> StillActiveSince(old(manager.Serving(fd))))
    }

    /** What the scripts have been doing is not affected. */
    static twostate predicate StillActiveSince(scripts: set<CgiProcess>)
      reads scripts`lastActivity
    {
      forall p :: p in scripts ==> p.lastActivity == old(p.lastActivity)
    }

    /**
     * A connection is writable: the kernel takes up to `n` bytes (or fails, if negative), and a read from the file
     * returns up to `ready` bytes.
     */
    method OnWritable(fd: int, n: int, ready: nat)
      requires Valid()
      modifies Footprint()
      ensures Valid() && manager.launched == old(manager.launched) && Footprint() <= old(Footprint())
      ensures Writing(fd, n, ready)
      ensures OnlyFor(old(Conn(fd)), old(manager.Serving(fd)))
    {
      hide ConnsOk, Written, Taken, Block, FileOk, Resumed, OnlyFor, CgiManager.Valid, CgiManager.Settled;
      if fd in clients {
        ServingWithin(fd);
        ConnOf(fd);
        DeliverOne(fd, clients[fd], n, ready);
      } else {
        Idle(Conn(fd), manager.Serving(fd));
      }
    }

    /** A connection may take a new request: no script serves it and nothing is left to send. */
    predicate IsFree(fd: int)
      reads `clients, manager`clientMap, clients.Values
    {
      && fd in clients && fd !in manager.clientMap
      && clients[fd].responseOut == "" && clients[fd].sent == 0 && !clients[fd].fileStreamActive
    }

    /** What a request for a file does on a connection that may take one. */
    twostate predicate FileServed(fd: int, keepAlive: bool, file: Option<string>, status: int, head: nat -> string,
                                  errorResponse: int -> string)
      reads *
    {
      && clients == old(clients) && unchanged(manager)
      && (old(IsFree(fd)) ==>
            var conn := old(clients[fd]);
            && FileOk(conn) && conn.resReady && conn.keepAlive == keepAlive && conn.wire == ""
            && !conn.closeAfterSend && conn.sent == 0
            && Pending(conn) == (if file.Some? then head(|file.value|) + file.value else errorResponse(status))
            && poller.interest == old(poller.interest)[fd := WRITABLE])
    }

    /** A request for a file, on a connection that may take one. */
    method TakeFileRequest(fd: int, conn: ClientCon, keepAlive: bool, file: Option<string>, status: int,
                           head: nat -> string, errorResponse: int -> string)
      requires Valid() && IsFree(fd) && clients[fd] == conn
      modifies poller`interest, poller`writers, conn
      ensures Valid() && FileOk(conn) && conn.resReady && conn.keepAlive == keepAlive && conn.wire == ""
      ensures !conn.closeAfterSend && conn.sent == 0
      ensures Pending(conn) == if file.Some? then head(|file.value|) + file.value else errorResponse(status)
      ensures poller.interest == old(poller.interest)[fd := WRITABLE]
    {
      hide Valid, FileOk, Pending;
      BeginRequest(fd, conn, keepAlive);
      ServeFile(fd, conn, file, status, head, errorResponse);
    }

    /** A request for a file. */
    method OnFileRequest(fd: int, keepAlive: bool, file: Option<string>, status: int, head: nat -> string,
                         errorResponse: int -> string)
      requires Valid()
      modifies Footprint()
      ensures Valid() && manager.launched == old(manager.launched) && Footprint() <= old(Footprint())
      ensures FileServed(fd, keepAlive, file, status, head, errorResponse)
      ensures OnlyFor(old(Conn(fd)), {})
    {
      hide Valid, FileOk, Pending;
      Separate(fd);
      if IsFree(fd) {
        ServingWithin(fd);
        TakeFileRequest(fd, clients[fd], keepAlive, file, status, head, errorResponse);
      }
    }

    /**
     * A request for a script can be taken up: the connection is free, the kernel has handed out numbers that are not in
     * use, and the sizes in a chunked body stay within the buffer.
     */
    predicate MayStart(fd: int, received: string, w: Wire)
      reads `clients, clients.Values, manager, poller
      requires manager.poller == poller
    {
      IsFree(fd) && w.clientFd == fd && manager.AreUnused(w) && InBounds(clients[fd].chunkBuf + received)
    }

    /** What a request for a script does. */
    twostate predicate ScriptRequested(fd: int, keepAlive: bool, scriptPath: string, respond: (Headers, bool) -> string,
                                       timing: Timing, chunked: bool, contentLength: nat, received: string,
                                       due: bool, osOk: bool,
                                       w: Wire)
      reads *
      requires manager.poller == poller
    {
      && clients == old(clients)
      && (old(MayStart(fd, received, w)) ==>
            Started(fd, old(clients[fd]), keepAlive, scriptPath, respond, timing, chunked, contentLength, received, due,
                    osOk, w))
    }

    /** A request for a script. */
    method OnCgiRequest(fd: int, keepAlive: bool, scriptPath: string, respond: (Headers, bool) -> string,
                        absoluteTimeoutMs: nat, idleTimeoutMs: nat, now: int, chunked: bool, contentLength: nat,
                        received: string, due: bool, osOk: bool, w: Wire)
      requires Valid()
      modifies Footprint()
      ensures Valid() && old(manager.launched) <= manager.launched && fresh(Footprint() - old(Footprint()))
      ensures ScriptRequested(fd, keepAlive, scriptPath, respond, Timing(absoluteTimeoutMs, idleTimeoutMs, now),
                              chunked, contentLength, received, due, osOk, w)
      ensures OnlyFor(old(Conn(fd)), {})
    {
      hide ConnsOk, InBounds, Started, CgiManager.Valid, CgiManager.MayLaunch, CgiManager.AreUnused;
      Separate(fd);
      if MayStart(fd, received, w) {
        var conn := clients[fd];
        ServingWithin(fd);
        ConnOf(fd);
        manager.UnusedMayLaunch(conn, w);
        HandleCgiRequest(fd, conn, keepAlive, scriptPath, respond, absoluteTimeoutMs, idleTimeoutMs, now, chunked,
                         contentLength, received, due, osOk, w);
      }
    }

    /** What a read does while a body is streamed to a script; an empty one means that the connection is lost. */
    twostate predicate BodyTaken(fd: int, data: string, now: int)
      reads *
    {
      if fd !in old(clients) then clients == old(clients)
      else if data == "" then Closed(fd)
      else
        var conn := old(clients[fd]);
        if !old(conn.cgiActive && conn.cgiStreaming) then clients == old(clients) && OnlyFor({}, {})
        else if !old(conn.cgiChunked) then FixedTaken(fd, conn, data, now)
        else if InBounds(old(conn.chunkBuf) + data) then ChunkTaken(fd, conn, data, now)
        else clients == old(clients)
    }

    /** A read while a body is streamed to a script. */
    method OnBodyRead(fd: int, data: string, now: int)
      requires Valid()
      modifies Footprint()
      ensures Valid() && manager.launched == old(manager.launched) && Footprint() <= old(Footprint())
      ensures BodyTaken(fd, data, now)
      ensures OnlyFor(old(Conn(fd)), old(manager.Serving(fd)))
    {
      hide ConnsOk, InBounds, Closed, FixedTaken, ChunkTaken, OnlyFor, CgiManager.Valid;
      if fd !in clients {
        Idle(Conn(fd), manager.Serving(fd));
        return;
      }
      var conn := clients[fd];
      if data == "" {
        OnClose(fd);
      } else if conn.cgiActive && conn.cgiStreaming && (!conn.cgiChunked || InBounds(conn.chunkBuf + data)) {
        ServingWithin(fd);
        if conn.cgiChunked {
          ReadChunkedBody(fd, conn, data, now);
        } else {
          ReadFixedBody(fd, conn, data, now);
        }
      } else {
        Idle(Conn(fd), manager.Serving(fd));
      }
    }

    /** What one event does. */
    twostate predicate Handled(e: Event, lines: seq<string>)
      reads *
      requires manager.poller == poller
    {
      match e
      case Accepted(fd, errorPage) => Accepting(fd, errorPage)
      case CgiReady(fd, readable, writable, parts, eof, n, now) =>
        ReadsUpTo(parts, READ_SIZE) ==> ScriptReady(fd, readable, writable, parts, eof, n, now, lines)
      case ChildExited(pid, exited, code) => ChildReaped(pid, exited, code)
      case Writable(fd, n, ready) => Writing(fd, n, ready)
      case BodyRead(fd, data, now) => BodyTaken(fd, data, now)
      case FileRequested(fd, keepAlive, file, status, head, errorResponse) =>
        FileServed(fd, keepAlive, file, status, head, errorResponse)
      case CgiRequested(fd, keepAlive, scriptPath, respond, absoluteTimeoutMs, idleTimeoutMs, now, chunked,
                        contentLength, received, due, osOk, w) =>
        ScriptRequested(fd, keepAlive, scriptPath, respond, Timing(absoluteTimeoutMs, idleTimeoutMs, now), chunked,
                        contentLength, received, due, osOk, w)
      case Lost(fd) => Closed(fd)
      case Drain(fd) => DrainedClosed(fd)
      case Tick(now) => TimedOut(now)
    }

    /** The connections that an event is about, or that are served by a script that it is about. */
    ghost function Concerned(e: Event): set<ClientCon>
      reads this, manager, manager.processes.Values
    {
      match e
      case Accepted(_, _) => {}
      case CgiReady(fd, _, _, _, _, _, _) => CgiManager.ClientsOf(manager.Behind(fd))
      case ChildExited(pid, _, _) => CgiManager.ClientsOf(manager.Child(pid))
      case Writable(fd, _, _) => Conn(fd)
      case BodyRead(fd, _, _) => Conn(fd)
      case FileRequested(fd, _, _, _, _, _) => Conn(fd)
      case CgiRequested(fd, _, _, _, _, _, _, _, _, _, _, _, _) => Conn(fd)
      case Lost(fd) => Conn(fd)
      case Drain(fd) => Conn(fd)
      case Tick(now) => CgiManager.ClientsOf(manager.Expired(now))
    }

    /** The scripts, among those that have been launched already, that an event is about. */
    ghost function Meant(e: Event): set<CgiProcess>
      reads this, manager, manager.processes.Values
    {
      match e
      case Accepted(_, _) => {}
      case CgiReady(fd, _, _, _, _, _, _) => manager.Behind(fd)
      case ChildExited(pid, _, _) => manager.Child(pid)
      case Writable(fd, _, _) => manager.Serving(fd)
      case BodyRead(fd, _, _) => manager.Serving(fd)
      case FileRequested(_, _, _, _, _, _) => {}
      case CgiRequested(_, _, _, _, _, _, _, _, _, _, _, _, _) => {}
      case Lost(fd) => manager.Serving(fd)
      case Drain(fd) => manager.Serving(fd)
      case Tick(now) => manager.Expired(now)
    }

    /**
     * One event, whatever it is; also the lines that are logged. Connections and scripts that it is not about stay as
     * they are.
     */
    method Handle(e: Event) returns (lines: seq<string>)
      requires Valid()
      modifies Footprint()
      ensures Valid() && old(manager.launched) <= manager.launched
      ensures forall o :: o in Footprint() ==> o in old(Footprint()) || fresh(o)
      ensures Handled(e, lines)
      ensures OnlyFor(old(Concerned(e)), old(Meant(e)))
    {
      hide Accepting, ScriptReady, ChildReaped, Writing, BodyTaken, FileServed, ScriptRequested, Closed, TimedOut,
           Footprint;
      hide ConnsOk, ReadsUpTo, DrainedClosed, CgiManager.Valid, OnlyFor;
      lines := [];
      match e
      case Accepted(fd, errorPage) => OnAccept(fd, errorPage);
      case CgiReady(fd, readable, writable, parts, eof, n, now) =>
        lines := OnCgiEvent(fd, readable, writable, parts, eof, n, now);
      case ChildExited(pid, exited, code) => OnExit(pid, exited, code);
      case Writable(fd, n, ready) => OnWritable(fd, n, ready);
      case BodyRead(fd, data, now) => OnBodyRead(fd, data, now);
      case FileRequested(fd, keepAlive, file, status, head, errorResponse) =>
        OnFileRequest(fd, keepAlive, file, status, head, errorResponse);
      case CgiRequested(fd, keepAlive, scriptPath, respond, absoluteTimeoutMs, idleTimeoutMs, now, chunked,
                        contentLength, received, due, osOk, w) =>
        OnCgiRequest(fd, keepAlive, scriptPath, respond, absoluteTimeoutMs, idleTimeoutMs, now, chunked, contentLength,
                     received, due, osOk, w);
      case Lost(fd) => OnClose(fd);
      case Drain(fd) => OnDrained(fd);
      case Tick(now) => OnTick(now);
    }

    /** Any events in any order. Scripts that have ended are never touched again: they are not in the footprint. */
    method Run(events: seq<Event>) returns (log: seq<string>)
      requires Valid()
      modifies Footprint()
      ensures Valid() && old(manager.launched) <= manager.launched
      ensures forall o :: o in Footprint() ==> o in old(Footprint()) || fresh(o)
      ensures forall p :: p in old(manager.launched) && old(p.stdoutFd == NO_FD) ==> unchanged(p)
      decreases |events|
    {
      hide *;
      log := [];
      if events != [] {
        forall p | p in manager.launched && p.stdoutFd == NO_FD ensures p !in Footprint() {
          EndedOutside(p);
        }
        ghost var before := Footprint();
        log := Handle(events[0]);
        ghost var between := Footprint();
        assert forall o :: o in between ==> o in before || fresh(o);
        label After:
        var more := Run(events[1..]);
        log := log + more;
        forall p | p in old(manager.launched) && old(p.stdoutFd == NO_FD) ensures unchanged(p) {
          assert unchanged@After(p);
        }
      }
    }

    /** The event is about this connection by its descriptor. */
    static predicate IsAbout(e: Event, fd: int) {
      match e
      case Writable(f, _, _) => f == fd
      case BodyRead(f, _, _) => f == fd
      case FileRequested(f, _, _, _, _, _) => f == fd
      case CgiRequested(f, _, _, _, _, _, _, _, _, _, _, _, _) => f == fd
      case Lost(f) => f == fd
      case Drain(f) => f == fd
      case _ => false
    }

    /** A request on this connection, which a connection takes up only once nothing is left to send. */
    static predicate IsRequestOn(e: Event, fd: int) { IsAbout(e, fd) && (e.FileRequested? || e.CgiRequested?) }

    lemma NotConcerned(e: Event, fd: int)
      requires Valid() && fd in clients && fd !in manager.clientMap && !IsAbout(e, fd)
      ensures clients[fd] !in Concerned(e)
    {
      hide ConnsOk, CgiManager.Valid, CgiProcess.IsExpired;
      AllServed();
      match e
      case CgiReady(f, _, _, _, _, _, _) => BehindServes(f);
      case ChildExited(pid, _, _) => ChildServes(pid);
      case Tick(now) => ExpiredServes(now);
      case _ =>
    }

    /** The events that offer to take a byte from this connection, if one is pending. */
    static function Sends(events: seq<Event>, fd: int): nat {
      if events == [] then 0 else (if IsSend(events[0], fd) then 1 else 0) + Sends(events[1..], fd)
    }

    static predicate IsSend(e: Event, fd: int) { e.Writable? && e.fd == fd && e.n > 0 && e.ready > 0 }

    /**
     * What events make of a response that is being sent to a connection, and that no script adds to: what has been sent
     * is always a part of it, the rest is pending while the connection is open, and the poller waits to write as long
     * as something is. Each of the `sends` takes a byte at least.
     */
    twostate predicate StillSent(fd: int, conn: ClientCon, sends: nat)
      reads *
    {
      && old(FileOk(conn)) && old(conn.wire) <= conn.wire <= old(Whole(conn))
      && (fd in clients && clients[fd] == conn ==>
            && FileOk(conn) && Whole(conn) == old(Whole(conn)) && conn.cgiActive == old(conn.cgiActive)
            && WaitsToWrite(fd, conn) && (conn.wire != Whole(conn) ==> HasOutput(conn) == old(HasOutput(conn)))
            && (old(HasOutput(conn)) && conn.wire != Whole(conn) ==> |conn.wire| >= old(|conn.wire|) + sends))
    }

    static lemma SentOfWhole(conn: ClientCon)
      requires FileOk(conn)
      ensures conn.wire <= Whole(conn) && (Pending(conn) == "" <==> conn.wire == Whole(conn))
    {
      hide Pending;
    }

    /** An event that is not about the connection. */
    method HandleElsewhere(fd: int, conn: ClientCon, e: Event) returns (lines: seq<string>)
      requires Valid() && fd in clients && clients[fd] == conn && fd !in manager.clientMap && !IsAbout(e, fd)
      modifies Footprint()
      ensures Valid() && StillSent(fd, conn, 0)
      ensures forall o :: o in Footprint() ==> o in old(Footprint()) || fresh(o)
    {
      hide Valid, Concerned, Meant, Footprint, Pending, Whole, FileOk, Handled;
      ConnOf(fd);
      SentOfWhole(conn);
      NotConcerned(e, fd);
      lines := Handle(e);
      PendingIsWatched(fd);
    }

    /** The connection is writable. */
    method HandleSend(fd: int, conn: ClientCon, n: int, ready: nat) returns (lines: seq<string>)
      requires Valid() && fd in clients && clients[fd] == conn && fd !in manager.clientMap
      modifies Footprint()
      ensures Valid() && StillSent(fd, conn, if n > 0 && ready > 0 then 1 else 0)
      ensures forall o :: o in Footprint() ==> o in old(Footprint()) || fresh(o)
    {
      hide Valid, Concerned, Meant, Footprint, Pending, Whole, FileOk, OnlyFor, Taken, Block, NeedsBlock, HasOutput;
      ConnOf(fd);
      SentOfWhole(conn);
      StepIsWilling(conn, n, ready);
      lines := Handle(Writable(fd, n, ready));
      if fd in clients {
        assert StillOpen(fd, conn);
        SentOfWhole(conn);
        PendingIsWatched(fd);
      }
    }

    /** An event that is about it, but no request. */
    method HandleHere(fd: int, conn: ClientCon, e: Event) returns (lines: seq<string>)
      requires Valid() && fd in clients && clients[fd] == conn && fd !in manager.clientMap
      requires IsAbout(e, fd) && !IsRequestOn(e, fd)
      modifies Footprint()
      ensures Valid() && StillSent(fd, conn, if IsSend(e, fd) then 1 else 0)
      ensures forall o :: o in Footprint() ==> o in old(Footprint()) || fresh(o)
    {
      hide Valid, Concerned, Meant, Footprint, Pending, Whole, FileOk;
      if e.Writable? {
        lines := HandleSend(fd, conn, e.n, e.ready);
        return;
      }
      ConnOf(fd);
      SentOfWhole(conn);
      PendingIsWatched(fd);
      lines := Handle(e);
      if fd in clients && clients[fd] == conn {
        PendingIsWatched(fd);
      }
    }

    lemma SendsOne(e: Event, fd: int)
      ensures Sends([e], fd) == if IsSend(e, fd) then 1 else 0
      ensures IsSend(e, fd) ==> IsAbout(e, fd)
    {
      assert [e][1..] == [];
    }

    /** Any event but a new request on the connection. */
    method HandlePast(fd: int, conn: ClientCon, e: Event) returns (lines: seq<string>)
      requires Valid() && fd in clients && clients[fd] == conn && fd !in manager.clientMap && !IsRequestOn(e, fd)
      modifies Footprint()
      ensures Valid() && StillSent(fd, conn, if IsSend(e, fd) then 1 else 0)
      ensures forall o :: o in Footprint() ==> o in old(Footprint()) || fresh(o)
    {
      hide *;
      SendsOne(e, fd);
      if IsAbout(e, fd) {
        lines := HandleHere(fd, conn, e);
      } else {
        lines := HandleElsewhere(fd, conn, e);
      }
    }

    lemma EndedOutside(p: CgiProcess)
      requires p.stdoutFd == NO_FD
      ensures p !in Footprint()
    {}

    /**
     * Any events in any order while a response that no script adds to is being sent, up to the next request on its
     * descriptor. The peer has been sent a prefix of that response, and as long as the connection is open all the rest
     * is pending: whatever happens to other connections and scripts meanwhile, and also if the connection is closed and
     * its descriptor given to another.
     */
    method RunPast(fd: int, conn: ClientCon, events: seq<Event>) returns (log: seq<string>)
      requires Valid() && fd in clients && clients[fd] == conn && fd !in manager.clientMap
      requires forall e :: e in events ==> !IsRequestOn(e, fd)
      modifies Footprint()
      ensures Valid() && StillSent(fd, conn, Sends(events, fd))
      ensures forall o :: o in Footprint() ==> o in old(Footprint()) || fresh(o)
      decreases |events|
    {
      hide Valid, Footprint, Whole, FileOk, IsRequestOn, Handled;
      ConnOf(fd);
      log := [];
      if events == [] {
        SentOfWhole(conn);
        PendingIsWatched(fd);
        return;
      }
      ghost var before := Footprint();
      InFootprint(fd);
      log := HandlePast(fd, conn, events[0]);
      ghost var between := Footprint();
      assert forall o :: o in between ==> o in before || fresh(o);
      label After:
      var more;
      if fd in clients && clients[fd] == conn {
        StillUnserved(fd);
        more := RunPast(fd, conn, events[1..]);
      } else {
        NotInFootprint(fd, conn);
        more := Run(events[1..]);
        assert unchanged@After(conn);
        OnlyInFootprint(fd);
      }
      log := log + more;
    }

    /**
     * A request for a file, and then any events up to the next request on the connection: the peer has been sent a
     * prefix of the head and the file (or of the error response). While the connection is open the rest is pending, and
     * the poller waits to send it: as many events that take a byte as the response has bytes are enough for all of it.
     */
    method ServeThrough(fd: int, keepAlive: bool, file: Option<string>, status: int, head: nat -> string,
                        errorResponse: int -> string, events: seq<Event>)
      returns (log: seq<string>)
      requires Valid() && IsFree(fd) && forall e :: e in events ==> !IsRequestOn(e, fd)
      modifies Footprint()
      ensures Valid()
      ensures var conn := old(clients[fd]);
              var response := if file.Some? then head(|file.value|) + file.value else errorResponse(status);
              && conn.wire <= response
              && (fd in clients && clients[fd] == conn ==>
                    && FileOk(conn) && conn.wire + Pending(conn) == response && WaitsToWrite(fd, conn)
                    && (conn.wire == response || |conn.wire| >= Sends(events, fd)))
      ensures forall o :: o in Footprint() ==> o in old(Footprint()) || fresh(o)
    {
      hide Valid, Footprint, FileOk, Pending, IsRequestOn, OnlyFor, Concerned, Meant;
      ghost var before := Footprint();
      log := Handle(FileRequested(fd, keepAlive, file, status, head, errorResponse));
      ghost var between := Footprint();
      assert forall o :: o in between ==> o in before || fresh(o);
      assert fd !in manager.clientMap;
      assert "" + Pending(clients[fd]) == Pending(clients[fd]);
      var more := RunPast(fd, clients[fd], events);
      log := log + more;
    }

    /** An event that leaves a script with these numbers alone, and comes in time for it. */
    static predicate Leaves(e: Event, fds: set<int>, pid: int, clientFd: int, timing: Timing, lastActivity: int) {
      match e
      case Accepted(_, _) => true
      case CgiReady(fd, _, _, _, _, _, _) => fd == NO_FD || fd !in fds
      case ChildExited(n, _, _) => n != pid
      case Tick(now) => ClockOk(timing, lastActivity, now) && !IsLate(timing, lastActivity, now)
      case _ => !IsAbout(e, clientFd)
    }

    static predicate LeavesAlone(e: Event, p: CgiProcess)
      reads p
    {
      Leaves(e, {p.stdinFd, p.stdoutFd, p.stderrFd}, p.pid, p.client.fd, p.Limits(), p.lastActivity)
    }

    static lemma LeavesFewer(events: seq<Event>, fds: set<int>, fewer: set<int>, pid: int, clientFd: int,
                             timing: Timing, lastActivity: int)
      requires forall e :: e in events ==> Leaves(e, fds, pid, clientFd, timing, lastActivity)
      requires fewer <= fds + {NO_FD}
      ensures forall e :: e in events ==> Leaves(e, fewer, pid, clientFd, timing, lastActivity)
    {
      hide ClockOk, IsLate;
    }

    lemma NotMeant(e: Event, p: CgiProcess)
      requires Valid() && p in manager.launched && manager.IsOwned(p)
      requires LeavesAlone(e, p)
      ensures p !in Meant(e)
    {
      hide ConnsOk, CgiManager.Valid, CgiProcess.IsExpired, IsLate, ClockOk;
      manager.NumbersAreOwn(p);
      match e
      case Tick(now) => TimesMean(now);
      case _ =>
    }

    /** A script that an event leaves alone. */
    method HandleAside(p: CgiProcess, e: Event) returns (lines: seq<string>)
      requires Valid() && p in manager.launched && manager.IsOwned(p)
      requires LeavesAlone(e, p)
      modifies Footprint()
      ensures Valid() && p in manager.launched && manager.IsOwned(p) && unchanged(p)
      ensures forall o :: o in Footprint() ==> o in old(Footprint()) || fresh(o)
    {
      hide Valid, LeavesAlone, Meant, Concerned, Footprint, Handled, CgiProcess.Ended;
      NotMeant(e, p);
      IsOpen(p);
      lines := Handle(e);
      StillOpenOwned(p);
    }

    lemma IsOpen(p: CgiProcess)
      requires Valid() && p in manager.launched && manager.IsOwned(p)
      ensures p.stdoutFd != NO_FD
    {
      hide ConnsOk, CgiManager.Valid;
      manager.Agreement(p);
    }

    lemma StillOpenOwned(p: CgiProcess)
      requires Valid() && p in manager.launched && p.stdoutFd != NO_FD
      ensures manager.IsOwned(p)
    {
      hide ConnsOk, CgiManager.Valid;
      manager.OpenIsOwned(p);
    }

    /** Any events that leave a script alone. */
    method RunAside(p: CgiProcess, events: seq<Event>) returns (log: seq<string>)
      requires Valid() && p in manager.launched && manager.IsOwned(p)
      requires forall e :: e in events ==> LeavesAlone(e, p)
      modifies Footprint()
      ensures Valid() && p in manager.launched && manager.IsOwned(p) && unchanged(p)
      ensures forall o :: o in Footprint() ==> o in old(Footprint()) || fresh(o)
      decreases |events|
    {
      hide Valid, LeavesAlone, Footprint;
      log := [];
      if events != [] {
        ghost var before := Footprint();
        log := HandleAside(p, events[0]);
        ghost var between := Footprint();
        assert forall o :: o in between ==> o in before || fresh(o);
        var more := RunAside(p, events[1..]);
        log := log + more;
      }
    }

    /**
     * Any events that leave a script alone, and then a look at the clock: the script ends if more milliseconds have
     * passed than it is allowed, since its launch or since it was last active, and is untouched if not.
     */
    method RunUntil(p: CgiProcess, events: seq<Event>, now: int) returns (log: seq<string>)
      requires Valid() && p in manager.launched && manager.IsOwned(p) && ClockOk(p.Limits(), p.lastActivity, now)
      requires forall e :: e in events ==> LeavesAlone(e, p)
      modifies Footprint()
      ensures Valid() && p in manager.launched
      ensures if old(IsLate(p.Limits(), p.lastActivity, now)) then p.Ended() && p.ended == Some(Timeout)
              else unchanged(p) && manager.IsOwned(p)
      ensures forall o :: o in Footprint() ==> o in old(Footprint()) || fresh(o)
    {
      hide Valid, LeavesAlone, Footprint, IsLate, ClockOk, CgiProcess.Ended, Concerned, Meant, OnlyFor;
      ghost var before := Footprint();
      log := RunAside(p, events);
      ghost var between := Footprint();
      assert forall o :: o in between ==> o in before || fresh(o);
      IsOpen(p);
      var more := Handle(Tick(now));
      if p.stdoutFd != NO_FD {
        StillOpenOwned(p);
      }
      log := log + more;
    }

    lemma IsServed(fd: int)
      requires Valid() && fd in manager.clientMap
      ensures manager.clientMap[fd] in manager.launched && manager.IsOwned(manager.clientMap[fd])
      ensures manager.clientMap[fd].client.fd == fd
    {
      hide ConnsOk, CgiManager.Valid;
      manager.ServedIsOwned(fd);
    }

    lemma NotEnded(p: CgiProcess)
      requires Valid() && p in manager.launched && manager.IsOwned(p)
      ensures p.ended == None
    {
      hide ConnsOk, TablesOk;
      assert manager.StateOk(p);
    }

    /**
     * From the launch of a script on. It is launched at `launch` with limits of `absoluteMs` and `idleMs`
     * milliseconds, nothing but events that leave it alone happens, and then the clock is looked at.
     */
    method LaunchUntil(fd: int, keepAlive: bool, scriptPath: string, respond: (Headers, bool) -> string,
                       absoluteMs: nat, idleMs: nat, launch: int, contentLength: nat, received: string, due: bool,
                       w: Wire, events: seq<Event>, now: int)
      returns (p: CgiProcess, log: seq<string>)
      requires manager.poller == poller && Valid() && MayStart(fd, received, w) && scriptPath != ""
      requires 0 <= 1000 * (now - launch) < TWO_64
      requires forall e :: e in events ==>
                 Leaves(e, {w.stdinFd, w.stdoutFd, w.stderrFd}, w.pid, fd, Timing(absoluteMs, idleMs, launch), launch)
      modifies Footprint()
      ensures Valid() && fresh(p) && p in manager.launched && p.client == old(clients[fd])
      ensures var passed := 1000 * (now - launch);
              if (idleMs > 0 && passed > idleMs) || (absoluteMs > 0 && passed > absoluteMs) then
                p.Ended() && p.ended == Some(Timeout)
              else
                manager.IsOwned(p) && p.ended == None && p.lastActivity == launch
    {
      hide Valid, Footprint, Concerned, Meant, OnlyFor, MayStart, CgiProcess.Ended, Leaves, StreamSet, Decode;
      ghost var before := Footprint();
      log := Handle(CgiRequested(fd, keepAlive, scriptPath, respond, absoluteMs, idleMs, launch, false, contentLength,
                                 received, due, true, w));
      p := manager.clientMap[fd];
      IsServed(fd);
      assert p.Limits() == Timing(absoluteMs, idleMs, launch);
      LeavesFewer(events, {w.stdinFd, w.stdoutFd, w.stderrFd}, {p.stdinFd, p.stdoutFd, p.stderrFd}, w.pid, fd,
                  p.Limits(), launch);
      var more := RunUntil(p, events, now);
      log := log + more;
      if manager.IsOwned(p) {
        NotEnded(p);
      }
    }

    lemma InFootprint(fd: int)
      requires fd in clients
      ensures clients[fd] in Footprint()
    {}

    lemma OnlyInFootprint(fd: int)
      ensures fd in clients ==> clients[fd] in Footprint()
    {}

    /** A connection that has been closed is out of reach. */
    lemma NotInFootprint(fd: int, conn: ClientCon)
      requires Valid() && conn.fd == fd && !(fd in clients && clients[fd] == conn)
      ensures conn !in Footprint()
    {
      hide ConnsIn, ActiveOk, CgiManager.Valid;
      AllServed();
    }

    /** A connection that is not marked active is served by no script. */
    lemma StillUnserved(fd: int)
      requires Valid() && fd in clients && !clients[fd].cgiActive
      ensures fd !in manager.clientMap
    {
      hide Valid;
      ConnOf(fd);
    }

    /** The end of the server: every script ever launched has ended, and no pipe end is left open. */
    method Stop()
      requires Valid()
      modifies Footprint()
      ensures manager.launched == old(manager.launched) && manager.poller.pipes == {} && manager.processes == map[]
      ensures manager.pidMap == map[]
      ensures forall p :: p in manager.launched ==> p.Ended()
    {
      hide ConnsOk, CgiManager.Valid, CgiProcess.Ended;
      manager.EntriesAreFiled();
      forall p | p in manager.processes.Values ensures p in Footprint() && p.client in Footprint() {
        OwnedWithin(p);
      }
      manager.Shutdown();
    }
  }

  /** A whole run of a server. */
  method Serve(errorResponse: int -> string, events: seq<Event>) returns (server: Server)
    ensures fresh(server) && server.manager.poller.pipes == {} && server.manager.processes == map[]
    ensures forall p :: p in server.manager.launched ==> p.Ended()
  {
    hide *;
    server := new Server(errorResponse);
    server.StartsAlone();
    var _ := server.Run(events);
    server.Stop();
  }
}
