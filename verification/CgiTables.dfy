/** The CGI manager's five tables and the poller as values: what agrees, and what every step keeps. */
module CgiTables {
  import opened CgiProcesses
  import opened EventPolling

  /**
   * A script's numbers: its pipe ends (NO_FD once closed), its client and its pid; whether it has been reaped,
   * whether its output is paused, and whether its client has unsent bytes.
   */
  datatype Wire = Wire(
    stdinFd: int, stdoutFd: int, stderrFd: int, clientFd: int, pid: int, reaped: bool, paused: bool, pending: bool)

  type Table = map<int, CgiProcess>

  /** `lost` holds the scripts whose pid's entry another one, with the same pid, has taken along at its end. */
  datatype Tables = Tables(
    processes: Table, stdinMap: Table, stderrMap: Table, clientMap: Table, pidMap: Table,
    interest: map<int, Interest>, pipes: set<int>, open: set<int>, sockets: set<int>, writers: set<int>,
    lost: set<CgiProcess>)

  predicate Owned(t: Tables, p: CgiProcess, w: Wire) {
    w.stdoutFd in t.processes && t.processes[w.stdoutFd] == p
  }

  predicate Registered(table: Table, interest: map<int, Interest>, fd: int, p: CgiProcess, i: Interest) {
    fd in table && table[fd] == p && fd in interest && interest[fd] == i
  }

  /** An owned script is filed under each of its numbers and watched for what it waits for. */
  ghost predicate Wired(t: Tables, p: CgiProcess, w: Wire) {
    && Registered(t.processes, t.interest, w.stdoutFd, p, Interest(!w.paused, false))
    && (w.stdinFd != NO_FD ==> Registered(t.stdinMap, t.interest, w.stdinFd, p, WRITABLE))
    && (w.stderrFd != NO_FD ==> Registered(t.stderrMap, t.interest, w.stderrFd, p, READABLE))
    && w.clientFd in t.clientMap && t.clientMap[w.clientFd] == p && w.clientFd in t.interest
    && (w.pending ==> t.interest[w.clientFd] == WRITABLE)
    && w.pid > 0 && (p in t.lost || w.reaped || FiledPid(t, p, w))
  }

  predicate FiledPid(t: Tables, p: CgiProcess, w: Wire) { w.pid in t.pidMap && t.pidMap[w.pid] == p }

  ghost predicate FiledByStdout(t: Tables, wires: map<CgiProcess, Wire>) {
    forall fd :: fd in t.processes ==> t.processes[fd] in wires && wires[t.processes[fd]].stdoutFd == fd
  }

  ghost predicate FiledByStdin(t: Tables, wires: map<CgiProcess, Wire>) {
    forall fd :: fd in t.stdinMap ==>
      t.stdinMap[fd] in wires && wires[t.stdinMap[fd]].stdinFd == fd && Owned(t, t.stdinMap[fd], wires[t.stdinMap[fd]])
  }

  ghost predicate FiledByStderr(t: Tables, wires: map<CgiProcess, Wire>) {
    forall fd :: fd in t.stderrMap ==>
      t.stderrMap[fd] in wires && wires[t.stderrMap[fd]].stderrFd == fd
          && Owned(t, t.stderrMap[fd], wires[t.stderrMap[fd]])
  }

  ghost predicate FiledByClient(t: Tables, wires: map<CgiProcess, Wire>) {
    forall fd :: fd in t.clientMap ==>
      t.clientMap[fd] in wires && wires[t.clientMap[fd]].clientFd == fd
          && Owned(t, t.clientMap[fd], wires[t.clientMap[fd]])
  }

  ghost predicate FiledByPid(t: Tables, wires: map<CgiProcess, Wire>) {
    forall n :: n in t.pidMap ==>
      && t.pidMap[n] in wires && wires[t.pidMap[n]].pid == n && !wires[t.pidMap[n]].reaped
      && Owned(t, t.pidMap[n], wires[t.pidMap[n]])
  }

  /** Every table entry is an owned script filed under its own number. */
  ghost predicate Filed(t: Tables, wires: map<CgiProcess, Wire>) {
    FiledByStdout(t, wires) && FiledByStdin(t, wires) && FiledByStderr(t, wires) && FiledByClient(t, wires)
        && FiledByPid(t, wires)
  }

  function Awaited(writers: set<int>, fd: int): Interest { if fd in writers then WRITABLE else READABLE }

  /**
   * The open CGI pipe ends are exactly the table keys, and none is shared, not even with a connection. What is
   * registered are they and the connections, and nothing else. A connection that no script serves is watched for what
   * it waits for.
   */
  ghost predicate Descriptors(t: Tables) {
    && (forall fd :: fd in t.pipes <==> fd in t.processes || fd in t.stdinMap || fd in t.stderrMap)
    && (forall fd :: fd in t.processes ==> fd !in t.stdinMap && fd !in t.stderrMap)
    && (forall fd :: fd in t.stdinMap ==> fd !in t.stderrMap)
    && (forall fd :: fd in t.clientMap ==> fd in t.sockets)
    && (forall fd :: fd in t.sockets ==> fd in t.open)
    && (forall fd :: fd in t.open ==> fd !in t.pipes && fd in t.interest)
    && (forall fd :: fd in t.interest ==> fd in t.pipes || fd in t.open)
    && (forall fd :: fd in t.sockets && fd !in t.clientMap ==> t.interest[fd] == Awaited(t.writers, fd))
    && (forall fd :: fd in t.pipes ==> fd in t.interest)
    && NO_FD !in t.interest
  }

  /** Entries and pipe ends agree. */
  ghost predicate Entered(t: Tables, wires: map<CgiProcess, Wire>) { Filed(t, wires) && Descriptors(t) }

  ghost predicate AllWired(t: Tables, wires: map<CgiProcess, Wire>) {
    forall p :: p in wires && Owned(t, p, wires[p]) ==> Wired(t, p, wires[p])
  }

  ghost predicate TablesOk(t: Tables, wires: map<CgiProcess, Wire>) {
    Entered(t, wires) && AllWired(t, wires)
  }

  // ---------------------------------------------------------------------------
  // The steps
  // ---------------------------------------------------------------------------

  /** Watch the client of a script for something else. */
  function WatchClient(t: Tables, w: Wire, i: Interest): Tables { t.(interest := t.interest[w.clientFd := i]) }

  function SetPaused(t: Tables, w: Wire, paused: bool): Tables {
    t.(interest := t.interest[w.stdoutFd := Interest(!paused, false)])
  }

  function CloseStdin(t: Tables, w: Wire): Tables {
    t.(stdinMap := t.stdinMap - {w.stdinFd}, interest := t.interest - {w.stdinFd}, pipes := t.pipes - {w.stdinFd})
  }

  function CloseStderr(t: Tables, w: Wire): Tables {
    t.(stderrMap := t.stderrMap - {w.stderrFd}, interest := t.interest - {w.stderrFd}, pipes := t.pipes - {w.stderrFd})
  }

  function Reap(t: Tables, w: Wire): Tables { t.(pidMap := t.pidMap - {w.pid}) }

  /**
   * A script leaves every table, its open pipe ends are closed, and its client is left out of account. The entry of its
   * pid goes too, whoever it stands for by now.
   */
  function Drop(t: Tables, w: Wire): Tables {
    var fds := {w.stdinFd, w.stdoutFd, w.stderrFd};
    t.(processes := t.processes - {w.stdoutFd}, stdinMap := t.stdinMap - {w.stdinFd},
       stderrMap := t.stderrMap - {w.stderrFd}, clientMap := t.clientMap - {w.clientFd}, pidMap := t.pidMap - {w.pid},
       interest := t.interest - fds, pipes := t.pipes - fds, sockets := t.sockets - {w.clientFd})
  }

  /** The running scripts that have been given the pid of `p`. */
  ghost function Namesakes(t: Tables, wires: map<CgiProcess, Wire>, p: CgiProcess): set<CgiProcess>
    requires p in wires
  {
    set q | q in wires && q != p && Owned(t, q, wires[q]) && !wires[q].reaped && wires[q].pid == wires[p].pid
  }

  /** Another running script has been given the pid of this one. */
  ghost predicate Reused(t: Tables, wires: map<CgiProcess, Wire>, p: CgiProcess)
    requires p in wires
  {
    Namesakes(t, wires, p) != {}
  }

  /** The tables once it is noted which scripts have lost their pid's entry. */
  ghost function Dropped(t: Tables, wires: map<CgiProcess, Wire>, p: CgiProcess): Tables
    requires p in wires
  {
    Drop(t, wires[p]).(lost := t.lost + Namesakes(t, wires, p))
  }

  function AddStdout(t: Tables, p: CgiProcess, fd: int): Tables {
    t.(processes := t.processes[fd := p], interest := t.interest[fd := READABLE], pipes := t.pipes + {fd})
  }

  function AddStderr(t: Tables, p: CgiProcess, fd: int): Tables {
    t.(stderrMap := t.stderrMap[fd := p], interest := t.interest[fd := READABLE], pipes := t.pipes + {fd})
  }

  function AddStdin(t: Tables, p: CgiProcess, fd: int): Tables {
    t.(stdinMap := t.stdinMap[fd := p], interest := t.interest[fd := WRITABLE], pipes := t.pipes + {fd})
  }

  function AddClient(t: Tables, p: CgiProcess, fd: int): Tables { t.(clientMap := t.clientMap[fd := p]) }

  function AddPid(t: Tables, p: CgiProcess, pid: int): Tables { t.(pidMap := t.pidMap[pid := p]) }

  /** A script enters the tables with fresh pipe ends; its stdin may already be closed. */
  function Register(t: Tables, p: CgiProcess, w: Wire): Tables {
    var t1 := AddPid(AddClient(AddStderr(AddStdout(t, p, w.stdoutFd), p, w.stderrFd), p, w.clientFd), p, w.pid);
    if w.stdinFd == NO_FD then t1 else AddStdin(t1, p, w.stdinFd)
  }

  lemma RegisterFields(t: Tables, p: CgiProcess, w: Wire)
    ensures var t' := Register(t, p, w);
            var outputs := t.interest[w.stdoutFd := READABLE][w.stderrFd := READABLE];
            && t'.processes == t.processes[w.stdoutFd := p] && t'.stderrMap == t.stderrMap[w.stderrFd := p]
            && t'.stdinMap == (if w.stdinFd == NO_FD then t.stdinMap else t.stdinMap[w.stdinFd := p])
            && t'.clientMap == t.clientMap[w.clientFd := p] && t'.pidMap == t.pidMap[w.pid := p]
            && t'.interest == (if w.stdinFd == NO_FD then outputs else outputs[w.stdinFd := WRITABLE])
            && t'.pipes == t.pipes + {w.stdoutFd} + {w.stderrFd} + (if w.stdinFd == NO_FD then {} else {w.stdinFd})
            && t'.open == t.open && t'.sockets == t.sockets && t'.writers == t.writers && t'.lost == t.lost
  {
    if w.stdinFd == NO_FD {
    } else {
    }
  }

  /** Two owned scripts share no descriptor, nor a pid as long as both are running and filed under it. */
  lemma Apart(t: Tables, wires: map<CgiProcess, Wire>, p: CgiProcess, q: CgiProcess)
    requires TablesOk(t, wires) && p in wires && q in wires && p != q
    requires Owned(t, p, wires[p]) && Owned(t, q, wires[q])
    ensures var v, w := wires[p], wires[q];
            && v.stdoutFd !in {w.stdinFd, w.stdoutFd, w.stderrFd, w.clientFd}
            && v.clientFd !in {w.stdinFd, w.stdoutFd, w.stderrFd, w.clientFd}
            && (v.stdinFd != NO_FD ==> v.stdinFd !in {w.stdinFd, w.stdoutFd, w.stderrFd, w.clientFd})
            && (v.stderrFd != NO_FD ==> v.stderrFd !in {w.stdinFd, w.stdoutFd, w.stderrFd, w.clientFd})
            && NO_FD !in {w.stdoutFd, w.clientFd}
            && (!v.reaped && !w.reaped && p !in t.lost && q !in t.lost ==> v.pid != w.pid)
  {
    assert Wired(t, p, wires[p]) && Wired(t, q, wires[q]);
  }

  // ---------------------------------------------------------------------------
  // Every step keeps the agreement
  // ---------------------------------------------------------------------------

  predicate SameEntry(a: Table, b: Table, n: int) { n in a ==> n in b && b[n] == a[n] }

  predicate SameInterest(a: map<int, Interest>, b: map<int, Interest>, fd: int) {
    fd in a ==> fd in b && b[fd] == a[fd]
  }

  /** A script stays wired when nothing is changed at its numbers. */
  lemma WiredSame(t: Tables, t': Tables, q: CgiProcess, w: Wire)
    requires Wired(t, q, w) && (q in t.lost ==> q in t'.lost)
    requires SameEntry(t.processes, t'.processes, w.stdoutFd) && SameInterest(t.interest, t'.interest, w.stdoutFd)
    requires w.stdinFd != NO_FD ==>
               SameEntry(t.stdinMap, t'.stdinMap, w.stdinFd) && SameInterest(t.interest, t'.interest, w.stdinFd)
    requires w.stderrFd != NO_FD ==>
               SameEntry(t.stderrMap, t'.stderrMap, w.stderrFd) && SameInterest(t.interest, t'.interest, w.stderrFd)
    requires SameEntry(t.clientMap, t'.clientMap, w.clientFd) && SameInterest(t.interest, t'.interest, w.clientFd)
    requires w.reaped || q in t'.lost || SameEntry(t.pidMap, t'.pidMap, w.pid)
    ensures Wired(t', q, w)
  {}

  /** Nothing but the interest in one descriptor, which is not one of the script's, is changed. */
  lemma WiredElsewhere(t: Tables, t': Tables, q: CgiProcess, w: Wire, fd: int)
    requires Wired(t, q, w) && t'.interest - {fd} == t.interest - {fd}
    requires t' == t.(interest := t'.interest, open := t'.open, sockets := t'.sockets, writers := t'.writers)
    requires fd !in {w.stdoutFd, w.clientFd} && (w.stdinFd != NO_FD ==> fd != w.stdinFd)
    requires w.stderrFd != NO_FD ==> fd != w.stderrFd
    ensures Wired(t', q, w)
  {
    hide Wired;
    forall n | n != fd ensures SameInterest(t.interest, t'.interest, n) {
      assert n in t.interest ==> n in t.interest - {fd};
    }
    WiredSame(t, t', q, w);
  }

  lemma WatchClientWired(t: Tables, wires: map<CgiProcess, Wire>, p: CgiProcess, q: CgiProcess, i: Interest,
                         pending: bool)
    requires TablesOk(t, wires) && p in wires && Owned(t, p, wires[p]) && q in wires && Owned(t, q, wires[q])
    requires pending ==> i == WRITABLE
    ensures Wired(WatchClient(t, wires[p], i), q, if q == p then wires[p].(pending := pending) else wires[q])
  {
    assert Wired(t, p, wires[p]) && Wired(t, q, wires[q]);
    if q == p {
      Distinct(t, wires, p);
      hide TablesOk, Wired;
      WatchClientOwn(t, p, wires[p], i, pending);
    } else {
      Apart(t, wires, p, q);
      hide TablesOk, Wired;
      WiredElsewhere(t, WatchClient(t, wires[p], i), q, wires[q], wires[p].clientFd);
    }
  }

  lemma WatchClientOwn(t: Tables, p: CgiProcess, w: Wire, i: Interest, pending: bool)
    requires Wired(t, p, w) && w.clientFd != w.stdoutFd && (w.stdinFd != NO_FD ==> w.clientFd != w.stdinFd)
    requires w.stderrFd != NO_FD ==> w.clientFd != w.stderrFd
    requires pending ==> i == WRITABLE
    ensures Wired(WatchClient(t, w, i), p, w.(pending := pending))
  {}

  /** The descriptors of a script and its client are different. */
  lemma Distinct(t: Tables, wires: map<CgiProcess, Wire>, p: CgiProcess)
    requires TablesOk(t, wires) && p in wires && Owned(t, p, wires[p])
    ensures var w := wires[p];
            && w.stdoutFd !in {w.stdinFd, w.stderrFd, w.clientFd, NO_FD}
            && w.clientFd !in {w.stdinFd, w.stderrFd, NO_FD}
            && (w.stdinFd != NO_FD ==> w.stdinFd != w.stderrFd)
  {
    assert Wired(t, p, wires[p]);
    hide Filed, AllWired;
  }

  lemma WatchClientKeeps(t: Tables, wires: map<CgiProcess, Wire>, p: CgiProcess, i: Interest, pending: bool)
    requires TablesOk(t, wires) && p in wires && Owned(t, p, wires[p])
    requires pending ==> i == WRITABLE
    ensures TablesOk(WatchClient(t, wires[p], i), wires[p := wires[p].(pending := pending)])
  {
    var t' := WatchClient(t, wires[p], i);
    var w' := wires[p].(pending := pending);
    RewireFiled(t, t', wires, p, w');
    assert Wired(t, p, wires[p]);
    assert Descriptors(t') by { hide Filed, AllWired; }
    var wires' := wires[p := w'];
    hide Filed, Descriptors, Wired, WatchClient;
    forall q | q in wires' && Owned(t', q, wires'[q]) ensures Wired(t', q, wires'[q]) {
      WatchClientWired(t, wires, p, q, i, pending);
    }
  }

  /**
   * The entries are right when nothing is changed but the interests, and nothing about a script but what is watched.
   */
  lemma RewireFiled(t: Tables, t': Tables, wires: map<CgiProcess, Wire>, p: CgiProcess, w': Wire)
    requires Filed(t, wires) && p in wires && t' == t.(interest := t'.interest)
    requires w' == wires[p].(paused := w'.paused, pending := w'.pending)
    ensures Filed(t', wires[p := w'])
    ensures forall q {:trigger Owned(t', q, wires[p := w'][q])} :: q in wires[p := w'] ==>
              (Owned(t', q, wires[p := w'][q]) <==> Owned(t, q, wires[q]))
  {}

  /** What a client has pending may change without a word to the poller while the poller waits to write. */
  lemma PendingKeeps(t: Tables, wires: map<CgiProcess, Wire>, p: CgiProcess, pending: bool)
    requires TablesOk(t, wires) && p in wires && Owned(t, p, wires[p])
    requires pending ==> wires[p].clientFd in t.interest && t.interest[wires[p].clientFd] == WRITABLE
    ensures TablesOk(t, wires[p := wires[p].(pending := pending)])
  {
    assert Wired(t, p, wires[p]);
    hide TablesOk;
    var i := t.interest[wires[p].clientFd];
    WatchClientKeeps(t, wires, p, i, pending);
    assert WatchClient(t, wires[p], i) == t;
  }

  lemma SetPausedWired(t: Tables, wires: map<CgiProcess, Wire>, p: CgiProcess, q: CgiProcess, paused: bool)
    requires TablesOk(t, wires) && p in wires && Owned(t, p, wires[p]) && q in wires && Owned(t, q, wires[q])
    ensures Wired(SetPaused(t, wires[p], paused), q, if q == p then wires[p].(paused := paused) else wires[q])
  {
    assert Wired(t, p, wires[p]) && Wired(t, q, wires[q]);
    if q == p {
      Distinct(t, wires, p);
      hide TablesOk;
    } else {
      Apart(t, wires, p, q);
      hide TablesOk, Wired;
      WiredElsewhere(t, SetPaused(t, wires[p], paused), q, wires[q], wires[p].stdoutFd);
    }
  }

  lemma SetPausedKeeps(t: Tables, wires: map<CgiProcess, Wire>, p: CgiProcess, paused: bool)
    requires TablesOk(t, wires) && p in wires && Owned(t, p, wires[p])
    ensures TablesOk(SetPaused(t, wires[p], paused), wires[p := wires[p].(paused := paused)])
  {
    var t' := SetPaused(t, wires[p], paused);
    var w' := wires[p].(paused := paused);
    RewireFiled(t, t', wires, p, w');
    assert Descriptors(t') by { hide Filed, AllWired; }
    var wires' := wires[p := w'];
    hide Filed, Descriptors, Wired, SetPaused;
    forall q | q in wires' && Owned(t', q, wires'[q]) ensures Wired(t', q, wires'[q]) {
      SetPausedWired(t, wires, p, q, paused);
    }
  }

  lemma CloseStdinWired(t: Tables, wires: map<CgiProcess, Wire>, p: CgiProcess, q: CgiProcess)
    requires TablesOk(t, wires) && p in wires && Owned(t, p, wires[p]) && wires[p].stdinFd != NO_FD
    requires q in wires && Owned(t, q, wires[q])
    ensures Wired(CloseStdin(t, wires[p]), q, if q == p then wires[p].(stdinFd := NO_FD) else wires[q])
  {
    assert Wired(t, p, wires[p]) && Wired(t, q, wires[q]);
    if q == p {
      Distinct(t, wires, p);
      hide TablesOk, Wired;
      CloseStdinOwn(t, p, wires[p]);
    } else {
      Apart(t, wires, p, q);
      hide TablesOk, Wired;
      WiredSame(t, CloseStdin(t, wires[p]), q, wires[q]);
    }
  }

  lemma CloseStdinOwn(t: Tables, p: CgiProcess, w: Wire)
    requires Wired(t, p, w) && w.stdinFd !in {w.stdoutFd, w.clientFd, NO_FD} && w.stdinFd != w.stderrFd
    ensures Wired(CloseStdin(t, w), p, w.(stdinFd := NO_FD))
  {}

  lemma CloseStdinEntered(t: Tables, wires: map<CgiProcess, Wire>, p: CgiProcess)
    requires Entered(t, wires) && p in wires && Owned(t, p, wires[p]) && Wired(t, p, wires[p])
    requires wires[p].stdinFd != NO_FD
    ensures Entered(CloseStdin(t, wires[p]), wires[p := wires[p].(stdinFd := NO_FD)])
  {
    var t', wires' := CloseStdin(t, wires[p]), wires[p := wires[p].(stdinFd := NO_FD)];
    assert Filed(t', wires') by { hide Descriptors; }
    assert Descriptors(t') by { hide Filed; }
  }

  lemma CloseStdinKeeps(t: Tables, wires: map<CgiProcess, Wire>, p: CgiProcess)
    requires TablesOk(t, wires) && p in wires && Owned(t, p, wires[p]) && wires[p].stdinFd != NO_FD
    ensures TablesOk(CloseStdin(t, wires[p]), wires[p := wires[p].(stdinFd := NO_FD)])
  {
    var t' := CloseStdin(t, wires[p]);
    var wires' := wires[p := wires[p].(stdinFd := NO_FD)];
    assert Wired(t, p, wires[p]);
    CloseStdinEntered(t, wires, p);
    hide Entered, Wired;
    forall q | q in wires' && Owned(t', q, wires'[q]) ensures Wired(t', q, wires'[q]) {
      CloseStdinWired(t, wires, p, q);
    }
  }

  lemma CloseStderrWired(t: Tables, wires: map<CgiProcess, Wire>, p: CgiProcess, q: CgiProcess)
    requires TablesOk(t, wires) && p in wires && Owned(t, p, wires[p]) && wires[p].stderrFd != NO_FD
    requires q in wires && Owned(t, q, wires[q])
    ensures Wired(CloseStderr(t, wires[p]), q, if q == p then wires[p].(stderrFd := NO_FD) else wires[q])
  {
    assert Wired(t, p, wires[p]) && Wired(t, q, wires[q]);
    if q == p {
      Distinct(t, wires, p);
      hide TablesOk, Wired;
      CloseStderrOwn(t, p, wires[p]);
    } else {
      Apart(t, wires, p, q);
      hide TablesOk, Wired;
      WiredSame(t, CloseStderr(t, wires[p]), q, wires[q]);
    }
  }

  lemma CloseStderrOwn(t: Tables, p: CgiProcess, w: Wire)
    requires Wired(t, p, w) && w.stderrFd !in {w.stdoutFd, w.clientFd, NO_FD} && w.stdinFd != w.stderrFd
    ensures Wired(CloseStderr(t, w), p, w.(stderrFd := NO_FD))
  {}

  lemma CloseStderrEntered(t: Tables, wires: map<CgiProcess, Wire>, p: CgiProcess)
    requires Entered(t, wires) && p in wires && Owned(t, p, wires[p]) && Wired(t, p, wires[p])
    requires wires[p].stderrFd != NO_FD
    ensures Entered(CloseStderr(t, wires[p]), wires[p := wires[p].(stderrFd := NO_FD)])
  {
    var t', wires' := CloseStderr(t, wires[p]), wires[p := wires[p].(stderrFd := NO_FD)];
    assert Filed(t', wires') by { hide Descriptors; }
    assert Descriptors(t') by { hide Filed; }
  }

  lemma CloseStderrKeeps(t: Tables, wires: map<CgiProcess, Wire>, p: CgiProcess)
    requires TablesOk(t, wires) && p in wires && Owned(t, p, wires[p]) && wires[p].stderrFd != NO_FD
    ensures TablesOk(CloseStderr(t, wires[p]), wires[p := wires[p].(stderrFd := NO_FD)])
  {
    var t' := CloseStderr(t, wires[p]);
    var wires' := wires[p := wires[p].(stderrFd := NO_FD)];
    assert Wired(t, p, wires[p]);
    CloseStderrEntered(t, wires, p);
    hide Entered, Wired;
    forall q | q in wires' && Owned(t', q, wires'[q]) ensures Wired(t', q, wires'[q]) {
      CloseStderrWired(t, wires, p, q);
    }
  }

  lemma ReapWired(t: Tables, wires: map<CgiProcess, Wire>, p: CgiProcess, q: CgiProcess)
    requires TablesOk(t, wires) && p in wires && Owned(t, p, wires[p]) && FiledPid(t, p, wires[p])
    requires q in wires && Owned(t, q, wires[q])
    ensures Wired(Reap(t, wires[p]), q, if q == p then wires[p].(reaped := true) else wires[q])
  {
    assert Wired(t, p, wires[p]) && Wired(t, q, wires[q]);
    if q == p {
      hide TablesOk;
    } else {
      Apart(t, wires, p, q);
      hide TablesOk, Wired;
      WiredSame(t, Reap(t, wires[p]), q, wires[q]);
    }
  }

  lemma ReapKeeps(t: Tables, wires: map<CgiProcess, Wire>, p: CgiProcess)
    requires TablesOk(t, wires) && p in wires && Owned(t, p, wires[p]) && FiledPid(t, p, wires[p])
    ensures TablesOk(Reap(t, wires[p]), wires[p := wires[p].(reaped := true)])
  {
    var t' := Reap(t, wires[p]);
    var wires' := wires[p := wires[p].(reaped := true)];
    assert Filed(t', wires') by { hide Descriptors, AllWired, Wired; }
    assert Descriptors(t') by { hide Filed, AllWired; }
    hide Filed, Descriptors, Wired;
    forall q | q in wires' && Owned(t', q, wires'[q]) ensures Wired(t', q, wires'[q]) {
      ReapWired(t, wires, p, q);
    }
  }

  lemma DropWired(t: Tables, wires: map<CgiProcess, Wire>, p: CgiProcess, q: CgiProcess)
    requires TablesOk(t, wires) && p in wires && Owned(t, p, wires[p]) && q in wires && q != p
    requires Owned(Drop(t, wires[p]), q, wires[q])
    ensures Wired(Dropped(t, wires, p), q, wires[q])
  {
    assert Owned(t, q, wires[q]);
    assert Wired(t, p, wires[p]) && Wired(t, q, wires[q]);
    Apart(t, wires, p, q);
    Apart(t, wires, q, p);
    hide TablesOk, Wired;
    WiredSame(t, Dropped(t, wires, p), q, wires[q]);
  }

  lemma DropFiled(t: Tables, wires: map<CgiProcess, Wire>, p: CgiProcess, w': Wire)
    requires Filed(t, wires) && p in wires && Wired(t, p, wires[p])
    ensures Filed(Dropped(t, wires, p), wires[p := w'])
  {
    hide Reused;
  }

  lemma DropDescriptors(t: Tables, wires: map<CgiProcess, Wire>, p: CgiProcess)
    requires p in wires && Descriptors(t) && Wired(t, p, wires[p])
    ensures Descriptors(Dropped(t, wires, p))
  {
    hide Reused;
  }

  lemma DropKeeps(t: Tables, wires: map<CgiProcess, Wire>, p: CgiProcess, w': Wire)
    requires TablesOk(t, wires) && p in wires && Owned(t, p, wires[p]) && w'.stdoutFd == NO_FD
    ensures TablesOk(Dropped(t, wires, p), wires[p := w'])
    ensures !Owned(Dropped(t, wires, p), p, w')
  {
    var t' := Dropped(t, wires, p);
    var wires' := wires[p := w'];
    assert Wired(t, p, wires[p]);
    assert NO_FD !in t.processes;
    DropFiled(t, wires, p, w');
    DropDescriptors(t, wires, p);
    hide Filed, Descriptors, Wired, Reused;
    forall q | q in wires' && Owned(t', q, wires'[q]) ensures Wired(t', q, wires'[q]) {
      DropWired(t, wires, p, q);
    }
  }

  /** Every running script is filed under its pid. */
  ghost predicate PidsFiled(t: Tables, wires: map<CgiProcess, Wire>) {
    forall p :: p in wires && Owned(t, p, wires[p]) && !wires[p].reaped ==> FiledPid(t, p, wires[p])
  }

  /** A running script is filed under its pid unless it is one of those that have lost the entry. */
  lemma FiledUnlessLost(t: Tables, wires: map<CgiProcess, Wire>, p: CgiProcess)
    requires TablesOk(t, wires) && p in wires && Owned(t, p, wires[p]) && !wires[p].reaped
    ensures p in t.lost || FiledPid(t, p, wires[p])
  {
    hide Entered;
    assert Wired(t, p, wires[p]);
  }

  /** Dropping a script leaves every other running one filed under its pid exactly if none has been given its pid. */
  lemma DropKeepsPids(t: Tables, wires: map<CgiProcess, Wire>, p: CgiProcess, w': Wire)
    requires TablesOk(t, wires) && PidsFiled(t, wires) && p in wires && Owned(t, p, wires[p]) && w'.stdoutFd == NO_FD
    ensures PidsFiled(Drop(t, wires[p]), wires[p := w']) <==> !Reused(t, wires, p)
    ensures !wires[p].reaped ==> !Reused(t, wires, p)
  {
    var t', wires' := Drop(t, wires[p]), wires[p := w'];
    assert NO_FD !in t.processes;
    forall q | q in wires && q != p && Owned(t, q, wires[q])
      ensures Owned(t', q, wires'[q])
      ensures !wires[q].reaped ==> (FiledPid(t', q, wires'[q]) <==> wires[q].pid != wires[p].pid)
      ensures !wires[q].reaped && wires[q].pid == wires[p].pid ==> q in Namesakes(t, wires, p)
    {
      Apart(t, wires, q, p);
    }
    if Reused(t, wires, p) {
      var q :| q in Namesakes(t, wires, p);
      assert Owned(t', q, wires'[q]) && !FiledPid(t', q, wires'[q]);
    }
    hide TablesOk;
  }

  /** How that comes about: a script is reaped before its output has been read, and a new one is given its pid. */
  lemma PidReuse(t: Tables, t1: Tables, t2: Tables, wires: map<CgiProcess, Wire>, wires2: map<CgiProcess, Wire>,
                 p: CgiProcess, q: CgiProcess, v: Wire, w: Wire)
    requires TablesOk(t, wires) && p !in wires && q !in wires && p != q
    requires !v.reaped && !v.paused && !v.pending && !w.reaped && !w.paused && !w.pending && v.pid == w.pid
    requires IsFresh(t, v) && t1 == Reap(Register(t, p, v), v) && IsFresh(t1, w) && t2 == Register(t1, q, w)
    requires wires2 == wires[p := v.(reaped := true)][q := w]
    ensures TablesOk(t2, wires2) && Owned(t2, p, wires2[p]) && Owned(t2, q, wires2[q]) && Reused(t2, wires2, p)
    ensures Owned(Drop(t2, v), q, w) && w.pid !in Drop(t2, v).pidMap
  {
    var v' := v.(reaped := true);
    hide TablesOk, Register, Reap, IsFresh, Owned, FiledPid;
    RegisterKeeps(t, wires, p, v);
    RegisterPid(t, p, v);
    ReapKeeps(Register(t, p, v), wires[p := v], p);
    assert wires[p := v][p := v'] == wires[p := v'];
    RegisterKeeps(t1, wires[p := v'], q, w);
    TwoOwned(t, t1, t2, p, q, v, w);
    assert q in wires2 && wires2[q] == w && wires2[p] == v';
    assert q in Namesakes(t2, wires2, p);
  }

  lemma RegisterPid(t: Tables, p: CgiProcess, w: Wire)
    ensures FiledPid(Register(t, p, w), p, w)
  {
    RegisterFields(t, p, w);
  }

  lemma TwoOwned(t: Tables, t1: Tables, t2: Tables, p: CgiProcess, q: CgiProcess, v: Wire, w: Wire)
    requires IsFresh(t, v) && t1 == Reap(Register(t, p, v), v) && IsFresh(t1, w) && t2 == Register(t1, q, w)
    ensures Owned(t2, p, v.(reaped := true)) && Owned(t2, q, w) && Owned(Drop(t2, v), q, w)
  {
    RegisterFields(t, p, v);
    RegisterFields(t1, q, w);
    hide Register;
    assert v.stdoutFd in t1.interest;
  }

  /**
   * The numbers that the kernel hands out for a new script: descriptors that are not open, and a pid that no child has
   * which has not been waited for. A script that has been reaped may have had it.
   */
  ghost predicate IsFresh(t: Tables, w: Wire) {
    && w.stdoutFd !in t.interest && w.stderrFd !in t.interest && w.stdinFd !in t.interest
    && w.stdoutFd != NO_FD && w.stderrFd != NO_FD && w.stdoutFd != w.stderrFd
    && w.stdinFd != w.stdoutFd && w.stdinFd != w.stderrFd
    && w.clientFd in t.sockets && w.clientFd !in t.clientMap
    && w.pid > 0 && w.pid !in t.pidMap
  }

  lemma AddStdoutKeeps(t: Tables, wires: map<CgiProcess, Wire>, p: CgiProcess, w: Wire)
    requires Entered(t, wires) && p !in wires && w.stdoutFd !in t.interest && w.stdoutFd != NO_FD
    ensures var t' := AddStdout(t, p, w.stdoutFd); Entered(t', wires[p := w]) && Owned(t', p, w)
  {
    AddStdoutFiled(t, wires, p, w);
    AddStdoutOpens(t, p, w.stdoutFd);
    hide Filed, Descriptors;
  }

  lemma AddStdoutFiled(t: Tables, wires: map<CgiProcess, Wire>, p: CgiProcess, w: Wire)
    requires Filed(t, wires) && p !in wires && w.stdoutFd !in t.processes
    ensures Filed(AddStdout(t, p, w.stdoutFd), wires[p := w])
  {
    var t', wires' := AddStdout(t, p, w.stdoutFd), wires[p := w];
    assert FiledByStdout(t', wires');
    forall q, v: Wire | Owned(t, q, v) ensures Owned(t', q, v) {}
    hide Owned, FiledByStdout;
  }

  lemma AddStdoutOpens(t: Tables, p: CgiProcess, fd: int)
    requires Descriptors(t) && fd !in t.interest && fd != NO_FD
    ensures Descriptors(AddStdout(t, p, fd)) && fd !in t.processes
  {}

  lemma AddStderrKeeps(t: Tables, wires: map<CgiProcess, Wire>, p: CgiProcess)
    requires Entered(t, wires) && p in wires && Owned(t, p, wires[p])
    requires wires[p].stderrFd !in t.interest && wires[p].stderrFd != NO_FD
    ensures Entered(AddStderr(t, p, wires[p].stderrFd), wires)
  {
  }

  lemma AddStdinKeeps(t: Tables, wires: map<CgiProcess, Wire>, p: CgiProcess)
    requires Entered(t, wires) && p in wires && Owned(t, p, wires[p])
    requires wires[p].stdinFd !in t.interest && wires[p].stdinFd != NO_FD
    ensures Entered(AddStdin(t, p, wires[p].stdinFd), wires)
  {
  }

  lemma AddClientKeeps(t: Tables, wires: map<CgiProcess, Wire>, p: CgiProcess)
    requires Entered(t, wires) && p in wires && Owned(t, p, wires[p])
    requires wires[p].clientFd in t.sockets
    ensures Entered(AddClient(t, p, wires[p].clientFd), wires)
  {
  }

  lemma AddPidKeeps(t: Tables, wires: map<CgiProcess, Wire>, p: CgiProcess)
    requires Entered(t, wires) && p in wires && Owned(t, p, wires[p]) && !wires[p].reaped
    ensures Entered(AddPid(t, p, wires[p].pid), wires)
  {
  }

  lemma RegisterEntered(t: Tables, wires: map<CgiProcess, Wire>, p: CgiProcess, w: Wire)
    requires Entered(t, wires) && p !in wires && IsFresh(t, w) && !w.reaped
    ensures Entered(Register(t, p, w), wires[p := w])
  {
    var wires' := wires[p := w];
    hide Entered;
    var t1 := AddStdout(t, p, w.stdoutFd);
    AddStdoutKeeps(t, wires, p, w);
    AddStderrKeeps(t1, wires', p);
    var t2 := AddStderr(t1, p, w.stderrFd);
    AddClientKeeps(t2, wires', p);
    var t3 := AddClient(t2, p, w.clientFd);
    AddPidKeeps(t3, wires', p);
    var t4 := AddPid(t3, p, w.pid);
    if w.stdinFd != NO_FD {
      AddStdinKeeps(t4, wires', p);
    }
  }

  lemma RegisterWired(t: Tables, p: CgiProcess, w: Wire, q: CgiProcess, v: Wire)
    requires Wired(t, q, v) && IsFresh(t, w) && NO_FD !in t.interest
    ensures Wired(Register(t, p, w), q, v)
  {
    hide Register;
    assert v.stdoutFd in t.interest && v.clientFd in t.clientMap && v.clientFd in t.interest;
    assert v.stdinFd != NO_FD ==> v.stdinFd in t.interest;
    assert v.stderrFd != NO_FD ==> v.stderrFd in t.interest;
    assert q in t.lost || v.reaped || v.pid in t.pidMap;
    RegisterFields(t, p, w);
    hide Wired;
    WiredSame(t, Register(t, p, w), q, v);
  }

  lemma RegisterOwn(t: Tables, p: CgiProcess, w: Wire)
    requires IsFresh(t, w) && !w.reaped && !w.paused && !w.pending && NO_FD !in t.interest
    requires w.clientFd in t.interest
    ensures Wired(Register(t, p, w), p, w)
  {
    RegisterFields(t, p, w);
    hide Register;
  }

  lemma RegisterOwned(t: Tables, p: CgiProcess, w: Wire)
    ensures Owned(Register(t, p, w), p, w)
    ensures forall q, v: Wire :: v.stdoutFd != w.stdoutFd ==> (Owned(Register(t, p, w), q, v) <==> Owned(t, q, v))
    ensures forall q, v: Wire :: v.stdoutFd == w.stdoutFd && Owned(Register(t, p, w), q, v) ==> q == p
  {
    RegisterFields(t, p, w);
    hide Register;
  }

  lemma RegisterKeeps(t: Tables, wires: map<CgiProcess, Wire>, p: CgiProcess, w: Wire)
    requires TablesOk(t, wires) && p !in wires && IsFresh(t, w) && !w.reaped && !w.paused && !w.pending
    ensures TablesOk(Register(t, p, w), wires[p := w])
    ensures Owned(Register(t, p, w), p, w)
  {
    var t' := Register(t, p, w);
    var wires' := wires[p := w];
    RegisterEntered(t, wires, p, w);
    RegisterOwn(t, p, w);
    RegisterOwned(t, p, w);
    hide Entered, Wired, Register, Owned, IsFresh;
    forall q | q in wires' && Owned(t', q, wires'[q]) ensures Wired(t', q, wires'[q]) {
      if q != p {
        assert Wired(t, q, wires[q]);
        RegisterWired(t, p, w, q, wires[q]);
      }
    }
  }

  /** The entries of one table are entries of another. */
  ghost predicate SubTable(a: Table, b: Table) { forall fd :: fd in a ==> fd in b && a[fd] == b[fd] }

  /** Nothing is changed but the interest in one descriptor that is in no table, and the account of connections. */
  lemma AllWiredElsewhere(t: Tables, t': Tables, wires: map<CgiProcess, Wire>, fd: int)
    requires AllWired(t, wires) && t'.interest - {fd} == t.interest - {fd}
    requires t' == t.(interest := t'.interest, open := t'.open, sockets := t'.sockets, writers := t'.writers)
    requires fd !in t.processes && fd !in t.stdinMap && fd !in t.stderrMap && fd !in t.clientMap
    ensures AllWired(t', wires)
  {
    forall q | q in wires && Owned(t', q, wires[q]) ensures Wired(t', q, wires[q]) {
      assert Owned(t, q, wires[q]);
      assert Wired(t, q, wires[q]);
      OutsideOf(t, q, wires[q], fd);
      hide Wired;
      WiredElsewhere(t, t', q, wires[q], fd);
    }
  }

  lemma OutsideOf(t: Tables, q: CgiProcess, w: Wire, fd: int)
    requires Wired(t, q, w) && fd !in t.processes && fd !in t.stdinMap && fd !in t.stderrMap && fd !in t.clientMap
    ensures fd !in {w.stdoutFd, w.clientFd} && (w.stdinFd != NO_FD ==> fd != w.stdinFd)
    ensures w.stderrFd != NO_FD ==> fd != w.stderrFd
  {}

  lemma FiledElsewhere(t: Tables, t': Tables, wires: map<CgiProcess, Wire>)
    requires Filed(t, wires)
    requires t' == t.(interest := t'.interest, open := t'.open, sockets := t'.sockets, writers := t'.writers)
    ensures Filed(t', wires)
  {}

  /** The connections that wait to be written to, once it is settled what this one waits for. */
  function Settle(writers: set<int>, fd: int, write: bool): set<int> {
    if write then writers + {fd} else writers - {fd}
  }

  /** A connection is taken into account, watched for what it waits for. */
  lemma SocketAdded(t: Tables, wires: map<CgiProcess, Wire>, fd: int, write: bool)
    requires TablesOk(t, wires) && fd !in t.pipes && fd !in t.clientMap && fd != NO_FD
    ensures TablesOk(Taken(t, fd, write), wires)
  {
    var t' := Taken(t, fd, write);
    hide Wired, Filed;
    FiledElsewhere(t, t', wires);
    TakenDescriptors(t, fd, write);
    AllWiredElsewhere(t, t', wires, fd);
    hide AllWired, Descriptors;
  }

  /** The tables with a connection taken into account. */
  function Taken(t: Tables, fd: int, write: bool): Tables {
    t.(interest := t.interest[fd := if write then WRITABLE else READABLE], open := t.open + {fd},
       sockets := t.sockets + {fd}, writers := Settle(t.writers, fd, write))
  }

  lemma TakenDescriptors(t: Tables, fd: int, write: bool)
    requires Descriptors(t) && fd !in t.pipes && fd !in t.clientMap && fd != NO_FD
    ensures Descriptors(Taken(t, fd, write))
    ensures fd !in t.processes && fd !in t.stdinMap && fd !in t.stderrMap
  {}

  /** A connection that no script serves is left out of account. */
  lemma SocketLost(t: Tables, wires: map<CgiProcess, Wire>, fd: int)
    requires TablesOk(t, wires) && fd !in t.clientMap
    ensures TablesOk(t.(sockets := t.sockets - {fd}), wires)
  {
    var t' := t.(sockets := t.sockets - {fd});
    hide Wired, Filed;
    FiledElsewhere(t, t', wires);
    forall q | q in wires && Owned(t', q, wires[q]) ensures Wired(t', q, wires[q]) {
      assert Owned(t, q, wires[q]);
      WiredSame(t, t', q, wires[q]);
    }
  }

  /** A descriptor that is of no account is not registered any more. */
  lemma Deregistered(t: Tables, wires: map<CgiProcess, Wire>, fd: int)
    requires TablesOk(t, wires) && fd !in t.sockets && fd !in t.pipes
    ensures TablesOk(t.(interest := t.interest - {fd}, open := t.open - {fd}), wires)
  {
    var t' := t.(interest := t.interest - {fd}, open := t.open - {fd});
    hide Wired, Filed;
    FiledElsewhere(t, t', wires);
    AllWiredElsewhere(t, t', wires, fd);
    hide AllWired;
  }

  /** A connection that no script serves is watched for what it waits for from now on. */
  lemma OutsideKeeps(t: Tables, wires: map<CgiProcess, Wire>, fd: int, write: bool)
    requires TablesOk(t, wires) && fd in t.open && fd !in t.clientMap
    ensures TablesOk(t.(interest := t.interest[fd := if write then WRITABLE else READABLE],
                        writers := Settle(t.writers, fd, write)), wires)
  {
    var t' := t.(interest := t.interest[fd := if write then WRITABLE else READABLE],
                 writers := Settle(t.writers, fd, write));
    hide Wired, Filed;
    FiledElsewhere(t, t', wires);
    AllWiredElsewhere(t, t', wires, fd);
    hide AllWired;
  }
}
