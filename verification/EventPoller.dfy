/** The readiness poller and the descriptor table behind it. */
module EventPolling {

  datatype Interest = Interest(readable: bool, writable: bool)

  const READABLE: Interest := Interest(true, false)
  const WRITABLE: Interest := Interest(false, true)
  const NOTHING: Interest := Interest(false, false)

  class EventPoller {
    /** The registered descriptors and what is watched on each. */
    var interest: map<int, Interest>
    /** The CGI pipe ends that are open in this process. */
    ghost var pipes: set<int>
    /** The connections, which are registered for as long as they are open. */
    ghost var open: set<int>
    /** Those of them that are not about to be answered for, or given up with, a script that has ended. */
    ghost var sockets: set<int>
    /** Those of them that wait to be written to, as long as no script serves them; the others wait to be read from. */
    ghost var writers: set<int>

    constructor ()
      ensures interest == map[] && pipes == {} && open == {} && sockets == {} && writers == {}
    {
      interest, pipes, open, sockets, writers := map[], {}, {}, {}, {};
    }

    method Add(fd: int, readable: bool, writable: bool)
      requires fd !in interest
      modifies `interest
      ensures interest == old(interest)[fd := Interest(readable, writable)]
    {
      interest := interest[fd := Interest(readable, writable)];
    }

    /** A descriptor that is not registered any more is registered again. */
    method Update(fd: int, readable: bool, writable: bool)
      modifies `interest
      ensures interest == old(interest)[fd := Interest(readable, writable)]
    {
      interest := interest[fd := Interest(readable, writable)];
    }

    method Remove(fd: int)
      modifies `interest
      ensures interest == old(interest) - {fd}
    {
      interest := interest - {fd};
    }

    /** The kernel hands out a pipe end. */
    ghost method Open(fd: int)
      requires fd !in pipes
      modifies `pipes
      ensures pipes == old(pipes) + {fd}
    {
      pipes := pipes + {fd};
    }

    /** close(2) on a pipe end: it must be open, and must not be registered any more. */
    ghost method Close(fd: int)
      requires fd in pipes && fd !in interest
      modifies `pipes
      ensures pipes == old(pipes) - {fd}
    {
      pipes := pipes - {fd};
    }
  }
}
