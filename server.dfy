/**
 * The server core (src/mk_server.c): the client capacity decision, the
 * table of listening sockets, accepting a connection on one of them, and
 * the rule by which a worker dispatches the events its loop reports.
 *
 * System calls and the code of other files are oracles: their results are
 * parameters of the members that use them.
 */
module Server {
  import opened Common
  import opened Event

  // ---------------------------------------------------------------------
  // mk_server_capacity
  // ---------------------------------------------------------------------

  /**
   * The RLIMIT_NOFILE soft limit in force when mk_server_capacity returns:
   * the configured limit if it was above the soft limit and raising
   * succeeded, the soft limit it found otherwise.
   */
  function SoftLimitAfter(fdLimit: Int32, softLimit: Int32, raised: bool): (r: Int32)
    ensures r == fdLimit || r == softLimit
  {
    if fdLimit > softLimit && raised then fdLimit else softLimit
  }

  /**
   * mk_server_capacity: how many clients can be attended. `fdLimit` is the
   * configured FDLimit, `softLimit` the soft limit getrlimit reported (as a
   * C int) and `raised` whether setrlimit succeeded, which matters only
   * when it is called, i.e. when `fdLimit > softLimit`. The `int` result is
   * returned as `unsigned int`.
   */
  function Capacity(fdLimit: Int32, softLimit: Int32, raised: bool): (r: Uint32)
    // a positive configured limit is used whenever the file limit allows it
    ensures 0 < fdLimit <= SoftLimitAfter(fdLimit, softLimit, raised) ==> r == fdLimit
    // a configured limit the process could not get is not used
    ensures fdLimit > SoftLimitAfter(fdLimit, softLimit, raised) ==> r == AsUnsigned(softLimit)
    // without a positive configured limit the limit in force is used
    ensures fdLimit <= 0 ==> r == AsUnsigned(SoftLimitAfter(fdLimit, softLimit, raised))
    // the capacity never exceeds a (non-negative) file limit in force
    ensures 0 <= SoftLimitAfter(fdLimit, softLimit, raised) ==> r <= SoftLimitAfter(fdLimit, softLimit, raised)
  {
    var cur :=
      if fdLimit > softLimit then
        (if raised then fdLimit else softLimit)
      else if fdLimit > 0 then fdLimit
      else softLimit;
    AsUnsigned(cur)
  }

  /** The contract of Capacity leaves no choice: it is a complete specification. */
  lemma CapacityDetermined(fdLimit: Int32, softLimit: Int32, raised: bool, r: Uint32)
    requires 0 < fdLimit <= SoftLimitAfter(fdLimit, softLimit, raised) ==> r == fdLimit
    requires fdLimit > SoftLimitAfter(fdLimit, softLimit, raised) ==> r == AsUnsigned(softLimit)
    requires fdLimit <= 0 ==> r == AsUnsigned(SoftLimitAfter(fdLimit, softLimit, raised))
    ensures r == Capacity(fdLimit, softLimit, raised)
  {
  }

  // ---------------------------------------------------------------------
  // The listener table: mk_server_listen_init / _free / _check
  // ---------------------------------------------------------------------

  /** A configured Listen directive (struct mk_config_listener). */
  datatype Listener = Listener(address: string, port: string)

  /**
   * The part of struct mk_server_config the listener table reads. The
   * source counts the entries of the global `mk_config` and fills them from
   * its `config` argument; every caller passes `mk_config`, so both are
   * this one listener sequence.
   */
  datatype ServerConfig = ServerConfig(schedulerMode: SchedulerMode, listeners: seq<Listener>)

  /** struct mk_server_listen_entry: the listener and its socket, -1 if binding failed. */
  datatype ListenEntry = ListenEntry(listen: Option<Listener>, serverFd: int)

  /** Some entry holds `fd`. */
  predicate Listens(entries: seq<ListenEntry>, fd: int) {
    exists i :: 0 <= i < |entries| && entries[i].serverFd == fd
  }

  /** The entry for `l` once creating its socket returned `fd`. */
  function EntryFor(l: Listener, fd: int): ListenEntry {
    if fd >= 0 then ListenEntry(Some(l), fd) else ListenEntry(None, -1)
  }

  /**
   * The entries mk_server_listen_init builds, one per listener in order;
   * `socketServer` stands for mk_socket_server (port, address, reuse_port).
   */
  ghost function InitEntries(listeners: seq<Listener>, reusePort: bool,
                             socketServer: (Listener, bool) -> int): (r: seq<ListenEntry>)
    ensures |r| == |listeners|
  {
    seq(|listeners|, i requires 0 <= i < |listeners| => EntryFor(listeners[i], socketServer(listeners[i], reusePort)))
  }

  /**
   * After initialisation a descriptor is a listener exactly when it is a
   * socket created for some listener, or -1 when binding some listener failed.
   */
  lemma InitListens(listeners: seq<Listener>, reusePort: bool,
                    socketServer: (Listener, bool) -> int, fd: int)
    ensures Listens(InitEntries(listeners, reusePort, socketServer), fd) <==>
              (fd >= 0 && exists i :: 0 <= i < |listeners| && socketServer(listeners[i], reusePort) == fd)
              || (fd == -1 && exists i :: 0 <= i < |listeners| && socketServer(listeners[i], reusePort) < 0)
  {
    var entries := InitEntries(listeners, reusePort, socketServer);
    if fd >= 0 && exists i :: 0 <= i < |listeners| && socketServer(listeners[i], reusePort) == fd {
      var i :| 0 <= i < |listeners| && socketServer(listeners[i], reusePort) == fd;
      assert entries[i].serverFd == fd;
    }
    if fd == -1 && exists i :: 0 <= i < |listeners| && socketServer(listeners[i], reusePort) < 0 {
      var i :| 0 <= i < |listeners| && socketServer(listeners[i], reusePort) < 0;
      assert entries[i].serverFd == fd;
    }
    if Listens(entries, fd) {
      var i :| 0 <= i < |entries| && entries[i].serverFd == fd;
      assert socketServer(listeners[i], reusePort) == fd || socketServer(listeners[i], reusePort) < 0;
    }
  }

  /** struct mk_server_listen: the entry array and how many entries it holds. */
  class ServerListen {
    var listenList: array?<ListenEntry>
    var count: nat

    ghost predicate Valid()
      reads this
    {
      (listenList == null ==> count == 0) &&
      (listenList != null ==> count <= listenList.Length)
    }

    /** The first `count` entries of the table. */
    function Entries(): (r: seq<ListenEntry>)
      requires Valid()
      reads this, listenList
      ensures |r| == count
    {
      if listenList == null then [] else listenList[..count]
    }

    constructor ()
      ensures Valid() && listenList == null && count == 0
    {
      listenList := null;
      count := 0;
    }

    /** mk_server_listen_free: drop the entry array. */
    method Free()
      modifies this
      ensures Valid() && listenList == null && count == 0 && Entries() == []
    {
      listenList := null;
      count := 0;
    }
  }

  /**
   * mk_server_listen_init. `allocOk` is whether calloc succeeded. On
   * success the table holds one entry per listener, in order; on failure
   * nothing is written.
   */
  method ListenInit(config: Option<ServerConfig>, server: ServerListen?, allocOk: bool,
                    socketServer: (Listener, bool) -> int) returns (rc: int)
    modifies server
    ensures rc == 0 || rc == -1
    ensures rc == -1 <==> config.None? || server == null || !allocOk
    ensures rc == -1 && server != null ==> unchanged(server)
    ensures rc == 0 ==> server != null && server.Valid() && fresh(server.listenList)
    ensures rc == 0 ==> server.count == |config.value.listeners|
    ensures rc == 0 ==>
              server.Entries() == InitEntries(config.value.listeners, config.value.schedulerMode == ReusePort, socketServer)
  {
    if config.None? || server == null {
      return -1;
    }
    var reusePort := config.value.schedulerMode == ReusePort;
    var listeners := config.value.listeners;
    var count := |listeners|;
    if !allocOk {
      return -1;
    }
    var list := new ListenEntry[count](_ => ListenEntry(None, 0));
    var i := 0;
    while i < count
      invariant 0 <= i <= count
      invariant forall k :: 0 <= k < i ==> list[k] == EntryFor(listeners[k], socketServer(listeners[k], reusePort))
      invariant forall k :: i <= k < count ==> list[k] == ListenEntry(None, 0)
    {
      var serverFd := socketServer(listeners[i], reusePort);
      if serverFd >= 0 {
        list[i] := ListenEntry(Some(listeners[i]), serverFd);
      } else {
        list[i] := ListenEntry(list[i].listen, -1);
      }
      i := i + 1;
    }
    server.count := count;
    server.listenList := list;
    assert list[..count] == InitEntries(listeners, reusePort, socketServer);
    return 0;
  }

  /**
   * mk_server_listen_check: whether `serverFd` is one of the table's
   * sockets; false for a NULL table.
   */
  method ListenCheck(listen: ServerListen?, serverFd: int) returns (found: bool)
    requires listen != null ==> listen.Valid()
    ensures found <==> listen != null && Listens(listen.Entries(), serverFd)
  {
    if listen == null {
      return false;
    }
    var i := 0;
    while i < listen.count
      invariant 0 <= i <= listen.count
      invariant forall k :: 0 <= k < i ==> listen.Entries()[k].serverFd != serverFd
    {
      if listen.listenList[i].serverFd == serverFd {
        assert listen.Entries()[i].serverFd == serverFd;
        return true;
      }
      i := i + 1;
    }
    return false;
  }

  // ---------------------------------------------------------------------
  // mk_server_listen_handler
  // ---------------------------------------------------------------------

  /** The part of struct sched_list_node the handler updates. */
  class Scheduler {
    var acceptedConnections: Uint64

    constructor ()
      ensures acceptedConnections == 0
    {
      acceptedConnections := 0;
    }
  }

  /**
   * What the calls the handler makes report: whether the scheduler has room
   * (mk_sched_check_capacity), the descriptor accept gave, the result of
   * registering it with the event loop, whether `sched` is the calling
   * thread's scheduler and, if so, the result of registering the client.
   */
  datatype AcceptOracle = AcceptOracle(capacityOk: bool, acceptFd: int, eventAddRc: int,
                                       localSched: bool, registerRc: int)

  /** A descriptor was obtained from accept. */
  predicate Accepted(io: AcceptOracle) {
    io.capacityOk && io.acceptFd != -1
  }

  /** Every step after the table lookup succeeds. */
  predicate Admitted(io: AcceptOracle) {
    Accepted(io) && io.eventAddRc == 0 && (io.localSched ==> io.registerRc == 0)
  }

  /**
   * mk_server_listen_handler: accept a connection on `serverFd` if it is one
   * of the table's sockets. Returns the client descriptor, or -1; `closed`
   * is the descriptor it closed on the way out, if any.
   */
  method ListenHandler(sched: Scheduler, listen: ServerListen?, serverFd: int, io: AcceptOracle)
    returns (rc: int, closed: Option<int>)
    requires listen != null ==> listen.Valid()
    modifies sched
    ensures var listening := listen != null && Listens(listen.Entries(), serverFd);
            listening && Admitted(io) ==>
              rc == io.acceptFd && closed == None &&
              sched.acceptedConnections == (old(sched.acceptedConnections) + 1) % TwoTo64
    ensures var listening := listen != null && Listens(listen.Entries(), serverFd);
            !(listening && Admitted(io)) ==>
              rc == -1 && sched.acceptedConnections == old(sched.acceptedConnections) &&
              closed == (if listening && Accepted(io) then Some(io.acceptFd) else None)
  {
    if listen == null {
      return -1, None;
    }
    var clientFd := -1;
    var i := 0;
    while i < listen.count
      invariant 0 <= i <= listen.count
      invariant forall k :: 0 <= k < i ==> listen.Entries()[k].serverFd != serverFd
      invariant sched.acceptedConnections == old(sched.acceptedConnections)
      invariant clientFd == -1
    {
      if listen.listenList[i].serverFd != serverFd {
        i := i + 1;
        continue;
      }
      assert listen.Entries()[i].serverFd == serverFd;
      if !io.capacityOk {
        break;
      }
      clientFd := io.acceptFd;
      if clientFd == -1 {
        break;
      }
      if io.eventAddRc != 0 || (io.localSched && io.registerRc != 0) {
        break;
      }
      sched.acceptedConnections := (sched.acceptedConnections + 1) % TwoTo64;
      return clientFd, None;
    }
    // error:
    closed := if clientFd != -1 then Some(clientFd) else None;
    rc := -1;
  }

  // ---------------------------------------------------------------------
  // mk_server_worker_loop: registering listeners and dispatching events
  // ---------------------------------------------------------------------

  /** The descriptors of the entries whose socket exists, in table order. */
  function Registrable(entries: seq<ListenEntry>): seq<int> {
    if entries == [] then []
    else (if entries[0].serverFd >= 0 then [entries[0].serverFd] else []) + Registrable(entries[1..])
  }

  /** Only existing listener sockets are registered, and every one of them is. */
  lemma {:induction false} RegistrableExact(entries: seq<ListenEntry>)
    ensures forall fd :: fd in Registrable(entries) <==> fd >= 0 && Listens(entries, fd)
  {
    if entries != [] {
      RegistrableExact(entries[1..]);
      forall fd
        ensures Listens(entries, fd) <==> entries[0].serverFd == fd || Listens(entries[1..], fd)
      {
        if Listens(entries, fd) && entries[0].serverFd != fd {
          var i :| 0 <= i < |entries| && entries[i].serverFd == fd;
          assert entries[1..][i - 1].serverFd == fd;
        }
        if Listens(entries[1..], fd) {
          var i :| 0 <= i < |entries[1..]| && entries[1..][i].serverFd == fd;
          assert entries[i + 1].serverFd == fd;
        }
      }
    }
  }

  /**
   * The registration loop that starts the worker's event loop: every entry
   * with a socket is added for READ events, in table order, and an entry
   * whose binding failed is skipped. Returns the descriptors added.
   */
  method RegisterListeners(listen: ServerListen) returns (added: seq<int>)
    requires listen.Valid()
    ensures added == Registrable(listen.Entries())
    ensures forall fd :: fd in added <==> fd >= 0 && Listens(listen.Entries(), fd)
  {
    ghost var entries := listen.Entries();
    added := [];
    var i := 0;
    while i < listen.count
      invariant 0 <= i <= listen.count
      invariant added + Registrable(entries[i..]) == Registrable(entries)
    {
      var entry := listen.listenList[i];
      assert entries[i..][0] == entry && entries[i..][1..] == entries[i + 1..];
      if entry.serverFd >= 0 {
        added := added + [entry.serverFd];
      }
      i := i + 1;
    }
    assert entries[i..] == [];
    RegistrableExact(entries);
  }

  /** How a worker classifies the descriptor of a READ event. */
  datatype FdClass = SignalChannel | TimeoutFd | ListenSocket | Client

  /**
   * The value read from the signal channel. The values of
   * MK_SCHEDULER_SIGNAL_DEADBEEF and MK_SCHEDULER_SIGNAL_FREE_ALL are
   * distinct; everything else is `OtherSignal`.
   */
  datatype Signal = Deadbeef | FreeAll | OtherSignal

  /**
   * What the I/O performed for one event reports: the result of read() and
   * the value read (signal channel and timeout descriptor), and the result
   * of mk_conn_read or mk_conn_write (a client).
   */
  datatype IoResult = IoResult(readRet: int, signal: Signal, connRet: int)

  /** What the worker does for one event. */
  datatype Action =
    | SignalReadFailed   // read on the signal channel failed; next event
    | SyncCounters       // DEADBEEF: mk_sched_sync_counters; next event
    | Shutdown           // FREE_ALL: destroy the loop, free the worker, return
    | SignalIgnored      // any other signal value
    | TimeoutReadFailed  // read on the timeout descriptor failed; next event
    | CheckTimeouts      // mk_sched_check_timeouts; next event
    | Accept             // mk_server_listen_handler; next event
    | ConnRead           // mk_conn_read
    | ConnWrite          // mk_conn_write
    | Hangup             // a CLOSE event
    | NoHandler          // none of READ, WRITE, CLOSE is set

  /** The action, the worker's `ret` afterwards, and whether the fd is force-closed. */
  datatype Step = Step(action: Action, ret: int, close: bool)

  /** The actions after which the loop goes to the next event without the close test. */
  predicate SkipsCloseTest(a: Action) {
    a.SignalReadFailed? || a.SyncCounters? || a.Shutdown? ||
    a.TimeoutReadFailed? || a.CheckTimeouts? || a.Accept?
  }

  /** The actions of the READ branch. */
  predicate ReadAction(a: Action) {
    !(a.ConnWrite? || a.Hangup? || a.NoHandler?)
  }

  /**
   * The classification the worker applies to a READ event's descriptor: the
   * signal channel is tested first, then the timeout descriptor, then the
   * listener table (`listening`).
   */
  function Classify(fd: int, signalFd: int, timeoutFd: int, listening: bool): (c: FdClass)
    ensures c == SignalChannel <==> fd == signalFd
    ensures c == TimeoutFd <==> fd != signalFd && fd == timeoutFd
    ensures c == ListenSocket <==> fd != signalFd && fd != timeoutFd && listening
  {
    if fd == signalFd then SignalChannel
    else if fd == timeoutFd then TimeoutFd
    else if listening then ListenSocket
    else Client
  }

  function Continue(a: Action, ret: int): Step { Step(a, ret, false) }
  function FallThrough(a: Action, ret: int): Step { Step(a, ret, ret < 0) }

  /**
   * The dispatch rule of the worker loop for one event with mask `mask` on
   * a descriptor of class `cls`; `prevRet` is `ret` as the previous event
   * left it.
   */
  function Dispatch(mask: bv32, cls: FdClass, io: IoResult, prevRet: int): Step
  {
    if HasRead(mask) then
      match cls
      case SignalChannel =>
        if io.readRet < 0 then Continue(SignalReadFailed, io.readRet)
        else if io.signal == Deadbeef then Continue(SyncCounters, io.readRet)
        else if io.signal == FreeAll then Continue(Shutdown, io.readRet)
        else FallThrough(SignalIgnored, io.readRet)
      case TimeoutFd =>
        if io.readRet < 0 then Continue(TimeoutReadFailed, io.readRet)
        else Continue(CheckTimeouts, io.readRet)
      case ListenSocket => Continue(Accept, prevRet)
      case Client => FallThrough(ConnRead, io.connRet)
    else if HasWrite(mask) then FallThrough(ConnWrite, io.connRet)
    else if HasClose(mask) then FallThrough(Hangup, -1)
    else FallThrough(NoHandler, prevRet)
  }

  /** The properties of the dispatch rule. */
  lemma DispatchRules(mask: bv32, cls: FdClass, io: IoResult, prevRet: int)
    ensures var s := Dispatch(mask, cls, io, prevRet);
      // READ is tested before WRITE, and WRITE before CLOSE
      && (HasRead(mask) ==> ReadAction(s.action))
      && (!HasRead(mask) && HasWrite(mask) ==> s.action == ConnWrite && s.ret == io.connRet)
      && (!HasRead(mask) && !HasWrite(mask) && HasClose(mask) ==> s.action == Hangup && s.close)
      // an event with none of the three bits re-uses the previous event's result
      && (!HasRead(mask) && !HasWrite(mask) && !HasClose(mask) ==> s.action == NoHandler && s.ret == prevRet)
      // any negative result forces a close, unless the branch went on to the next event
      && (s.close <==> s.ret < 0 && !SkipsCloseTest(s.action))
      // READ events on the signal channel, the timer or a listener never close it
      && (s.close ==> !HasRead(mask) || cls == Client)
      // only a FREE_ALL read from the signal channel stops the worker
      && (s.action == Shutdown <==>
            HasRead(mask) && cls == SignalChannel && io.readRet >= 0 && io.signal == FreeAll)
  {
  }

  /** The class of each event's descriptor, given the listener table (None: NULL). */
  function Classes(table: Option<seq<ListenEntry>>, signalFd: int, timeoutFd: int,
                   events: seq<Event>): (r: seq<FdClass>)
    ensures |r| == |events|
  {
    seq(|events|, i requires 0 <= i < |events| =>
      Classify(events[i].fd, signalFd, timeoutFd, table.Some? && Listens(table.value, events[i].fd)))
  }

  /**
   * One pass of mk_event_foreach: the steps taken for the reported events,
   * in order, with `ret` carried from each event to the next; the pass ends
   * after a Shutdown.
   */
  function Batch(events: seq<Event>, classes: seq<FdClass>, io: seq<IoResult>, ret: int): seq<Step>
    requires |classes| == |events| && |io| == |events|
  {
    if events == [] then []
    else
      var s := Dispatch(events[0].mask, classes[0], io[0], ret);
      if s.action == Shutdown then [s]
      else [s] + Batch(events[1..], classes[1..], io[1..], s.ret)
  }

  /**
   * A pass handles the events in order and stops exactly at the first
   * Shutdown: no step before the last is a Shutdown, and a pass that stops
   * short of the last event ends with one.
   */
  lemma {:induction false} BatchStopsAtShutdown(events: seq<Event>, classes: seq<FdClass>,
                                               io: seq<IoResult>, ret: int)
    requires |classes| == |events| && |io| == |events|
    ensures var b := Batch(events, classes, io, ret);
            |b| <= |events| &&
            (forall k :: 0 <= k < |b| - 1 ==> b[k].action != Shutdown) &&
            (|b| < |events| ==> b != [] && b[|b| - 1].action == Shutdown) &&
            (b != [] ==> b[0] == Dispatch(events[0].mask, classes[0], io[0], ret))
  {
    if events != [] {
      var s := Dispatch(events[0].mask, classes[0], io[0], ret);
      if s.action != Shutdown {
        var rest := Batch(events[1..], classes[1..], io[1..], s.ret);
        BatchStopsAtShutdown(events[1..], classes[1..], io[1..], s.ret);
        var b := [s] + rest;
        assert Batch(events, classes, io, ret) == b;
        assert forall k :: 0 <= k < |b| - 1 ==> b[k].action != Shutdown by {
          assert forall k :: 1 <= k < |b| ==> b[k] == rest[k - 1];
        }
      }
    }
  }

  /** The class of the descriptor matters only for a READ event. */
  lemma DispatchIgnoresClass(mask: bv32, c1: FdClass, c2: FdClass, io: IoResult, prevRet: int)
    requires HasRead(mask) ==> c1 == c2
    ensures Dispatch(mask, c1, io, prevRet) == Dispatch(mask, c2, io, prevRet)
  {
  }

  /**
   * Handling the `i`-th event extends the steps taken so far towards the
   * whole pass: a Shutdown completes it, any other step leaves the rest of
   * the events to handle with the new `ret`.
   */
  lemma BatchAdvance(events: seq<Event>, classes: seq<FdClass>, io: seq<IoResult>, ret0: int,
                     steps: seq<Step>, ret: int, i: nat)
    requires |classes| == |events| && |io| == |events| && i < |events|
    requires steps + Batch(events[i..], classes[i..], io[i..], ret) == Batch(events, classes, io, ret0)
    ensures var s := Dispatch(events[i].mask, classes[i], io[i], ret);
            if s.action == Shutdown then steps + [s] == Batch(events, classes, io, ret0)
            else (steps + [s]) + Batch(events[i + 1..], classes[i + 1..], io[i + 1..], s.ret)
                 == Batch(events, classes, io, ret0)
  {
    assert events[i..][1..] == events[i + 1..] && classes[i..][1..] == classes[i + 1..]
      && io[i..][1..] == io[i + 1..];
  }

  /**
   * The tests the worker applies to the descriptor of a READ event, in its
   * order; the listener table is asked only about a descriptor that is
   * neither the signal channel nor the timeout descriptor. Other events are
   * not classified.
   */
  method ClassifyEvent(listen: ServerListen?, signalFd: int, timeoutFd: int, ev: Event)
    returns (cls: FdClass)
    requires listen != null ==> listen.Valid()
    ensures HasRead(ev.mask) ==>
              cls == Classify(ev.fd, signalFd, timeoutFd, listen != null && Listens(listen.Entries(), ev.fd))
  {
    cls := Client;
    if HasRead(ev.mask) {
      if ev.fd == signalFd {
        cls := SignalChannel;
      } else if ev.fd == timeoutFd {
        cls := TimeoutFd;
      } else {
        var listening := false;
        if listen != null {
          listening := ListenCheck(listen, ev.fd);
        }
        if listening {
          cls := ListenSocket;
        }
      }
    }
  }

  /**
   * One pass of the worker loop over the reported `events`: classifies each
   * READ event's descriptor (asking the listener table only when it is
   * neither the signal channel nor the timeout descriptor) and applies the
   * dispatch rule. Returns the steps, `ret` afterwards and whether the
   * worker stopped on FREE_ALL.
   */
  method DispatchEvents(listen: ServerListen?, signalFd: int, timeoutFd: int,
                        events: seq<Event>, io: seq<IoResult>, ret0: int)
    returns (steps: seq<Step>, ret: int, stopped: bool)
    requires listen != null ==> listen.Valid()
    requires |io| == |events|
    ensures steps == Batch(events,
                           Classes(if listen == null then None else Some(listen.Entries()),
                                   signalFd, timeoutFd, events),
                           io, ret0)
    ensures stopped <==> steps != [] && steps[|steps| - 1].action == Shutdown
    ensures !stopped ==> |steps| == |events|
    ensures ret == if steps == [] then ret0 else steps[|steps| - 1].ret
  {
    ghost var classes := Classes(if listen == null then None else Some(listen.Entries()),
                                 signalFd, timeoutFd, events);
    steps, ret, stopped := [], ret0, false;
    var i := 0;
    while i < |events|
      invariant 0 <= i <= |events| && |steps| == i
      invariant steps + Batch(events[i..], classes[i..], io[i..], ret) == Batch(events, classes, io, ret0)
      invariant steps != [] ==> steps[|steps| - 1].action != Shutdown
      invariant ret == if steps == [] then ret0 else steps[|steps| - 1].ret
    {
      var ev := events[i];
      var cls := ClassifyEvent(listen, signalFd, timeoutFd, ev);
      assert HasRead(ev.mask) ==> cls == classes[i];
      var s := Dispatch(ev.mask, cls, io[i], ret);
      DispatchIgnoresClass(ev.mask, cls, classes[i], io[i], ret);
      BatchAdvance(events, classes, io, ret0, steps, ret, i);
      steps := steps + [s];
      ret := s.ret;
      if s.action == Shutdown {
        stopped := true;
        return;
      }
      i := i + 1;
    }
    assert events[i..] == [];
  }
}
