/**
 * The main loop of the event loop (src/iopoll.rs, `EventLoop::run`), driving
 * the program's one handler, `NetcatClientEventHandler` (src/main.rs).
 *
 * The `poll` system call is an input: each cycle's `Cycle` value gives the
 * call's result, the conditions it reports for each descriptor, and the
 * outcomes of the I/O the handler performs for each descriptor. `RunSpec`
 * and `CycleSpec` say what a run and one cycle do; the methods below do it
 * step by step on the `EventLoop` and handler objects and are proved equal
 * to them.
 */
module EventRun {
  import opened Common
  import opened EventSets
  import opened IoPoll
  import opened Netcat

  /** A triggered watch-list entry: the descriptor and what `poll` reported for it. */
  datatype Event = Event(fd: int, eventset: EventSet)

  /** A handler callback as `run` issues it. */
  datatype Call =
    | OnReadyForIo(token: Token, eventset: EventSet)
    | OnHangup(token: Token)
    | OnError(token: Token)
    | OnNotValid(token: Token)
    | OnTimeout

  /**
   * What one `poll` call answers: its result (-1 failure, 0 timeout, a
   * positive count otherwise), the conditions reported for each descriptor,
   * and the outcomes of the I/O the handler performs for each descriptor.
   */
  datatype Cycle = Cycle(result: int, revents: int -> EventSet, io: int -> IoOutcomes)

  /** As poll(2) does, an invalid descriptor is reported neither readable nor writable. */
  ghost predicate WellFormed(c: Cycle) {
    forall fd :: c.revents(fd).IsNotValid() ==> !c.revents(fd).IsReadable() && !c.revents(fd).IsWritable()
  }

  /** The state `run` and the handler share: the handler's latches, the watch list, the loop flag. */
  datatype LoopState = LoopState(session: Session, pollfds: seq<PollFd>, active: bool)

  /** Dispatch so far: the state, the callbacks issued, the handler's effects, the descriptors to remove afterwards, and whether `ready_for_io` failed. */
  datatype Dispatched = Dispatched(st: LoopState, calls: seq<Call>, effects: seq<Effect>, invalid: seq<int>, failed: bool)

  /** One cycle: the state after it, the callbacks, the effects, and whether `run` returns `Err`. */
  datatype CycleOutcome = CycleOutcome(st: LoopState, calls: seq<Call>, effects: seq<Effect>, failed: bool)

  datatype RunOutcome = Returned(result: RunResult) | StillRunning

  /** A run: how it ended (or that the given cycles ran out first), the final state, all effects. */
  datatype RunTrace = RunTrace(outcome: RunOutcome, st: LoopState, effects: seq<Effect>)

  // ---------------------------------------------------------------------
  // The watch list after `poll` and its snapshot

  /** The watch list with each entry's reported conditions filled in. */
  function WithRevents(l: seq<PollFd>, rv: int -> EventSet): (r: seq<PollFd>)
    ensures |r| == |l|
    ensures forall i :: 0 <= i < |l| ==> r[i] == l[i].(revents := rv(l[i].fd))
  {
    seq(|l|, i requires 0 <= i < |l| => l[i].(revents := rv(l[i].fd)))
  }

  /** Filling in reported conditions changes no descriptor. */
  lemma WithReventsFds(l: seq<PollFd>, rv: int -> EventSet)
    ensures Fds(WithRevents(l, rv)) == Fds(l)
    ensures Distinct(WithRevents(l, rv)) == Distinct(l)
  {
    assert forall i :: 0 <= i < |l| ==> Fds(WithRevents(l, rv))[i] == Fds(l)[i];
  }

  /** The entries with a non-empty report, in watch-list order (`triggered_events`). */
  function Triggered(l: seq<PollFd>): seq<Event> {
    if l == [] then []
    else
      var last := l[|l| - 1];
      Triggered(l[..|l| - 1]) + (if last.revents.IsEmpty() then [] else [Event(last.fd, last.revents)])
  }

  predicate DistinctEvents(snap: seq<Event>) {
    forall i, j :: 0 <= i < j < |snap| ==> snap[i].fd != snap[j].fd
  }

  /**
   * Every snapshot entry is a watched descriptor with a non-empty report
   * taken from the list; entries with an empty report are all left out; a
   * list without repeats gives a snapshot without repeats.
   */
  lemma {:induction false} TriggeredFacts(l: seq<PollFd>, rv: int -> EventSet)
    ensures forall i :: 0 <= i < |Triggered(l)| ==>
      Registered(l, Triggered(l)[i].fd) && !Triggered(l)[i].eventset.IsEmpty()
    ensures (forall j :: 0 <= j < |l| ==> l[j].revents == rv(l[j].fd)) ==>
      forall i :: 0 <= i < |Triggered(l)| ==> Triggered(l)[i].eventset == rv(Triggered(l)[i].fd)
    ensures |Triggered(l)| <= |l|
    ensures (forall j :: 0 <= j < |l| ==> l[j].revents.IsEmpty()) ==> Triggered(l) == []
    ensures Distinct(l) ==> DistinctEvents(Triggered(l))
  {
    if l != [] {
      var init, last := l[..|l| - 1], l[|l| - 1];
      TriggeredFacts(init, rv);
      var t := Triggered(init);
      assert Fds(l)[|l| - 1] == last.fd;
      forall i | 0 <= i < |t|
        ensures Registered(l, t[i].fd)
      {
        var k :| 0 <= k < |init| && Fds(init)[k] == t[i].fd;
        assert Fds(l)[k] == t[i].fd;
      }
      if Distinct(l) {
        forall i | 0 <= i < |t|
          ensures t[i].fd != last.fd
        {
          var k :| 0 <= k < |init| && Fds(init)[k] == t[i].fd;
          assert l[k].fd == t[i].fd;
        }
      }
    }
  }

  /** The snapshot of a prefix of the list is a prefix of the snapshot. */
  lemma {:induction false} TriggeredPrefix(l: seq<PollFd>, k: nat)
    requires k <= |l|
    ensures Triggered(l[..k]) <= Triggered(l)
    decreases |l|
  {
    if k < |l| {
      var init := l[..|l| - 1];
      assert init[..k] == l[..k];
      TriggeredPrefix(init, k);
    } else {
      assert l[..k] == l;
    }
  }

  /**
   * An entry with a non-empty report sits in the snapshot right after the
   * events of the entries before it.
   */
  lemma {:induction false} TriggeredAt(l: seq<PollFd>, j: nat)
    requires j < |l| && !l[j].revents.IsEmpty()
    ensures |Triggered(l[..j])| < |Triggered(l[..j + 1])|
    ensures |Triggered(l[..j])| < |Triggered(l)|
    ensures Triggered(l)[|Triggered(l[..j])|] == Event(l[j].fd, l[j].revents)
  {
    assert l[..j + 1][..j] == l[..j];
    assert Triggered(l[..j + 1]) == Triggered(l[..j]) + [Event(l[j].fd, l[j].revents)];
    TriggeredPrefix(l, j + 1);
  }

  /**
   * `triggered_events` drops exactly the entries with an empty report: every
   * entry with a non-empty report is in the snapshot, and entries keep their
   * watch-list order.
   */
  lemma {:induction false} TriggeredInOrder(l: seq<PollFd>)
    ensures forall j :: 0 <= j < |l| && !l[j].revents.IsEmpty() ==>
      Event(l[j].fd, l[j].revents) in Triggered(l)
    ensures forall j :: 0 <= j < |l| && !l[j].revents.IsEmpty() ==>
      |Triggered(l[..j])| < |Triggered(l)| && Triggered(l)[|Triggered(l[..j])|] == Event(l[j].fd, l[j].revents)
    ensures forall j, j' :: 0 <= j < j' < |l| && !l[j].revents.IsEmpty() ==>
      |Triggered(l[..j])| < |Triggered(l[..j'])|
  {
    forall j | 0 <= j < |l| && !l[j].revents.IsEmpty()
      ensures |Triggered(l[..j])| < |Triggered(l)| && Triggered(l)[|Triggered(l[..j])|] == Event(l[j].fd, l[j].revents)
    {
      TriggeredAt(l, j);
    }
    forall j, j' | 0 <= j < j' < |l| && !l[j].revents.IsEmpty()
      ensures |Triggered(l[..j])| < |Triggered(l[..j'])|
    {
      TriggeredAt(l, j);
      assert l[..j'][..j + 1] == l[..j + 1];
      TriggeredPrefix(l[..j'], j + 1);
    }
  }

  // ---------------------------------------------------------------------
  // Dispatch of one cycle

  /** `ready_for_io` is called for a readable or writable entry. */
  function ReadyCalls(e: Event): seq<Call> {
    if e.eventset.IsReadable() || e.eventset.IsWritable() then [OnReadyForIo(Token(e.fd), e.eventset)] else []
  }

  /** Then `hangup`, `error` and `not_valid`, each when its condition is reported. */
  function LaterCalls(e: Event): seq<Call> {
    var t, es := Token(e.fd), e.eventset;
    (if es.IsHangup() then [OnHangup(t)] else []) +
    (if es.IsError() then [OnError(t)] else []) +
    (if es.IsNotValid() then [OnNotValid(t)] else [])
  }

  /** The callbacks `run` issues for one snapshot entry, in order, when none fails. */
  function EntryCalls(e: Event): seq<Call> {
    ReadyCalls(e) + LaterCalls(e)
  }

  /** The callbacks for a whole snapshot, entry after entry. */
  function CycleCalls(snap: seq<Event>): seq<Call> {
    if snap == [] then [] else CycleCalls(snap[..|snap| - 1]) + EntryCalls(snap[|snap| - 1])
  }

  /** `calls` are those of the snapshot entries before some entry, then that entry's `ready_for_io` alone. */
  predicate StoppedAt(calls: seq<Call>, snap: seq<Event>) {
    exists k :: 0 <= k < |snap| &&
      calls == CycleCalls(snap[..k]) + [OnReadyForIo(Token(snap[k].fd), snap[k].eventset)]
  }

  /** The loop state after `ready_for_io` reacted with `r`. */
  function AfterReaction(st: LoopState, r: Reaction): LoopState {
    LoopState(
      r.session,
      if UnregisterStdin in r.effects then Without(st.pollfds, STDIN_FD) else st.pollfds,
      st.active && ShutdownLoop !in r.effects)
  }

  /** The `ready_for_io` part of one entry, when the entry is readable or writable. */
  function ReadyStep(conn: NetworkConnection, st: LoopState, e: Event, io: IoOutcomes): Dispatched {
    if e.eventset.IsReadable() || e.eventset.IsWritable() then
      var r := React(conn, st.session, Token(e.fd), e.eventset, io);
      Dispatched(AfterReaction(st, r), ReadyCalls(e), r.effects, [], r.result == IoErr)
    else
      Dispatched(st, [], [], [], false)
  }

  /**
   * The rest of one entry: `hangup` (which stops the loop for stdin's
   * token), `error` (which does nothing), and the default `not_valid`, which
   * removes the descriptor; `run` also marks it for removal after the cycle.
   */
  function LaterStep(st: LoopState, e: Event): Dispatched {
    var stop := e.eventset.IsHangup() && e.fd == STDIN_FD;
    var st2 := if stop then st.(active := false) else st;
    var st3 := if e.eventset.IsNotValid() then st2.(pollfds := Without(st2.pollfds, e.fd)) else st2;
    Dispatched(st3, LaterCalls(e), if stop then [ShutdownLoop] else [],
      if e.eventset.IsNotValid() then [e.fd] else [], false)
  }

  /** One snapshot entry: `ready_for_io`, stopping on its failure, then the other callbacks. */
  function EntryStep(conn: NetworkConnection, st: LoopState, e: Event, io: IoOutcomes): Dispatched {
    var d := ReadyStep(conn, st, e, io);
    if d.failed then d
    else
      var x := LaterStep(d.st, e);
      Dispatched(x.st, d.calls + x.calls, d.effects + x.effects, x.invalid, false)
  }

  /** The snapshot entries one after the other, stopping at the first failure. */
  function Dispatch(conn: NetworkConnection, st: LoopState, snap: seq<Event>, io: int -> IoOutcomes): Dispatched {
    if snap == [] then Dispatched(st, [], [], [], false)
    else
      var d := Dispatch(conn, st, snap[..|snap| - 1], io);
      if d.failed then d
      else
        var e := snap[|snap| - 1];
        var x := EntryStep(conn, d.st, e, io(e.fd));
        Dispatched(x.st, d.calls + x.calls, d.effects + x.effects, d.invalid + x.invalid, x.failed)
  }

  /** The deferred removals after dispatch, one after the other, each tolerant of a missing descriptor. */
  function RemoveEach(l: seq<PollFd>, fds: seq<int>): seq<PollFd> {
    if fds == [] then l else Without(RemoveEach(l, fds[..|fds| - 1]), fds[|fds| - 1])
  }

  /** Dispatch of a positive cycle: the state after `poll`, dispatched over its snapshot. */
  function PositiveDispatch(conn: NetworkConnection, st: LoopState, c: Cycle): Dispatched {
    var polled := st.(pollfds := WithRevents(st.pollfds, c.revents));
    Dispatch(conn, polled, Triggered(polled.pollfds), c.io)
  }

  /** One pass of the `while` loop of `run`. */
  function CycleSpec(conn: NetworkConnection, st: LoopState, c: Cycle): CycleOutcome {
    var polled := st.(pollfds := WithRevents(st.pollfds, c.revents));
    if c.result == -1 then
      CycleOutcome(polled.(active := false), [], [], false)
    else if c.result == 0 then
      CycleOutcome(polled.(active := false), [OnTimeout], [ShutdownLoop], false)
    else
      var d := PositiveDispatch(conn, st, c);
      if d.failed then CycleOutcome(d.st, d.calls, d.effects, true)
      else CycleOutcome(d.st.(pollfds := RemoveEach(d.st.pollfds, d.invalid)), d.calls, d.effects, false)
  }

  /** `run` from a state whose flag it has set, over the given `poll` answers. */
  function RunSpec(conn: NetworkConnection, st: LoopState, polls: seq<Cycle>): RunTrace
    decreases |polls|
  {
    if !st.active then RunTrace(Returned(RunOk), st, [])
    else if polls == [] then RunTrace(StillRunning, st, [])
    else
      var c := CycleSpec(conn, st, polls[0]);
      if c.failed then RunTrace(Returned(RunErr), c.st, c.effects)
      else
        var rest := RunSpec(conn, c.st, polls[1..]);
        RunTrace(rest.outcome, rest.st, c.effects + rest.effects)
  }

  // ---------------------------------------------------------------------
  // Properties of one entry

  /** The callbacks of one entry: all of them in order, or just a failing `ready_for_io`. */
  lemma EntryStepCalls(conn: NetworkConnection, st: LoopState, e: Event, io: IoOutcomes)
    ensures var x := EntryStep(conn, st, e, io);
      (!x.failed ==> x.calls == EntryCalls(e)) &&
      (x.failed ==> x.calls == [OnReadyForIo(Token(e.fd), e.eventset)] && x.invalid == [])
  {
  }

  /** Removing one descriptor keeps every other registered one registered, registers nothing new, and keeps the list free of repeats. */
  predicate RemovedAtMost(l: seq<PollFd>, l': seq<PollFd>, fd: int) {
    l' == l || l' == Without(l, fd)
  }

  lemma RemovedAtMostFacts(l: seq<PollFd>, l': seq<PollFd>, fd: int)
    requires RemovedAtMost(l, l', fd)
    ensures forall g :: g != fd && Registered(l, g) ==> Registered(l', g)
    ensures forall g :: Registered(l', g) ==> Registered(l, g)
    ensures Distinct(l) ==> Distinct(l')
  {
    forall g | g != fd && Registered(l, g)
      ensures Registered(l', g)
    {
      WithoutKeepsOthers(l, fd, g);
    }
    forall g | Registered(l', g)
      ensures Registered(l, g)
    {
      if l' != l {
        WithoutAddsNothing(l, fd, g);
      }
    }
    if Distinct(l) {
      WithoutOnDistinct(l, fd);
    }
  }

  /** `ready_for_io` changes the watch list only by unregistering stdin, and only for stdin's own entry. */
  lemma ReadyStepWatchList(conn: NetworkConnection, st: LoopState, e: Event, io: IoOutcomes)
    ensures RemovedAtMost(st.pollfds, ReadyStep(conn, st, e, io).st.pollfds, e.fd)
    ensures ReadyStep(conn, st, e, io).st.pollfds != st.pollfds ==>
      e.fd == STDIN_FD && !ReadyStep(conn, st, e, io).st.session.stdinOpen && st.session.stdinOpen
  {
    ReactLatches(conn, st.session, Token(e.fd), e.eventset, io);
  }

  /** One entry changes the watch list only by removing its own descriptor. */
  lemma EntryStepWatchList(conn: NetworkConnection, st: LoopState, e: Event, io: IoOutcomes)
    ensures var x := EntryStep(conn, st, e, io);
      forall g :: g != e.fd && Registered(st.pollfds, g) ==> Registered(x.st.pollfds, g)
    ensures var x := EntryStep(conn, st, e, io);
      forall g :: Registered(x.st.pollfds, g) ==> Registered(st.pollfds, g)
    ensures var x := EntryStep(conn, st, e, io);
      Distinct(st.pollfds) ==> Distinct(x.st.pollfds)
  {
    ReadyStepWatchList(conn, st, e, io);
    var d := ReadyStep(conn, st, e, io);
    RemovedAtMostFacts(st.pollfds, d.st.pollfds, e.fd);
    if !d.failed {
      RemovedAtMostFacts(d.st.pollfds, LaterStep(d.st, e).st.pollfds, e.fd);
    }
  }

  /** The invariant `run` keeps between callbacks. */
  predicate Inv(st: LoopState) {
    Distinct(st.pollfds) &&
    (!st.session.stdinOpen ==> !Registered(st.pollfds, STDIN_FD)) &&
    (!st.session.networkOpen ==> !st.active)
  }

  /** `st'` follows `st`: the loop flag and the latches have only gone from true to false. */
  predicate Lowered(st: LoopState, st': LoopState) {
    (st'.active ==> st.active) &&
    (st'.session.stdinOpen ==> st.session.stdinOpen) &&
    (st'.session.networkOpen ==> st.session.networkOpen)
  }

  /** The number of half-closes in `effects` is 1 when stdin closed between `st` and `st'` on TCP, else 0. */
  predicate HalfClosedOnce(conn: NetworkConnection, st: LoopState, st': LoopState, effects: seq<Effect>) {
    multiset(effects)[ShutdownWrite] ==
      if conn.TcpClient? && st.session.stdinOpen && !st'.session.stdinOpen then 1 else 0
  }

  /** `ready_for_io` keeps the invariant, only lowers, and half-closes exactly when it closes stdin on TCP. */
  lemma ReadyStepKeeps(conn: NetworkConnection, st: LoopState, e: Event, io: IoOutcomes)
    requires Inv(st)
    ensures var d := ReadyStep(conn, st, e, io);
      Inv(d.st) && Lowered(st, d.st) && HalfClosedOnce(conn, st, d.st, d.effects)
  {
    var t, es := Token(e.fd), e.eventset;
    ReactLatches(conn, st.session, t, es, io);
    ReactShutdownWriteOnce(conn, st.session, t, es, io);
    var d := ReadyStep(conn, st, e, io);
    if d.st.pollfds != st.pollfds {
      WithoutOnDistinct(st.pollfds, STDIN_FD);
    }
  }

  /** `hangup`, `error` and `not_valid` keep the invariant, only lower, never half-close, and leave an invalid descriptor unwatched. */
  lemma LaterStepKeeps(st: LoopState, e: Event)
    requires Inv(st)
    ensures var x := LaterStep(st, e);
      Inv(x.st) && Lowered(st, x.st) && x.st.session == st.session && ShutdownWrite !in x.effects
    ensures e.eventset.IsNotValid() ==> !Registered(LaterStep(st, e).st.pollfds, e.fd)
  {
    var x := LaterStep(st, e);
    RemovedAtMostFacts(st.pollfds, x.st.pollfds, e.fd);
    if e.eventset.IsNotValid() {
      WithoutOnDistinct(st.pollfds, e.fd);
    }
  }

  /**
   * One entry keeps the invariant: the loop flag and the latches only go
   * from true to false, a closed stdin is off the watch list, a closed
   * network has stopped the loop; a reported-invalid descriptor is off the
   * list; and the entry half-closes the connection exactly when it closes
   * stdin on TCP.
   */
  lemma EntryStepKeeps(conn: NetworkConnection, st: LoopState, e: Event, io: IoOutcomes)
    requires Inv(st)
    ensures var x := EntryStep(conn, st, e, io);
      Inv(x.st) && Lowered(st, x.st) && HalfClosedOnce(conn, st, x.st, x.effects)
    ensures var x := EntryStep(conn, st, e, io);
      e.eventset.IsNotValid() && !x.failed ==> !Registered(x.st.pollfds, e.fd)
  {
    ReadyStepKeeps(conn, st, e, io);
    var d := ReadyStep(conn, st, e, io);
    if !d.failed {
      LaterStepKeeps(d.st, e);
      var x := LaterStep(d.st, e);
      assert multiset(d.effects + x.effects) == multiset(d.effects) + multiset(x.effects);
    }
  }

  /** `ready_for_io` half-closes at most once per call. */
  lemma ReactShutdownWriteOnce(conn: NetworkConnection, s: Session, token: Token, es: EventSet, io: IoOutcomes)
    ensures multiset(React(conn, s, token, es, io).effects)[ShutdownWrite] <= 1
  {
  }

  // ---------------------------------------------------------------------
  // Properties of dispatch

  /**
   * Dispatch issues the callbacks of every snapshot entry in order, whatever
   * the callbacks do to the loop flag or the watch list; a failure stops it
   * right after the failing `ready_for_io`, with nothing more issued.
   */
  lemma {:induction false} DispatchCalls(conn: NetworkConnection, st: LoopState, snap: seq<Event>, io: int -> IoOutcomes)
    ensures var d := Dispatch(conn, st, snap, io);
      !d.failed ==> d.calls == CycleCalls(snap)
    ensures var d := Dispatch(conn, st, snap, io);
      d.failed ==> StoppedAt(d.calls, snap)
  {
    if snap != [] {
      var init, e := snap[..|snap| - 1], snap[|snap| - 1];
      DispatchCalls(conn, st, init, io);
      var d := Dispatch(conn, st, init, io);
      if d.failed {
        var k :| 0 <= k < |init| &&
          d.calls == CycleCalls(init[..k]) + [OnReadyForIo(Token(init[k].fd), init[k].eventset)];
        assert init[..k] == snap[..k];
      } else {
        EntryStepCalls(conn, d.st, e, io(e.fd));
        if EntryStep(conn, d.st, e, io(e.fd)).failed {
          assert snap[..|snap| - 1] == init;
        }
      }
    }
  }

  /** Dispatch keeps the invariant, lowers flag and latches only, and half-closes exactly when it closes stdin on TCP. */
  lemma {:induction false} DispatchKeeps(conn: NetworkConnection, st: LoopState, snap: seq<Event>, io: int -> IoOutcomes)
    requires Inv(st)
    ensures var d := Dispatch(conn, st, snap, io);
      Inv(d.st) &&
      (d.st.active ==> st.active) &&
      (d.st.session.stdinOpen ==> st.session.stdinOpen) &&
      (d.st.session.networkOpen ==> st.session.networkOpen)
    ensures var d := Dispatch(conn, st, snap, io);
      forall g :: Registered(d.st.pollfds, g) ==> Registered(st.pollfds, g)
    ensures var d := Dispatch(conn, st, snap, io);
      multiset(d.effects)[ShutdownWrite] ==
        if conn.TcpClient? && st.session.stdinOpen && !d.st.session.stdinOpen then 1 else 0
  {
    if snap != [] {
      var init, e := snap[..|snap| - 1], snap[|snap| - 1];
      DispatchKeeps(conn, st, init, io);
      var d := Dispatch(conn, st, init, io);
      if !d.failed {
        EntryStepKeeps(conn, d.st, e, io(e.fd));
        EntryStepWatchList(conn, d.st, e, io(e.fd));
        var x := EntryStep(conn, d.st, e, io(e.fd));
        assert multiset(d.effects + x.effects) == multiset(d.effects) + multiset(x.effects);
      }
    }
  }

  /** After dispatch, no descriptor marked for deferred removal is still watched: `not_valid` already removed it. */
  lemma {:induction false} DispatchInvalidGone(conn: NetworkConnection, st: LoopState, snap: seq<Event>, io: int -> IoOutcomes)
    requires Inv(st)
    ensures var d := Dispatch(conn, st, snap, io);
      forall i :: 0 <= i < |d.invalid| ==> !Registered(d.st.pollfds, d.invalid[i])
  {
    if snap != [] {
      var init, e := snap[..|snap| - 1], snap[|snap| - 1];
      DispatchInvalidGone(conn, st, init, io);
      DispatchKeeps(conn, st, init, io);
      var d := Dispatch(conn, st, init, io);
      if !d.failed {
        var x := EntryStep(conn, d.st, e, io(e.fd));
        EntryStepKeeps(conn, d.st, e, io(e.fd));
        EntryStepWatchList(conn, d.st, e, io(e.fd));
        var all := d.invalid + x.invalid;
        assert Dispatch(conn, st, snap, io).invalid == all;
        assert Dispatch(conn, st, snap, io).st == x.st;
        forall i | 0 <= i < |all|
          ensures !Registered(x.st.pollfds, all[i])
        {
          if i < |d.invalid| {
            assert all[i] == d.invalid[i];
          }
        }
      } else {
        assert Dispatch(conn, st, snap, io) == d;
      }
    }
  }

  // ---------------------------------------------------------------------
  // Properties of the deferred removal

  /** Tolerant removal keeps the list free of repeats, registers nothing new, and leaves none of the removed descriptors. */
  lemma {:induction false} RemoveEachFacts(l: seq<PollFd>, fds: seq<int>)
    ensures Distinct(l) ==> Distinct(RemoveEach(l, fds))
    ensures forall g :: Registered(RemoveEach(l, fds), g) ==> Registered(l, g)
    ensures Distinct(l) ==> forall i :: 0 <= i < |fds| ==> !Registered(RemoveEach(l, fds), fds[i])
  {
    if fds != [] {
      var init, f := fds[..|fds| - 1], fds[|fds| - 1];
      RemoveEachFacts(l, init);
      var m := RemoveEach(l, init);
      forall g | Registered(RemoveEach(l, fds), g)
        ensures Registered(l, g)
      {
        WithoutAddsNothing(m, f, g);
      }
      if Distinct(l) {
        WithoutOnDistinct(m, f);
        forall i | 0 <= i < |fds|
          ensures !Registered(RemoveEach(l, fds), fds[i])
        {
          if i < |init| && Registered(RemoveEach(l, fds), fds[i]) {
            assert fds[i] == init[i];
            WithoutAddsNothing(m, f, fds[i]);
          }
        }
      }
    }
  }

  /** Tolerant removal of descriptors that are not watched leaves the list unchanged. */
  lemma {:induction false} RemoveEachAbsent(l: seq<PollFd>, fds: seq<int>)
    requires forall i :: 0 <= i < |fds| ==> !Registered(l, fds[i])
    ensures RemoveEach(l, fds) == l
  {
    if fds != [] {
      RemoveEachAbsent(l, fds[..|fds| - 1]);
      WithoutAt(l, fds[|fds| - 1]);
    }
  }

  // ---------------------------------------------------------------------
  // Properties of a cycle and of a run

  /** A failed `poll` calls no handler, changes no latch and stops the loop; a timeout calls `timeout` alone. */
  lemma CycleWithoutEvents(conn: NetworkConnection, st: LoopState, c: Cycle)
    ensures c.result == -1 ==> var o := CycleSpec(conn, st, c);
      o.calls == [] && o.effects == [] && !o.failed && !o.st.active && o.st.session == st.session &&
      Fds(o.st.pollfds) == Fds(st.pollfds)
    ensures c.result == 0 ==> var o := CycleSpec(conn, st, c);
      o.calls == [OnTimeout] && !o.failed && !o.st.active && o.st.session == st.session &&
      Fds(o.st.pollfds) == Fds(st.pollfds)
  {
    WithReventsFds(st.pollfds, c.revents);
  }

  /**
   * A positive cycle issues the callbacks of its snapshot in order, whatever
   * the callbacks do; when it fails it stops right after the failing
   * `ready_for_io`.
   */
  lemma CyclePositiveCalls(conn: NetworkConnection, st: LoopState, c: Cycle)
    requires c.result != -1 && c.result != 0
    ensures var o := CycleSpec(conn, st, c);
      var snap := Triggered(WithRevents(st.pollfds, c.revents));
      !o.failed ==> o.calls == CycleCalls(snap)
    ensures var o := CycleSpec(conn, st, c);
      var snap := Triggered(WithRevents(st.pollfds, c.revents));
      o.failed ==> StoppedAt(o.calls, snap)
  {
    CyclePositiveDispatch(conn, st, c);
    var polled := st.(pollfds := WithRevents(st.pollfds, c.revents));
    var snap := Triggered(polled.pollfds);
    DispatchCalls(conn, polled, snap, c.io);
    var d := Dispatch(conn, polled, snap, c.io);
    assert PositiveDispatch(conn, st, c) == d;
  }

  /** A positive cycle is its dispatch followed by the deferred removal. */
  lemma CyclePositiveDispatch(conn: NetworkConnection, st: LoopState, c: Cycle)
    requires c.result != -1 && c.result != 0
    ensures var o, d := CycleSpec(conn, st, c), PositiveDispatch(conn, st, c);
      o.calls == d.calls && o.effects == d.effects && o.failed == d.failed &&
      o.st == if d.failed then d.st else d.st.(pollfds := RemoveEach(d.st.pollfds, d.invalid))
  {
  }

  /** After a positive cycle that does not fail, no watched descriptor reported invalid is still watched. */
  lemma CycleRemovesInvalid(conn: NetworkConnection, st: LoopState, c: Cycle)
    requires Inv(st)
    requires c.result != -1 && c.result != 0
    ensures var o := CycleSpec(conn, st, c);
      !o.failed ==> forall fd :: Registered(st.pollfds, fd) && c.revents(fd).IsNotValid() ==> !Registered(o.st.pollfds, fd)
  {
    var polled := st.(pollfds := WithRevents(st.pollfds, c.revents));
    WithReventsFds(st.pollfds, c.revents);
    assert Inv(polled);
    var snap := Triggered(polled.pollfds);
    var d := Dispatch(conn, polled, snap, c.io);
    assert PositiveDispatch(conn, st, c) == d;
    if !d.failed {
      var o := CycleSpec(conn, st, c);
      assert o.st.pollfds == RemoveEach(d.st.pollfds, d.invalid);
      forall fd | Registered(st.pollfds, fd) && c.revents(fd).IsNotValid()
        ensures !Registered(o.st.pollfds, fd)
      {
        CycleEntryDispatched(conn, polled, snap, c, fd);
      }
    }
  }

  /** A watched descriptor reported invalid is in the snapshot, so dispatch marks it for removal and the deferred removal leaves it unwatched. */
  lemma CycleEntryDispatched(conn: NetworkConnection, polled: LoopState, snap: seq<Event>, c: Cycle, fd: int)
    requires Inv(polled)
    requires snap == Triggered(polled.pollfds)
    requires forall j :: 0 <= j < |polled.pollfds| ==> polled.pollfds[j].revents == c.revents(polled.pollfds[j].fd)
    requires Registered(polled.pollfds, fd) && c.revents(fd).IsNotValid()
    ensures var d := Dispatch(conn, polled, snap, c.io);
      !d.failed ==> !Registered(RemoveEach(d.st.pollfds, d.invalid), fd)
  {
    var d := Dispatch(conn, polled, snap, c.io);
    if d.failed {
      return;
    }
    DispatchKeeps(conn, polled, snap, c.io);
    InvalidInSnapshot(polled.pollfds, c.revents, fd);
    var i :| 0 <= i < |snap| && snap[i].fd == fd;
    TriggeredFacts(polled.pollfds, c.revents);
    assert snap[i].eventset == c.revents(fd);
    DispatchMarksInvalid(conn, polled, snap, c.io, i);
    var k :| 0 <= k < |d.invalid| && d.invalid[k] == fd;
    RemoveEachFacts(d.st.pollfds, d.invalid);
  }

  /** A watched descriptor with an invalid report appears in the snapshot. */
  lemma {:induction false} InvalidInSnapshot(l: seq<PollFd>, rv: int -> EventSet, fd: int)
    requires forall j :: 0 <= j < |l| ==> l[j].revents == rv(l[j].fd)
    requires Registered(l, fd) && rv(fd).IsNotValid()
    ensures exists i :: 0 <= i < |Triggered(l)| && Triggered(l)[i].fd == fd
  {
    var init := l[..|l| - 1];
    if l[|l| - 1].fd == fd {
      assert Triggered(l)[|Triggered(l)| - 1].fd == fd;
    } else {
      var k :| 0 <= k < |l| && Fds(l)[k] == fd;
      assert Fds(init)[k] == fd;
      InvalidInSnapshot(init, rv, fd);
      var i :| 0 <= i < |Triggered(init)| && Triggered(init)[i].fd == fd;
      assert Triggered(l)[i] == Triggered(init)[i];
    }
  }

  /** A snapshot entry reported invalid is marked for removal by a dispatch that does not fail. */
  lemma {:induction false} DispatchMarksInvalid(conn: NetworkConnection, st: LoopState, snap: seq<Event>, io: int -> IoOutcomes, i: nat)
    requires i < |snap| && snap[i].eventset.IsNotValid()
    requires !Dispatch(conn, st, snap, io).failed
    ensures snap[i].fd in Dispatch(conn, st, snap, io).invalid
  {
    var init, e := snap[..|snap| - 1], snap[|snap| - 1];
    var d := Dispatch(conn, st, init, io);
    assert !d.failed;
    var x := EntryStep(conn, d.st, e, io(e.fd));
    assert Dispatch(conn, st, snap, io).invalid == d.invalid + x.invalid;
    if i < |init| {
      assert snap[i] == init[i];
      DispatchMarksInvalid(conn, st, init, io, i);
    } else {
      assert x.invalid == LaterStep(ReadyStep(conn, d.st, e, io(e.fd)).st, e).invalid;
    }
  }

  /** A cycle keeps the invariant and lowers the loop flag and the latches only. */
  lemma CycleKeeps(conn: NetworkConnection, st: LoopState, c: Cycle)
    requires Inv(st)
    ensures var o := CycleSpec(conn, st, c);
      Inv(o.st) &&
      (o.st.active ==> st.active) &&
      (o.st.session.stdinOpen ==> st.session.stdinOpen) &&
      (o.st.session.networkOpen ==> st.session.networkOpen)
    ensures var o := CycleSpec(conn, st, c);
      multiset(o.effects)[ShutdownWrite] ==
        if conn.TcpClient? && st.session.stdinOpen && !o.st.session.stdinOpen then 1 else 0
  {
    var polled := st.(pollfds := WithRevents(st.pollfds, c.revents));
    WithReventsFds(st.pollfds, c.revents);
    assert Registered(polled.pollfds, STDIN_FD) == Registered(st.pollfds, STDIN_FD);
    if c.result != -1 && c.result != 0 {
      CyclePositiveDispatch(conn, st, c);
      var snap := Triggered(polled.pollfds);
      DispatchKeeps(conn, polled, snap, c.io);
      var d := Dispatch(conn, polled, snap, c.io);
      assert PositiveDispatch(conn, st, c) == d;
      RemoveEachFacts(d.st.pollfds, d.invalid);
    }
  }

  /**
   * Over a run: the invariant holds at the end, the latches only close, the
   * TCP connection is half-closed at most once (exactly when stdin closed
   * during the run), and a run that returns `Ok` ends with the loop flag
   * clear.
   */
  lemma {:induction false} RunKeeps(conn: NetworkConnection, st: LoopState, polls: seq<Cycle>)
    requires Inv(st)
    ensures var t := RunSpec(conn, st, polls);
      Inv(t.st) &&
      (t.st.session.stdinOpen ==> st.session.stdinOpen) &&
      (t.st.session.networkOpen ==> st.session.networkOpen)
    ensures var t := RunSpec(conn, st, polls);
      multiset(t.effects)[ShutdownWrite] ==
        if conn.TcpClient? && st.session.stdinOpen && !t.st.session.stdinOpen then 1 else 0
    ensures var t := RunSpec(conn, st, polls);
      t.outcome == Returned(RunOk) ==> !t.st.active
    decreases |polls|
  {
    if st.active && polls != [] {
      CycleKeeps(conn, st, polls[0]);
      var c := CycleSpec(conn, st, polls[0]);
      if !c.failed {
        RunKeeps(conn, c.st, polls[1..]);
        var rest := RunSpec(conn, c.st, polls[1..]);
        assert multiset(c.effects + rest.effects) == multiset(c.effects) + multiset(rest.effects);
      }
    }
  }

  /** Once the network connection is closed the run ends at the next check of the flag, with `Ok`. */
  lemma NetworkClosedEndsRun(conn: NetworkConnection, st: LoopState, polls: seq<Cycle>)
    requires Inv(st) && !st.session.networkOpen
    ensures RunSpec(conn, st, polls) == RunTrace(Returned(RunOk), st, [])
  {
  }

  // ---------------------------------------------------------------------
  // The deferred removal as written

  /**
   * The deferred removal as the source writes it: each descriptor removed
   * with the strict `remove_fd`; `None` is the panic on a descriptor that
   * is no longer watched.
   */
  function RemoveEachStrict(l: seq<PollFd>, fds: seq<int>): Option<seq<PollFd>> {
    if fds == [] then Some(l)
    else
      match RemoveEachStrict(l, fds[..|fds| - 1])
      case None => None
      case Some(m) => if Registered(m, fds[|fds| - 1]) then Some(Without(m, fds[|fds| - 1])) else None
  }

  /** The strict removal panics when the first descriptor it removes is no longer watched. */
  lemma {:induction false} RemoveEachStrictPanics(l: seq<PollFd>, fds: seq<int>)
    requires fds != [] && !Registered(l, fds[0])
    ensures RemoveEachStrict(l, fds).None?
  {
    if |fds| > 1 {
      RemoveEachStrictPanics(l, fds[..|fds| - 1]);
    } else {
      assert fds[..0] == [];
    }
  }

  /**
   * One cycle as written: `None` when the deferred removal panics. The
   * dispatch part is `PositiveDispatch`, whose default `not_valid` uses the
   * tolerant `Without`; that agrees with the strict `remove_fd` of the source
   * whenever the descriptor is still watched, which holds for `WellFormed`
   * cycles on a list without repeats (see `DispatchEntry`).
   */
  function CycleAsWritten(conn: NetworkConnection, st: LoopState, c: Cycle): Option<CycleOutcome> {
    if c.result == -1 || c.result == 0 then Some(CycleSpec(conn, st, c))
    else
      var d := PositiveDispatch(conn, st, c);
      if d.failed then Some(CycleOutcome(d.st, d.calls, d.effects, true))
      else
        match RemoveEachStrict(d.st.pollfds, d.invalid)
        case None => None
        case Some(l) => Some(CycleOutcome(d.st.(pollfds := l), d.calls, d.effects, false))
  }

  /**
   * As written, every positive cycle that reaches the deferred removal with
   * a descriptor reported invalid panics: the default `not_valid` has
   * already removed it, so the second, strict removal finds nothing.
   */
  lemma CycleAsWrittenPanics(conn: NetworkConnection, st: LoopState, c: Cycle)
    requires Inv(st)
    requires c.result != -1 && c.result != 0
    requires !PositiveDispatch(conn, st, c).failed && PositiveDispatch(conn, st, c).invalid != []
    ensures CycleAsWritten(conn, st, c).None?
  {
    var polled := st.(pollfds := WithRevents(st.pollfds, c.revents));
    WithReventsFds(st.pollfds, c.revents);
    assert Inv(polled);
    var d := PositiveDispatch(conn, st, c);
    assert d == Dispatch(conn, polled, Triggered(polled.pollfds), c.io);
    DispatchInvalidGone(conn, polled, Triggered(polled.pollfds), c.io);
    var dd := Dispatch(conn, polled, Triggered(polled.pollfds), c.io);
    assert |dd.invalid| > 0;
    assert !Registered(dd.st.pollfds, dd.invalid[0]);
    assert !Registered(d.st.pollfds, d.invalid[0]);
    RemoveEachStrictPanics(d.st.pollfds, d.invalid);
  }

  /**
   * The input that shows it: one socket (descriptor 3) watched for reading
   * and reported invalid. As written the cycle panics; the corrected cycle
   * calls `not_valid` once and ends with an empty watch list.
   */
  lemma CycleAsWrittenCounterexample()
    ensures var st := LoopState(Session(true, true), [PollFd(3, ReadInterest(), Empty())], true);
      var c := Cycle(1, fd => EventSet(POLLNVAL), fd => IoOutcomes(ReadErr, true, SendErr, true, ReadErr, true));
      CycleAsWritten(TcpClient, st, c).None? &&
      CycleSpec(TcpClient, st, c) == CycleOutcome(st.(pollfds := []), [OnNotValid(Token(3))], [], false)
  {
    var st := LoopState(Session(true, true), [PollFd(3, ReadInterest(), Empty())], true);
    var c := Cycle(1, fd => EventSet(POLLNVAL), fd => IoOutcomes(ReadErr, true, SendErr, true, ReadErr, true));
    var entry := PollFd(3, ReadInterest(), EventSet(POLLNVAL));
    var l := WithRevents(st.pollfds, c.revents);
    assert l == [entry];
    assert l[..0] == [];
    var e := Event(3, EventSet(POLLNVAL));
    assert Triggered(l) == [e];
    var polled := st.(pollfds := l);
    assert [e][..0] == [];
    assert ReadyStep(TcpClient, polled, e, c.io(3)) == Dispatched(polled, [], [], [], false);
    assert Fds(l)[0] == 3;
    assert IndexOf(l, 3) == Some(0);
    assert Without(l, 3) == [];
    assert LaterStep(polled, e) == Dispatched(st.(pollfds := []), [OnNotValid(Token(3))], [], [3], false);
    var x := Dispatched(st.(pollfds := []), [OnNotValid(Token(3))], [], [3], false);
    assert EntryStep(TcpClient, polled, e, c.io(3)) == x;
    assert Dispatch(TcpClient, polled, [], c.io) == Dispatched(polled, [], [], [], false);
    var d := Dispatch(TcpClient, polled, [e], c.io);
    assert d == Dispatched(st.(pollfds := []), [OnNotValid(Token(3))], [], [3], false);
    assert PositiveDispatch(TcpClient, st, c) == d;
    assert [3][..0] == [];
    assert RemoveEach([], [3]) == [];
    CyclePositiveDispatch(TcpClient, st, c);
    assert Inv(st);
    CycleAsWrittenPanics(TcpClient, st, c);
  }

  // ---------------------------------------------------------------------
  // The loop, step by step

  /** `poll`: fills in each entry's reported conditions and answers the cycle's result. */
  method Poll(el: EventLoop, c: Cycle) returns (result: int)
    modifies el
    ensures el.pollfds == WithRevents(old(el.pollfds), c.revents)
    ensures el.active == old(el.active)
    ensures result == c.result
  {
    el.pollfds := WithRevents(el.pollfds, c.revents);
    result := c.result;
  }

  /** Collects the entries with a non-empty report, front to back. */
  method Snapshot(el: EventLoop) returns (snap: seq<Event>)
    ensures snap == Triggered(el.pollfds)
  {
    snap := [];
    var i := 0;
    while i < |el.pollfds|
      invariant i <= |el.pollfds|
      invariant snap == Triggered(el.pollfds[..i])
    {
      var received := el.pollfds[i].revents;
      if !received.IsEmpty() {
        snap := snap + [Event(el.pollfds[i].fd, received)];
      }
      assert el.pollfds[..i + 1][..i] == el.pollfds[..i];
      i := i + 1;
    }
    assert el.pollfds[..i] == el.pollfds;
  }

  /** `ready_for_io` for one snapshot entry, when it is readable or writable. */
  method ReadyEntry(el: EventLoop, h: NetcatClientEventHandler, e: Event, io: IoOutcomes)
    returns (calls: seq<Call>, effects: seq<Effect>, failed: bool)
    modifies el, h
    ensures Dispatched(LoopState(h.State(), el.pollfds, el.active), calls, effects, [], failed) ==
      ReadyStep(h.networkClient, old(LoopState(h.State(), el.pollfds, el.active)), e, io)
  {
    var t, es := Token(e.fd), e.eventset;
    calls, effects, failed := [], [], false;
    if es.IsReadable() || es.IsWritable() {
      var r;
      r, effects := h.ReadyForIo(el, t, es, io);
      calls := [OnReadyForIo(t, es)];
      failed := r == IoErr;
    }
  }

  /** `hangup`, `error` and the default `not_valid` for one snapshot entry, each when its condition is reported. */
  method LaterEntry(el: EventLoop, h: NetcatClientEventHandler, e: Event)
    returns (calls: seq<Call>, effects: seq<Effect>, invalid: seq<int>)
    requires e.eventset.IsNotValid() ==> Registered(el.pollfds, e.fd)
    modifies el
    ensures Dispatched(LoopState(h.State(), el.pollfds, el.active), calls, effects, invalid, false) ==
      LaterStep(old(LoopState(h.State(), el.pollfds, el.active)), e)
  {
    ghost var st := LoopState(h.State(), el.pollfds, el.active);
    ghost var stop := e.eventset.IsHangup() && e.fd == STDIN_FD;
    var t, es := Token(e.fd), e.eventset;
    calls, effects, invalid := [], [], [];
    if es.IsHangup() {
      effects := h.Hangup(el, t);
      calls := [OnHangup(t)];
    }
    assert el.pollfds == st.pollfds && el.active == (st.active && !stop);
    assert effects == if stop then [ShutdownLoop] else [];
    if es.IsError() {
      var eff := h.Error(el, t);
      calls := calls + [OnError(t)];
      effects := effects + eff;
    }
    if es.IsNotValid() {
      DefaultNotValid(el, t);
      calls := calls + [OnNotValid(t)];
      invalid := [e.fd];
    }
    assert calls == LaterCalls(e);
    assert el.pollfds == LaterStep(st, e).st.pollfds;
  }

  /** The callbacks for one snapshot entry: `ready_for_io`, returning on its failure, then the others. */
  method DispatchEntry(el: EventLoop, h: NetcatClientEventHandler, e: Event, io: IoOutcomes)
    returns (calls: seq<Call>, effects: seq<Effect>, invalid: seq<int>, failed: bool)
    requires e.eventset.IsNotValid() ==>
      Registered(el.pollfds, e.fd) && !e.eventset.IsReadable() && !e.eventset.IsWritable()
    modifies el, h
    ensures Dispatched(LoopState(h.State(), el.pollfds, el.active), calls, effects, invalid, failed) ==
      EntryStep(h.networkClient, old(LoopState(h.State(), el.pollfds, el.active)), e, io)
  {
    calls, effects, failed := ReadyEntry(el, h, e, io);
    invalid := [];
    if failed {
      return;
    }
    var later, eff, inv := LaterEntry(el, h, e);
    calls, effects, invalid := calls + later, effects + eff, inv;
  }

  /** Every watched descriptor of the snapshot is registered, none twice, and none reported invalid is also ready. */
  predicate Dispatchable(l: seq<PollFd>, snap: seq<Event>) {
    DistinctEvents(snap) &&
    (forall i :: 0 <= i < |snap| ==> Registered(l, snap[i].fd)) &&
    (forall i :: 0 <= i < |snap| && snap[i].eventset.IsNotValid() ==>
      !snap[i].eventset.IsReadable() && !snap[i].eventset.IsWritable())
  }

  /** The `for (fd, eventset) in triggered_events` loop, returning at the first failure. */
  method DispatchAll(el: EventLoop, h: NetcatClientEventHandler, snap: seq<Event>, io: int -> IoOutcomes)
    returns (calls: seq<Call>, effects: seq<Effect>, invalid: seq<int>, failed: bool)
    requires Dispatchable(el.pollfds, snap)
    modifies el, h
    ensures Dispatched(LoopState(h.State(), el.pollfds, el.active), calls, effects, invalid, failed) ==
      Dispatch(h.networkClient, old(LoopState(h.State(), el.pollfds, el.active)), snap, io)
  {
    ghost var st0 := LoopState(h.State(), el.pollfds, el.active);
    calls, effects, invalid, failed := [], [], [], false;
    var k := 0;
    while k < |snap|
      invariant k <= |snap|
      invariant Dispatched(LoopState(h.State(), el.pollfds, el.active), calls, effects, invalid, false) ==
        Dispatch(h.networkClient, st0, snap[..k], io)
      invariant forall j :: k <= j < |snap| ==> Registered(el.pollfds, snap[j].fd)
    {
      var e := snap[k];
      ghost var before := LoopState(h.State(), el.pollfds, el.active);
      var c, eff, inv, f := DispatchEntry(el, h, e, io(e.fd));
      ghost var x := Dispatched(LoopState(h.State(), el.pollfds, el.active), c, eff, inv, f);
      assert x == EntryStep(h.networkClient, before, e, io(e.fd));
      DispatchStep(h.networkClient, st0, snap, io, k);
      calls, effects, invalid := calls + c, effects + eff, invalid + inv;
      if f {
        failed := true;
        RemainingFails(h.networkClient, st0, snap, io, k + 1);
        return;
      }
      EntryStepWatchList(h.networkClient, before, e, io(e.fd));
      StillRegistered(before.pollfds, el.pollfds, snap, k);
      k := k + 1;
    }
    assert snap[..k] == snap;
  }

  /** Dispatch of one more snapshot entry, after a prefix that did not fail. */
  lemma DispatchStep(conn: NetworkConnection, st: LoopState, snap: seq<Event>, io: int -> IoOutcomes, k: nat)
    requires k < |snap|
    ensures var d, e := Dispatch(conn, st, snap[..k], io), snap[k];
      var x := EntryStep(conn, d.st, e, io(e.fd));
      !d.failed ==> (Dispatch(conn, st, snap[..k + 1], io) ==
        Dispatched(x.st, d.calls + x.calls, d.effects + x.effects, d.invalid + x.invalid, x.failed))
  {
    assert snap[..k + 1][..k] == snap[..k];
  }

  /** The snapshot entries after entry `k` stay registered when entry `k` removes at most its own descriptor. */
  lemma StillRegistered(l: seq<PollFd>, l': seq<PollFd>, snap: seq<Event>, k: nat)
    requires k < |snap| && DistinctEvents(snap)
    requires forall j :: k <= j < |snap| ==> Registered(l, snap[j].fd)
    requires forall g :: g != snap[k].fd && Registered(l, g) ==> Registered(l', g)
    ensures forall j :: k + 1 <= j < |snap| ==> Registered(l', snap[j].fd)
  {
    forall j | k + 1 <= j < |snap|
      ensures Registered(l', snap[j].fd)
    {
      assert snap[j].fd != snap[k].fd;
    }
  }

  /** Once dispatch of a prefix has failed, dispatch of the whole snapshot ends in the same place. */
  lemma {:induction false} RemainingFails(conn: NetworkConnection, st: LoopState, snap: seq<Event>, io: int -> IoOutcomes, k: nat)
    requires k <= |snap|
    requires Dispatch(conn, st, snap[..k], io).failed
    ensures Dispatch(conn, st, snap, io) == Dispatch(conn, st, snap[..k], io)
    decreases |snap| - k
  {
    if k < |snap| {
      assert snap[..k + 1][..k] == snap[..k];
      RemainingFails(conn, st, snap, io, k + 1);
    } else {
      assert snap[..k] == snap;
    }
  }

  /** The `for fd in remove_pollfds` loop, with the tolerant removal. */
  method RemoveDeferred(el: EventLoop, fds: seq<int>)
    modifies el
    ensures el.pollfds == RemoveEach(old(el.pollfds), fds)
    ensures el.active == old(el.active)
  {
    var i := 0;
    while i < |fds|
      invariant i <= |fds|
      invariant el.pollfds == RemoveEach(old(el.pollfds), fds[..i])
      invariant el.active == old(el.active)
    {
      assert fds[..i + 1][..i] == fds[..i];
      el.UnregisterFd(fds[i]);
      i := i + 1;
    }
    assert fds[..i] == fds;
  }

  /** One pass of the `while self.is_active()` loop. */
  method RunCycle(el: EventLoop, h: NetcatClientEventHandler, c: Cycle)
    returns (calls: seq<Call>, effects: seq<Effect>, failed: bool)
    requires Distinct(el.pollfds) && WellFormed(c)
    modifies el, h
    ensures CycleOutcome(LoopState(h.State(), el.pollfds, el.active), calls, effects, failed) ==
      CycleSpec(h.networkClient, old(LoopState(h.State(), el.pollfds, el.active)), c)
  {
    ghost var st0 := LoopState(h.State(), el.pollfds, el.active);
    var removePollfds: seq<int> := [];
    var pollResult := Poll(el, c);
    var shutdownLoop := false;
    calls, effects, failed := [], [], false;
    if pollResult == -1 {
      shutdownLoop := true;
    } else if pollResult == 0 {
      effects := h.Timeout(el);
      calls := [OnTimeout];
    } else {
      var snap := Snapshot(el);
      TriggeredFacts(el.pollfds, c.revents);
      WithReventsFds(st0.pollfds, c.revents);
      calls, effects, removePollfds, failed := DispatchAll(el, h, snap, c.io);
      if failed {
        return;
      }
    }
    RemoveDeferred(el, removePollfds);
    if shutdownLoop {
      el.Shutdown();
    }
  }

  /**
   * `run`: sets the flag, then runs cycles while it is set. The source's
   * loop has no bound; here it runs over the `poll` answers given and
   * reports `StillRunning` if they run out first.
   */
  method Run(el: EventLoop, h: NetcatClientEventHandler, polls: seq<Cycle>)
    returns (outcome: RunOutcome, effects: seq<Effect>)
    requires Distinct(el.pollfds)
    requires forall i :: 0 <= i < |polls| ==> WellFormed(polls[i])
    modifies el, h
    ensures RunTrace(outcome, LoopState(h.State(), el.pollfds, el.active), effects) ==
      RunSpec(h.networkClient, old(LoopState(h.State(), el.pollfds, true)), polls)
  {
    el.active := true;
    ghost var st0 := LoopState(h.State(), el.pollfds, el.active);
    effects := [];
    var k := 0;
    while el.IsActive()
      invariant k <= |polls|
      invariant Distinct(el.pollfds)
      invariant var rest := RunSpec(h.networkClient, LoopState(h.State(), el.pollfds, el.active), polls[k..]);
        RunSpec(h.networkClient, st0, polls) == RunTrace(rest.outcome, rest.st, effects + rest.effects)
      decreases |polls| - k
    {
      if k == |polls| {
        return StillRunning, effects;
      }
      ghost var before := LoopState(h.State(), el.pollfds, el.active);
      assert polls[k..][0] == polls[k] && polls[k..][1..] == polls[k + 1..];
      CycleKeepsDistinct(h.networkClient, before, polls[k]);
      var calls, eff, failed := RunCycle(el, h, polls[k]);
      effects := effects + eff;
      if failed {
        return Returned(RunErr), effects;
      }
      k := k + 1;
    }
    outcome := Returned(RunOk);
  }

  /** A cycle keeps the watch list free of repeats. */
  lemma CycleKeepsDistinct(conn: NetworkConnection, st: LoopState, c: Cycle)
    requires Distinct(st.pollfds)
    ensures Distinct(CycleSpec(conn, st, c).st.pollfds)
  {
    var polled := st.(pollfds := WithRevents(st.pollfds, c.revents));
    WithReventsFds(st.pollfds, c.revents);
    if c.result != -1 && c.result != 0 {
      var snap := Triggered(polled.pollfds);
      DispatchDistinct(conn, polled, snap, c.io);
      var d := Dispatch(conn, polled, snap, c.io);
      RemoveEachFacts(d.st.pollfds, d.invalid);
    }
  }

  /** Dispatch keeps the watch list free of repeats. */
  lemma {:induction false} DispatchDistinct(conn: NetworkConnection, st: LoopState, snap: seq<Event>, io: int -> IoOutcomes)
    requires Distinct(st.pollfds)
    ensures Distinct(Dispatch(conn, st, snap, io).st.pollfds)
  {
    if snap != [] {
      var init, e := snap[..|snap| - 1], snap[|snap| - 1];
      DispatchDistinct(conn, st, init, io);
      var d := Dispatch(conn, st, init, io);
      if !d.failed {
        EntryStepWatchList(conn, d.st, e, io(e.fd));
      }
    }
  }
}
