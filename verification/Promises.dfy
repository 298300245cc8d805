/** Three things the documentation promises and the code does not always do: the runs
    that show it, and exactly when the promise is kept. */
module Promises {
  import opened Bytes
  import opened Errors
  import R = Responses
  import opened Connection
  import opened Conservation
  import opened WriteOrder
  import opened Delivery
  import opened Subscriptions

  // ---------------------------------------------------------------------
  // Closing lets requests in flight finish
  // ---------------------------------------------------------------------

  lemma {:induction false} DropQueuePasses(c: Callers, queue: seq<Ticketed>, k: nat)
    requires CountIn(queue, k) == 0
    ensures Past(DropQueue(c, queue).outcomes, k) == Past(c.outcomes, k)
    decreases |queue|
  {
    if queue != [] {
      DropQueuePasses(DropCommand(c, queue[0].command), queue[1..], k);
    }
  }

  /** A state in which the task is about to take `Close` off the channel. */
  ghost predicate Closing(s: State) {
    s.phase == Selecting && s.mail.channel != [] && s.mail.channel[0].command.Close?
  }

  /** In every run: taking `Close` ends the task, and everything in flight is settled with
      `Closed` and nothing else. */
  lemma CloseFailsInFlight(policy: Reconnect, schedule: seq<Choice>, io: bool, k: nat)
    requires Closing(Run(Init(policy), schedule)) && k in Run(Init(policy), schedule).task.pending
    ensures var s1 := Step(Run(Init(policy), schedule), Recv(io));
      s1.phase == Done && Past(s1.callers.outcomes, k) == [Failed(Closed)]
  {
    hide Run, DropQueue;
    RunConserves(policy, schedule);
    var s := Run(Init(policy), schedule);
    assert Places(s, k) == Expected(s.mail, k);
    var s0 := PopChannel(s);
    assert s.mail.channel == [s.mail.channel[0]] + s0.mail.channel;
    var c := FailPending(s0).callers;
    assert Past(s.callers.outcomes, k) == [];
    assert Past(c.outcomes, k) == [Failed(Closed)];
    DropQueuePasses(c, s.task.deferred, k);
    DropQueuePasses(DropQueue(c, s.task.deferred), s0.mail.channel, k);
  }

  /** Every request in flight in `s` has a reply in `s1`. */
  ghost predicate AllReplied(s: State, s1: State) {
    forall k | k in s.task.pending :: exists o | o in Past(s1.callers.outcomes, k) :: o.Replied?
  }

  /** So `close` lets requests finish first exactly when there are none to finish. */
  lemma CloseLetsFinishExactly(policy: Reconnect, schedule: seq<Choice>, io: bool)
    requires Closing(Run(Init(policy), schedule))
    ensures var s := Run(Init(policy), schedule);
      AllReplied(s, Step(s, Recv(io))) <==> s.task.pending == map[]
  {
    hide Run, Step;
    var s := Run(Init(policy), schedule);
    if s.task.pending != map[] {
      var k :| k in s.task.pending;
      CloseFailsInFlight(policy, schedule, io, k);
    }
  }

  /** A ping, written to a healthy link, and `close` right behind it. */
  function PingThenClose(): seq<Choice> {
    [] + [TakeSync] + [Drain(true)] + [Submit(Request(1, PingPacket(1), false))] + [Recv(true)] + [Drain(true)]
    + [Submit(Close)]
  }

  lemma PingIsCutOff()
    ensures var s := Run(Init(Never), PingThenClose());
      Closing(s) && s.task.pending == map[1 := false] && s.link.sends == [Sent(ByCommand(0), Call(1, PingPacket(1)), 0, true)]
  {
    hide Run, Step, PingPacket;
    var init := Init(Never);
    var r := Submit(Request(1, PingPacket(1), false));
    RunNothing(init);
    RunSnoc(init, [], TakeSync);
    RunSnoc(init, [] + [TakeSync], Drain(true));
    RunSnoc(init, [] + [TakeSync] + [Drain(true)], r);
    RunSnoc(init, [] + [TakeSync] + [Drain(true)] + [r], Recv(true));
    RunSnoc(init, [] + [TakeSync] + [Drain(true)] + [r] + [Recv(true)], Drain(true));
    RunSnoc(init, [] + [TakeSync] + [Drain(true)] + [r] + [Recv(true)] + [Drain(true)], Submit(Close));
    PingSteps();
  }

  lemma PingSteps()
    ensures var r := Submit(Request(1, PingPacket(1), false));
      var s0 := Step(Step(Step(Init(Never), TakeSync), Drain(true)), r);
      var s := Step(Step(Step(s0, Recv(true)), Drain(true)), Submit(Close));
      Closing(s) && s.task.pending == map[1 := false] && s.link.sends == [Sent(ByCommand(0), Call(1, PingPacket(1)), 0, true)]
  {
    PingSize();
    hide PingPacket, Finish;
    var r := Submit(Request(1, PingPacket(1), false));
    var s0 := Step(Step(Step(Init(Never), TakeSync), Drain(true)), r);
    assert s0.phase == Selecting && s0.mail.channel == [Ticketed(0, Request(1, PingPacket(1), false))];
    assert s0.task.pending == map[] && s0.link == Link(0, false, []);
    var s1 := Step(s0, Recv(true));
    assert s1.phase == Draining && s1.task.deferred == [] && s1.mail.channel == [];
    assert s1.link.sends == [Sent(ByCommand(0), Call(1, PingPacket(1)), 0, true)];
  }

  lemma PingSize()
    ensures |PingPacket(1)| == 6 && Fits(Call(1, PingPacket(1)))
  {
    HeaderSize(0x40, 1);
  }

  // ---------------------------------------------------------------------
  // Every watcher gets the current value at once
  // ---------------------------------------------------------------------

  /** The command that a step hands to the task, if it does. */
  function Taken(s: State, c: Choice): Option<Ticketed> {
    match c
    case Drain(_) => if s.phase == Draining && s.task.deferred != [] then Some(s.task.deferred[0]) else None
    case Recv(_) => if s.phase == Selecting && s.mail.channel != [] then Some(s.mail.channel[0]) else None
    case _ => None
  }

  /** What the step does to the link is what handling the command does. */
  lemma TakenDecidesLink(s: State, c: Choice)
    requires Taken(s, c).Some? && !Taken(s, c).value.command.Close?
    ensures var s0 := if c.Drain? then PopDeferred(s) else PopChannel(s);
      var (s1, ok) := HandleCommand(s0, Taken(s, c).value, c.io);
      && s0.link == s.link && s0.task.watchers == s.task.watchers
      && Step(s, c).link.sends == s1.link.sends
      && (Step(s, c).phase == Done || Step(s, c).task.watchers == s1.task.watchers)
  {
    hide HandleCommand, Finish, FailPending;
    var s0 := if c.Drain? then PopDeferred(s) else PopChannel(s);
    var s1 := HandleCommand(s0, Taken(s, c).value, c.io).0;
    FailPendingFrame(s1);
    EndsKeepEpoch(s1);
    FinishIsDone(DropLink(FailPending(s1)));
  }

  /** In every run, a subscription taken sends one WATCH if its key is not watched, and
      nothing otherwise; so on a live link that agrees it asks the server for the value
      exactly when the server was not asked to watch the key on that link. */
  lemma WatchAsksExactly(policy: Reconnect, schedule: seq<Choice>, c: Choice)
    requires var t := Taken(Run(Init(policy), schedule), c); t.Some? && t.value.command.Watch?
    ensures var s := Run(Init(policy), schedule);
      var (t, s1) := (Taken(s, c).value, Step(s, c));
      && s1.link.sends == s.link.sends
           + (if t.command.key in s.task.watchers then []
              else [Sent(ByCommand(t.ticket), WatchKey(t.command.key), s.link.epoch, !s.link.dead && Fits(WatchKey(t.command.key)))])
      && (!s.link.dead && (policy.Never? || Watches(schedule, Sendable())) ==>
            (s1.link.sends != s.link.sends <==> t.command.key !in Subscribed(s.link.sends, s.link.epoch)))
  {
    hide Run, Step, Fits, Subscribed, Sendable;
    var s := Run(Init(policy), schedule);
    TakenDecidesLink(s, c);
    if policy.Never? || Watches(schedule, Sendable()) {
      RunAgrees(policy, schedule);
    }
  }

  /** In every run, a new subscriber of a key already watched holds nothing, whatever the
      others hold, and nothing is sent for it. */
  lemma LaterWatcherHoldsNothing(policy: Reconnect, schedule: seq<Choice>, io: bool)
    requires var s := Run(Init(policy), schedule);
      && s.phase == Selecting && s.mail.channel != [] && s.mail.channel[0].command.Watch?
      && s.mail.channel[0].command.key in s.task.watchers
    ensures var s := Run(Init(policy), schedule);
      var (id, key, s1) := (s.mail.channel[0].command.id, s.mail.channel[0].command.key, Step(s, Recv(io)));
      Listed(s1, id, key) && Slot(s1.callers, id) == None && s1.link == s.link
  {
    hide Run, Step, Latest;
    var s := Run(Init(policy), schedule);
    var s1 := Step(s, Recv(io));
    RunFresh(policy, schedule + [Recv(io)]);
    RunSnoc(Init(policy), schedule, Recv(io));
    WatchStep(s, io);
    var (id, key) := (s.mail.channel[0].command.id, s.mail.channel[0].command.key);
    assert Fresh(s1, id, key);
    LatestAppend(s.log, Registered(id, key), id, key);
  }

  lemma WatchStep(s: State, io: bool)
    requires s.phase == Selecting && s.mail.channel != [] && s.mail.channel[0].command.Watch?
    requires s.mail.channel[0].command.key in s.task.watchers
    ensures var (id, key, s1) := (s.mail.channel[0].command.id, s.mail.channel[0].command.key, Step(s, Recv(io)));
      Listed(s1, id, key) && s1.link == s.link && s1.log == s.log + [Registered(id, key)]
  {
    hide Finish;
  }

  /** Nothing but an event for a key it is listed under changes what a subscriber holds. */
  lemma ValuesComeWithEvents(s: State, c: Choice, id: nat)
    requires Sound(s)
    ensures Slot(Step(s, c).callers, id) != Slot(s.callers, id) ==>
      c.Arrive? && Classify(c.response).Event? && Listed(s, id, Classify(c.response).key)
  {
    hide HandleCommand, HandleResponse, Finish, Lost, Replay, SubmitCommand;
    match c
    case Drain(io) =>
      if s.task.deferred != [] {
        CommandKeepsSlots(PopDeferred(s), s.task.deferred[0], io);
      }
    case Recv(io) =>
      EndsKeepSlots(s);
      if s.mail.channel != [] {
        EndsKeepSlots(PopChannel(s));
        if !s.mail.channel[0].command.Close? {
          CommandKeepsSlots(PopChannel(s), s.mail.channel[0], io);
          EndsKeepSlots(HandleCommand(PopChannel(s), s.mail.channel[0], io).0);
        }
      }
    case Arrive(response, io) =>
      ResponseSetsSlots(s, Classify(response), io, id);
      EndsKeepSlots(HandleResponse(s, Classify(response), io));
    case LinkError => EndsKeepSlots(s);
    case Wake(took) =>
      EndsKeepSlots(s);
      if s.mail.channel != [] {
        EndsKeepSlots(PopChannel(s));
      }
    case _ =>
  }

  lemma CommandKeepsSlots(s: State, t: Ticketed, io: bool)
    requires !t.command.Close?
    ensures HandleCommand(s, t, io).0.callers.slots == s.callers.slots
  {
    hide Fits, Without;
  }

  lemma ResponseSetsSlots(s: State, p: Packet, io: bool, id: nat)
    ensures Slot(HandleResponse(s, p, io).callers, id) != Slot(s.callers, id) ==> p.Event? && Listed(s, id, p.key)
  {
    hide Fits, Alive;
  }

  lemma EndsKeepSlots(s: State)
    ensures Finish(s).callers.slots == s.callers.slots && Lost(s).callers.slots == s.callers.slots
  {
    hide Finish, FailPending;
    EndsDeliver(s);
    FailPendingDelivers(s);
    EndsDeliver(DropLink(FailPending(s)));
    FailPendingDelivers(DropLink(FailPending(s)));
  }

  /** An event for `key` with the value `data`. */
  function EventFor(key: Key, data: seq<byte>): (r: R.Located)
    ensures Classify(r) == Event(key, data)
  {
    assert data[0..|data|] == data;
    R.Response(R.Event, 0, None, data, R.EMPTY_BODY.(eventKey := Some(key), eventData := Some((0, |data|))))
  }

  /** One subscriber, and an event for it. */
  function Watched(key: Key, data: seq<byte>): seq<Choice> {
    [] + [TakeWatchId] + [TakeWatchId] + [Drain(true)] + [Submit(Watch(1, key))] + [Recv(true)] + [Drain(true)]
    + [Arrive(EventFor(key, data), true)] + [Drain(true)] + [Submit(Watch(2, key))] + [Recv(true)]
  }

  /** The first subscriber holds the value, the second one nothing, and WATCH was sent for
      the first and to acknowledge the event, not for the second. */
  lemma SecondWatcherHoldsNothing(key: Key, data: seq<byte>)
    requires Fits(WatchKey(key)) && key != SHUTDOWN_KEY
    ensures var s := Run(Init(Never), Watched(key, data));
      && Slot(s.callers, 1) == Some(data) && Slot(s.callers, 2) == None && s.task.watchers == map[key := [1, 2]]
      && s.link.sends == [Sent(ByCommand(0), WatchKey(key), 0, true), Sent(ByAck, WatchKey(key), 0, true)]
  {
    hide Run, Step, Fits;
    var init, event := Init(Never), Arrive(EventFor(key, data), true);
    var s1 := OneWatcher(init, key);
    var before := [] + [TakeWatchId] + [TakeWatchId] + [Drain(true)] + [Submit(Watch(1, key))] + [Recv(true)] + [Drain(true)];
    RunSnoc(init, before, event);
    RunSnoc(init, before + [event], Drain(true));
    RunSnoc(init, before + [event] + [Drain(true)], Submit(Watch(2, key)));
    RunSnoc(init, before + [event] + [Drain(true)] + [Submit(Watch(2, key))], Recv(true));
    EventArrives(s1, key, data);
    var s2 := Step(s1, event);
    SecondSubscribes(s2, key);
  }

  /** Subscriber 1 listed alone, on a live link; one more id drawn. */
  lemma OneWatcher(init: State, key: Key) returns (s: State)
    requires init == Init(Never) && Fits(WatchKey(key))
    ensures s == Run(init, [] + [TakeWatchId] + [TakeWatchId] + [Drain(true)] + [Submit(Watch(1, key))] + [Recv(true)] + [Drain(true)])
    ensures Single(s, key) && s.callers.receivers == {1}
  {
    hide Run, Step, Fits;
    RunNothing(init);
    RunSnoc(init, [], TakeWatchId);
    RunSnoc(init, [] + [TakeWatchId], TakeWatchId);
    RunSnoc(init, [] + [TakeWatchId] + [TakeWatchId], Drain(true));
    RunSnoc(init, [] + [TakeWatchId] + [TakeWatchId] + [Drain(true)], Submit(Watch(1, key)));
    RunSnoc(init, [] + [TakeWatchId] + [TakeWatchId] + [Drain(true)] + [Submit(Watch(1, key))], Recv(true));
    RunSnoc(init, [] + [TakeWatchId] + [TakeWatchId] + [Drain(true)] + [Submit(Watch(1, key))] + [Recv(true)], Drain(true));
    FirstSubscribes(key);
    s := Run(init, [] + [TakeWatchId] + [TakeWatchId] + [Drain(true)] + [Submit(Watch(1, key))] + [Recv(true)] + [Drain(true)]);
  }

  ghost predicate Alone(s: State, key: Key) {
    && s.task.watchers == map[key := [1]] && s.task.deferred == [] && !s.task.shuttingDown
    && s.link == Link(0, false, [Sent(ByCommand(0), WatchKey(key), 0, true)])
    && !s.mail.closed && !s.mail.handlesGone && s.callers.slots == map[] && s.phase == Selecting
  }

  ghost predicate Single(s: State, key: Key) {
    && Alone(s, key) && s.mail.channel == [] && s.mail.issuedWatches == {2}
    && s.mail.nextSync == 1 && s.mail.issued == {}
  }

  lemma FirstSubscribes(key: Key)
    requires Fits(WatchKey(key))
    ensures var s0 := Step(Step(Step(Init(Never), TakeWatchId), TakeWatchId), Drain(true));
      var s := Step(Step(Step(s0, Submit(Watch(1, key))), Recv(true)), Drain(true));
      Single(s, key) && s.callers.receivers == {1}
  {
    hide Fits, Finish;
    var s0 := Step(Step(Step(Step(Init(Never), TakeWatchId), TakeWatchId), Drain(true)), Submit(Watch(1, key)));
    assert s0.phase == Selecting && s0.mail.channel == [Ticketed(0, Watch(1, key))] && s0.mail.issuedWatches == {2};
    assert Past(s0.task.watchers, key) + [1] == [1];
    var s1 := Step(s0, Recv(true));
    assert s1.task.watchers == map[key := [1]];
    assert s1.link.sends == [Sent(ByCommand(0), WatchKey(key), 0, true)];
  }

  lemma EventArrives(s: State, key: Key, data: seq<byte>)
    requires Fits(WatchKey(key)) && key != SHUTDOWN_KEY
    requires Alone(s, key)
    ensures var (s1, live) := (Step(s, Arrive(EventFor(key, data), true)), if 1 in s.callers.receivers then [1] else []);
      && s1.phase == Draining && s1.task == s.task.(watchers := map[key := live]) && s1.mail == s.mail
      && s1.callers.slots == (if 1 in s.callers.receivers then map[1 := data] else map[])
      && s1.callers.receivers == s.callers.receivers
      && s1.link == Link(0, false, s.link.sends + [Sent(ByAck, WatchKey(key), 0, true)])
  {
    hide Fits, Finish, EventFor;
    assert Alive([1], s.callers.receivers) == if 1 in s.callers.receivers then [1] else [] by {
      assert [1][1..] == [];
    }
    var s1 := HandleResponse(s, Event(key, data), true);
    assert s1.callers.slots == if 1 in s.callers.receivers then map[1 := data] else map[];
    assert s1.task.watchers == map[key := if 1 in s.callers.receivers then [1] else []];
  }

  lemma SecondSubscribes(s: State, key: Key)
    requires s.phase == Draining && s.task.watchers == map[key := [1]] && s.task.deferred == [] && s.mail.channel == []
    requires !s.mail.closed && !s.mail.handlesGone && s.mail.issuedWatches == {2}
    ensures var s1 := Step(Step(Step(s, Drain(true)), Submit(Watch(2, key))), Recv(true));
      s1.task.watchers == map[key := [1, 2]] && s1.link == s.link && s1.callers.slots == s.callers.slots
  {
    hide Finish;
    assert [1] + [2] == [1, 2];
  }

  // ---------------------------------------------------------------------
  // The server is told when the last watcher of a key goes
  // ---------------------------------------------------------------------

  /** `t` unsubscribes the only subscriber listed under `key`, however often listed. */
  ghost predicate LastLeaves(s: State, t: Ticketed, key: Key) {
    && t.command.Unwatch? && t.command.key == key && key in s.task.watchers
    && forall id | id in s.task.watchers[key] :: id == t.command.id
  }

  /** An attempt was made to send UNWATCH for `key`. */
  ghost predicate Unwatched(before: seq<Sent>, after: seq<Sent>, key: Key) {
    exists i | |before| <= i < |after| :: after[i].wire == UnwatchKey(key)
  }

  ghost predicate LastLeavesNow(s: State, c: Choice, key: Key) {
    Taken(s, c).Some? && LastLeaves(s, Taken(s, c).value, key)
  }

  /** Through every step of every run: UNWATCH is sent for a key, and the key stops being
      watched, exactly when the task takes an unsubscription that leaves nobody listed.
      An unsubscription that never gets there, and a receiver that is gone, do neither. */
  lemma ServerIsToldExactly(policy: Reconnect, schedule: seq<Choice>, c: Choice, key: Key)
    ensures var s := Run(Init(policy), schedule);
      var s1 := Step(s, c);
      && (Unwatched(s.link.sends, s1.link.sends, key) <==> LastLeavesNow(s, c, key))
      && (key in s.task.watchers && s1.phase != Done ==> (key !in s1.task.watchers <==> LastLeavesNow(s, c, key)))
  {
    hide Run, Step;
    RunSound(policy, schedule);
    StepTells(Run(Init(policy), schedule), c, key);
  }

  lemma CommandTells(s: State, t: Ticketed, io: bool, key: Key)
    requires !t.command.Close?
    ensures var s1 := HandleCommand(s, t, io).0;
      && (Unwatched(s.link.sends, s1.link.sends, key) <==> LastLeaves(s, t, key))
      && (key in s.task.watchers ==> (key !in s1.task.watchers <==> LastLeaves(s, t, key)))
  {
    hide Fits, Without;
    var s1 := HandleCommand(s, t, io).0;
    if t.command.Unwatch? && t.command.key in s.task.watchers {
      var list := Without(s.task.watchers[t.command.key], t.command.id);
      if list != [] {
        assert list[0] in list;
      } else {
        assert s1.link.sends[|s.link.sends|].wire == UnwatchKey(t.command.key);
      }
    }
  }

  lemma ResponseTellsNothing(s: State, p: Packet, io: bool, key: Key)
    ensures var s1 := HandleResponse(s, p, io);
      !Unwatched(s.link.sends, s1.link.sends, key) && s1.task.watchers.Keys == s.task.watchers.Keys
  {
    hide Fits, Alive;
  }

  lemma {:induction false} ReplayTellsNothing(l: Link, keys: seq<Key>, oks: nat, key: Key)
    ensures var l1 := Replay(l, keys, oks);
      |l.sends| <= |l1.sends| && !Unwatched(l.sends, l1.sends, key)
    decreases keys
  {
    hide Fits;
    if keys != [] {
      var (l1, ok) := Send(l, ByReplay, WatchKey(keys[0]), oks > 0);
      if ok {
        ReplayTellsNothing(l1, keys[1..], oks - 1, key);
        ReplayKeepsSends(l1, keys[1..], oks - 1);
      }
    }
  }

  lemma {:induction false} ReplayKeepsSends(l: Link, keys: seq<Key>, oks: nat)
    ensures l.sends <= Replay(l, keys, oks).sends
    decreases keys
  {
    hide Fits;
    if keys != [] {
      var (l1, ok) := Send(l, ByReplay, WatchKey(keys[0]), oks > 0);
      if ok {
        ReplayKeepsSends(l1, keys[1..], oks - 1);
      }
    }
  }

  lemma EndsTellNothing(s: State)
    ensures Finish(s).link.sends == s.link.sends && Lost(s).link.sends == s.link.sends
    ensures Finish(s).phase == Done && (Lost(s).phase == Done || Lost(s).task.watchers == s.task.watchers)
  {
    EndsKeepEpoch(s);
    FinishIsDone(s);
    FinishIsDone(DropLink(FailPending(s)));
    FailPendingFrame(s);
    hide Finish, FailPending;
  }

  lemma StepTells(s: State, c: Choice, key: Key)
    requires Sound(s)
    ensures Tells(s, c, key)
  {
    hide Step, HandleCommand, Tells;
    var t := Taken(s, c);
    if t.Some? && !t.value.command.Close? {
      TakenTells(s, c, key);
    } else {
      OtherTellsNothing(s, c, key);
    }
  }

  /** What `ServerIsToldExactly` says of one step. */
  ghost predicate Tells(s: State, c: Choice, key: Key) {
    var s1 := Step(s, c);
    && (Unwatched(s.link.sends, s1.link.sends, key) <==> LastLeavesNow(s, c, key))
    && (key in s.task.watchers && s1.phase != Done ==> (key !in s1.task.watchers <==> LastLeavesNow(s, c, key)))
  }

  lemma TakenTells(s: State, c: Choice, key: Key)
    requires Taken(s, c).Some? && !Taken(s, c).value.command.Close?
    ensures Tells(s, c, key)
  {
    hide Step, HandleCommand, Unwatched;
    TakenDecidesLink(s, c);
    CommandTells(if c.Drain? then PopDeferred(s) else PopChannel(s), Taken(s, c).value, c.io, key);
  }

  lemma OtherTellsNothing(s: State, c: Choice, key: Key)
    requires Sound(s) && (Taken(s, c).None? || Taken(s, c).value.command.Close?)
    ensures Tells(s, c, key)
  {
    hide HandleCommand, HandleResponse, Finish, Lost, Replay, SubmitCommand, Classify, IsOrder, LastLeaves;
    NothingTold(s.link.sends, key);
    hide Unwatched;
    assert !LastLeavesNow(s, c, key) by { LastLeavesNeedsUnwatch(s, c, key); }
    match c
    case Recv(io) =>
      EndsTellNothing(s);
      if s.mail.channel != [] {
        EndsTellNothing(PopChannel(s));
      }
    case Arrive(response, io) =>
      ResponseTellsNothing(s, Classify(response), io, key);
      EndsTellNothing(HandleResponse(s, Classify(response), io));
    case LinkError => EndsTellNothing(s);
    case Wake(took) =>
      EndsTellNothing(s);
      if s.mail.channel != [] {
        EndsTellNothing(PopChannel(s));
      }
    case HandshakeOk(keys, oks) =>
      ReplayTellsNothing(s.link.(epoch := s.link.epoch + 1, dead := false), keys, oks, key);
    case _ =>
  }

  lemma LastLeavesNeedsUnwatch(s: State, c: Choice, key: Key)
    ensures LastLeavesNow(s, c, key) ==> Taken(s, c).Some? && Taken(s, c).value.command.Unwatch?
  {
  }

  lemma NothingTold(sends: seq<Sent>, key: Key)
    ensures !Unwatched(sends, sends, key)
  {
  }

  /** The commands that unsubscribe anyone from `key`. */
  ghost function Unwatches(key: Key): iset<Command> {
    iset c: Command | c.Unwatch? && c.key == key
  }

  ghost predicate NobodyLeaves(schedule: seq<Choice>, key: Key) {
    forall c | c in schedule :: c.Submit? ==> c.command !in Unwatches(key)
  }

  /** Once no unsubscription from a watched key is queued, none that comes later means
      that the key stays watched until the task ends, whatever becomes of the receivers. */
  lemma {:induction false} RunStaysWatched(s: State, schedule: seq<Choice>, key: Key)
    requires key in s.task.watchers && Quiet(s, Unwatches(key)) && Sound(s) && NobodyLeaves(schedule, key)
    ensures var s1 := Run(s, schedule);
      Sound(s1) && (s1.phase == Done || (key in s1.task.watchers && Quiet(s1, Unwatches(key))))
    decreases |schedule|
  {
    hide Step, Sound;
    if schedule != [] {
      var before, c := schedule[..|schedule| - 1], schedule[|schedule| - 1];
      RunStaysWatched(s, before, key);
      var s1 := Run(s, before);
      assert c in schedule;
      StepSound(s1, c);
      if s1.phase == Done {
        DoneStays(s1, c);
      } else {
        StepQuiet(s1, c, Unwatches(key));
        StepTells(s1, c, key);
      }
    }
  }

  /** `n` pings, requested one after the other. */
  function Pings(n: nat): seq<Choice>
    requires n < U64_LIMIT
  {
    if n == 0 then [] else Pings(n - 1) + [TakeSync] + [Submit(Request(n, PingPacket(n), false))]
  }

  /** One listed subscriber, and `n` requests in the channel. */
  ghost predicate Filled(s: State, key: Key, n: nat) {
    && Alone(s, key) && |s.mail.channel| == n && s.mail.nextSync == n + 1 && s.mail.issued == {}
    && s.callers.receivers == {1} && forall t | t in s.mail.channel :: t.command.Request?
  }

  lemma PingFills(s: State, key: Key, n: nat)
    requires Filled(s, key, n) && n < CHANNEL_CAPACITY
    ensures Filled(Step(Step(s, TakeSync), Submit(Request(n + 1, PingPacket(n + 1), false))), key, n + 1)
  {
    hide PingPacket, Fits;
  }

  lemma {:induction false} PingsFill(init: State, before: seq<Choice>, key: Key, n: nat)
    requires Filled(Run(init, before), key, 0) && n <= CHANNEL_CAPACITY
    ensures Filled(Run(init, before + Pings(n)), key, n)
  {
    hide Run, Step, PingPacket, Filled;
    if n == 0 {
      assert before + [] == before;
    } else {
      PingsFill(init, before, key, n - 1);
      var front, ping := before + Pings(n - 1), Submit(Request(n, PingPacket(n), false));
      PingFills(Run(init, front), key, n - 1);
      RunSnoc(init, front, TakeSync);
      RunSnoc(init, front + [TakeSync], ping);
      assert before + Pings(n) == front + [TakeSync] + [ping];
    }
  }

  /** A full channel drops the unsubscription. */
  lemma UnwatchIsLost(s: State, key: Key)
    requires Filled(s, key, CHANNEL_CAPACITY)
    ensures Step(s, Submit(Unwatch(1, key))) == s
  {
    hide Fits;
  }

  /** Nobody listens under `key`, the server is still asked to watch it, and nothing
      queued will change that. */
  ghost predicate Abandoned(s: State, key: Key) {
    && key in s.task.watchers && (forall id | id in s.task.watchers[key] :: id !in s.callers.receivers)
    && !s.link.dead && Subscribed(s.link.sends, s.link.epoch) == {key} && Quiet(s, Unwatches(key))
  }

  /** A watcher, dropped while the channel is full of requests: its unsubscription gets
      lost, then its receiver goes. */
  function Dropped(key: Key): seq<Choice> {
    [] + [TakeWatchId] + [TakeWatchId] + [Drain(true)] + [Submit(Watch(1, key))] + [Recv(true)] + [Drain(true)]
    + Pings(CHANNEL_CAPACITY) + [Submit(Unwatch(1, key))] + [DropReceiver(1)]
  }

  lemma DroppedState(key: Key) returns (s: State)
    requires Fits(WatchKey(key))
    ensures s == Run(Init(Never), Dropped(key))
    ensures Alone(s, key) && s.callers.receivers == {} && Quiet(s, Unwatches(key))
  {
    hide Run, Step, Fits, Pings;
    var init := Init(Never);
    var before := [] + [TakeWatchId] + [TakeWatchId] + [Drain(true)] + [Submit(Watch(1, key))] + [Recv(true)] + [Drain(true)];
    var s0 := OneWatcher(init, key);
    PingsFill(init, before, key, CHANNEL_CAPACITY);
    var full := before + Pings(CHANNEL_CAPACITY);
    var s1 := Run(init, full);
    UnwatchIsLost(s1, key);
    ReceiverDropped(s1, key);
    RunSnoc(init, full, Submit(Unwatch(1, key)));
    RunSnoc(init, full + [Submit(Unwatch(1, key))], DropReceiver(1));
    s := Step(s1, DropReceiver(1));
  }

  lemma ReceiverDropped(s: State, key: Key)
    requires Filled(s, key, CHANNEL_CAPACITY)
    ensures var s1 := Step(s, DropReceiver(1)); Alone(s1, key) && s1.callers.receivers == {} && Quiet(s1, Unwatches(key))
  {
    hide Fits;
  }

  /** A dropped watcher whose unsubscription does not fit into the channel: the key is
      watched for nobody, and by `RunStaysWatched` for as long as nobody else leaves it. */
  lemma DroppedWatcherIsForgotten(key: Key)
    requires Fits(WatchKey(key))
    ensures Submit(Unwatch(1, key)) in Dropped(key) && Abandoned(Run(Init(Never), Dropped(key)), key)
  {
    hide Run, Fits, Subscribed, Pings;
    var s := DroppedState(key);
    SubscribedNothing(0);
    var m := Sent(ByCommand(0), WatchKey(key), 0, true);
    SubscribedAppend([], m, 0);
    assert [] + [m] == [m];
  }

  // ---------------------------------------------------------------------
  // Empty lists
  // ---------------------------------------------------------------------

  /** An event keeps its key watched, and empties the key's list exactly when no listed
      subscriber's receiver is alive. */
  lemma EventEmptiesExactly(s: State, key: Key, data: seq<byte>, io: bool)
    requires key in s.task.watchers
    ensures var s1 := HandleResponse(s, Event(key, data), io);
      && key in s1.task.watchers
      && (s1.task.watchers[key] == [] <==> forall id | id in s.task.watchers[key] :: id !in s.callers.receivers)
  {
    hide Fits, Alive;
    var live := Alive(s.task.watchers[key], s.callers.receivers);
    if live != [] {
      assert live[0] in live;
    }
  }

  /** A watched key whose list is empty. */
  ghost predicate Deserted(s: State, key: Key) {
    key in s.task.watchers && s.task.watchers[key] == []
  }

  /** And only an event empties a list: no command and no reconnect leaves a watched key
      with an empty one. */
  lemma OnlyEventsDesert(s: State, c: Choice, key: Key)
    requires Sound(s) && !Deserted(s, key)
    ensures Deserted(Step(s, c), key) ==>
      && c.Arrive? && Classify(c.response).Event? && Classify(c.response).key == key && key in s.task.watchers
      && forall id | id in s.task.watchers[key] :: id !in s.callers.receivers
  {
    hide HandleCommand, HandleResponse, Finish, FailPending, Replay, SubmitCommand;
    match c
    case Drain(io) =>
      if s.task.deferred != [] {
        CommandDesertsNothing(PopDeferred(s), s.task.deferred[0], io, key);
        FailPendingFrame(HandleCommand(PopDeferred(s), s.task.deferred[0], io).0);
      }
    case Recv(io) =>
      EndsDesertNothing(s, key);
      if s.mail.channel != [] {
        EndsDesertNothing(PopChannel(s), key);
        if !s.mail.channel[0].command.Close? {
          CommandDesertsNothing(PopChannel(s), s.mail.channel[0], io, key);
          EndsDesertNothing(HandleCommand(PopChannel(s), s.mail.channel[0], io).0, key);
        }
      }
    case Arrive(response, io) =>
      var p := Classify(response);
      EndsDesertNothing(HandleResponse(s, p, io), key);
      if Deserted(HandleResponse(s, p, io), key) {
        ResponseDeserts(s, p, io, key);
      }
    case LinkError => EndsDesertNothing(s, key);
    case Wake(took) =>
      EndsDesertNothing(s, key);
      if s.mail.channel != [] {
        EndsDesertNothing(PopChannel(s), key);
      }
    case _ =>
  }

  lemma CommandDesertsNothing(s: State, t: Ticketed, io: bool, key: Key)
    requires !t.command.Close? && !Deserted(s, key)
    ensures !Deserted(HandleCommand(s, t, io).0, key)
  {
    hide Fits, Without;
  }

  lemma ResponseDeserts(s: State, p: Packet, io: bool, key: Key)
    requires !Deserted(s, key) && Deserted(HandleResponse(s, p, io), key)
    ensures p.Event? && p.key == key && key in s.task.watchers
    ensures forall id | id in s.task.watchers[key] :: id !in s.callers.receivers
  {
    hide Fits, Alive;
    if p.Event? && p.key in s.task.watchers {
      EventEmptiesExactly(s, p.key, p.data, io);
    }
  }

  lemma EndsDesertNothing(s: State, key: Key)
    ensures !Deserted(Finish(s), key) && (Deserted(Lost(s), key) ==> Deserted(s, key))
  {
    hide DropQueue;
  }

  /** An event for the key of a forgotten watcher empties its list, and is acknowledged
      all the same: the key stays watched, and the link subscribed to it. */
  lemma DesertedKeyStaysWatched(key: Key, data: seq<byte>)
    requires Fits(WatchKey(key)) && key != SHUTDOWN_KEY
    ensures var s := Run(Init(Never), Dropped(key) + [Arrive(EventFor(key, data), true)]);
      Deserted(s, key) && Abandoned(s, key)
  {
    hide Run, Step, Fits, Subscribed, Dropped;
    var init, event := Init(Never), Arrive(EventFor(key, data), true);
    var s := DroppedState(key);
    RunSnoc(init, Dropped(key), event);
    EventArrives(s, key, data);
    var m0, m1 := Sent(ByCommand(0), WatchKey(key), 0, true), Sent(ByAck, WatchKey(key), 0, true);
    SubscribedNothing(0);
    SubscribedAppend([], m0, 0);
    assert [] + [m0] == [m0];
    SubscribedAppend([m0], m1, 0);
  }
}
