/** What each thing that can happen to the task does, told by what callers, the server
    and the queues see of it: by the fields of the response that arrived or the command
    that was taken, and by the bytes sent. */
module Effects {
  import opened Bytes
  import opened Errors
  import R = Responses
  import opened Connection
  import opened Conservation
  import opened WriteOrder
  import opened Delivery
  import opened Subscriptions
  import opened Promises

  // ---------------------------------------------------------------------
  // Responses
  // ---------------------------------------------------------------------

  /** The bytes a range cuts out of a body, or those of `nil`. */
  ghost predicate Cut(body: seq<byte>, range: Option<R.Range>, bytes: seq<byte>) {
    match range
    case None => bytes == [0xc0]
    case Some((start, end)) => start <= end <= |body| && bytes == body[start..end]
  }

  predicate IsReply(r: R.Located) {
    r.kind == R.Success || r.kind == R.Failure
  }

  /** `r` is the event "box.shutdown" with the value `true`. */
  ghost predicate Announces(r: R.Located) {
    && r.kind == R.Event
    && r.parts.eventKey == Some([98, 111, 120, 46, 115, 104, 117, 116, 100, 111, 119, 110])
    && exists data :: Cut(r.body, r.parts.eventData, data) && |data| > 0 && data[0] == 0xc3
  }

  /** `r` is an event for `key` with the value `data`. */
  ghost predicate Publishes(r: R.Located, key: Key, data: seq<byte>) {
    r.kind == R.Event && r.parts.eventKey == Some(key) && Cut(r.body, r.parts.eventData, data)
  }

  lemma PacketOf(r: R.Located)
    ensures IsReply(r) ==> Classify(r) == Reply(r)
    ensures r.kind == R.Chunk ==> Classify(r).Chunk? && Classify(r).sync == r.sync && Cut(r.body, r.parts.data, Classify(r).data)
    ensures r.kind == R.Event && r.parts.eventKey.None? ==> Classify(r) == KeylessEvent
    ensures r.kind == R.Event && r.parts.eventKey.Some? ==>
      Classify(r).Event? && Publishes(r, Classify(r).key, Classify(r).data)
    ensures Announces(r) <==> Classify(r).Event? && IsShutdown(Classify(r).key, Classify(r).data)
  {
    assert r.parts.data in [r.parts.data] && r.parts.eventData in [r.parts.eventData];
    if Classify(r).Event? && IsShutdown(Classify(r).key, Classify(r).data) {
      assert Cut(r.body, r.parts.eventData, Classify(r).data);
    }
  }

  /** What a handled packet leaves pending, and whether the task ends with it. */
  lemma PacketEnds(s: State, p: Packet, io: bool)
    ensures var s1 := HandleResponse(s, p, io);
      && s1.task.pending == (if p.Reply? then s.task.pending - {p.response.sync} else s.task.pending)
      && s1.task.shuttingDown == (s.task.shuttingDown || (p.Event? && IsShutdown(p.key, p.data)))
      && s1.phase == s.phase
  {
    hide Fits, Alive, IsShutdown;
  }

  /** A response ends the task exactly when shutdown was announced, by it or before, and
      nothing else is in flight; and it takes nothing out of flight but the request that
      it is the reply to. So an announced shutdown waits for the requests in flight. */
  lemma ResponseEndsExactly(s: State, r: R.Located, io: bool)
    requires s.phase == Selecting
    ensures var s1 := Step(s, Arrive(r, io));
      && (s1.phase == Done <==>
            (s.task.shuttingDown || Announces(r)) && forall k | k in s.task.pending :: IsReply(r) && k == r.sync)
      && (s1.phase != Done ==> s1.phase == Draining && s1.task.shuttingDown == (s.task.shuttingDown || Announces(r)))
      && (forall k | k in s.task.pending && !(IsReply(r) && k == r.sync) :: k in s1.task.pending && s1.phase != Done)
      && (forall k | k in s1.task.pending :: k in s.task.pending && s1.task.pending[k] == s.task.pending[k])
  {
    hide HandleResponse, Classify, Announces;
    PacketOf(r);
    PacketEnds(s, Classify(r), io);
    var s2 := HandleResponse(s, Classify(r), io);
    FinishIsDone(s2);
    NothingPending(s2);
    hide Finish;
    assert Classify(r).Reply? <==> IsReply(r);
    if s2.task.pending == map[] {
      assert forall k | k in s.task.pending :: k !in s2.task.pending;
    } else {
      var k :| k in s2.task.pending;
      assert k in s.task.pending && !(IsReply(r) && k == r.sync);
    }
  }

  lemma NothingPending(s: State)
    ensures Finish(s).task.pending == map[]
  {
    hide DropQueue;
  }

  /** Ending settles what is in flight and in the queues, and nothing that is settled. */
  lemma EndPasses(s: State, k: nat)
    requires CountIn(s.task.deferred, k) == 0 && CountIn(s.mail.channel, k) == 0 && k !in s.task.pending
    ensures Past(Finish(s).callers.outcomes, k) == Past(s.callers.outcomes, k)
  {
    hide DropQueue;
    var c := FailPending(s).callers;
    DropQueuePasses(c, s.task.deferred, k);
    DropQueuePasses(DropQueue(c, s.task.deferred), s.mail.channel, k);
  }

  /** A reply to a request in flight is what its caller gets, and all that it gets. */
  lemma ReplyIsDelivered(policy: Reconnect, schedule: seq<Choice>, r: R.Located, io: bool)
    requires var s := Run(Init(policy), schedule); s.phase == Selecting && r.sync in s.task.pending
    requires r.kind == R.Success || r.kind == R.Failure
    ensures var s := Run(Init(policy), schedule);
      var s1 := Step(s, Arrive(r, io));
      Past(s1.callers.outcomes, r.sync) == [Replied(r, s.link.epoch)] && r.sync !in s1.task.pending
  {
    hide Run, Finish, Classify;
    RunConserves(policy, schedule);
    var s := Run(Init(policy), schedule);
    assert Places(s, r.sync) == Expected(s.mail, r.sync);
    PacketOf(r);
    var s1 := HandleResponse(s, Reply(r), io);
    assert Past(s.callers.outcomes, r.sync) == [];
    assert Past(s1.callers.outcomes, r.sync) == [Replied(r, s.link.epoch)];
    EndPasses(s1, r.sync);
    NothingPending(s1);
  }

  /** A response that carries no sync answers nobody: no request is ever pending under
      the zero it is read with, and none goes out of flight. */
  lemma SynclessAnswersNobody(policy: Reconnect, schedule: seq<Choice>, r: R.Located, io: bool)
    requires Run(Init(policy), schedule).phase == Selecting && r.sync == 0
    ensures var s := Run(Init(policy), schedule);
      0 !in s.task.pending && (Step(s, Arrive(r, io)).phase != Done ==> Step(s, Arrive(r, io)).task.pending == s.task.pending)
  {
    hide Run, Step, Announces, CountIn;
    var s := Run(Init(policy), schedule);
    RunConserves(policy, schedule);
    RunSound(policy, schedule);
    assert Places(s, 0) == Expected(s.mail, 0);
    ResponseEndsExactly(s, r, io);
    var s1 := Step(s, Arrive(r, io));
    if s1.phase != Done {
      assert forall k | k in s.task.pending :: k in s1.task.pending;
      assert s1.task.pending.Keys == s.task.pending.Keys;
    }
  }

  /** Whether the task goes on or ends, handling a packet is all that callers' streams and
      slots, and the record of what was sent, see of it. */
  lemma ArrivalShows(s: State, r: R.Located, io: bool)
    requires s.phase == Selecting
    ensures var (s1, s2) := (HandleResponse(s, Classify(r), io), Step(s, Arrive(r, io)));
      && s2.callers.chunks == s1.callers.chunks && s2.callers.slots == s1.callers.slots && s2.link.sends == s1.link.sends
      && (s2.phase != Done ==> s2 == s1.(phase := Draining))
  {
    hide Finish, Classify, HandleResponse;
    var s1 := HandleResponse(s, Classify(r), io);
    EndsDeliver(s1);
    EndsKeepEpoch(s1);
    FinishIsDone(s1);
  }

  /** A chunk for a request that streams pushes goes to its push channel, and nothing else
      goes to any. */
  lemma ChunkIsDelivered(s: State, r: R.Located, io: bool, k: nat)
    requires s.phase == Selecting
    ensures var s1 := Step(s, Arrive(r, io));
      if r.kind == R.Chunk && k == r.sync && k in s.task.pending && s.task.pending[k]
      then exists data :: Cut(r.body, r.parts.data, data) && Past(s1.callers.chunks, k) == Past(s.callers.chunks, k) + [data]
      else Past(s1.callers.chunks, k) == Past(s.callers.chunks, k)
  {
    hide Step, Classify, Fits, Alive;
    PacketOf(r);
    ArrivalShows(s, r, io);
  }

  /** An event's value is what each live subscriber of its key then holds; the key's list
      is cut down to those, and the event acknowledged. Other responses, and other
      subscribers, see nothing of it. */
  lemma EventIsDelivered(s: State, r: R.Located, io: bool, key: Key, data: seq<byte>)
    requires s.phase == Selecting && Publishes(r, key, data) && key in s.task.watchers
    ensures var s1 := Step(s, Arrive(r, io));
      && (forall id :: Slot(s1.callers, id) == if id in s.task.watchers[key] && id in s.callers.receivers then Some(data) else Slot(s.callers, id))
      && (s1.phase != Done ==>
            && s1.task.watchers.Keys == s.task.watchers.Keys
            && (forall id :: id in s1.task.watchers[key] <==> id in s.task.watchers[key] && id in s.callers.receivers)
            && forall other | other in s.task.watchers && other != key :: s1.task.watchers[other] == s.task.watchers[other])
      && s1.link.sends == s.link.sends + [Sent(ByAck, WatchKey(key), s.link.epoch, !s.link.dead && Fits(WatchKey(key)))]
  {
    hide Step, Classify, Fits, Alive;
    PacketOf(r);
    CutOnce(r, data, Classify(r).data);
    ArrivalShows(s, r, io);
  }

  lemma CutOnce(r: R.Located, a: seq<byte>, b: seq<byte>)
    ensures Cut(r.body, r.parts.eventData, a) && Cut(r.body, r.parts.eventData, b) ==> a == b
  {
  }

  /** Any response but an event for a watched key sends nothing and sets no slot. */
  lemma OthersPublishNothing(s: State, r: R.Located, io: bool)
    requires s.phase == Selecting && !(r.kind == R.Event && r.parts.eventKey.Some? && r.parts.eventKey.value in s.task.watchers)
    ensures var s1 := Step(s, Arrive(r, io));
      && s1.callers.slots == s.callers.slots && s1.link.sends == s.link.sends
      && (s1.phase != Done ==> s1.task.watchers == s.task.watchers && s1.link == s.link)
  {
    hide Step, Classify, Fits, Alive;
    PacketOf(r);
    ArrivalShows(s, r, io);
  }

  // ---------------------------------------------------------------------
  // Commands
  // ---------------------------------------------------------------------

  /** One attempt to send `wire` for the command numbered `ticket`. */
  function Attempt(l: Link, ticket: nat, wire: Wire): Sent {
    Sent(ByCommand(ticket), wire, l.epoch, !l.dead && WireSize(wire) < 0x1_0000_0000)
  }

  /** A request taken after the shutdown announcement is refused with `ShuttingDown` and
      not sent. Any other is sent once, its own packet under its own sync. If that went
      through, it is in flight, streaming pushes if it asked to; if not, it and all the
      others in flight are settled with `Closed`, and the link is given up. */
  lemma RequestIsTaken(policy: Reconnect, schedule: seq<Choice>, c: Choice, t: Ticketed)
    requires Taken(Run(Init(policy), schedule), c) == Some(t) && t.command.Request?
    ensures var s := Run(Init(policy), schedule);
      var s1 := Step(s, c);
      var sync := t.command.sync;
      if s.task.shuttingDown then
        && Past(s1.callers.outcomes, sync) == [Failed(ShuttingDown)] && s1.task.pending == s.task.pending
        && s1.link == s.link && s1.phase == Draining
      else
        && s1.link.sends == s.link.sends + [Attempt(s.link, t.ticket, Call(sync, t.command.packet))]
        && if c.io && !s.link.dead && |t.command.packet| < 0x1_0000_0000
           then s1.task.pending == s.task.pending[sync := t.command.pushes] && s1.callers == s.callers && s1.phase == Draining
           else && s1.task.pending == map[] && s1.phase != Draining
                && Past(s1.callers.outcomes, sync) == [Failed(Closed)]
                && forall k | k in s.task.pending :: Past(s1.callers.outcomes, k) == [Failed(Closed)]
  {
    hide Run, Step, HandleCommand, CountIn, Places;
    var s := Run(Init(policy), schedule);
    RunSound(policy, schedule);
    RunConserves(policy, schedule);
    var s0 := Popped(s, c);
    PoppedFrame(s, c, t);
    RequestIsHandled(s0, t, c.io);
    TakenSteps(s, c, t);
    assert Places(s, t.command.sync) == Expected(s.mail, t.command.sync);
    AloneInQueue(s, c, t);
    if !HandleCommand(s0, t, c.io).1 {
      FailureSettles(s, c, t, t.command.sync);
      forall k | k in s.task.pending ensures Past(Step(s, c).callers.outcomes, k) == [Failed(Closed)] {
        assert Places(s, k) == Expected(s.mail, k);
        InFlightIsNotQueued(s, c, k);
        FailureSettles(s, c, t, k);
      }
    }
  }

  function Popped(s: State, c: Choice): State
    requires Taken(s, c).Some?
  {
    if c.Drain? then PopDeferred(s) else PopChannel(s)
  }

  lemma PoppedFrame(s: State, c: Choice, t: Ticketed)
    requires Taken(s, c) == Some(t)
    ensures var s0 := Popped(s, c);
      && s0.link == s.link && s0.callers == s.callers && s0.policy == s.policy && s0.phase == s.phase
      && s0.task.pending == s.task.pending && s0.task.watchers == s.task.watchers && s0.task.shuttingDown == s.task.shuttingDown
      && s0.task.deferred == (if c.Drain? then s.task.deferred[1..] else s.task.deferred)
      && s0.mail.channel == (if c.Recv? then s.mail.channel[1..] else s.mail.channel)
  {
  }

  /** A taken command is handled; then comes the next one, or the end of the link. */
  lemma TakenSteps(s: State, c: Choice, t: Ticketed)
    requires Taken(s, c) == Some(t) && !t.command.Close?
    ensures var (s1, ok) := HandleCommand(Popped(s, c), t, c.io);
      Step(s, c) == if ok then s1.(phase := Draining) else if c.Drain? then FailPending(s1).(phase := Selecting) else Lost(s1)
  {
    hide HandleCommand, FailPending, Lost;
    if c.Drain? {
      HandleCommandFrame(PopDeferred(s), t, c.io);
    }
  }

  lemma RequestIsHandled(s: State, t: Ticketed, io: bool)
    requires t.command.Request?
    ensures var (s1, ok) := HandleCommand(s, t, io);
      var sync := t.command.sync;
      && s1.mail == s.mail && s1.task.deferred == s.task.deferred && s1.policy == s.policy && s1.phase == s.phase
      && if s.task.shuttingDown then
           ok && s1.link == s.link && s1.task == s.task
           && Past(s1.callers.outcomes, sync) == Past(s.callers.outcomes, sync) + [Failed(ShuttingDown)]
         else
           && s1.link.sends == s.link.sends + [Attempt(s.link, t.ticket, Call(sync, t.command.packet))]
           && s1.task.pending == s.task.pending[sync := t.command.pushes]
           && (sync !in s.task.pending ==> s1.callers == s.callers)
           && ok == (io && !s.link.dead && |t.command.packet| < 0x1_0000_0000)
  {
  }

  /** A failed command settles whatever is in flight then, once. */
  lemma FailureSettles(s: State, c: Choice, t: Ticketed, k: nat)
    requires Taken(s, c) == Some(t) && !t.command.Close?
    requires var (s1, ok) := HandleCommand(Popped(s, c), t, c.io);
      && !ok && k in s1.task.pending && Past(s1.callers.outcomes, k) == []
      && CountIn(s1.task.deferred, k) == 0 && CountIn(s1.mail.channel, k) == 0
    ensures var s2 := Step(s, c);
      s2.task.pending == map[] && s2.phase != Draining && Past(s2.callers.outcomes, k) == [Failed(Closed)]
  {
    hide HandleCommand, Step, CountIn;
    var s1 := HandleCommand(Popped(s, c), t, c.io).0;
    TakenSteps(s, c, t);
    LossSettles(s1, k);
  }

  /** Losing the link settles what is in flight with `Closed`. */
  lemma LossSettles(s: State, k: nat)
    requires k in s.task.pending && Past(s.callers.outcomes, k) == []
    requires CountIn(s.task.deferred, k) == 0 && CountIn(s.mail.channel, k) == 0
    ensures Past(FailPending(s).callers.outcomes, k) == [Failed(Closed)] && FailPending(s).task.pending == map[]
    ensures Past(Lost(s).callers.outcomes, k) == [Failed(Closed)] && Lost(s).task.pending == map[] && Lost(s).phase != Draining
  {
    var f := DropLink(FailPending(s));
    assert Past(f.callers.outcomes, k) == [Failed(Closed)];
    EndPasses(f, k);
    FinishIsDone(f);
    NothingPending(f);
    hide Finish;
  }

  /** The request taken is nowhere else, and neither is one in flight. */
  lemma AloneInQueue(s: State, c: Choice, t: Ticketed)
    requires Taken(s, c) == Some(t) && t.command.Request? && Places(s, t.command.sync) <= 1
    ensures var (s0, k) := (Popped(s, c), t.command.sync);
      && CountIn(s0.task.deferred, k) == 0 && CountIn(s0.mail.channel, k) == 0
      && k !in s.task.pending && Past(s.callers.outcomes, k) == []
  {
  }

  lemma InFlightIsNotQueued(s: State, c: Choice, k: nat)
    requires Taken(s, c).Some? && k in s.task.pending && Places(s, k) <= 1
    ensures var s0 := Popped(s, c);
      CountIn(s0.task.deferred, k) == 0 && CountIn(s0.mail.channel, k) == 0 && Past(s.callers.outcomes, k) == []
  {
  }

  /** A packet fired is sent once, and nobody waits for an answer to it. */
  lemma FireIsTaken(s: State, c: Choice, t: Ticketed)
    requires Taken(s, c) == Some(t) && t.command.Fire?
    ensures var s1 := Step(s, c);
      && s1.link.sends == s.link.sends + [Attempt(s.link, t.ticket, Plain(t.command.packet))]
      && if c.io && !s.link.dead && |t.command.packet| < 0x1_0000_0000
         then s1.task.pending == s.task.pending && s1.callers == s.callers && s1.phase == Draining
         else s1.task.pending == map[] && s1.phase != Draining
  {
    hide Step, FailPending, Lost;
    TakenSteps(s, c, t);
    var s1 := HandleCommand(Popped(s, c), t, c.io).0;
    EndsKeepEpoch(s1);
    FailPendingFrame(s1);
    LostStops(s1);
  }

  lemma LostStops(s: State)
    ensures Lost(s).phase != Draining && Lost(s).task.pending == map[]
  {
    hide DropQueue;
  }

  /** A subscription taken adds its id to its key's list, behind the others, and touches no
      other key; one that leaves is taken off its key's list alone. */
  lemma SubscriptionIsTaken(s: State, c: Choice, t: Ticketed, key: Key)
    requires Taken(s, c) == Some(t) && (t.command.Watch? || t.command.Unwatch?) && Step(s, c).phase != Done
    ensures var (before, after) := (Past(s.task.watchers, key), Past(Step(s, c).task.watchers, key));
      if key != t.command.key then after == before && (key in s.task.watchers <==> key in Step(s, c).task.watchers)
      else if t.command.Watch? then after == before + [t.command.id]
      else forall id :: id in after <==> id in before && id != t.command.id
  {
    hide Step, Without, Fits;
    TakenDecidesLink(s, c);
    hide FailPending, Lost;
    if t.command.Unwatch? && key == t.command.key && key in s.task.watchers {
      var list := Without(s.task.watchers[key], t.command.id);
      assert list != [] || forall id :: id !in list;
    }
  }

  // ---------------------------------------------------------------------
  // Links
  // ---------------------------------------------------------------------

  /** A command leaves a live link alive exactly if nothing was sent for it or the I/O of
      what was sent succeeded; off the channel, any other failure gives the link up too. */
  lemma CommandKillsLink(s: State, c: Choice, t: Ticketed)
    requires Taken(s, c) == Some(t) && !t.command.Close?
    ensures var s1 := Step(s, c);
      && (c.Drain? || s1.phase == Draining ==>
            s1.link.dead == (s.link.dead || (|s1.link.sends| > |s.link.sends| && !c.io)))
      && (c.Recv? && s1.phase != Draining ==> s1.link.dead)
  {
    hide Step, FailPending, Lost, Fits, Without;
    TakenSteps(s, c, t);
    var s1 := HandleCommand(Popped(s, c), t, c.io).0;
    EndsKeepEpoch(s1);
    FailPendingFrame(s1);
    LostStops(s1);
  }

  /** So does the acknowledgement of an event. */
  lemma AckKillsLink(s: State, r: R.Located, io: bool)
    requires s.phase == Selecting
    ensures var s1 := Step(s, Arrive(r, io));
      s1.phase != Done ==> s1.link.dead == (s.link.dead || (|s1.link.sends| > |s.link.sends| && !io))
  {
    hide Step, Classify, Fits, Alive;
    ArrivalShows(s, r, io);
  }

  /** A broken link settles every request in flight with `Closed`, keeps the subscribers
      and the queues, and leads to waiting for the shortest delay, or ends the task. */
  lemma LinkErrorSettles(policy: Reconnect, schedule: seq<Choice>, k: nat)
    requires Run(Init(policy), schedule).phase == Selecting
    ensures var s := Run(Init(policy), schedule);
      var s1 := Step(s, LinkError);
      && s1.task.pending == map[] && s1.link == s.link.(dead := true)
      && (k in s.task.pending ==> Past(s1.callers.outcomes, k) == [Failed(Closed)])
      && match policy
         case Never => s1.phase == Done
         case Backoff(min, _) => s1.phase == Waiting(min) && s1.task == s.task.(pending := map[]) && s1.mail == s.mail
  {
    hide Run, CountIn, FailPending, Finish;
    var s := Run(Init(policy), schedule);
    RunConserves(policy, schedule);
    RunKeepsPolicy(policy, schedule);
    assert Places(s, k) == Expected(s.mail, k);
    if k in s.task.pending {
      LossSettles(s, k);
    }
    LostStops(s);
    EndsKeepEpoch(s);
    FailPendingFrame(s);
    FinishIsDone(DropLink(FailPending(s)));
  }

  lemma StepKeepsPolicy(s: State, c: Choice)
    ensures Step(s, c).policy == s.policy
  {
    hide HandleCommand, HandleResponse, Finish, SubmitCommand, Replay, Classify, IsOrder, FailPending;
    match c
    case Drain(io) =>
      if s.task.deferred != [] && !s.task.deferred[0].command.Close? {
        HandleCommandFrame(PopDeferred(s), s.task.deferred[0], io);
        FailPendingFrame(HandleCommand(PopDeferred(s), s.task.deferred[0], io).0);
      }
    case Recv(io) =>
      EndsKeepPolicy(s);
      if s.mail.channel != [] {
        EndsKeepPolicy(PopChannel(s));
        if !s.mail.channel[0].command.Close? {
          HandleCommandFrame(PopChannel(s), s.mail.channel[0], io);
          EndsKeepPolicy(HandleCommand(PopChannel(s), s.mail.channel[0], io).0);
        }
      }
    case Arrive(response, io) =>
      HandleResponseFrame(s, Classify(response), io);
      EndsKeepPolicy(HandleResponse(s, Classify(response), io));
    case LinkError => EndsKeepPolicy(s);
    case Wake(took) =>
      EndsKeepPolicy(s);
      if s.mail.channel != [] {
        EndsKeepPolicy(PopChannel(s));
      }
    case _ =>
  }

  lemma EndsKeepPolicy(s: State)
    ensures Finish(s).policy == s.policy && Lost(s).policy == s.policy
  {
    hide DropQueue;
  }

  lemma {:induction false} RunKeepsPolicy(policy: Reconnect, schedule: seq<Choice>)
    ensures Run(Init(policy), schedule).policy == policy
    decreases |schedule|
  {
    hide Step;
    if schedule != [] {
      RunKeepsPolicy(policy, schedule[..|schedule| - 1]);
      StepKeepsPolicy(Run(Init(policy), schedule[..|schedule| - 1]), schedule[|schedule| - 1]);
    }
  }

  /** A command that arrives while the link is down is kept behind the others as long as
      there are fewer than 4096 of them. Beyond that it is dropped, a request being told
      `Closed`. */
  lemma CommandIsDeferred(policy: Reconnect, schedule: seq<Choice>)
    requires var s := Run(Init(policy), schedule); s.phase.Waiting? && s.mail.channel != [] && !s.mail.channel[0].command.Close?
    ensures var s := Run(Init(policy), schedule);
      var (t, s1) := (s.mail.channel[0], Step(s, Wake(true)));
      && s1.phase == Handshaking(s.phase.delay) && s1.mail.channel == s.mail.channel[1..] && s1.link == s.link
      && s1.task.watchers == s.task.watchers
      && if |s.task.deferred| < 4096 then s1.task.deferred == s.task.deferred + [t] && s1.callers == s.callers
         else && s1.task.deferred == s.task.deferred
              && (t.command.Request? ==> Past(s1.callers.outcomes, t.command.sync) == [Failed(Closed)])
  {
    hide Run, Finish;
    var s := Run(Init(policy), schedule);
    var t := s.mail.channel[0];
    RunConserves(policy, schedule);
    if t.command.Request? {
      assert Places(s, t.command.sync) == Expected(s.mail, t.command.sync);
      assert Past(s.callers.outcomes, t.command.sync) == [];
    }
  }

  /** A handshake that succeeds starts a new link and changes nothing of the task. */
  lemma HandshakeStartsLink(s: State, keys: seq<Key>, oks: nat)
    requires s.phase.Handshaking? && IsOrder(keys, s.task.watchers.Keys)
    ensures var s1 := Step(s, HandshakeOk(keys, oks));
      && s1.phase == Draining && s1.link.epoch == s.link.epoch + 1 && s1.task == s.task && s1.mail == s.mail && s1.callers == s.callers
      && (oks >= |keys| && (forall key | key in keys :: key in Sendable()) ==> !s1.link.dead)
  {
    hide IsOrder, Sendable;
    ReplayLives(s.link.(epoch := s.link.epoch + 1, dead := false), keys, oks);
    hide Replay;
  }

  lemma {:induction false} ReplayLives(l: Link, keys: seq<Key>, oks: nat)
    ensures var l1 := Replay(l, keys, oks);
      l1.epoch == l.epoch && (!l.dead && oks >= |keys| && (forall key | key in keys :: key in Sendable()) ==> !l1.dead)
    decreases keys
  {
    hide Fits;
    if keys != [] {
      var (l1, ok) := Send(l, ByReplay, WatchKey(keys[0]), oks > 0);
      if ok {
        ReplayLives(l1, keys[1..], oks - 1);
      }
    }
  }

  function Pow2(n: nat): nat {
    if n == 0 then 1 else 2 * Pow2(n - 1)
  }

  /** `n` attempts to reconnect that fail, with nothing arriving meanwhile. */
  function Failures(n: nat): seq<Choice> {
    if n == 0 then [] else Failures(n - 1) + [Wake(false)] + [HandshakeFailed]
  }

  /** The delay starts at the minimum and doubles with each failed attempt, up to the
      maximum. */
  lemma {:induction false} DelayDoubles(s: State, n: nat)
    requires s.policy.Backoff? && s.policy.min <= s.policy.max && s.phase == Waiting(s.policy.min)
    ensures var s1 := Run(s, Failures(n));
      s1.policy == s.policy
      && s1.phase == Waiting(if s.policy.min * Pow2(n) < s.policy.max then s.policy.min * Pow2(n) else s.policy.max)
    decreases n
  {
    hide Run, Step;
    if n == 0 {
      RunNothing(s);
    } else {
      DelayDoubles(s, n - 1);
      var s1 := Run(s, Failures(n - 1));
      RunSnoc(s, Failures(n - 1), Wake(false));
      RunSnoc(s, Failures(n - 1) + [Wake(false)], HandshakeFailed);
      AttemptFails(s1, s1.phase.delay);
      var (m, p) := (s.policy.min, Pow2(n - 1));
      assert m * Pow2(n) == 2 * (m * p);
    }
  }

  lemma AttemptFails(s: State, delay: nat)
    requires s.policy.Backoff? && s.phase == Waiting(delay)
    ensures var s1 := Step(Step(s, Wake(false)), HandshakeFailed);
      s1.policy == s.policy && s1.phase == Waiting(if 2 * delay < s.policy.max then 2 * delay else s.policy.max)
  {
  }

  // ---------------------------------------------------------------------
  // The end, and the channel
  // ---------------------------------------------------------------------

  /** The head of the channel ends the task: `Close`, or no handle being left. */
  predicate Ending(m: Mailbox) {
    if m.channel == [] then m.handlesGone else m.channel[0].command.Close?
  }

  /** Handling the head of the channel would fail. */
  predicate Failing(s: State, io: bool)
    requires s.mail.channel != [] && !s.mail.channel[0].command.Close?
  {
    !HandleCommand(PopChannel(s), s.mail.channel[0], io).1
  }

  /** The task ends exactly on `Close` or the last handle, taken between packets or while
      reconnecting; on a response as `ResponseEndsExactly` says; and without a reconnect
      policy also when the link breaks or a command fails. */
  lemma TaskEndsExactly(s: State, c: Choice)
    requires s.phase != Done
    ensures Step(s, c).phase == Done <==>
      match c
      case Recv(io) => s.phase == Selecting && (Ending(s.mail) || (s.policy.Never? && s.mail.channel != [] && Failing(s, io)))
      case Arrive(r, io) =>
        s.phase == Selecting && (s.task.shuttingDown || Announces(r)) && forall k | k in s.task.pending :: IsReply(r) && k == r.sync
      case LinkError => s.phase == Selecting && s.policy.Never?
      case Wake(took) => s.phase.Waiting? && took && Ending(s.mail)
      case _ => false
  {
    hide HandleCommand, HandleResponse, Finish, FailPending, Replay, SubmitCommand, Classify, IsOrder, Announces;
    match c
    case Recv(io) =>
      FinishIsDone(s);
      if s.mail.channel != [] {
        FinishIsDone(PopChannel(s));
        if !s.mail.channel[0].command.Close? {
          var s1 := HandleCommand(PopChannel(s), s.mail.channel[0], io).0;
          HandleCommandFrame(PopChannel(s), s.mail.channel[0], io);
          FinishIsDone(DropLink(FailPending(s1)));
          FailPendingFrame(s1);
        }
      }
    case Arrive(r, io) =>
      if s.phase == Selecting {
        ResponseEndsExactly(s, r, io);
      }
    case LinkError =>
      FailPendingFrame(s);
      FinishIsDone(DropLink(FailPending(s)));
    case Wake(took) =>
      FinishIsDone(s);
      if s.mail.channel != [] {
        FinishIsDone(PopChannel(s));
      }
    case Drain(io) =>
      if s.task.deferred != [] && !s.task.deferred[0].command.Close? {
        HandleCommandFrame(PopDeferred(s), s.task.deferred[0], io);
      }
    case _ =>
  }

  /** A handle may use the command: its sync or id is one it drew. */
  predicate Drawn(m: Mailbox, c: Command) {
    match c
    case Request(sync, _, _) => sync in m.issued
    case Watch(id, _) => id in m.issuedWatches
    case _ => true
  }

  /** A command submitted enters the channel, at the back and with the next number, exactly
      when a handle exists, its sync or id was drawn, the task lives and fewer than 1024
      commands wait. Then the sync or id is used up. */
  lemma SubmissionEntersExactly(s: State, c: Command)
    ensures var (m, m1) := (s.mail, Step(s, Submit(c)).mail);
      if !m.handlesGone && Drawn(m, c) && !m.closed && |m.channel| < 1024
      then && m1.channel == m.channel + [Ticketed(m.nextTicket, c)] && m1.nextTicket == m.nextTicket + 1
           && m1.issued == m.issued - (if c.Request? then {c.sync} else {})
           && m1.issuedWatches == m.issuedWatches - (if c.Watch? then {c.id} else {})
      else m1.channel == m.channel && m1.nextTicket == m.nextTicket
  {
  }
}
