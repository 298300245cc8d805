/** Every request is, at every moment of every run, in exactly one place. */
module Conservation {
  import opened Connection

  function Is(t: Ticketed, k: nat): nat {
    if t.command.Request? && t.command.sync == k then 1 else 0
  }

  /** How often request `k` is in a queue. */
  function CountIn(queue: seq<Ticketed>, k: nat): nat {
    if queue == [] then 0 else Is(queue[0], k) + CountIn(queue[1..], k)
  }

  /** How often request `k` is anywhere: in the channel, deferred, in flight, or settled. */
  function Places(s: State, k: nat): nat {
    CountIn(s.mail.channel, k) + CountIn(s.task.deferred, k) + InFlight(s.task, k) + Settled(s.callers, k)
  }

  function InFlight(t: Task, k: nat): nat {
    if k in t.pending then 1 else 0
  }

  function Settled(c: Callers, k: nat): nat {
    |Past(c.outcomes, k)|
  }

  function Expected(m: Mailbox, k: nat): nat {
    if k in m.submitted then 1 else 0
  }

  ghost predicate Conserved(s: State) {
    forall k :: Places(s, k) == Expected(s.mail, k)
  }

  /** Syncs are handed out once and used once, and zero never is: it stands for the
      responses that carry none. */
  ghost predicate SyncsFresh(m: Mailbox) {
    && m.issued !! m.submitted && m.nextSync > 0
    && forall k | k in m.issued || k in m.submitted :: 0 < k < m.nextSync
  }

  lemma {:induction false} CountAppend(queue: seq<Ticketed>, t: Ticketed, k: nat)
    ensures CountIn(queue + [t], k) == CountIn(queue, k) + Is(t, k)
  {
    if queue == [] {
      assert [] + [t] == [t];
    } else {
      CountAppend(queue[1..], t, k);
      assert (queue + [t])[1..] == queue[1..] + [t];
    }
  }

  lemma {:induction false} DropQueueSettles(c: Callers, queue: seq<Ticketed>, k: nat)
    ensures Settled(DropQueue(c, queue), k) == Settled(c, k) + CountIn(queue, k)
    decreases |queue|
  {
    if queue != [] {
      DropQueueSettles(DropCommand(c, queue[0].command), queue[1..], k);
    }
  }

  lemma FailPendingKeeps(s: State, k: nat)
    ensures Places(FailPending(s), k) == Places(s, k)
  {
    hide CountIn;
  }

  lemma FinishKeeps(s: State, k: nat)
    ensures Places(Finish(s), k) == Places(s, k)
  {
    hide FailPending;
    var s1 := FailPending(s);
    FailPendingKeeps(s, k);
    FailPendingFrame(s);
    DropQueueSettles(s1.callers, s.task.deferred, k);
    DropQueueSettles(DropQueue(s1.callers, s.task.deferred), s.mail.channel, k);
  }

  lemma FailPendingFrame(s: State)
    ensures FailPending(s).mail == s.mail && FailPending(s).link == s.link && FailPending(s).policy == s.policy
    ensures FailPending(s).task == s.task.(pending := map[])
  {
  }

  lemma FinishFrame(s: State)
    ensures Finish(s).mail == s.mail.(channel := [], closed := true)
  {
  }

  lemma FinishIsDone(s: State)
    ensures Finish(s).phase == Done
  {
  }

  lemma LostKeeps(s: State, k: nat)
    ensures Places(Lost(s), k) == Places(s, k) && Expected(Lost(s).mail, k) == Expected(s.mail, k)
  {
    hide FailPending, Finish, CountIn;
    FailPendingKeeps(s, k);
    FailPendingFrame(s);
    FinishKeeps(DropLink(FailPending(s)), k);
    FinishFrame(DropLink(FailPending(s)));
  }

  lemma HandleCommandPlaces(s: State, t: Ticketed, io: bool, k: nat)
    requires !t.command.Close?
    ensures Places(HandleCommand(s, t, io).0, k) == Places(s, k) + Is(t, k)
    ensures HandleCommand(s, t, io).0.mail == s.mail
  {
    hide CountIn, Fits, Without;
  }

  lemma HandleResponseKeeps(s: State, p: Packet, io: bool, k: nat)
    ensures Places(HandleResponse(s, p, io), k) == Places(s, k)
    ensures HandleResponse(s, p, io).mail == s.mail
  {
    hide CountIn, Fits, Alive;
  }

  lemma DeferPlaces(s: State, t: Ticketed, k: nat)
    ensures Places(Defer(s, t), k) == Places(s, k) + Is(t, k)
    ensures Defer(s, t).mail == s.mail
  {
    CountAppend(s.task.deferred, t, k);
    hide CountIn;
  }

  lemma PopChannelPlaces(s: State, k: nat)
    requires s.mail.channel != []
    ensures Places(s, k) == Places(PopChannel(s), k) + Is(s.mail.channel[0], k)
    ensures Expected(PopChannel(s).mail, k) == Expected(s.mail, k)
  {
    assert CountIn(s.mail.channel, k) == Is(s.mail.channel[0], k) + CountIn(s.mail.channel[1..], k);
  }

  lemma PopDeferredPlaces(s: State, k: nat)
    requires s.task.deferred != []
    ensures Places(s, k) == Places(PopDeferred(s), k) + Is(s.task.deferred[0], k)
    ensures PopDeferred(s).mail == s.mail
  {
    assert CountIn(s.task.deferred, k) == Is(s.task.deferred[0], k) + CountIn(s.task.deferred[1..], k);
  }

  /** `after` accounts for request `k` exactly when `before` does. */
  ghost predicate Keeps(before: State, after: State, k: nat) {
    Places(after, k) + Expected(before.mail, k) == Places(before, k) + Expected(after.mail, k)
  }

  lemma PhaseKeeps(s: State, phase: Phase, k: nat)
    ensures Places(s.(phase := phase), k) == Places(s, k)
  {
  }

  lemma DrainOneKeeps(s: State, io: bool, k: nat)
    requires NoClose(s.task.deferred)
    ensures Keeps(s, DrainOne(s, io), k)
  {
    hide Places, HandleCommand, FailPending, PopDeferred;
    if s.task.deferred == [] {
      PhaseKeeps(s, Selecting, k);
    } else {
      PopDeferredPlaces(s, k);
      HandleCommandPlaces(PopDeferred(s), s.task.deferred[0], io, k);
      var s1 := HandleCommand(PopDeferred(s), s.task.deferred[0], io).0;
      FailPendingKeeps(s1, k);
      FailPendingFrame(s1);
      PhaseKeeps(FailPending(s1), Selecting, k);
    }
  }

  lemma ReceiveCommandKeeps(s: State, io: bool, k: nat)
    ensures Keeps(s, ReceiveCommand(s, io), k)
  {
    hide Places, HandleCommand, Finish, Lost, PopChannel;
    if s.mail.channel == [] {
      FinishKeeps(s, k);
      FinishFrame(s);
    } else {
      var t, s1 := s.mail.channel[0], PopChannel(s);
      PopChannelPlaces(s, k);
      FinishKeeps(s1, k);
      FinishFrame(s1);
      if !t.command.Close? {
        HandleCommandPlaces(s1, t, io, k);
        var s2 := HandleCommand(s1, t, io).0;
        LostKeeps(s2, k);
        PhaseKeeps(s2, Draining, k);
      }
    }
  }

  lemma ReceivePacketKeeps(s: State, p: Packet, io: bool, k: nat)
    ensures Keeps(s, ReceivePacket(s, p, io), k)
  {
    hide Places, HandleResponse, Finish;
    HandleResponseKeeps(s, p, io, k);
    var s1 := HandleResponse(s, p, io);
    FinishKeeps(s1, k);
    FinishFrame(s1);
    PhaseKeeps(s1, Draining, k);
  }

  lemma TakeDeferredKeeps(s: State, delay: nat, k: nat)
    ensures Keeps(s, TakeDeferred(s, delay), k)
  {
    hide Places, Finish, Defer, PopChannel;
    if s.mail.channel == [] {
      FinishKeeps(s, k);
      FinishFrame(s);
    } else {
      var t, s1 := s.mail.channel[0], PopChannel(s);
      PopChannelPlaces(s, k);
      FinishKeeps(s1, k);
      FinishFrame(s1);
      DeferPlaces(s1, t, k);
      PhaseKeeps(Defer(s1, t), Handshaking(delay), k);
    }
  }

  lemma SubmitKeeps(m: Mailbox, c: Command, k: nat)
    requires SyncsFresh(m)
    ensures var m1 := SubmitCommand(m, c);
      CountIn(m1.channel, k) + Expected(m, k) == CountIn(m.channel, k) + Expected(m1, k)
  {
    CountAppend(m.channel, Ticketed(m.nextTicket, c), k);
    hide CountIn;
  }

  lemma StepKeeps(s: State, c: Choice, k: nat)
    requires SyncsFresh(s.mail) && NoClose(s.task.deferred)
    ensures Keeps(s, Step(s, c), k)
  {
    hide DrainOne, ReceiveCommand, ReceivePacket, TakeDeferred, Lost, Replay, CountIn, SubmitCommand;
    match c
    case Submit(command) => SubmitKeeps(s.mail, command, k);
    case Drain(io) => DrainOneKeeps(s, io, k);
    case Recv(io) => ReceiveCommandKeeps(s, io, k);
    case Arrive(response, io) =>
      var p := Classify(response);
      ReceivePacketKeeps(s, p, io, k);
    case LinkError => LostKeeps(s, k);
    case Wake(took) => TakeDeferredKeeps(s, if s.phase.Waiting? then s.phase.delay else 0, k);
    case _ =>
  }

  // ---------------------------------------------------------------------
  // The mailbox, and what is never deferred
  // ---------------------------------------------------------------------

  ghost predicate NoClose(queue: seq<Ticketed>) {
    forall t | t in queue :: !t.command.Close?
  }

  /** A task that returned holds nothing any more. */
  ghost predicate Emptied(s: State) {
    s.phase == Done ==> s.mail.closed && s.mail.channel == [] && s.task.deferred == [] && s.task.pending == map[]
  }

  /** Syncs are fresh; `Close` is never deferred, so that the `unreachable!` arm is
      never taken. */
  ghost predicate Sound(s: State) {
    SyncsFresh(s.mail) && NoClose(s.task.deferred) && s.phase != Panicked && Emptied(s)
  }

  lemma HandleCommandFrame(s: State, t: Ticketed, io: bool)
    requires !t.command.Close?
    ensures var s1 := HandleCommand(s, t, io).0;
      s1.mail == s.mail && s1.task.deferred == s.task.deferred && s1.phase == s.phase && s1.policy == s.policy
  {
    hide Fits, Without;
  }

  lemma HandleResponseFrame(s: State, p: Packet, io: bool)
    ensures var s1 := HandleResponse(s, p, io);
      s1.mail == s.mail && s1.task.deferred == s.task.deferred && s1.phase == s.phase && s1.policy == s.policy
  {
    hide Fits, Alive;
  }

  lemma FinishSound(s: State)
    requires SyncsFresh(s.mail)
    ensures Sound(Finish(s)) && Finish(s).phase == Done
  {
    hide DropQueue;
  }

  lemma LostSound(s: State)
    requires SyncsFresh(s.mail) && NoClose(s.task.deferred)
    ensures Sound(Lost(s))
  {
    hide FailPending, Finish;
    FailPendingFrame(s);
    FinishSound(DropLink(FailPending(s)));
  }

  lemma StepSound(s: State, c: Choice)
    requires Sound(s)
    ensures Sound(Step(s, c))
  {
    hide HandleCommand, HandleResponse, Finish, Lost, FailPending, Replay, SubmitCommand;
    match c
    case Submit(command) => SubmitFresh(s.mail, command);
    case Drain(io) =>
      if s.task.deferred != [] {
        HandleCommandFrame(PopDeferred(s), s.task.deferred[0], io);
        FailPendingFrame(HandleCommand(PopDeferred(s), s.task.deferred[0], io).0);
      }
    case Recv(io) =>
      FinishSound(s);
      if s.mail.channel != [] {
        FinishSound(PopChannel(s));
        if !s.mail.channel[0].command.Close? {
          HandleCommandFrame(PopChannel(s), s.mail.channel[0], io);
          LostSound(HandleCommand(PopChannel(s), s.mail.channel[0], io).0);
        }
      }
    case Arrive(response, io) =>
      var p := Classify(response);
      HandleResponseFrame(s, p, io);
      FinishSound(HandleResponse(s, p, io));
    case LinkError => LostSound(s);
    case Wake(took) =>
      FinishSound(s);
      if s.mail.channel != [] {
        FinishSound(PopChannel(s));
      }
    case _ =>
  }

  lemma SubmitFresh(m: Mailbox, c: Command)
    requires SyncsFresh(m)
    ensures SyncsFresh(SubmitCommand(m, c)) && SubmitCommand(m, c).closed == m.closed
    ensures m.closed ==> SubmitCommand(m, c).channel == m.channel
  {
  }

  // ---------------------------------------------------------------------
  // Every run
  // ---------------------------------------------------------------------

  lemma {:induction false} RunSound(policy: Reconnect, schedule: seq<Choice>)
    ensures Sound(Run(Init(policy), schedule))
    decreases |schedule|
  {
    hide Step;
    if schedule != [] {
      RunSound(policy, schedule[..|schedule| - 1]);
      StepSound(Run(Init(policy), schedule[..|schedule| - 1]), schedule[|schedule| - 1]);
    }
  }

  /** Conservation: after any schedule, a submitted request is in exactly one of the
      channel, `deferred`, `pending` and its settlements, and settled at most once;
      any other is nowhere. */
  lemma {:induction false} RunConserves(policy: Reconnect, schedule: seq<Choice>)
    ensures Conserved(Run(Init(policy), schedule))
    decreases |schedule|
  {
    hide Step;
    if schedule != [] {
      var before := schedule[..|schedule| - 1];
      RunConserves(policy, before);
      RunSound(policy, before);
      var s := Run(Init(policy), before);
      forall k ensures Places(Run(Init(policy), schedule), k) == Expected(Run(Init(policy), schedule).mail, k) {
        StepKeeps(s, schedule[|schedule| - 1], k);
        assert Places(s, k) == Expected(s.mail, k);
      }
    }
  }

  /** When the task has returned, every request ever submitted is settled exactly once. */
  lemma ReturnedTaskSettledAll(policy: Reconnect, schedule: seq<Choice>, k: nat)
    requires Run(Init(policy), schedule).phase == Done && k in Run(Init(policy), schedule).mail.submitted
    ensures |Past(Run(Init(policy), schedule).callers.outcomes, k)| == 1
  {
    RunSound(policy, schedule);
    RunConserves(policy, schedule);
    var s := Run(Init(policy), schedule);
    assert Places(s, k) == Expected(s.mail, k);
  }

  // ---------------------------------------------------------------------
  // Bounds
  // ---------------------------------------------------------------------

  predicate DelayBounded(policy: Reconnect, phase: Phase) {
    phase.Waiting? || phase.Handshaking? ==>
      policy.Backoff? && (phase.delay <= policy.min || phase.delay <= policy.max)
  }

  /** The queues stay within their capacities, and the delay within the policy's. */
  ghost predicate Bounded(s: State) {
    && |s.mail.channel| <= 1024 && |s.task.deferred| <= 4096
    && DelayBounded(s.policy, s.phase)
  }

  lemma EndsBounded(s: State)
    requires Bounded(s)
    ensures Bounded(Finish(s)) && Bounded(Lost(s))
  {
    hide DropQueue;
  }

  lemma StepBounded(s: State, c: Choice)
    requires Bounded(s) && Sound(s)
    ensures Bounded(Step(s, c))
  {
    hide HandleCommand, HandleResponse, Finish, Lost, FailPending, Replay;
    match c
    case Drain(io) =>
      if s.task.deferred != [] {
        HandleCommandFrame(PopDeferred(s), s.task.deferred[0], io);
        FailPendingFrame(HandleCommand(PopDeferred(s), s.task.deferred[0], io).0);
      }
    case Recv(io) =>
      EndsBounded(s);
      if s.mail.channel != [] {
        EndsBounded(PopChannel(s));
        if !s.mail.channel[0].command.Close? {
          HandleCommandFrame(PopChannel(s), s.mail.channel[0], io);
          EndsBounded(HandleCommand(PopChannel(s), s.mail.channel[0], io).0);
        }
      }
    case Arrive(response, io) =>
      var p := Classify(response);
      HandleResponseFrame(s, p, io);
      EndsBounded(HandleResponse(s, p, io));
    case LinkError => EndsBounded(s);
    case Wake(took) =>
      EndsBounded(s);
      if s.mail.channel != [] {
        EndsBounded(PopChannel(s));
      }
    case _ =>
  }

  /** Whatever happens, at most 1024 commands wait in the channel and 4096 in
      `deferred`, and the reconnect delay never exceeds the larger of its limits. */
  lemma {:induction false} RunBounded(policy: Reconnect, schedule: seq<Choice>)
    ensures Bounded(Run(Init(policy), schedule))
    decreases |schedule|
  {
    hide Step;
    if schedule != [] {
      RunBounded(policy, schedule[..|schedule| - 1]);
      RunSound(policy, schedule[..|schedule| - 1]);
      StepBounded(Run(Init(policy), schedule[..|schedule| - 1]), schedule[|schedule| - 1]);
    }
  }
}
