/** What reaches a caller besides the reply: pushed chunks, and watched values. */
module Delivery {
  import opened Bytes
  import opened Errors
  import opened Connection
  import opened Conservation

  // ---------------------------------------------------------------------
  // Pushes
  // ---------------------------------------------------------------------

  /** A request's push channel: is the sender still around, and what went in. */
  datatype Stream = Stream(open: bool, chunks: seq<seq<byte>>)

  /** The push channel of `k` as the log alone tells it: it opens when `k` is accepted
      with pushes, takes the chunk packets carrying `k` while open, and ends with the
      reply to `k` or when everything in flight fails. */
  function StreamOf(log: seq<Event>, k: nat): Stream {
    if log == [] then Stream(false, []) else Next(StreamOf(log[..|log| - 1], k), log[|log| - 1], k)
  }

  function Next(w: Stream, e: Event, k: nat): Stream {
    match e
    case Accepted(sync, pushes) => if sync == k then w.(open := pushes) else w
    case Handled(Reply(response)) => if response.sync == k then w.(open := false) else w
    case Handled(Chunk(sync, data)) => if sync == k && w.open then w.(chunks := w.chunks + [data]) else w
    case PendingFailed => w.(open := false)
    case _ => w
  }

  lemma StreamAppend(log: seq<Event>, e: Event, k: nat)
    ensures StreamOf(log + [e], k) == Next(StreamOf(log, k), e, k)
  {
    assert (log + [e])[..|log|] == log;
  }

  function StreamNow(s: State, k: nat): Stream {
    Stream(k in s.task.pending && s.task.pending[k], Past(s.callers.chunks, k))
  }

  ghost predicate Streams(s: State, k: nat) {
    StreamOf(s.log, k) == StreamNow(s, k)
  }

  lemma HandleCommandStreams(s: State, t: Ticketed, io: bool, k: nat)
    requires !t.command.Close? && Streams(s, k)
    ensures Streams(HandleCommand(s, t, io).0, k)
  {
    hide StreamOf, Fits, Without;
    if t.command.Request? {
      StreamAppend(s.log, Accepted(t.command.sync, t.command.pushes), k);
    } else if t.command.Watch? {
      StreamAppend(s.log, Registered(t.command.id, t.command.key), k);
    }
  }

  lemma HandleResponseStreams(s: State, p: Packet, io: bool, k: nat)
    requires Streams(s, k)
    ensures Streams(HandleResponse(s, p, io), k)
  {
    hide StreamOf, Fits, Alive;
    StreamAppend(s.log, Handled(p), k);
  }

  lemma FailPendingStreams(s: State, k: nat)
    requires Streams(s, k)
    ensures Streams(FailPending(s), k)
  {
    hide StreamOf;
    StreamAppend(s.log, PendingFailed, k);
  }

  lemma {:induction false} DropQueueFrame(c: Callers, queue: seq<Ticketed>)
    ensures var c1 := DropQueue(c, queue); c1.chunks == c.chunks && c1.slots == c.slots && c1.receivers == c.receivers
    decreases |queue|
  {
    if queue != [] {
      DropQueueFrame(DropCommand(c, queue[0].command), queue[1..]);
    }
  }

  /** `run` ending, or the link being lost, is `FailPending` as far as deliveries go. */
  lemma EndsDeliver(s: State)
    ensures var f := FailPending(s);
      && Finish(s).log == f.log && Finish(s).callers.chunks == f.callers.chunks && Finish(s).task.pending == map[]
      && Finish(s).callers.slots == f.callers.slots && Finish(s).task.watchers == map[] && Finish(s).registered == s.registered
  {
    hide DropQueue;
    var c := FailPending(s).callers;
    DropQueueFrame(c, s.task.deferred);
    DropQueueFrame(DropQueue(c, s.task.deferred), s.mail.channel);
  }

  lemma EndsStream(s: State, k: nat)
    requires Streams(s, k)
    ensures Streams(Finish(s), k) && Streams(Lost(s), k)
  {
    hide Finish, FailPending, StreamOf;
    FailPendingStreams(s, k);
    FailPendingFrame(s);
    EndsDeliver(s);
    var f := DropLink(FailPending(s));
    FailPendingStreams(f, k);
    FailPendingFrame(f);
    EndsDeliver(f);
  }

  lemma StreamsAlong(s: State, s': State, k: nat)
    requires Streams(s, k) && s'.log == s.log && s'.callers.chunks == s.callers.chunks && s'.task.pending == s.task.pending
    ensures Streams(s', k)
  {
  }

  lemma StepStreams(s: State, c: Choice, k: nat)
    requires Streams(s, k) && Sound(s)
    ensures Streams(Step(s, c), k)
  {
    hide HandleCommand, HandleResponse, Finish, Lost, FailPending, Replay, SubmitCommand, Streams, IsOrder;
    match c
    case Drain(io) =>
      if s.task.deferred != [] {
        var s0 := PopDeferred(s);
        StreamsAlong(s, s0, k);
        HandleCommandStreams(s0, s.task.deferred[0], io, k);
        var s1 := HandleCommand(s0, s.task.deferred[0], io).0;
        FailPendingStreams(s1, k);
        StreamsAlong(FailPending(s1), FailPending(s1).(phase := Selecting), k);
      }
      StreamsAlong(s, s.(phase := Selecting), k);
    case Recv(io) =>
      EndsStream(s, k);
      if s.mail.channel != [] {
        var s0 := PopChannel(s);
        StreamsAlong(s, s0, k);
        EndsStream(s0, k);
        if !s.mail.channel[0].command.Close? {
          HandleCommandStreams(s0, s.mail.channel[0], io, k);
          var s1 := HandleCommand(s0, s.mail.channel[0], io).0;
          EndsStream(s1, k);
          StreamsAlong(s1, s1.(phase := Draining), k);
        }
      }
    case Arrive(response, io) =>
      var p := Classify(response);
      HandleResponseStreams(s, p, io, k);
      var s1 := HandleResponse(s, p, io);
      EndsStream(s1, k);
      StreamsAlong(s1, s1.(phase := Draining), k);
    case LinkError => EndsStream(s, k);
    case Wake(took) =>
      EndsStream(s, k);
      if s.mail.channel != [] {
        StreamsAlong(s, PopChannel(s), k);
        EndsStream(PopChannel(s), k);
        if took && s.phase.Waiting? && !s.mail.channel[0].command.Close? {
          StreamsAlong(s, Step(s, c), k);
        }
      }
      if !took {
        StreamsAlong(s, Step(s, c), k);
      }
    case _ => StreamsAlong(s, Step(s, c), k);
  }

  /** After any schedule, a push channel holds exactly, in order, the chunks that
      arrived for its request between acceptance and settlement. */
  lemma {:induction false} RunStreams(policy: Reconnect, schedule: seq<Choice>, k: nat)
    ensures Streams(Run(Init(policy), schedule), k)
    decreases |schedule|
  {
    hide Step;
    if schedule != [] {
      RunStreams(policy, schedule[..|schedule| - 1], k);
      RunSound(policy, schedule[..|schedule| - 1]);
      StepStreams(Run(Init(policy), schedule[..|schedule| - 1]), schedule[|schedule| - 1], k);
    }
  }

  /** The channel of a settled request has ended. */
  lemma SettledStreamIsOver(policy: Reconnect, schedule: seq<Choice>, k: nat)
    ensures var s := Run(Init(policy), schedule);
      Past(s.callers.outcomes, k) != [] ==> !StreamOf(s.log, k).open
  {
    RunStreams(policy, schedule, k);
    RunConserves(policy, schedule);
    var s := Run(Init(policy), schedule);
    assert Places(s, k) == Expected(s.mail, k);
  }

  // ---------------------------------------------------------------------
  // Watched values
  // ---------------------------------------------------------------------

  /** The payload of the last event for `key` since subscriber `id` was added. */
  function Latest(log: seq<Event>, id: nat, key: Key): Option<seq<byte>> {
    if log == [] then None
    else match log[|log| - 1]
      case Registered(other, _) => if other == id then None else Latest(log[..|log| - 1], id, key)
      case Handled(Event(published, data)) => if published == key then Some(data) else Latest(log[..|log| - 1], id, key)
      case _ => Latest(log[..|log| - 1], id, key)
  }

  function Slot(c: Callers, id: nat): Option<seq<byte>> {
    if id in c.slots then Some(c.slots[id]) else None
  }

  function IsWatch(t: Ticketed, id: nat): nat {
    if t.command.Watch? && t.command.id == id then 1 else 0
  }

  function WatchesIn(queue: seq<Ticketed>, id: nat): nat {
    if queue == [] then 0 else IsWatch(queue[0], id) + WatchesIn(queue[1..], id)
  }

  lemma {:induction false} WatchesAppend(queue: seq<Ticketed>, t: Ticketed, id: nat)
    ensures WatchesIn(queue + [t], id) == WatchesIn(queue, id) + IsWatch(t, id)
  {
    if queue == [] {
      assert [] + [t] == [t];
    } else {
      WatchesAppend(queue[1..], t, id);
      assert (queue + [t])[1..] == queue[1..] + [t];
    }
  }

  /** Where subscriber `id` may be: drawn and unused, queued, or subscribed. */
  function Signups(s: State, id: nat): nat {
    Waiting(s.mail, id) + WatchesIn(s.task.deferred, id) + if id in s.registered then 1 else 0
  }

  function Waiting(m: Mailbox, id: nat): nat {
    WatchesIn(m.channel, id) + if id in m.issuedWatches then 1 else 0
  }

  function Known(m: Mailbox, id: nat): nat {
    if id < m.nextWatchId then 1 else 0
  }

  ghost predicate SignsUpOnce(s: State, id: nat) {
    Signups(s, id) <= Known(s.mail, id)
  }

  /** Where `id` is listed, it was registered for that key, and its slot is current. */
  ghost predicate Fresh(s: State, id: nat, key: Key) {
    key in s.task.watchers && id in s.task.watchers[key] ==>
      id in s.registered && s.registered[id] == key && Slot(s.callers, id) == Latest(s.log, id, key)
  }

  ghost predicate SlotsKnown(s: State) {
    s.callers.slots.Keys <= s.registered.Keys
  }

  ghost predicate AllFresh(s: State) {
    SlotsKnown(s) && forall id, key :: Fresh(s, id, key)
  }

  lemma LatestAppend(log: seq<Event>, e: Event, id: nat, key: Key)
    ensures Latest(log + [e], id, key)
         == match e
            case Registered(other, _) => if other == id then None else Latest(log, id, key)
            case Handled(Event(published, data)) => if published == key then Some(data) else Latest(log, id, key)
            case _ => Latest(log, id, key)
  {
    assert (log + [e])[..|log|] == log;
  }

  lemma HandleCommandFresh(s: State, t: Ticketed, io: bool)
    requires !t.command.Close? && AllFresh(s) && (t.command.Watch? ==> t.command.id !in s.registered)
    ensures AllFresh(HandleCommand(s, t, io).0)
  {
    hide Latest, Fits, Without;
    var s1 := HandleCommand(s, t, io).0;
    forall id, key ensures Fresh(s1, id, key) {
      assert Fresh(s, id, key);
      if t.command.Request? {
        LatestAppend(s.log, Accepted(t.command.sync, t.command.pushes), id, key);
      } else if t.command.Watch? {
        LatestAppend(s.log, Registered(t.command.id, t.command.key), id, key);
      }
    }
  }

  lemma HandleResponseFresh(s: State, p: Packet, io: bool)
    requires AllFresh(s)
    ensures AllFresh(HandleResponse(s, p, io))
  {
    hide Latest, Fits, Alive;
    var s1 := HandleResponse(s, p, io);
    forall id, key ensures Fresh(s1, id, key) {
      assert Fresh(s, id, key);
      if p.Event? {
        assert Fresh(s, id, p.key);
      }
      LatestAppend(s.log, Handled(p), id, key);
      if p.Event? && p.key in s.task.watchers {
        PublishFresh(s, p.key, p.data, id, key);
      }
    }
    if p.Event? && p.key in s.task.watchers {
      forall id | id in s.task.watchers[p.key] ensures id in s.registered {
        assert Fresh(s, id, p.key);
      }
    }
  }

  /** Publishing sets the slots of its own key's live subscribers, and no others. */
  lemma PublishFresh(s: State, p: Key, data: seq<byte>, id: nat, key: Key)
    requires p in s.task.watchers && Fresh(s, id, key) && Fresh(s, id, p)
    ensures var s1 := Publish(s, p, data);
      key in s1.task.watchers && id in s1.task.watchers[key] ==>
        id in s.registered && s.registered[id] == key
        && Slot(s1.callers, id) == if key == p then Some(data) else Latest(s.log, id, key)
  {
    hide Latest, Alive;
  }

  lemma FailPendingFresh(s: State)
    requires AllFresh(s)
    ensures AllFresh(FailPending(s))
  {
    hide Latest;
    forall id, key ensures Fresh(FailPending(s), id, key) {
      assert Fresh(s, id, key);
      LatestAppend(s.log, PendingFailed, id, key);
    }
  }

  lemma FreshAlong(s: State, s': State)
    requires AllFresh(s) && s'.log == s.log && s'.callers.slots == s.callers.slots
    requires s'.task.watchers == s.task.watchers && s'.registered == s.registered
    ensures AllFresh(s')
  {
    hide Latest;
    forall id, key ensures Fresh(s', id, key) {
      assert Fresh(s, id, key);
    }
  }

  lemma EndsFresh(s: State)
    requires AllFresh(s)
    ensures AllFresh(Finish(s)) && AllFresh(Lost(s))
  {
    hide Finish, FailPending, Latest;
    FailPendingFresh(s);
    FailPendingDelivers(s);
    EndsDeliver(s);
    var f := DropLink(FailPending(s));
    FreshAlong(FailPending(s), f);
    FailPendingDelivers(f);
    EndsDeliver(f);
    if s.policy.Backoff? {
      FreshAlong(f, Lost(s));
    }
  }

  lemma FailPendingDelivers(s: State)
    ensures var f := FailPending(s);
      && f.callers.slots == s.callers.slots && f.registered == s.registered && f.mail == s.mail
      && f.task == s.task.(pending := map[]) && f.policy == s.policy
  {
  }

  lemma StepFresh(s: State, c: Choice)
    requires AllFresh(s) && Sound(s) && forall id :: SignsUpOnce(s, id)
    ensures AllFresh(Step(s, c))
  {
    hide HandleCommand, HandleResponse, Finish, Lost, FailPending, Replay, SubmitCommand, AllFresh, IsOrder;
    match c
    case Drain(io) =>
      if s.task.deferred != [] {
        var t, s0 := s.task.deferred[0], PopDeferred(s);
        QueuedIsNew(s, t);
        FreshAlong(s, s0);
        HandleCommandFresh(s0, t, io);
        var s1 := HandleCommand(s0, t, io).0;
        FailPendingFresh(s1);
        FreshAlong(FailPending(s1), FailPending(s1).(phase := Selecting));
      }
      FreshAlong(s, s.(phase := Selecting));
    case Recv(io) =>
      EndsFresh(s);
      if s.mail.channel != [] {
        var t, s0 := s.mail.channel[0], PopChannel(s);
        FreshAlong(s, s0);
        EndsFresh(s0);
        if !t.command.Close? {
          QueuedIsNew(s, t);
          HandleCommandFresh(s0, t, io);
          var s1 := HandleCommand(s0, t, io).0;
          EndsFresh(s1);
          FreshAlong(s1, s1.(phase := Draining));
        }
      }
    case Arrive(response, io) =>
      var p := Classify(response);
      HandleResponseFresh(s, p, io);
      var s1 := HandleResponse(s, p, io);
      EndsFresh(s1);
      FreshAlong(s1, s1.(phase := Draining));
    case LinkError => EndsFresh(s);
    case Wake(took) =>
      EndsFresh(s);
      if s.mail.channel != [] {
        FreshAlong(s, PopChannel(s));
        EndsFresh(PopChannel(s));
        if took && s.phase.Waiting? && !s.mail.channel[0].command.Close? {
          FreshAlong(s, Step(s, c));
        }
      }
      if !took {
        FreshAlong(s, Step(s, c));
      }
    case _ => FreshAlong(s, Step(s, c));
  }

  /** A subscription still queued has not been made. */
  lemma QueuedIsNew(s: State, t: Ticketed)
    requires forall id :: SignsUpOnce(s, id)
    requires t in s.task.deferred || t in s.mail.channel
    ensures t.command.Watch? ==> t.command.id !in s.registered
  {
    hide WatchesIn;
    if t.command.Watch? {
      assert SignsUpOnce(s, t.command.id);
      if t in s.task.deferred {
        CountedWatch(s.task.deferred, t);
      } else {
        CountedWatch(s.mail.channel, t);
      }
    }
  }

  lemma {:induction false} CountedWatch(queue: seq<Ticketed>, t: Ticketed)
    requires t in queue && t.command.Watch?
    ensures WatchesIn(queue, t.command.id) >= 1
  {
    if queue[0] != t {
      CountedWatch(queue[1..], t);
    }
  }

  lemma HandleCommandSignups(s: State, t: Ticketed, io: bool, id: nat)
    requires !t.command.Close?
    ensures var s1 := HandleCommand(s, t, io).0;
      Signups(s1, id) <= Signups(s, id) + IsWatch(t, id) && s1.mail == s.mail
  {
    hide WatchesIn, Fits, Without;
  }

  lemma HandleResponseSignups(s: State, p: Packet, io: bool, id: nat)
    ensures var s1 := HandleResponse(s, p, io);
      Signups(s1, id) == Signups(s, id) && s1.mail == s.mail
  {
    hide WatchesIn, Fits, Alive;
  }

  lemma EndsSignups(s: State, id: nat)
    ensures Signups(Finish(s), id) <= Signups(s, id) && Finish(s).mail.nextWatchId == s.mail.nextWatchId
    ensures Signups(Lost(s), id) <= Signups(s, id) && Lost(s).mail.nextWatchId == s.mail.nextWatchId
  {
    hide DropQueue;
  }

  lemma PopSignups(s: State, id: nat)
    ensures s.mail.channel != [] ==> Signups(PopChannel(s), id) + IsWatch(s.mail.channel[0], id) == Signups(s, id)
    ensures s.mail.channel != [] ==> PopChannel(s).mail.nextWatchId == s.mail.nextWatchId
    ensures s.task.deferred != [] ==> Signups(PopDeferred(s), id) + IsWatch(s.task.deferred[0], id) == Signups(s, id)
    ensures s.task.deferred != [] ==> PopDeferred(s).mail == s.mail
  {
  }

  lemma DeferSignups(s: State, t: Ticketed, id: nat)
    ensures Signups(Defer(s, t), id) <= Signups(s, id) + IsWatch(t, id) && Defer(s, t).mail == s.mail
  {
    WatchesAppend(s.task.deferred, t, id);
    hide WatchesIn;
  }

  lemma SubmitSignups(m: Mailbox, c: Command, id: nat)
    ensures var m1 := SubmitCommand(m, c); Waiting(m1, id) <= Waiting(m, id) && Known(m1, id) == Known(m, id)
  {
    WatchesAppend(m.channel, Ticketed(m.nextTicket, c), id);
    hide WatchesIn;
  }

  lemma DrainSignups(s: State, io: bool, id: nat)
    requires SignsUpOnce(s, id) && Sound(s)
    ensures SignsUpOnce(DrainOne(s, io), id)
  {
    hide HandleCommand, FailPending, WatchesIn, PopDeferred;
    PopSignups(s, id);
    if s.task.deferred != [] {
      HandleCommandSignups(PopDeferred(s), s.task.deferred[0], io, id);
      FailPendingDelivers(HandleCommand(PopDeferred(s), s.task.deferred[0], io).0);
    }
  }

  lemma ReceiveSignups(s: State, io: bool, id: nat)
    requires SignsUpOnce(s, id)
    ensures SignsUpOnce(ReceiveCommand(s, io), id)
  {
    hide HandleCommand, Finish, Lost, WatchesIn, PopChannel;
    PopSignups(s, id);
    EndsSignups(s, id);
    if s.mail.channel != [] {
      EndsSignups(PopChannel(s), id);
      if !s.mail.channel[0].command.Close? {
        HandleCommandSignups(PopChannel(s), s.mail.channel[0], io, id);
        EndsSignups(HandleCommand(PopChannel(s), s.mail.channel[0], io).0, id);
      }
    }
  }

  lemma TakeSignups(s: State, delay: nat, id: nat)
    requires SignsUpOnce(s, id)
    ensures SignsUpOnce(TakeDeferred(s, delay), id)
  {
    hide Finish, WatchesIn, PopChannel, Defer;
    PopSignups(s, id);
    EndsSignups(s, id);
    if s.mail.channel != [] {
      EndsSignups(PopChannel(s), id);
      DeferSignups(PopChannel(s), s.mail.channel[0], id);
    }
  }

  lemma StepSignups(s: State, c: Choice, id: nat)
    requires SignsUpOnce(s, id) && Sound(s)
    ensures SignsUpOnce(Step(s, c), id)
  {
    hide DrainOne, ReceiveCommand, TakeDeferred, HandleResponse, Finish, Lost, Replay, SubmitCommand, WatchesIn, Classify;
    match c
    case Submit(command) => SubmitSignups(s.mail, command, id);
    case Drain(io) => DrainSignups(s, io, id);
    case Recv(io) => ReceiveSignups(s, io, id);
    case Arrive(response, io) =>
      var p := Classify(response);
      HandleResponseSignups(s, p, io, id);
      EndsSignups(HandleResponse(s, p, io), id);
    case LinkError => EndsSignups(s, id);
    case Wake(took) =>
      if s.phase.Waiting? {
        TakeSignups(s, s.phase.delay, id);
      }
    case _ =>
  }

  lemma {:induction false} RunSignups(policy: Reconnect, schedule: seq<Choice>, id: nat)
    ensures SignsUpOnce(Run(Init(policy), schedule), id)
    decreases |schedule|
  {
    hide Step;
    if schedule != [] {
      RunSignups(policy, schedule[..|schedule| - 1], id);
      RunSound(policy, schedule[..|schedule| - 1]);
      StepSignups(Run(Init(policy), schedule[..|schedule| - 1]), schedule[|schedule| - 1], id);
    }
  }

  /** Latest-value fan-out: after any schedule, reconnects and other subscribers
      leaving included, every listed subscriber holds the payload of the last event
      for its key since it was added, or nothing if there was none. */
  lemma {:induction false} RunFresh(policy: Reconnect, schedule: seq<Choice>)
    ensures AllFresh(Run(Init(policy), schedule))
    decreases |schedule|
  {
    hide Step;
    if schedule != [] {
      var before := schedule[..|schedule| - 1];
      RunFresh(policy, before);
      RunSound(policy, before);
      forall id ensures SignsUpOnce(Run(Init(policy), before), id) {
        RunSignups(policy, before, id);
      }
      StepFresh(Run(Init(policy), before), schedule[|schedule| - 1]);
    }
  }

  // ---------------------------------------------------------------------
  // Who stays subscribed
  // ---------------------------------------------------------------------

  ghost predicate Listed(s: State, id: nat, key: Key) {
    key in s.task.watchers && id in s.task.watchers[key]
  }

  /** None of `commands` is queued. */
  ghost predicate Quiet(s: State, commands: iset<Command>) {
    forall t | t in s.task.deferred || t in s.mail.channel :: t.command !in commands
  }

  /** The commands that unsubscribe `id`. */
  ghost function Leaving(id: nat): iset<Command> {
    iset c: Command | c.Unwatch? && c.id == id
  }

  /** Nothing queued unsubscribes `id`. */
  ghost predicate NotLeaving(s: State, id: nat) {
    Quiet(s, Leaving(id))
  }

  lemma EndsQuiet(s: State, commands: iset<Command>)
    requires Quiet(s, commands)
    ensures Quiet(Finish(s), commands) && Quiet(Lost(s), commands)
  {
    hide DropQueue, CloseAll;
  }

  /** What is not submitted is not queued later. */
  lemma StepQuiet(s: State, c: Choice, commands: iset<Command>)
    requires Quiet(s, commands) && Sound(s) && (c.Submit? ==> c.command !in commands)
    ensures Quiet(Step(s, c), commands)
  {
    hide HandleCommand, HandleResponse, Finish, Lost, FailPending, Replay, DropCommand, Classify, IsOrder;
    match c
    case Drain(io) =>
      if s.task.deferred != [] {
        HandleCommandFrame(PopDeferred(s), s.task.deferred[0], io);
        FailPendingFrame(HandleCommand(PopDeferred(s), s.task.deferred[0], io).0);
      }
    case Recv(io) =>
      EndsQuiet(s, commands);
      if s.mail.channel != [] {
        EndsQuiet(PopChannel(s), commands);
        if !s.mail.channel[0].command.Close? {
          HandleCommandFrame(PopChannel(s), s.mail.channel[0], io);
          EndsQuiet(HandleCommand(PopChannel(s), s.mail.channel[0], io).0, commands);
        }
      }
    case Arrive(response, io) =>
      HandleResponseFrame(s, Classify(response), io);
      EndsQuiet(HandleResponse(s, Classify(response), io), commands);
    case LinkError => EndsQuiet(s, commands);
    case Wake(took) =>
      EndsQuiet(s, commands);
      if s.mail.channel != [] {
        EndsQuiet(PopChannel(s), commands);
      }
    case _ =>
  }

  lemma HandleCommandKeepsListed(s: State, t: Ticketed, io: bool, id: nat, key: Key)
    requires !t.command.Close? && Listed(s, id, key) && (t.command.Unwatch? ==> t.command.id != id)
    ensures Listed(HandleCommand(s, t, io).0, id, key)
  {
    hide Fits, Without;
    if t.command.Unwatch? && t.command.key == key {
      assert id in Without(s.task.watchers[key], t.command.id);
    }
  }

  lemma ReceiveKeepsListed(s: State, io: bool, id: nat, key: Key)
    requires Listed(s, id, key) && NotLeaving(s, id)
    ensures Listed(ReceiveCommand(s, io), id, key) || ReceiveCommand(s, io).phase == Done
  {
    hide HandleCommand, Finish, FailPending;
    FinishIsDone(s);
    if s.mail.channel != [] {
      var s0 := PopChannel(s);
      FinishIsDone(s0);
      if !s.mail.channel[0].command.Close? {
        HandleCommandKeepsListed(s0, s.mail.channel[0], io, id, key);
        var s1 := HandleCommand(s0, s.mail.channel[0], io).0;
        FailPendingFrame(s1);
        FinishIsDone(DropLink(FailPending(s1)));
      }
    }
  }

  /** A subscriber whose receiver lives and that did not ask to leave stays subscribed,
      whatever the link, the server or other subscribers do, until the task ends. */
  lemma StaysSubscribed(s: State, c: Choice, id: nat, key: Key)
    requires Listed(s, id, key) && id in s.callers.receivers && NotLeaving(s, id)
    ensures Listed(Step(s, c), id, key) || Step(s, c).phase == Done
  {
    hide HandleCommand, ReceiveCommand, Finish, Replay, SubmitCommand, IsOrder, Fits, Alive, DropCommand, Classify;
    match c
    case Drain(io) =>
      if s.task.deferred != [] && !s.task.deferred[0].command.Close? {
        HandleCommandKeepsListed(PopDeferred(s), s.task.deferred[0], io, id, key);
      }
    case Recv(io) => ReceiveKeepsListed(s, io, id, key);
    case Arrive(response, io) =>
      var p := Classify(response);
      if p.Event? && p.key == key {
        assert id in Alive(s.task.watchers[key], s.callers.receivers);
      }
      FinishIsDone(HandleResponse(s, p, io));
    case LinkError => FinishIsDone(DropLink(FailPending(s)));
    case Wake(took) =>
      FinishIsDone(s);
      if s.mail.channel != [] {
        FinishIsDone(PopChannel(s));
      }
    case _ =>
  }

  /** Receivers go away only on their own. */
  lemma StepReceivers(s: State, c: Choice, id: nat)
    requires id in s.callers.receivers && c != DropReceiver(id)
    ensures id in Step(s, c).callers.receivers
  {
    hide HandleCommand, HandleResponse, Finish, Lost, FailPending, Replay, Classify, IsOrder, SubmitCommand;
    match c
    case Drain(io) =>
      if s.task.deferred != [] && !s.task.deferred[0].command.Close? {
        CommandReceivers(PopDeferred(s), s.task.deferred[0], io);
        EndsReceivers(HandleCommand(PopDeferred(s), s.task.deferred[0], io).0);
      }
    case Recv(io) =>
      EndsReceivers(s);
      if s.mail.channel != [] {
        EndsReceivers(PopChannel(s));
        if !s.mail.channel[0].command.Close? {
          CommandReceivers(PopChannel(s), s.mail.channel[0], io);
          EndsReceivers(HandleCommand(PopChannel(s), s.mail.channel[0], io).0);
        }
      }
    case Arrive(response, io) =>
      ResponseReceivers(s, Classify(response), io);
      EndsReceivers(HandleResponse(s, Classify(response), io));
    case LinkError => EndsReceivers(s);
    case Wake(took) =>
      EndsReceivers(s);
      if s.mail.channel != [] {
        EndsReceivers(PopChannel(s));
      }
    case _ =>
  }

  lemma CommandReceivers(s: State, t: Ticketed, io: bool)
    requires !t.command.Close?
    ensures HandleCommand(s, t, io).0.callers.receivers == s.callers.receivers
  {
    hide Fits, Without;
  }

  lemma ResponseReceivers(s: State, p: Packet, io: bool)
    ensures HandleResponse(s, p, io).callers.receivers == s.callers.receivers
  {
    hide Fits, Alive;
  }

  lemma EndsReceivers(s: State)
    ensures FailPending(s).callers.receivers == s.callers.receivers
    ensures Finish(s).callers.receivers == s.callers.receivers && Lost(s).callers.receivers == s.callers.receivers
  {
    hide DropQueue;
    DropQueueFrame(FailPending(s).callers, s.task.deferred);
    DropQueueFrame(DropQueue(FailPending(s).callers, s.task.deferred), s.mail.channel);
    var f := DropLink(FailPending(s));
    DropQueueFrame(FailPending(f).callers, f.task.deferred);
    DropQueueFrame(DropQueue(FailPending(f).callers, f.task.deferred), f.mail.channel);
  }

  lemma DoneStays(s: State, c: Choice)
    requires s.phase == Done
    ensures Step(s, c).phase == Done
  {
    hide SubmitCommand;
  }

  /** `id` neither drops its receiver nor submits an UNWATCH. */
  ghost predicate Stays(schedule: seq<Choice>, id: nat) {
    forall c | c in schedule :: c != DropReceiver(id) && (c.Submit? ==> c.command !in Leaving(id))
  }

  /** A subscriber that keeps its receiver and does not ask to leave stays subscribed
      through whatever else happens, reconnects included, until the task ends. */
  lemma {:induction false} RunStaysSubscribed(s: State, schedule: seq<Choice>, id: nat, key: Key)
    requires Listed(s, id, key) && id in s.callers.receivers && NotLeaving(s, id) && Sound(s) && Stays(schedule, id)
    ensures var s1 := Run(s, schedule);
      Sound(s1) && (s1.phase == Done || (Listed(s1, id, key) && id in s1.callers.receivers && NotLeaving(s1, id)))
    decreases |schedule|
  {
    hide Step, NotLeaving, Sound, Listed, Leaving;
    if schedule != [] {
      var before, c := schedule[..|schedule| - 1], schedule[|schedule| - 1];
      RunStaysSubscribed(s, before, id, key);
      var s1 := Run(s, before);
      assert c in schedule;
      StepSound(s1, c);
      if s1.phase == Done {
        DoneStays(s1, c);
      } else {
        StaysSubscribed(s1, c, id, key);
        StepReceivers(s1, c, id);
        StepStaysQuiet(s1, c, id);
      }
    }
  }

  lemma StepStaysQuiet(s: State, c: Choice, id: nat)
    requires NotLeaving(s, id) && Sound(s) && (c.Submit? ==> c.command !in Leaving(id))
    ensures NotLeaving(Step(s, c), id)
  {
    hide Step, Quiet, Leaving, Sound;
    StepQuiet(s, c, Leaving(id));
  }
}
