/** What goes out on the links: in order of arrival, at most once, and answered on
    the link it went out on. */
module WriteOrder {
  import opened Bytes
  import opened Connection
  import opened Conservation
  import Errors
  import Requests
  import Rmp

  // ---------------------------------------------------------------------
  // Sizes
  // ---------------------------------------------------------------------

  /** The packet a command would send is at most `n` bytes. */
  predicate CommandLimited(c: Command, n: nat) {
    c.Close? || WireSize(WireOf(c)) <= n
  }

  predicate ChoiceLimited(c: Choice, n: nat) {
    c.Submit? ==> CommandLimited(c.command, n)
  }

  predicate Limited(schedule: seq<Choice>, n: nat) {
    forall c | c in schedule :: ChoiceLimited(c, n)
  }

  const MAX_SENDABLE := U32_LIMIT - 1

  ghost predicate QueueLimited(queue: seq<Ticketed>) {
    forall t | t in queue :: CommandLimited(t.command, MAX_SENDABLE)
  }

  /** Everything still to be sent is something the codec takes. */
  ghost predicate AllFit(s: State) {
    && QueueLimited(s.mail.channel) && QueueLimited(s.task.deferred)
    && forall key | key in s.task.watchers :: Fits(WatchKey(key))
  }

  // ---------------------------------------------------------------------
  // One command's effect on the link
  // ---------------------------------------------------------------------

  /** `after` is `before`, or has the one attempt more that `t` calls for. */
  ghost predicate Attempts(before: Link, after: Link, t: Ticketed, ok: bool)
    requires !t.command.Close?
  {
    var wire := WireOf(t.command);
    || (after == before && ok)
    || (&& after.epoch == before.epoch
        && after.sends == before.sends + [Sent(ByCommand(t.ticket), wire, before.epoch, !before.dead && Fits(wire))]
        && (before.dead ==> after.dead)
        && (ok <==> !after.dead && Fits(wire)))
  }

  lemma HandleCommandAttempts(s: State, t: Ticketed, io: bool)
    requires !t.command.Close?
    ensures var (s1, ok) := HandleCommand(s, t, io); Attempts(s.link, s1.link, t, ok)
  {
    hide Fits, Without;
  }

  /** A packet is answered by an acknowledgement at most. */
  lemma HandleResponseAcks(s: State, p: Packet, io: bool)
    ensures var s1 := HandleResponse(s, p, io);
      && s1.link.epoch == s.link.epoch
      && (s.link.dead ==> s1.link.dead)
      && (s1.link == s.link
          || exists key, reached :: s1.link.sends == s.link.sends + [Sent(ByAck, WatchKey(key), s.link.epoch, reached)])
  {
    hide Fits, Alive;
    if p.Event? && p.key in s.task.watchers {
      assert HandleResponse(s, p, io).link.sends
          == s.link.sends + [Sent(ByAck, WatchKey(p.key), s.link.epoch, !s.link.dead && Fits(WatchKey(p.key)))];
    }
  }

  lemma HandleCommandFits(s: State, t: Ticketed, io: bool)
    requires !t.command.Close? && AllFit(s) && CommandLimited(t.command, MAX_SENDABLE)
    ensures AllFit(HandleCommand(s, t, io).0)
  {
    hide Without, StrSize;
  }

  lemma HandleResponseFits(s: State, p: Packet, io: bool)
    requires AllFit(s)
    ensures AllFit(HandleResponse(s, p, io))
  {
    hide Alive, StrSize;
  }

  lemma FinishFits(s: State)
    ensures AllFit(Finish(s))
  {
    hide DropQueue;
  }

  lemma LostFits(s: State)
    requires AllFit(s)
    ensures AllFit(Lost(s))
  {
    hide FailPending, Finish;
    FailPendingFrame(s);
    FinishFits(DropLink(FailPending(s)));
  }

  lemma StepFits(s: State, c: Choice)
    requires AllFit(s) && Sound(s) && ChoiceLimited(c, MAX_SENDABLE)
    ensures AllFit(Step(s, c))
  {
    hide HandleCommand, HandleResponse, Finish, Lost, FailPending, Replay, CommandLimited;
    match c
    case Drain(io) =>
      if s.task.deferred != [] {
        HandleCommandFits(PopDeferred(s), s.task.deferred[0], io);
        FailPendingFrame(HandleCommand(PopDeferred(s), s.task.deferred[0], io).0);
      }
    case Recv(io) =>
      FinishFits(s);
      if s.mail.channel != [] {
        FinishFits(PopChannel(s));
        if !s.mail.channel[0].command.Close? {
          HandleCommandFits(PopChannel(s), s.mail.channel[0], io);
          LostFits(HandleCommand(PopChannel(s), s.mail.channel[0], io).0);
        }
      }
    case Arrive(response, io) =>
      var p := Classify(response);
      HandleResponseFits(s, p, io);
      FinishFits(HandleResponse(s, p, io));
    case LinkError => LostFits(s);
    case Wake(took) =>
      FinishFits(s);
      if s.mail.channel != [] {
        FinishFits(PopChannel(s));
      }
    case _ =>
  }

  // ---------------------------------------------------------------------
  // At most once
  // ---------------------------------------------------------------------

  function IsCall(m: Sent, k: nat): nat {
    if m.wire.Call? && m.wire.sync == k then 1 else 0
  }

  /** How often request `k` was attempted, on any link. */
  function CallsOf(sends: seq<Sent>, k: nat): nat {
    if sends == [] then 0 else CallsOf(sends[..|sends| - 1], k) + IsCall(sends[|sends| - 1], k)
  }

  lemma CallsAppend(sends: seq<Sent>, m: Sent, k: nat)
    ensures CallsOf(sends + [m], k) == CallsOf(sends, k) + IsCall(m, k)
  {
    assert (sends + [m])[..|sends|] == sends;
  }

  lemma {:induction false} ReplayCallsNobody(l: Link, keys: seq<Key>, oks: nat, k: nat)
    ensures CallsOf(Replay(l, keys, oks).sends, k) == CallsOf(l.sends, k)
    ensures Replay(l, keys, oks).epoch == l.epoch
    decreases keys
  {
    hide CallsOf, Fits;
    if keys != [] {
      var (l1, ok) := Send(l, ByReplay, WatchKey(keys[0]), oks > 0);
      CallsAppend(l.sends, l1.sends[|l.sends|], k);
      if ok {
        ReplayCallsNobody(l1, keys[1..], oks - 1, k);
      }
    }
  }

  /** Attempts made for request `k`, and attempts still possible. */
  function Tries(s: State, k: nat): nat {
    CallsOf(s.link.sends, k) + CountIn(s.mail.channel, k) + CountIn(s.task.deferred, k)
  }

  /** No attempt is possible that was not before, except for a new submission. */
  ghost predicate NoNewTries(before: State, after: State, k: nat) {
    Tries(after, k) + Expected(before.mail, k) <= Tries(before, k) + Expected(after.mail, k)
  }

  lemma HandleCommandTries(s: State, t: Ticketed, io: bool, k: nat)
    requires !t.command.Close?
    ensures var s1 := HandleCommand(s, t, io).0;
      Tries(s1, k) <= Tries(s, k) + Is(t, k) && s1.mail == s.mail
  {
    hide HandleCommand, CallsOf, CountIn, Fits;
    HandleCommandAttempts(s, t, io);
    HandleCommandFrame(s, t, io);
    CallsAppend(s.link.sends, Sent(ByCommand(t.ticket), WireOf(t.command), s.link.epoch, !s.link.dead && Fits(WireOf(t.command))), k);
  }

  lemma HandleResponseTries(s: State, p: Packet, io: bool, k: nat)
    ensures var s1 := HandleResponse(s, p, io); Tries(s1, k) == Tries(s, k) && s1.mail == s.mail
  {
    hide HandleResponse, CallsOf, CountIn;
    HandleResponseAcks(s, p, io);
    HandleResponseFrame(s, p, io);
    var s1 := HandleResponse(s, p, io);
    if s1.link != s.link {
      CallsAppend(s.link.sends, s1.link.sends[|s.link.sends|], k);
    }
  }

  lemma FinishTries(s: State, k: nat)
    ensures Tries(Finish(s), k) <= Tries(s, k) && Expected(Finish(s).mail, k) == Expected(s.mail, k)
  {
    hide DropQueue, CallsOf;
  }

  lemma LostTries(s: State, k: nat)
    ensures Tries(Lost(s), k) <= Tries(s, k) && Expected(Lost(s).mail, k) == Expected(s.mail, k)
  {
    hide FailPending, Finish, CallsOf, CountIn;
    FailPendingFrame(s);
    FinishTries(DropLink(FailPending(s)), k);
  }

  lemma PopTries(s: State, k: nat)
    ensures s.mail.channel != [] ==> Tries(PopChannel(s), k) + Is(s.mail.channel[0], k) == Tries(s, k)
    ensures s.task.deferred != [] ==> Tries(PopDeferred(s), k) + Is(s.task.deferred[0], k) == Tries(s, k)
  {
    hide CallsOf;
  }

  lemma DrainTries(s: State, io: bool, k: nat)
    requires Sound(s)
    ensures NoNewTries(s, DrainOne(s, io), k)
  {
    hide HandleCommand, FailPending, CallsOf, CountIn, PopDeferred;
    PopTries(s, k);
    if s.task.deferred != [] {
      HandleCommandTries(PopDeferred(s), s.task.deferred[0], io, k);
      PopFrame(s);
      FailPendingFrame(HandleCommand(PopDeferred(s), s.task.deferred[0], io).0);
    }
  }

  lemma ReceiveTries(s: State, io: bool, k: nat)
    requires Sound(s)
    ensures NoNewTries(s, ReceiveCommand(s, io), k)
  {
    hide HandleCommand, Finish, Lost, CallsOf, CountIn, PopChannel;
    PopTries(s, k);
    FinishTries(s, k);
    if s.mail.channel != [] {
      PopFrame(s);
      FinishTries(PopChannel(s), k);
      if !s.mail.channel[0].command.Close? {
        HandleCommandTries(PopChannel(s), s.mail.channel[0], io, k);
        LostTries(HandleCommand(PopChannel(s), s.mail.channel[0], io).0, k);
      }
    }
  }

  lemma TakeTries(s: State, delay: nat, k: nat)
    requires Sound(s)
    ensures NoNewTries(s, TakeDeferred(s, delay), k)
  {
    hide Finish, CallsOf, CountIn, PopChannel, Defer;
    PopTries(s, k);
    FinishTries(s, k);
    if s.mail.channel != [] {
      PopFrame(s);
      FinishTries(PopChannel(s), k);
      DeferTries(PopChannel(s), s.mail.channel[0], k);
    }
  }

  lemma StepTries(s: State, c: Choice, k: nat)
    requires Sound(s)
    ensures NoNewTries(s, Step(s, c), k)
  {
    hide DrainOne, ReceiveCommand, TakeDeferred, HandleResponse, Finish, Lost, Replay, SubmitCommand, CallsOf, CountIn, Classify;
    match c
    case Submit(command) => SubmitKeeps(s.mail, command, k);
    case Drain(io) => DrainTries(s, io, k);
    case Recv(io) => ReceiveTries(s, io, k);
    case Arrive(response, io) =>
      var p := Classify(response);
      HandleResponseTries(s, p, io, k);
      FinishTries(HandleResponse(s, p, io), k);
    case LinkError => LostTries(s, k);
    case Wake(took) =>
      if s.phase.Waiting? {
        TakeTries(s, s.phase.delay, k);
      }
    case HandshakeOk(keys, oks) =>
      ReplayCallsNobody(s.link.(epoch := s.link.epoch + 1, dead := false), keys, oks, k);
    case _ =>
  }

  lemma DeferTries(s: State, t: Ticketed, k: nat)
    ensures Tries(Defer(s, t), k) <= Tries(s, k) + Is(t, k) && Defer(s, t).mail == s.mail
  {
    CountAppend(s.task.deferred, t, k);
    hide CountIn, CallsOf;
  }

  lemma PopFrame(s: State)
    ensures s.mail.channel != [] ==> Sound(s) ==> SyncsFresh(PopChannel(s).mail)
    ensures s.mail.channel != [] ==> PopChannel(s).mail == s.mail.(channel := s.mail.channel[1..])
    ensures s.task.deferred != [] ==> PopDeferred(s).mail == s.mail
  {
  }

  /** At most once: after any schedule, a request was attempted at most once, over
      all links together, and not at all while it is still queued. */
  lemma {:induction false} RunAttemptsOnce(policy: Reconnect, schedule: seq<Choice>, k: nat)
    ensures var s := Run(Init(policy), schedule); Tries(s, k) <= Expected(s.mail, k)
    decreases |schedule|
  {
    hide Step;
    if schedule != [] {
      var before := schedule[..|schedule| - 1];
      RunAttemptsOnce(policy, before, k);
      RunSound(policy, before);
      StepTries(Run(Init(policy), before), schedule[|schedule| - 1], k);
    }
  }

  // ---------------------------------------------------------------------
  // Order
  // ---------------------------------------------------------------------

  /** The tickets of the commands whose packets may have gone out, in sending order. */
  function Reached(sends: seq<Sent>): seq<nat> {
    if sends == [] then []
    else Reached(sends[..|sends| - 1]) + ReachedBy(sends[|sends| - 1])
  }

  function ReachedBy(m: Sent): seq<nat> {
    if m.reached && m.origin.ByCommand? then [m.origin.ticket] else []
  }

  ghost predicate Increasing(xs: seq<nat>) {
    forall i, j :: 0 <= i < j < |xs| ==> xs[i] < xs[j]
  }

  /** Sent tickets increase, queued tickets increase, and every sent one is below
      every queued one. */
  ghost predicate Sorted(sent: seq<nat>, queue: seq<Ticketed>, next: nat) {
    && Increasing(sent)
    && (forall i, j :: 0 <= i < j < |queue| ==> queue[i].ticket < queue[j].ticket)
    && (forall t | t in queue :: t.ticket < next)
    && (forall x | x in sent :: x < next)
    && (forall x, t | x in sent && t in queue :: x < t.ticket)
  }

  function Backlog(s: State): seq<Ticketed> {
    s.task.deferred + s.mail.channel
  }

  /** Outside the draining loop, something is left in `deferred` only on a dead link. */
  ghost predicate Drained(s: State) {
    s.phase.Draining? || s.phase.Done? || s.phase.Panicked? || s.task.deferred == [] || s.link.dead
  }

  ghost predicate Ordered(s: State) {
    Sorted(Reached(s.link.sends), Backlog(s), s.mail.nextTicket) && Drained(s)
  }

  lemma ReachedAppend(sends: seq<Sent>, m: Sent)
    ensures Reached(sends + [m]) == Reached(sends) + ReachedBy(m)
  {
    assert (sends + [m])[..|sends|] == sends;
  }

  lemma {:induction false} ReplayReachesNoCommand(l: Link, keys: seq<Key>, oks: nat)
    ensures Reached(Replay(l, keys, oks).sends) == Reached(l.sends)
    decreases keys
  {
    hide Reached, Fits;
    if keys != [] {
      var (l1, ok) := Send(l, ByReplay, WatchKey(keys[0]), oks > 0);
      ReachedAppend(l.sends, l1.sends[|l.sends|]);
      if ok {
        ReplayReachesNoCommand(l1, keys[1..], oks - 1);
      }
    }
  }

  /** Taking one command off a sorted backlog, wherever it is. */
  lemma SortedRemove(sent: seq<nat>, front: seq<Ticketed>, t: Ticketed, back: seq<Ticketed>, next: nat)
    requires Sorted(sent, front + ([t] + back), next)
    ensures Sorted(sent, front + back, next)
  {
    var all, rest := front + ([t] + back), front + back;
    forall x | x in rest ensures x in all {
      assert x in front || x in back;
    }
    forall i, j | 0 <= i < j < |rest| ensures rest[i].ticket < rest[j].ticket {
      var i', j' := if i < |front| then i else i + 1, if j < |front| then j else j + 1;
      assert all[i'] == rest[i] && all[j'] == rest[j];
    }
  }

  /** Sending the oldest command of a sorted backlog. */
  lemma SortedSend(sent: seq<nat>, t: Ticketed, back: seq<Ticketed>, next: nat)
    requires Sorted(sent, [t] + back, next)
    ensures Sorted(sent + [t.ticket], back, next)
  {
    var all := [t] + back;
    assert t in all;
    forall u | u in back ensures u in all && t.ticket < u.ticket {
      var j :| 0 <= j < |back| && back[j] == u;
      assert all[0] == t && all[j + 1] == u;
    }
    forall i, j | 0 <= i < j < |back| ensures back[i].ticket < back[j].ticket {
      assert all[i + 1] == back[i] && all[j + 1] == back[j];
    }
    forall i | 0 <= i < |sent| ensures sent[i] < t.ticket {
      assert sent[i] in sent;
    }
  }

  lemma SortedArrival(sent: seq<nat>, queue: seq<Ticketed>, next: nat, c: Command)
    requires Sorted(sent, queue, next)
    ensures Sorted(sent, queue + [Ticketed(next, c)], next + 1)
  {
  }

  lemma SortedNothing(sent: seq<nat>, queue: seq<Ticketed>, next: nat)
    requires Sorted(sent, queue, next)
    ensures Sorted(sent, [], next)
  {
  }

  /** The command at the head of a sorted backlog is handled. */
  lemma HandleHead(s: State, t: Ticketed, io: bool)
    requires !t.command.Close? && Sorted(Reached(s.link.sends), [t] + Backlog(s), s.mail.nextTicket)
    ensures var s1 := HandleCommand(s, t, io).0;
      Sorted(Reached(s1.link.sends), Backlog(s1), s1.mail.nextTicket)
  {
    hide HandleCommand, Fits, Reached, Sorted;
    HandleCommandAttempts(s, t, io);
    HandleCommandFrame(s, t, io);
    ReachedAppend(s.link.sends, Sent(ByCommand(t.ticket), WireOf(t.command), s.link.epoch, !s.link.dead && Fits(WireOf(t.command))));
    SortedSend(Reached(s.link.sends), t, Backlog(s), s.mail.nextTicket);
    assert [] + ([t] + Backlog(s)) == [t] + Backlog(s) && [] + Backlog(s) == Backlog(s);
    SortedRemove(Reached(s.link.sends), [], t, Backlog(s), s.mail.nextTicket);
    assert Reached(s.link.sends) + [] == Reached(s.link.sends);
  }

  /** On a dead link a command may be handled out of turn: nothing goes out. */
  lemma HandleOnDeadLink(s: State, t: Ticketed, io: bool)
    requires !t.command.Close? && s.link.dead
    requires Sorted(Reached(s.link.sends), s.task.deferred + ([t] + s.mail.channel), s.mail.nextTicket)
    ensures var s1 := HandleCommand(s, t, io).0;
      s1.link.dead && Sorted(Reached(s1.link.sends), Backlog(s1), s1.mail.nextTicket)
  {
    hide HandleCommand, Fits, Reached, Sorted;
    HandleCommandAttempts(s, t, io);
    HandleCommandFrame(s, t, io);
    ReachedAppend(s.link.sends, Sent(ByCommand(t.ticket), WireOf(t.command), s.link.epoch, false));
    assert Reached(s.link.sends) + [] == Reached(s.link.sends);
    SortedRemove(Reached(s.link.sends), s.task.deferred, t, s.mail.channel, s.mail.nextTicket);
  }

  lemma FinishOrdered(s: State)
    requires Sorted(Reached(s.link.sends), Backlog(s), s.mail.nextTicket)
    ensures Ordered(Finish(s))
  {
    hide DropQueue, Reached, Sorted;
    SortedNothing(Reached(s.link.sends), Backlog(s), s.mail.nextTicket);
    assert Backlog(Finish(s)) == [];
  }

  lemma LostOrdered(s: State)
    requires Sorted(Reached(s.link.sends), Backlog(s), s.mail.nextTicket)
    ensures Ordered(Lost(s))
  {
    hide FailPending, Finish, Reached, Sorted;
    FailPendingFrame(s);
    FinishOrdered(DropLink(FailPending(s)));
  }

  lemma DrainOrdered(s: State, io: bool)
    requires Ordered(s) && (s.task.deferred == [] || AllFit(s)) && NoClose(s.task.deferred)
    ensures Ordered(DrainOne(s, io)) || s.phase != Draining
  {
    hide HandleCommand, FailPending, Reached, Sorted, Fits;
    if s.task.deferred != [] {
      var t, s0 := s.task.deferred[0], PopDeferred(s);
      assert Backlog(s) == [t] + Backlog(s0);
      HandleHead(s0, t, io);
      HandleCommandAttempts(s0, t, io);
      HandleCommandFrame(s0, t, io);
      FailPendingFrame(HandleCommand(s0, t, io).0);
      LimitedFits(t.command);
    }
  }

  lemma LimitedFits(c: Command)
    requires !c.Close? && CommandLimited(c, MAX_SENDABLE)
    ensures Fits(WireOf(c))
  {
  }

  lemma ReceiveOrdered(s: State, io: bool)
    requires Ordered(s) && s.phase == Selecting
    ensures Ordered(ReceiveCommand(s, io))
  {
    hide HandleCommand, Finish, Lost, Reached, Sorted;
    if s.mail.channel == [] {
      FinishOrdered(s);
    } else {
      var t, s0 := s.mail.channel[0], PopChannel(s);
      assert s.mail.channel == [t] + s0.mail.channel;
      SortedRemove(Reached(s.link.sends), s.task.deferred, t, s0.mail.channel, s.mail.nextTicket);
      FinishOrdered(s0);
      if !t.command.Close? {
        if s.link.dead {
          HandleOnDeadLink(s0, t, io);
        } else {
          assert Backlog(s) == [t] + Backlog(s0);
          HandleHead(s0, t, io);
        }
        LostOrdered(HandleCommand(s0, t, io).0);
      }
    }
  }

  lemma PacketOrdered(s: State, p: Packet, io: bool)
    requires Ordered(s)
    ensures Ordered(ReceivePacket(s, p, io))
  {
    hide HandleResponse, Finish, Reached, Sorted;
    HandleResponseAcks(s, p, io);
    HandleResponseFrame(s, p, io);
    var s1 := HandleResponse(s, p, io);
    if s1.link != s.link {
      ReachedAppend(s.link.sends, s1.link.sends[|s.link.sends|]);
      assert Reached(s.link.sends) + [] == Reached(s.link.sends);
    }
    FinishOrdered(s1);
  }

  lemma WakeOrdered(s: State, delay: nat)
    requires Ordered(s) && s.link.dead
    ensures Ordered(TakeDeferred(s, delay)) || s.phase.Done?
  {
    hide Finish, Reached, Sorted;
    if s.mail.channel == [] {
      FinishOrdered(s);
    } else {
      var t, s0 := s.mail.channel[0], PopChannel(s);
      assert s.mail.channel == [t] + s0.mail.channel;
      SortedRemove(Reached(s.link.sends), s.task.deferred, t, s0.mail.channel, s.mail.nextTicket);
      FinishOrdered(s0);
      assert s.task.deferred + [t] + s0.mail.channel == Backlog(s);
    }
  }

  /** While reconnecting, the old link is dead and nothing is in flight. */
  ghost predicate Cut(s: State) {
    s.phase.Waiting? || s.phase.Handshaking? ==> s.link.dead && s.task.pending == map[]
  }

  lemma StepCut(s: State, c: Choice)
    requires Cut(s)
    ensures Cut(Step(s, c))
  {
    hide HandleCommand, HandleResponse, Replay, SubmitCommand, DropQueue;
    match c
    case Drain(io) =>
      if s.task.deferred != [] && !s.task.deferred[0].command.Close? {
        HandleCommandFrame(PopDeferred(s), s.task.deferred[0], io);
      }
    case Recv(io) =>
      if s.mail.channel != [] && !s.mail.channel[0].command.Close? {
        HandleCommandFrame(PopChannel(s), s.mail.channel[0], io);
      }
    case Arrive(response, io) =>
      var p := Classify(response);
      HandleResponseFrame(s, p, io);
    case _ =>
  }

  lemma StepOrdered(s: State, c: Choice)
    requires Ordered(s) && (s.task.deferred == [] || AllFit(s)) && Sound(s) && Cut(s)
    ensures Ordered(Step(s, c))
  {
    hide DrainOne, ReceiveCommand, ReceivePacket, TakeDeferred, Lost, Replay, Reached, Sorted, AllFit;
    match c
    case Submit(command) =>
      SortedArrival(Reached(s.link.sends), Backlog(s), s.mail.nextTicket, command);
      assert s.task.deferred + (s.mail.channel + [Ticketed(s.mail.nextTicket, command)])
          == Backlog(s) + [Ticketed(s.mail.nextTicket, command)];
    case Drain(io) =>
      if s.phase == Draining {
        DrainOrdered(s, io);
      }
    case Recv(io) =>
      if s.phase == Selecting {
        ReceiveOrdered(s, io);
      }
    case Arrive(response, io) =>
      var p := Classify(response);
      PacketOrdered(s, p, io);
    case LinkError => LostOrdered(s);
    case Wake(took) =>
      if s.phase.Waiting? {
        WakeOrdered(s, s.phase.delay);
      }
    case HandshakeOk(keys, oks) =>
      ReplayReachesNoCommand(s.link.(epoch := s.link.epoch + 1, dead := false), keys, oks);
    case _ =>
  }

  lemma {:induction false} RunCut(policy: Reconnect, schedule: seq<Choice>)
    ensures Cut(Run(Init(policy), schedule))
    decreases |schedule|
  {
    hide Step;
    if schedule != [] {
      RunCut(policy, schedule[..|schedule| - 1]);
      StepCut(Run(Init(policy), schedule[..|schedule| - 1]), schedule[|schedule| - 1]);
    }
  }

  /** Without reconnecting, nothing is ever deferred. */
  ghost predicate NeverDefers(s: State) {
    s.policy.Never? && s.task.deferred == [] && !s.phase.Waiting? && !s.phase.Handshaking?
  }

  lemma EndsNeverDefer(s: State)
    requires s.policy.Never?
    ensures NeverDefers(Finish(s)) && NeverDefers(Lost(s))
  {
    hide DropQueue, CloseAll;
  }

  lemma StepNeverDefers(s: State, c: Choice)
    requires NeverDefers(s)
    ensures NeverDefers(Step(s, c))
  {
    hide HandleCommand, HandleResponse, Finish, Lost, SubmitCommand, Classify;
    match c
    case Recv(io) =>
      EndsNeverDefer(s);
      if s.mail.channel != [] {
        EndsNeverDefer(PopChannel(s));
        if !s.mail.channel[0].command.Close? {
          HandleCommandFrame(PopChannel(s), s.mail.channel[0], io);
          EndsNeverDefer(HandleCommand(PopChannel(s), s.mail.channel[0], io).0);
        }
      }
    case Arrive(response, io) =>
      HandleResponseFrame(s, Classify(response), io);
      EndsNeverDefer(HandleResponse(s, Classify(response), io));
    case LinkError => EndsNeverDefer(s);
    case _ =>
  }

  lemma {:induction false} RunNeverDefers(schedule: seq<Choice>)
    ensures NeverDefers(Run(Init(Never), schedule))
    decreases |schedule|
  {
    hide Step;
    if schedule != [] {
      RunNeverDefers(schedule[..|schedule| - 1]);
      StepNeverDefers(Run(Init(Never), schedule[..|schedule| - 1]), schedule[|schedule| - 1]);
    }
  }

  lemma {:induction false} RunFits(policy: Reconnect, schedule: seq<Choice>)
    requires Limited(schedule, MAX_SENDABLE)
    ensures AllFit(Run(Init(policy), schedule))
    decreases |schedule|
  {
    hide Step, ChoiceLimited;
    if schedule != [] {
      var before := schedule[..|schedule| - 1];
      RunFits(policy, before);
      RunSound(policy, before);
      assert schedule[|schedule| - 1] in schedule;
      StepFits(Run(Init(policy), before), schedule[|schedule| - 1]);
    }
  }

  /** Order: packets go out in the order their commands arrived, over all links, if the
      task never reconnects or the codec takes every packet. */
  lemma {:induction false} RunOrdered(policy: Reconnect, schedule: seq<Choice>)
    requires policy.Never? || Limited(schedule, MAX_SENDABLE)
    ensures Ordered(Run(Init(policy), schedule))
    decreases |schedule|
  {
    hide Step, ChoiceLimited, AllFit;
    if schedule != [] {
      var before := schedule[..|schedule| - 1];
      RunOrdered(policy, before);
      RunSound(policy, before);
      RunCut(policy, before);
      if policy.Never? {
        RunNeverDefers(before);
      } else {
        RunFits(policy, before);
      }
      StepOrdered(Run(Init(policy), before), schedule[|schedule| - 1]);
    }
  }

  // ---------------------------------------------------------------------
  // Exactly when order holds
  // ---------------------------------------------------------------------

  lemma RunSnoc(s: State, schedule: seq<Choice>, c: Choice)
    ensures Run(s, schedule + [c]) == Step(Run(s, schedule), c)
  {
    assert (schedule + [c])[..|schedule|] == schedule;
  }

  /** The parts of a state the scenario below turns on. */
  ghost predicate At(policy: Reconnect, s: State, phase: Phase, link: Link, deferred: seq<Ticketed>, channel: seq<Ticketed>, next: nat) {
    && s.phase == phase && s.link == link && s.task.deferred == deferred && s.mail.channel == channel
    && s.mail.nextTicket == next && s.policy == policy && s.task.watchers == map[]
    && !s.mail.closed && !s.mail.handlesGone && !s.task.shuttingDown
  }

  lemma RequestQueues(policy: Reconnect, s: State, sync: nat, packet: seq<byte>)
    requires At(policy, s, s.phase, s.link, s.task.deferred, s.mail.channel, s.mail.nextTicket)
    requires !Full(s.mail) && sync in s.mail.issued
    ensures var s1 := Step(s, Submit(Request(sync, packet, false)));
      && At(policy, s1, s.phase, s.link, s.task.deferred,
            s.mail.channel + [Ticketed(s.mail.nextTicket, Request(sync, packet, false))], s.mail.nextTicket + 1)
      && s1.mail.issued == s.mail.issued - {sync}
  {
  }

  lemma WakeDefers(policy: Reconnect, s: State, delay: nat, t: Ticketed, rest: seq<Ticketed>)
    requires At(policy, s, Waiting(delay), s.link, s.task.deferred, [t] + rest, s.mail.nextTicket)
    requires !t.command.Close? && |s.task.deferred| < MAX_DEFERRED
    ensures At(policy, Step(s, Wake(true)), Handshaking(delay), s.link, s.task.deferred + [t], rest, s.mail.nextTicket)
  {
    hide Finish;
  }

  lemma RequestGoesOut(policy: Reconnect, s: State, t: Ticketed, io: bool, phase: Phase)
    requires t.command.Request? && At(policy, s, phase, s.link, s.task.deferred, s.mail.channel, s.mail.nextTicket)
    ensures var (s1, ok) := HandleCommand(s, t, io);
      var (link, ok1) := Send(s.link, ByCommand(t.ticket), WireOf(t.command), io);
      ok == ok1 && At(policy, s1, phase, link, s.task.deferred, s.mail.channel, s.mail.nextTicket)
  {
    hide Settle;
  }

  /** Three requests, queued while the link is down. */
  function Requested(packets: (seq<byte>, seq<byte>, seq<byte>)): (Ticketed, Ticketed, Ticketed) {
    (Ticketed(0, Request(1, packets.0, false)), Ticketed(1, Request(2, packets.1, false)),
     Ticketed(2, Request(3, packets.2, false)))
  }

  /** Three syncs drawn, then the link lost. */
  function Downtime(): seq<Choice> {
    [] + [TakeSync] + [TakeSync] + [TakeSync] + [Drain(true)] + [LinkError]
  }

  lemma DowntimeState(policy: Reconnect) returns (s: State)
    requires policy.Backoff?
    ensures s == Run(Init(policy), Downtime())
    ensures At(policy, s, Waiting(policy.min), Link(0, true, []), [], [], 0) && s.mail.issued == {1, 2, 3}
  {
    hide Run, Step;
    var init := Init(policy);
    RunNothing(init);
    RunSnoc(init, [], TakeSync);
    RunSnoc(init, [] + [TakeSync], TakeSync);
    RunSnoc(init, [] + [TakeSync] + [TakeSync], TakeSync);
    RunSnoc(init, [] + [TakeSync] + [TakeSync] + [TakeSync], Drain(true));
    RunSnoc(init, [] + [TakeSync] + [TakeSync] + [TakeSync] + [Drain(true)], LinkError);
    var s3 := Step(Step(Step(init, TakeSync), TakeSync), TakeSync);
    DrawnThrice(policy);
    CutOff(policy, s3);
    s := Step(Step(s3, Drain(true)), LinkError);
  }

  lemma DrawnThrice(policy: Reconnect)
    ensures var s := Step(Step(Step(Init(policy), TakeSync), TakeSync), TakeSync);
      At(policy, s, Draining, Link(0, false, []), [], [], 0) && s.mail.issued == {1, 2, 3}
  {
    hide Run;
  }

  /** The requests submitted during the downtime. */
  function Queueing(packets: (seq<byte>, seq<byte>, seq<byte>)): seq<Choice> {
    var (a, b, c) := Requested(packets);
    Downtime() + [Submit(a.command)] + [Submit(b.command)] + [Submit(c.command)]
  }

  lemma QueueingState(policy: Reconnect, packets: (seq<byte>, seq<byte>, seq<byte>)) returns (s: State)
    requires policy.Backoff?
    ensures s == Run(Init(policy), Queueing(packets))
    ensures var (a, b, c) := Requested(packets); At(policy, s, Waiting(policy.min), Link(0, true, []), [], [a] + [b] + [c], 3)
  {
    hide Run, Step;
    var (a, b, c) := Requested(packets);
    var init := Init(policy);
    var s0 := DowntimeState(policy);
    var (p, q, r) := (Submit(a.command), Submit(b.command), Submit(c.command));
    RequestQueues(policy, s0, 1, packets.0);
    RequestQueues(policy, Step(s0, p), 2, packets.1);
    RequestQueues(policy, Step(Step(s0, p), q), 3, packets.2);
    RunSnoc(init, Downtime(), p);
    RunSnoc(init, Downtime() + [p], q);
    RunSnoc(init, Downtime() + [p] + [q], r);
    s := Step(Step(Step(s0, p), q), r);
    assert [] + [a] == [a];
  }

  /** Two of them deferred, and the third in the channel when the link is back. */
  function Outage(packets: (seq<byte>, seq<byte>, seq<byte>)): seq<Choice> {
    Queueing(packets) + [Wake(true)] + [HandshakeFailed] + [Wake(true)] + [HandshakeOk([], 0)]
  }

  lemma OutageState(policy: Reconnect, packets: (seq<byte>, seq<byte>, seq<byte>)) returns (s: State)
    requires policy.Backoff?
    ensures s == Run(Init(policy), Outage(packets))
    ensures var (a, b, c) := Requested(packets); At(policy, s, Draining, Link(1, false, []), [a, b], [c], 3)
  {
    hide Run, Step, Queueing;
    var (a, b, c) := Requested(packets);
    var init := Init(policy);
    var before := Queueing(packets);
    var s0 := QueueingState(policy, packets);
    assert [a] + [b] + [c] == [a] + [b, c];
    var delay := if 2 * policy.min < policy.max then 2 * policy.min else policy.max;
    WakeDefers(policy, s0, policy.min, a, [b, c]);
    var s1 := Step(s0, Wake(true));
    Reconnects(policy, s1, policy.min);
    var s2 := Step(s1, HandshakeFailed);
    assert s2.mail.channel == [b] + [c];
    WakeDefers(policy, s2, delay, b, [c]);
    var s3 := Step(s2, Wake(true));
    Reconnects(policy, s3, delay);
    RunSnoc(init, before, Wake(true));
    RunSnoc(init, before + [Wake(true)], HandshakeFailed);
    RunSnoc(init, before + [Wake(true)] + [HandshakeFailed], Wake(true));
    RunSnoc(init, before + [Wake(true)] + [HandshakeFailed] + [Wake(true)], HandshakeOk([], 0));
    s := Step(s3, HandshakeOk([], 0));
  }

  lemma OutageLimited(packets: (seq<byte>, seq<byte>, seq<byte>))
    requires |packets.0| >= |packets.1| && |packets.0| >= |packets.2|
    ensures Limited(Outage(packets), |packets.0|)
  {
    hide Fits;
  }

  lemma RunNothing(s: State)
    ensures Run(s, []) == s
  {
  }

  lemma CutOff(policy: Reconnect, s: State)
    requires policy.Backoff? && At(policy, s, Draining, Link(0, false, []), [], [], 0)
    ensures var s1 := Step(Step(s, Drain(true)), LinkError);
      At(policy, s1, Waiting(policy.min), Link(0, true, []), [], [], 0) && s1.mail == s.mail
  {
    hide Run, CloseAll;
  }

  /** Both ends of a handshake, with nobody watching. */
  lemma Reconnects(policy: Reconnect, s: State, delay: nat)
    requires policy.Backoff?
    requires At(policy, s, Handshaking(delay), s.link, s.task.deferred, s.mail.channel, s.mail.nextTicket)
    ensures At(policy, Step(s, HandshakeFailed), Waiting(if 2 * delay < policy.max then 2 * delay else policy.max), s.link,
               s.task.deferred, s.mail.channel, s.mail.nextTicket)
    ensures At(policy, Step(s, HandshakeOk([], 0)), Draining, Link(s.link.epoch + 1, false, s.link.sends), s.task.deferred,
               s.mail.channel, s.mail.nextTicket)
  {
    hide Run;
  }

  /** The draining loop stopped at the first request, and what came of the others. */
  lemma Overtaken(policy: Reconnect, s: State, packets: (seq<byte>, seq<byte>, seq<byte>))
    requires |packets.0| >= U32_LIMIT > |packets.1| && U32_LIMIT > |packets.2|
    requires var (a, b, c) := Requested(packets); At(policy, s, Draining, Link(1, false, []), [a, b], [c], 3)
    ensures var (a, b, c) := Requested(packets);
      var s1 := Step(Step(Step(s, Drain(true)), Recv(true)), Drain(true));
      s1.link.sends == [] + [Sent(ByCommand(0), WireOf(a.command), 1, false)]
                       + [Sent(ByCommand(2), WireOf(c.command), 1, true)] + [Sent(ByCommand(1), WireOf(b.command), 1, true)]
  {
    hide Run, HandleCommand, FailPending;
    var (a, b, c) := Requested(packets);
    RequestGoesOut(policy, PopDeferred(s), a, true, Draining);
    FailPendingFrame(HandleCommand(PopDeferred(s), a, true).0);
    var s1 := Step(s, Drain(true));
    var l1 := Link(1, false, [] + [Sent(ByCommand(0), WireOf(a.command), 1, false)]);
    assert At(policy, s1, Selecting, l1, [b], [c], 3);
    RequestGoesOut(policy, PopChannel(s1), c, true, Selecting);
    var s2 := Step(s1, Recv(true));
    var l2 := Link(1, false, l1.sends + [Sent(ByCommand(2), WireOf(c.command), 1, true)]);
    assert At(policy, s2, Draining, l2, [b], [], 3);
    RequestGoesOut(policy, PopDeferred(s2), b, true, Draining);
  }

  /** A request the codec refuses breaks the order: its failure stops the draining
      loop on a live link, and a younger request overtakes what is left. */
  lemma OversizedPacketBreaksOrder(policy: Reconnect, packets: (seq<byte>, seq<byte>, seq<byte>))
    returns (schedule: seq<Choice>)
    requires policy.Backoff?
    requires |packets.0| >= U32_LIMIT > |packets.1| && U32_LIMIT > |packets.2|
    ensures Limited(schedule, |packets.0|)
    ensures Reached(Run(Init(policy), schedule).link.sends) == [2, 1]
  {
    hide Run, Step, Reached, Outage, WireOf;
    var (a, b, c) := Requested(packets);
    var init, before := Init(policy), Outage(packets);
    OutageLimited(packets);
    var s0 := OutageState(policy, packets);
    RunSnoc(init, before, Drain(true));
    RunSnoc(init, before + [Drain(true)], Recv(true));
    RunSnoc(init, before + [Drain(true)] + [Recv(true)], Drain(true));
    Overtaken(policy, s0, packets);
    var (m0, m1, m2) := (Sent(ByCommand(0), WireOf(a.command), 1, false),
                         Sent(ByCommand(2), WireOf(c.command), 1, true), Sent(ByCommand(1), WireOf(b.command), 1, true));
    ReachedNothing();
    ReachedAppend([], m0);
    ReachedAppend([] + [m0], m1);
    ReachedAppend([] + [m0] + [m1], m2);
    schedule := before + [Drain(true)] + [Recv(true)] + [Drain(true)];
  }

  lemma ReachedNothing()
    ensures Reached([]) == []
  {
  }

  /** Order in every run with packets of at most `n` bytes. */
  ghost predicate OrderHolds(policy: Reconnect, n: nat) {
    forall schedule | Limited(schedule, n) :: Increasing(Reached(Run(Init(policy), schedule).link.sends))
  }

  lemma {:induction false} LimitedGrows(schedule: seq<Choice>, n: nat, m: nat)
    requires Limited(schedule, n) && n <= m
    ensures Limited(schedule, m)
  {
    hide WireSize;
  }

  /** What `Client::eval` sends for an expression and no arguments. */
  function EvalPacket(sync: nat, expression: seq<byte>): seq<byte>
    requires sync < U64_LIMIT
  {
    Requests.PacketBytes(0x08, sync, Errors.None,
                         [Requests.Field(0x27, Rmp.WriteStr(expression)), Requests.Field(0x21, Rmp.WriteArrayLen(0))])
  }

  /** What `Client::ping` sends. */
  function PingPacket(sync: nat): seq<byte>
    requires sync < U64_LIMIT
  {
    Requests.PacketBytes(0x40, sync, Errors.None, [])
  }

  lemma PacketSizes(expression: seq<byte>)
    requires U16_LIMIT <= |expression| < U32_LIMIT
    ensures |EvalPacket(1, expression)| == 14 + |expression| && |PingPacket(2)| == 6 && |PingPacket(3)| == 6
  {
    var body := [Requests.Field(0x27, Rmp.WriteStr(expression)), Requests.Field(0x21, Rmp.WriteArrayLen(0))];
    HeaderSize(0x08, 1);
    HeaderSize(0x40, 2);
    HeaderSize(0x40, 3);
    assert body[1..] == [body[1]] && body[1..][1..] == [];
    assert |Requests.FieldBytes(body)| == 6 + |expression| + |Requests.FieldBytes(body[1..])|;
  }

  lemma HeaderSize(ty: nat, sync: nat)
    requires ty < 128 && sync < 128
    ensures |Requests.MapBytes(Requests.HeaderFields(ty, sync, Errors.None))| == 5
  {
    var fields := Requests.HeaderFields(ty, sync, Errors.None);
    assert |fields| == 2 && fields[1..] == [fields[1]] && fields[1..][1..] == [];
    assert |Requests.FieldBytes(fields)| == 2 + |Requests.FieldBytes(fields[1..])|;
  }

  /** Packets go out in the order their commands arrived, over all links and in every
      run, exactly when the task never reconnects or no caller submits a packet of more
      than `u32::MAX` bytes. The run that shows it evaluates one expression of almost
      4 GiB and pings twice. */
  lemma OrderHoldsExactly(policy: Reconnect, n: nat)
    ensures OrderHolds(policy, n) <==> policy.Never? || n < U32_LIMIT
  {
    hide Run, Reached, EvalPacket, PingPacket;
    if policy.Never? || n < U32_LIMIT {
      forall schedule | Limited(schedule, n) ensures Increasing(Reached(Run(Init(policy), schedule).link.sends)) {
        if n < U32_LIMIT {
          LimitedGrows(schedule, n, MAX_SENDABLE);
        }
        RunOrdered(policy, schedule);
      }
    } else {
      var expression: seq<byte> := seq(U32_LIMIT - 14, i => 32);
      PacketSizes(expression);
      var packets := (EvalPacket(1, expression), PingPacket(2), PingPacket(3));
      var schedule := OversizedPacketBreaksOrder(policy, packets);
      LimitedGrows(schedule, |packets.0|, n);
      var sent := Reached(Run(Init(policy), schedule).link.sends);
      assert sent[0] > sent[1];
    }
  }
}
