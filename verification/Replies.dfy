/** A reply settles only the request it answers, on the link that request went out on. */
module Replies {
  import opened Connection
  import opened Conservation
  import opened WriteOrder

  function IsCallAt(m: Sent, k: nat, epoch: nat): nat {
    if m.epoch == epoch && m.reached then IsCall(m, k) else 0
  }

  /** How often request `k` was written to link `epoch`: the link was up, and the codec
      took the packet. */
  function CallsAt(sends: seq<Sent>, k: nat, epoch: nat): (n: nat)
    ensures n <= CallsOf(sends, k)
  {
    if sends == [] then 0 else CallsAt(sends[..|sends| - 1], k, epoch) + IsCallAt(sends[|sends| - 1], k, epoch)
  }

  lemma CallsAtAppend(sends: seq<Sent>, m: Sent, k: nat, epoch: nat)
    ensures CallsAt(sends + [m], k, epoch) == CallsAt(sends, k, epoch) + IsCallAt(m, k, epoch)
  {
    assert (sends + [m])[..|sends|] == sends;
  }

  /** What a settlement says about the attempts made for `k`. */
  ghost predicate Justified(o: Outcome, sends: seq<Sent>, k: nat) {
    match o
    case Replied(response, epoch) => response.sync == k && CallsAt(sends, k, epoch) >= 1
    case Failed(ShuttingDown) => CallsOf(sends, k) == 0
    case Failed(Closed) => true
  }

  ghost predicate Answers(c: Callers, sends: seq<Sent>, k: nat) {
    forall o | o in Past(c.outcomes, k) :: Justified(o, sends, k)
  }

  /** A pending request was written to the current link. */
  ghost predicate Current(s: State, k: nat) {
    k in s.task.pending ==> CallsAt(s.link.sends, k, s.link.epoch) >= 1
  }

  ghost predicate Matched(s: State, k: nat) {
    Answers(s.callers, s.link.sends, k) && Current(s, k)
  }

  /** An attempt for another request, or for nobody, changes nothing for `k`. */
  lemma OtherSend(c: Callers, sends: seq<Sent>, m: Sent, k: nat)
    requires Answers(c, sends, k) && IsCall(m, k) == 0
    ensures Answers(c, sends + [m], k)
    ensures forall epoch :: CallsAt(sends + [m], k, epoch) == CallsAt(sends, k, epoch)
  {
    hide CallsAt, CallsOf;
    CallsAppend(sends, m, k);
    forall epoch ensures CallsAt(sends + [m], k, epoch) == CallsAt(sends, k, epoch) {
      CallsAtAppend(sends, m, k, epoch);
    }
  }

  lemma SettleAnswers(c: Callers, sends: seq<Sent>, sync: nat, o: Outcome, k: nat)
    requires Answers(c, sends, k) && (sync == k ==> Justified(o, sends, k))
    ensures Answers(Settle(c, sync, o), sends, k)
  {
    hide CallsAt, CallsOf;
  }

  lemma {:induction false} DropQueueAnswers(c: Callers, queue: seq<Ticketed>, sends: seq<Sent>, k: nat)
    requires Answers(c, sends, k)
    ensures Answers(DropQueue(c, queue), sends, k)
    decreases |queue|
  {
    hide CallsAt, CallsOf, Settle, Answers;
    if queue != [] {
      if queue[0].command.Request? {
        SettleAnswers(c, sends, queue[0].command.sync, Failed(Closed), k);
      }
      DropQueueAnswers(DropCommand(c, queue[0].command), queue[1..], sends, k);
    }
  }

  lemma FailPendingMatched(s: State, k: nat)
    requires Answers(s.callers, s.link.sends, k)
    ensures Matched(FailPending(s), k)
  {
    hide CallsAt, CallsOf;
  }

  lemma FinishMatched(s: State, k: nat)
    requires Answers(s.callers, s.link.sends, k)
    ensures Matched(Finish(s), k)
  {
    hide CallsAt, CallsOf, DropQueue, Answers;
    FailPendingMatched(s, k);
    var c := FailPending(s).callers;
    DropQueueAnswers(c, s.task.deferred, s.link.sends, k);
    DropQueueAnswers(DropQueue(c, s.task.deferred), s.mail.channel, s.link.sends, k);
  }

  lemma LostMatched(s: State, k: nat)
    requires Answers(s.callers, s.link.sends, k)
    ensures Matched(Lost(s), k)
  {
    hide CallsAt, CallsOf, FailPending, Finish, Answers;
    FailPendingMatched(s, k);
    FailPendingFrame(s);
    FinishMatched(DropLink(FailPending(s)), k);
  }

  /** A queued request has neither been attempted nor settled. */
  ghost predicate Untouched(s: State, k: nat) {
    CallsOf(s.link.sends, k) == 0 && Past(s.callers.outcomes, k) == []
  }

  lemma RequestMatched(s: State, t: Ticketed, io: bool, k: nat)
    requires t.command.Request? && Matched(s, k) && (t.command.sync == k ==> Untouched(s, k))
    ensures var (s1, ok) := HandleCommand(s, t, io); Answers(s1.callers, s1.link.sends, k) && (ok ==> Matched(s1, k))
  {
    hide CallsAt, CallsOf, Fits, Answers;
    var sync := t.command.sync;
    var m := Sent(ByCommand(t.ticket), WireOf(t.command), s.link.epoch, !s.link.dead && Fits(WireOf(t.command)));
    SettleAnswers(s.callers, s.link.sends, sync, Failed(ShuttingDown), k);
    if !s.task.shuttingDown {
      CallsAtAppend(s.link.sends, m, k, s.link.epoch);
      if sync != k {
        SettleAnswers(s.callers, s.link.sends, sync, Failed(Closed), k);
        OtherSend(s.callers, s.link.sends, m, k);
        OtherSend(Settle(s.callers, sync, Failed(Closed)), s.link.sends, m, k);
      } else {
        NothingSettled(s.callers, s.link.sends + [m], k);
      }
    }
  }

  lemma NothingSettled(c: Callers, sends: seq<Sent>, k: nat)
    requires Past(c.outcomes, k) == []
    ensures Answers(c, sends, k) && Answers(Settle(c, k, Failed(Closed)), sends, k)
  {
    hide CallsAt, CallsOf;
  }

  lemma HandleCommandMatched(s: State, t: Ticketed, io: bool, k: nat)
    requires !t.command.Close? && Matched(s, k) && (Is(t, k) == 1 ==> Untouched(s, k))
    ensures var (s1, ok) := HandleCommand(s, t, io); Answers(s1.callers, s1.link.sends, k) && (ok ==> Matched(s1, k))
  {
    if t.command.Request? {
      hide HandleCommand, Matched;
      RequestMatched(s, t, io, k);
    } else {
      hide CallsAt, CallsOf, Fits, Answers, Without;
      OtherSend(s.callers, s.link.sends,
                Sent(ByCommand(t.ticket), WireOf(t.command), s.link.epoch, !s.link.dead && Fits(WireOf(t.command))), k);
    }
  }

  lemma HandleResponseMatched(s: State, p: Packet, io: bool, k: nat)
    requires Matched(s, k)
    ensures Matched(HandleResponse(s, p, io), k)
  {
    hide CallsAt, CallsOf, Fits, Answers, Alive;
    match p
    case Reply(response) =>
      if response.sync in s.task.pending {
        SettleAnswers(s.callers, s.link.sends, response.sync, Replied(response, s.link.epoch), k);
      }
    case Chunk(sync, data) =>
      if sync in s.task.pending && s.task.pending[sync] {
        OutcomesDecide(s.callers, HandleResponse(s, p, io).callers, s.link.sends, k);
      }
    case Event(key, data) =>
      if key in s.task.watchers {
        OtherSend(s.callers, s.link.sends,
                  Sent(ByAck, WatchKey(key), s.link.epoch, !s.link.dead && Fits(WatchKey(key))), k);
        OutcomesDecide(s.callers, HandleResponse(s, p, io).callers,
                       s.link.sends + [Sent(ByAck, WatchKey(key), s.link.epoch, !s.link.dead && Fits(WatchKey(key)))], k);
      }
    case KeylessEvent =>
  }

  lemma OutcomesDecide(c: Callers, c': Callers, sends: seq<Sent>, k: nat)
    requires Answers(c, sends, k) && c'.outcomes == c.outcomes
    ensures Answers(c', sends, k)
  {
  }

  lemma {:induction false} ReplayMatched(c: Callers, l: Link, keys: seq<Key>, oks: nat, k: nat)
    requires Answers(c, l.sends, k)
    ensures Answers(c, Replay(l, keys, oks).sends, k)
    decreases keys
  {
    hide Answers, Fits, CallsAt, CallsOf;
    if keys != [] {
      var (l1, ok) := Send(l, ByReplay, WatchKey(keys[0]), oks > 0);
      OtherSend(c, l.sends, l1.sends[|l.sends|], k);
      if ok {
        ReplayMatched(c, l1, keys[1..], oks - 1, k);
      }
    }
  }

  lemma DeferMatched(s: State, t: Ticketed, k: nat)
    requires Matched(s, k)
    ensures Matched(Defer(s, t), k)
  {
    hide Answers, CallsAt;
    if t.command.Request? {
      SettleAnswers(s.callers, s.link.sends, t.command.sync, Failed(Closed), k);
    }
  }

  lemma QueuedIsUntouched(s: State, t: Ticketed, k: nat)
    requires Places(s, k) <= 1 && Tries(s, k) <= 1 && Is(t, k) == 1
    requires t in s.task.deferred || t in s.mail.channel
    ensures Untouched(s, k)
  {
    hide CallsOf;
    if t in s.task.deferred {
      CountedIfThere(s.task.deferred, t, k);
    } else {
      CountedIfThere(s.mail.channel, t, k);
    }
  }

  lemma {:induction false} CountedIfThere(queue: seq<Ticketed>, t: Ticketed, k: nat)
    requires t in queue && Is(t, k) == 1
    ensures CountIn(queue, k) >= 1
  {
    if queue[0] != t {
      CountedIfThere(queue[1..], t, k);
    }
  }

  lemma MatchedAlong(s: State, s': State, k: nat)
    requires Matched(s, k) && s'.link.sends == s.link.sends && s'.link.epoch == s.link.epoch
    requires s'.callers.outcomes == s.callers.outcomes && s'.task.pending == s.task.pending
    ensures Matched(s', k)
  {
  }

  lemma StepMatched(s: State, c: Choice, k: nat)
    requires Matched(s, k) && Sound(s) && Cut(s) && Places(s, k) <= 1 && Tries(s, k) <= 1
    ensures Matched(Step(s, c), k)
  {
    hide HandleCommand, HandleResponse, Finish, Lost, FailPending, Replay, Answers, Current, Places, Tries, Untouched;
    match c
    case Drain(io) =>
      if s.phase == Draining && s.task.deferred != [] {
        var t, s0 := s.task.deferred[0], PopDeferred(s);
        if Is(t, k) == 1 {
          QueuedIsUntouched(s, t, k);
          UntouchedAlong(s, s0, k);
        }
        MatchedAlong(s, s0, k);
        HandleCommandMatched(s0, t, io, k);
        var (s1, ok) := HandleCommand(s0, t, io);
        if !ok {
          FailPendingMatched(s1, k);
          MatchedAlong(FailPending(s1), FailPending(s1).(phase := Selecting), k);
        }
      } else {
        MatchedAlong(s, Step(s, c), k);
      }
    case Recv(io) =>
      if s.phase == Selecting {
        FinishMatched(s, k);
        if s.mail.channel != [] {
          var t, s0 := s.mail.channel[0], PopChannel(s);
          MatchedAlong(s, s0, k);
          FinishMatched(s0, k);
          if !t.command.Close? {
            if Is(t, k) == 1 {
              QueuedIsUntouched(s, t, k);
              UntouchedAlong(s, s0, k);
            }
            HandleCommandMatched(s0, t, io, k);
            var (s1, ok) := HandleCommand(s0, t, io);
            LostMatched(s1, k);
            if ok {
              MatchedAlong(s1, s1.(phase := Draining), k);
            }
          }
        }
      }
    case Arrive(response, io) =>
      var p := Classify(response);
      HandleResponseMatched(s, p, io, k);
      var s1 := HandleResponse(s, p, io);
      FinishMatched(s1, k);
      MatchedAlong(s1, s1.(phase := Draining), k);
    case LinkError => LostMatched(s, k);
    case Wake(took) => WakeMatched(s, took, k);
    case HandshakeOk(keys, oks) =>
      if s.phase.Handshaking? {
        ReconnectedMatched(s, keys, oks, k);
      }
    case _ => MatchedAlong(s, Step(s, c), k);
  }

  lemma UntouchedAlong(s: State, s': State, k: nat)
    requires Untouched(s, k) && s'.link == s.link && s'.callers == s.callers
    ensures Untouched(s', k)
  {
  }

  lemma WakeMatched(s: State, took: bool, k: nat)
    requires Matched(s, k)
    ensures Matched(Step(s, Wake(took)), k)
  {
    hide Finish, Answers, Current, Defer;
    if s.phase.Waiting? && took {
      FinishMatched(s, k);
      if s.mail.channel != [] {
        var t, s0 := s.mail.channel[0], PopChannel(s);
        MatchedAlong(s, s0, k);
        FinishMatched(s0, k);
        DeferMatched(s0, t, k);
        MatchedAlong(Defer(s0, t), Defer(s0, t).(phase := Handshaking(s.phase.delay)), k);
      }
    } else {
      MatchedAlong(s, Step(s, Wake(took)), k);
    }
  }

  lemma ReconnectedMatched(s: State, keys: seq<Key>, oks: nat, k: nat)
    requires Matched(s, k) && s.task.pending == map[]
    ensures Matched(Reconnected(s, keys, oks), k)
  {
    hide Replay, Answers;
    ReplayMatched(s.callers, s.link.(epoch := s.link.epoch + 1, dead := false), keys, oks, k);
  }

  lemma {:induction false} RunMatched(policy: Reconnect, schedule: seq<Choice>, k: nat)
    ensures Matched(Run(Init(policy), schedule), k)
    decreases |schedule|
  {
    hide Step;
    if schedule != [] {
      var before := schedule[..|schedule| - 1];
      var s := Run(Init(policy), before);
      RunMatched(policy, before, k);
      RunSound(policy, before);
      RunCut(policy, before);
      RunConserves(policy, before);
      RunAttemptsOnce(policy, before, k);
      assert Places(s, k) == Expected(s.mail, k);
      StepMatched(s, schedule[|schedule| - 1], k);
    }
  }

  /** `Justified`, and no attempt but that one. */
  ghost predicate Explained(o: Outcome, sends: seq<Sent>, k: nat) {
    match o
    case Replied(response, epoch) => response.sync == k && CallsAt(sends, k, epoch) == 1 == CallsOf(sends, k)
    case Failed(ShuttingDown) => CallsOf(sends, k) == 0
    case Failed(Closed) => true
  }

  /** After any schedule: a request that got a reply was attempted exactly once, written
      to the very link the reply came over, and the reply carries its sync; one refused
      for shutting down was never attempted; one in flight was written to the current
      link and attempted nowhere else. */
  lemma ReplyAnswersItsRequest(policy: Reconnect, schedule: seq<Choice>, k: nat, o: Outcome)
    requires o in Past(Run(Init(policy), schedule).callers.outcomes, k)
    ensures Explained(o, Run(Init(policy), schedule).link.sends, k)
  {
    RunMatched(policy, schedule, k);
    RunAttemptsOnce(policy, schedule, k);
  }

  lemma InFlightIsOnThisLink(policy: Reconnect, schedule: seq<Choice>, k: nat)
    ensures var s := Run(Init(policy), schedule);
      k in s.task.pending ==> CallsAt(s.link.sends, k, s.link.epoch) == 1 == CallsOf(s.link.sends, k)
  {
    RunMatched(policy, schedule, k);
    RunAttemptsOnce(policy, schedule, k);
  }

  // ---------------------------------------------------------------------
  // Shutdown
  // ---------------------------------------------------------------------

  /** Once the server announced its shutdown, a step attempts no request. */
  lemma StepAfterShutdown(s: State, c: Choice, k: nat)
    requires s.task.shuttingDown
    ensures Step(s, c).task.shuttingDown && CallsOf(Step(s, c).link.sends, k) == CallsOf(s.link.sends, k)
  {
    hide CallsOf, HandleCommand, HandleResponse, Finish, Lost, FailPending, SubmitCommand, Replay;
    match c
    case Drain(io) =>
      if s.task.deferred != [] && !s.task.deferred[0].command.Close? {
        AfterShutdown(PopDeferred(s), s.task.deferred[0], io, k);
        FailPendingFrame(HandleCommand(PopDeferred(s), s.task.deferred[0], io).0);
      }
    case Recv(io) =>
      EndsKeepLink(s);
      if s.mail.channel != [] {
        EndsKeepLink(PopChannel(s));
        if !s.mail.channel[0].command.Close? {
          AfterShutdown(PopChannel(s), s.mail.channel[0], io, k);
          EndsKeepLink(HandleCommand(PopChannel(s), s.mail.channel[0], io).0);
        }
      }
    case Arrive(response, io) =>
      var p := Classify(response);
      HandleResponseAcks(s, p, io);
      ShutdownStays(s, p, io);
      var s1 := HandleResponse(s, p, io);
      if s1.link != s.link {
        CallsAppend(s.link.sends, s1.link.sends[|s.link.sends|], k);
      }
      EndsKeepLink(s1);
    case LinkError => EndsKeepLink(s);
    case Wake(took) =>
      EndsKeepLink(s);
      if s.mail.channel != [] {
        EndsKeepLink(PopChannel(s));
      }
    case HandshakeOk(keys, oks) =>
      ReplayCallsNobody(s.link.(epoch := s.link.epoch + 1, dead := false), keys, oks, k);
    case _ =>
  }

  lemma EndsKeepLink(s: State)
    ensures Finish(s).link.sends == s.link.sends && Finish(s).task.shuttingDown == s.task.shuttingDown
    ensures Lost(s).link.sends == s.link.sends && Lost(s).task.shuttingDown == s.task.shuttingDown
  {
    hide DropQueue;
  }

  lemma ShutdownStays(s: State, p: Packet, io: bool)
    ensures s.task.shuttingDown ==> HandleResponse(s, p, io).task.shuttingDown
  {
    hide Fits, Alive;
  }

  lemma AfterShutdown(s: State, t: Ticketed, io: bool, k: nat)
    requires s.task.shuttingDown && !t.command.Close?
    ensures var s1 := HandleCommand(s, t, io).0;
      s1.task.shuttingDown && CallsOf(s1.link.sends, k) == CallsOf(s.link.sends, k)
  {
    hide CallsOf, Fits, Without;
    CallsAppend(s.link.sends, Sent(ByCommand(t.ticket), WireOf(t.command), s.link.epoch, !s.link.dead && Fits(WireOf(t.command))), k);
  }

  /** The announcement is final: whatever happens afterwards, reconnects included, no
      request goes out any more. */
  lemma {:induction false} NoRequestAfterShutdown(s: State, schedule: seq<Choice>, k: nat)
    requires s.task.shuttingDown
    ensures var s1 := Run(s, schedule);
      s1.task.shuttingDown && CallsOf(s1.link.sends, k) == CallsOf(s.link.sends, k)
    decreases |schedule|
  {
    hide Step, CallsOf;
    if schedule != [] {
      NoRequestAfterShutdown(s, schedule[..|schedule| - 1], k);
      StepAfterShutdown(Run(s, schedule[..|schedule| - 1]), schedule[|schedule| - 1], k);
    }
  }
}
