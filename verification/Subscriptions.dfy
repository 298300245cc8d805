/** What the server was told to watch is what the task watches. */
module Subscriptions {
  import opened Bytes
  import Errors
  import opened Connection
  import opened Conservation
  import opened WriteOrder
  import Requests
  import Responses
  import Rmp

  const WATCH := 74
  const UNWATCH := 75

  /** `WireSize` is the size of what `watch_packet` builds, and so says for any key
      whether the codec takes the packet. */
  lemma WatchPacketSize(ty: nat, key: Key)
    requires ty == WATCH || ty == UNWATCH
    ensures var wire := if ty == WATCH then WatchKey(key) else UnwatchKey(key);
      var size := |Requests.PacketBytes(ty, 0, Errors.None, [Requests.Field(0x57, Rmp.WriteStr(key))])|;
      (size < U32_LIMIT <==> Fits(wire)) && (|key| < U32_LIMIT ==> size == WireSize(wire))
  {
    HeaderSize(ty, 0);
    var body := [Requests.Field(0x57, Rmp.WriteStr(key))];
    assert body[1..] == [];
    assert |Requests.FieldBytes(body)| == 1 + |Rmp.WriteStr(key)|;
    hide Requests.HeaderFields, Requests.FieldBytes;
  }

  /** The keys with WATCH sent and not UNWATCHed since, on link `epoch`. */
  function Subscribed(sends: seq<Sent>, epoch: nat): set<Key> {
    if sends == [] then {}
    else After(Subscribed(sends[..|sends| - 1], epoch), sends[|sends| - 1], epoch)
  }

  function After(keys: set<Key>, m: Sent, epoch: nat): set<Key> {
    if m.epoch != epoch || !m.reached then keys
    else match m.wire
      case WatchKey(key) => keys + {key}
      case UnwatchKey(key) => keys - {key}
      case _ => keys
  }

  lemma SubscribedAppend(sends: seq<Sent>, m: Sent, epoch: nat)
    ensures Subscribed(sends + [m], epoch) == After(Subscribed(sends, epoch), m, epoch)
  {
    assert (sends + [m])[..|sends|] == sends;
  }

  /** On a live link the server watches exactly the task's keys. */
  ghost predicate Agrees(s: State) {
    !s.link.dead ==> Subscribed(s.link.sends, s.link.epoch) == s.task.watchers.Keys
  }

  ghost predicate NoLaterLink(l: Link) {
    forall m | m in l.sends :: m.epoch <= l.epoch
  }

  lemma {:induction false} NewLinkIsBlank(sends: seq<Sent>, epoch: nat)
    requires forall m | m in sends :: m.epoch < epoch
    ensures Subscribed(sends, epoch) == {}
  {
    if sends != [] {
      NewLinkIsBlank(sends[..|sends| - 1], epoch);
      assert sends[|sends| - 1] in sends;
    }
  }

  lemma {:induction false} ReplaySubscribes(l: Link, keys: seq<Key>, oks: nat)
    requires (forall key | key in keys :: Fits(WatchKey(key))) && !l.dead
    ensures var l1 := Replay(l, keys, oks);
      && l1.epoch == l.epoch
      && (!l1.dead ==> Subscribed(l1.sends, l.epoch) == Subscribed(l.sends, l.epoch) + set key | key in keys)
    decreases keys
  {
    hide Subscribed, WireSize;
    if keys != [] {
      var (l1, ok) := Send(l, ByReplay, WatchKey(keys[0]), oks > 0);
      assert Fits(WatchKey(keys[0]));
      SubscribedAppend(l.sends, l1.sends[|l.sends|], l.epoch);
      if ok {
        ReplaySubscribes(l1, keys[1..], oks - 1);
        assert (set key | key in keys) == {keys[0]} + set key | key in keys[1..];
      }
    }
  }

  lemma {:induction false} ReplayNoLaterLink(l: Link, keys: seq<Key>, oks: nat)
    requires NoLaterLink(l)
    ensures NoLaterLink(Replay(l, keys, oks))
    decreases keys
  {
    hide Fits;
    if keys != [] {
      var (l1, ok) := Send(l, ByReplay, WatchKey(keys[0]), oks > 0);
      if ok {
        ReplayNoLaterLink(l1, keys[1..], oks - 1);
      }
    }
  }

  // ---------------------------------------------------------------------
  // Which keys are ever watched
  // ---------------------------------------------------------------------

  /** The keys whose WATCH (and so UNWATCH) packets the codec takes. */
  ghost function Sendable(): iset<Key> {
    iset key: Key | Fits(WatchKey(key))
  }

  /** They are the keys that leave 12 bytes of a full packet to the rest of it. */
  lemma SendableExactly(key: Key)
    ensures key in Sendable() <==> |key| < U32_LIMIT - 12
  {
    assert key in Sendable() <==> Fits(WatchKey(key));
  }

  ghost predicate Keyed(queue: seq<Ticketed>, keys: iset<Key>) {
    forall t | t in queue :: t.command.Watch? ==> t.command.key in keys
  }

  /** Only `keys` are watched, or queued to be. */
  ghost predicate KeysAmong(s: State, keys: iset<Key>) {
    Keyed(s.mail.channel, keys) && Keyed(s.task.deferred, keys) && forall key | key in s.task.watchers :: key in keys
  }

  ghost predicate ChoiceKeyed(c: Choice, keys: iset<Key>) {
    c.Submit? && c.command.Watch? ==> c.command.key in keys
  }

  /** Handles subscribe to `keys` only; other packets are of any size. */
  ghost predicate Watches(schedule: seq<Choice>, keys: iset<Key>) {
    forall c | c in schedule :: ChoiceKeyed(c, keys)
  }

  lemma HandleCommandKeyed(s: State, t: Ticketed, io: bool, keys: iset<Key>)
    requires !t.command.Close? && KeysAmong(s, keys) && (t.command.Watch? ==> t.command.key in keys)
    ensures KeysAmong(HandleCommand(s, t, io).0, keys)
  {
    hide Without, Fits;
  }

  lemma HandleResponseKeyed(s: State, p: Packet, io: bool, keys: iset<Key>)
    requires KeysAmong(s, keys)
    ensures KeysAmong(HandleResponse(s, p, io), keys)
  {
    hide Alive, Fits;
  }

  lemma EndsKeyed(s: State, keys: iset<Key>)
    requires KeysAmong(s, keys)
    ensures KeysAmong(Finish(s), keys) && KeysAmong(Lost(s), keys)
  {
    hide DropQueue;
  }

  lemma StepKeyed(s: State, c: Choice, keys: iset<Key>)
    requires KeysAmong(s, keys) && ChoiceKeyed(c, keys) && Sound(s)
    ensures KeysAmong(Step(s, c), keys)
  {
    hide HandleCommand, HandleResponse, Finish, Lost, FailPending, Replay;
    match c
    case Drain(io) =>
      if s.task.deferred != [] {
        HandleCommandKeyed(PopDeferred(s), s.task.deferred[0], io, keys);
        FailPendingFrame(HandleCommand(PopDeferred(s), s.task.deferred[0], io).0);
      }
    case Recv(io) =>
      EndsKeyed(s, keys);
      if s.mail.channel != [] {
        EndsKeyed(PopChannel(s), keys);
        if !s.mail.channel[0].command.Close? {
          HandleCommandKeyed(PopChannel(s), s.mail.channel[0], io, keys);
          EndsKeyed(HandleCommand(PopChannel(s), s.mail.channel[0], io).0, keys);
        }
      }
    case Arrive(response, io) =>
      HandleResponseKeyed(s, Classify(response), io, keys);
      EndsKeyed(HandleResponse(s, Classify(response), io), keys);
    case LinkError => EndsKeyed(s, keys);
    case Wake(took) =>
      EndsKeyed(s, keys);
      if s.mail.channel != [] {
        EndsKeyed(PopChannel(s), keys);
      }
    case _ =>
  }

  lemma {:induction false} RunKeyed(policy: Reconnect, schedule: seq<Choice>, keys: iset<Key>)
    requires Watches(schedule, keys)
    ensures KeysAmong(Run(Init(policy), schedule), keys)
    decreases |schedule|
  {
    hide Step;
    if schedule != [] {
      RunKeyed(policy, schedule[..|schedule| - 1], keys);
      RunSound(policy, schedule[..|schedule| - 1]);
      StepKeyed(Run(Init(policy), schedule[..|schedule| - 1]), schedule[|schedule| - 1], keys);
    }
  }

  // ---------------------------------------------------------------------
  // Agreement
  // ---------------------------------------------------------------------

  /** The watched keys, and those still to be watched after a reconnect, are sendable. */
  ghost predicate Prepared(s: State) {
    Keyed(s.task.deferred, Sendable()) && forall key | key in s.task.watchers :: key in Sendable()
  }

  lemma WatchAgrees(s: State, t: Ticketed, io: bool)
    requires t.command.Watch? && Agrees(s)
    ensures var (s1, ok) := HandleCommand(s, t, io); ok || t.command.key in Sendable() ==> Agrees(s1)
  {
    hide Subscribed, Fits;
    SubscribedAppend(s.link.sends, Sent(ByCommand(t.ticket), WatchKey(t.command.key), s.link.epoch,
                                        !s.link.dead && Fits(WatchKey(t.command.key))), s.link.epoch);
  }

  lemma UnwatchAgrees(s: State, t: Ticketed, io: bool)
    requires t.command.Unwatch? && Agrees(s) && Prepared(s)
    ensures Agrees(HandleCommand(s, t, io).0)
  {
    assert Fits(WatchKey(t.command.key)) == Fits(UnwatchKey(t.command.key));
    hide Subscribed, Fits, Without, Keyed;
    SubscribedAppend(s.link.sends, Sent(ByCommand(t.ticket), UnwatchKey(t.command.key), s.link.epoch,
                                        !s.link.dead && Fits(UnwatchKey(t.command.key))), s.link.epoch);
  }

  lemma HandleCommandAgrees(s: State, t: Ticketed, io: bool)
    requires !t.command.Close? && Agrees(s) && Prepared(s)
    ensures var (s1, ok) := HandleCommand(s, t, io);
      ok || (t.command.Watch? ==> t.command.key in Sendable()) ==> Agrees(s1)
  {
    if t.command.Watch? {
      hide HandleCommand, Agrees, Sendable;
      WatchAgrees(s, t, io);
    } else if t.command.Unwatch? {
      hide HandleCommand, Agrees, Sendable;
      UnwatchAgrees(s, t, io);
    } else {
      hide Subscribed, Fits, Sendable, Keyed;
      SubscribedAppend(s.link.sends, Sent(ByCommand(t.ticket), WireOf(t.command), s.link.epoch,
                                          !s.link.dead && Fits(WireOf(t.command))), s.link.epoch);
    }
  }

  lemma HandleResponseAgrees(s: State, p: Packet, io: bool)
    requires Agrees(s) && Prepared(s)
    ensures Agrees(HandleResponse(s, p, io))
  {
    hide Subscribed, Fits, Alive;
    if p.Event? && p.key in s.task.watchers {
      SubscribedAppend(s.link.sends, Sent(ByAck, WatchKey(p.key), s.link.epoch, !s.link.dead && Fits(WatchKey(p.key))), s.link.epoch);
    }
  }

  lemma EndsAgree(s: State)
    ensures Agrees(Finish(s)) && Agrees(Lost(s))
  {
    hide DropQueue, Subscribed;
  }

  lemma AgreesAlong(s: State, s': State)
    requires Agrees(s) && s'.link == s.link && s'.task.watchers == s.task.watchers
    ensures Agrees(s')
  {
  }

  lemma StepAgrees(s: State, c: Choice)
    requires Agrees(s) && Prepared(s) && Sound(s) && NoLaterLink(s.link)
    ensures Agrees(Step(s, c))
  {
    hide HandleCommand, HandleResponse, Finish, Lost, FailPending, Replay, Agrees, SubmitCommand, Sendable, IsOrder;
    match c
    case Drain(io) =>
      if s.phase == Draining && s.task.deferred != [] {
        var s0 := PopDeferred(s);
        AgreesAlong(s, s0);
        HandleCommandAgrees(s0, s.task.deferred[0], io);
        var s1 := HandleCommand(s0, s.task.deferred[0], io).0;
        FailPendingFrame(s1);
        AgreesAlong(s1, FailPending(s1).(phase := Selecting));
      } else {
        AgreesAlong(s, Step(s, c));
      }
    case Recv(io) =>
      EndsAgree(s);
      if s.mail.channel != [] {
        var s0 := PopChannel(s);
        AgreesAlong(s, s0);
        EndsAgree(s0);
        if !s.mail.channel[0].command.Close? {
          HandleCommandAgrees(s0, s.mail.channel[0], io);
          var (s1, ok) := HandleCommand(s0, s.mail.channel[0], io);
          EndsAgree(s1);
          if ok {
            AgreesAlong(s1, s1.(phase := Draining));
          }
        }
      }
    case Arrive(response, io) =>
      var p := Classify(response);
      HandleResponseAgrees(s, p, io);
      var s1 := HandleResponse(s, p, io);
      EndsAgree(s1);
      AgreesAlong(s1, s1.(phase := Draining));
    case LinkError => EndsAgree(s);
    case Wake(took) =>
      EndsAgree(s);
      if s.mail.channel != [] {
        EndsAgree(PopChannel(s));
        if took && s.phase.Waiting? && !s.mail.channel[0].command.Close? {
          AgreesAlong(s, Step(s, c));
        }
      }
      if !took {
        AgreesAlong(s, Step(s, c));
      }
    case HandshakeOk(keys, oks) =>
      if s.phase.Handshaking? && IsOrder(keys, s.task.watchers.Keys) {
        ReconnectedAgrees(s, keys, oks);
      }
    case _ => AgreesAlong(s, Step(s, c));
  }

  /** The replay subscribes the new link to everything watched. */
  lemma ReconnectedAgrees(s: State, keys: seq<Key>, oks: nat)
    requires Prepared(s) && NoLaterLink(s.link) && IsOrder(keys, s.task.watchers.Keys)
    ensures Agrees(Reconnected(s, keys, oks))
  {
    hide Replay, Fits, Subscribed, Keyed;
    NewLinkIsBlank(s.link.sends, s.link.epoch + 1);
    ReplaySubscribes(s.link.(epoch := s.link.epoch + 1, dead := false), keys, oks);
    assert (set key | key in keys) == s.task.watchers.Keys;
  }

  lemma StepNoLaterLink(s: State, c: Choice)
    requires NoLaterLink(s.link) && Sound(s)
    ensures NoLaterLink(Step(s, c).link)
  {
    hide HandleCommand, HandleResponse, Finish, Lost, FailPending, Replay, SubmitCommand, Fits;
    match c
    case Drain(io) =>
      if s.task.deferred != [] {
        HandleCommandAttempts(PopDeferred(s), s.task.deferred[0], io);
        FailPendingFrame(HandleCommand(PopDeferred(s), s.task.deferred[0], io).0);
      }
    case Recv(io) =>
      EndsKeepEpoch(s);
      if s.mail.channel != [] {
        EndsKeepEpoch(PopChannel(s));
        if !s.mail.channel[0].command.Close? {
          HandleCommandAttempts(PopChannel(s), s.mail.channel[0], io);
          EndsKeepEpoch(HandleCommand(PopChannel(s), s.mail.channel[0], io).0);
        }
      }
    case Arrive(response, io) =>
      var p := Classify(response);
      HandleResponseAcks(s, p, io);
      EndsKeepEpoch(HandleResponse(s, p, io));
    case LinkError => EndsKeepEpoch(s);
    case Wake(took) =>
      EndsKeepEpoch(s);
      if s.mail.channel != [] {
        EndsKeepEpoch(PopChannel(s));
      }
    case HandshakeOk(keys, oks) =>
      ReplayNoLaterLink(s.link.(epoch := s.link.epoch + 1, dead := false), keys, oks);
    case _ =>
  }

  lemma EndsKeepEpoch(s: State)
    ensures Finish(s).link == s.link.(dead := true) && Lost(s).link == s.link.(dead := true)
  {
    hide DropQueue;
  }

  lemma {:induction false} RunNoLaterLink(policy: Reconnect, schedule: seq<Choice>)
    ensures NoLaterLink(Run(Init(policy), schedule).link)
    decreases |schedule|
  {
    hide Step;
    if schedule != [] {
      RunNoLaterLink(policy, schedule[..|schedule| - 1]);
      RunSound(policy, schedule[..|schedule| - 1]);
      StepNoLaterLink(Run(Init(policy), schedule[..|schedule| - 1]), schedule[|schedule| - 1]);
    }
  }

  lemma HandledIsPrepared(s: State, t: Ticketed, io: bool)
    requires !t.command.Close? && Prepared(s)
    ensures var (s1, ok) := HandleCommand(s, t, io); ok ==> Prepared(s1)
  {
    hide Fits, Without;
  }

  lemma EndsPrepared(s: State)
    requires s.policy.Never?
    ensures Prepared(Finish(s)) && Prepared(Lost(s))
  {
    hide DropQueue, CloseAll, Sendable;
  }

  /** Without reconnecting, a refused WATCH ends the task, so that no key but a
      sendable one is ever watched. */
  lemma StepPrepared(s: State, c: Choice)
    requires Prepared(s) && NeverDefers(s)
    ensures Prepared(Step(s, c))
  {
    hide HandleCommand, HandleResponse, Finish, Lost, SubmitCommand, Classify, Sendable;
    match c
    case Recv(io) =>
      EndsPrepared(s);
      if s.mail.channel != [] {
        var s0 := PopChannel(s);
        EndsPrepared(s0);
        if !s.mail.channel[0].command.Close? {
          HandledIsPrepared(s0, s.mail.channel[0], io);
          HandleCommandFrame(s0, s.mail.channel[0], io);
          EndsPrepared(HandleCommand(s0, s.mail.channel[0], io).0);
        }
      }
    case Arrive(response, io) =>
      ResponseKeepsKeys(s, Classify(response), io);
      HandleResponseFrame(s, Classify(response), io);
      EndsPrepared(HandleResponse(s, Classify(response), io));
    case LinkError => EndsPrepared(s);
    case _ =>
  }

  lemma ResponseKeepsKeys(s: State, p: Packet, io: bool)
    ensures HandleResponse(s, p, io).task.watchers.Keys == s.task.watchers.Keys
  {
    hide Alive, Fits;
  }

  lemma {:induction false} RunPrepared(policy: Reconnect, schedule: seq<Choice>)
    requires policy.Never? || Watches(schedule, Sendable())
    ensures Prepared(Run(Init(policy), schedule))
    decreases |schedule|
  {
    hide Step, Sendable;
    if !policy.Never? {
      RunKeyed(policy, schedule, Sendable());
    } else if schedule != [] {
      var before := schedule[..|schedule| - 1];
      RunPrepared(policy, before);
      RunNeverDefers(before);
      StepPrepared(Run(Init(policy), before), schedule[|schedule| - 1]);
    }
  }

  /** Subscription agreement: in every run that never reconnects or whose watched keys
      make sendable WATCH packets, whatever else is sent, a live link is subscribed to
      exactly the keys of `watchers`; reconnects and deferred commands included. */
  lemma {:induction false} RunAgrees(policy: Reconnect, schedule: seq<Choice>)
    requires policy.Never? || Watches(schedule, Sendable())
    ensures Agrees(Run(Init(policy), schedule))
    decreases |schedule|
  {
    hide Step, ChoiceKeyed, Sendable;
    if schedule != [] {
      var before := schedule[..|schedule| - 1];
      RunAgrees(policy, before);
      RunPrepared(policy, before);
      RunSound(policy, before);
      RunNoLaterLink(policy, before);
      StepAgrees(Run(Init(policy), before), schedule[|schedule| - 1]);
    }
  }

  // ---------------------------------------------------------------------
  // Exactly when subscriptions agree
  // ---------------------------------------------------------------------

  function Refused(key: Key): seq<Choice> {
    [TakeWatchId, Drain(true), Submit(Watch(1, key)), Recv(true), Wake(false), HandshakeOk([key], 1)]
  }

  /** A key whose WATCH packet the codec refuses stays among the watched keys, is
      refused again by the replay, and leaves the new link without it. */
  lemma OversizedKeyIsNeverSubscribed(policy: Reconnect, key: Key)
    requires policy.Backoff? && !Fits(WatchKey(key))
    ensures Watches(Refused(key), iset{key})
    ensures var s := Run(Init(policy), Refused(key));
      && s.task.watchers.Keys == {key} && !s.link.dead && Subscribed(s.link.sends, s.link.epoch) == {}
  {
    hide Run, Step, Fits, WireSize, Subscribed;
    var init, all := Init(policy), Refused(key);
    var s2 := Step(Step(Step(init, all[0]), all[1]), all[2]);
    WatchQueued(policy, key);
    RefusedOnFirstLink(s2, key);
    var s3 := Step(s2, all[3]);
    RefusedOnNextLink(s3, key);
    var m0, m1 := Sent(ByCommand(0), WatchKey(key), 0, false), Sent(ByReplay, WatchKey(key), 1, false);
    SubscribedNothing(1);
    SubscribedAppend([], m0, 1);
    SubscribedAppend([] + [m0], m1, 1);
    RunNothing(init);
    RunSnoc(init, [], all[0]);
    RunSnoc(init, [] + [all[0]], all[1]);
    RunSnoc(init, [] + [all[0]] + [all[1]], all[2]);
    RunSnoc(init, [] + [all[0]] + [all[1]] + [all[2]], all[3]);
    RunSnoc(init, [] + [all[0]] + [all[1]] + [all[2]] + [all[3]], all[4]);
    RunSnoc(init, [] + [all[0]] + [all[1]] + [all[2]] + [all[3]] + [all[4]], all[5]);
    assert all == [] + [all[0]] + [all[1]] + [all[2]] + [all[3]] + [all[4]] + [all[5]];
  }

  lemma WatchQueued(policy: Reconnect, key: Key)
    requires policy.Backoff?
    ensures var s := Step(Step(Step(Init(policy), TakeWatchId), Drain(true)), Submit(Watch(1, key)));
      && s.phase == Selecting && s.policy == policy && s.link == Link(0, false, []) && s.task.watchers == map[]
      && s.mail.channel == [Ticketed(0, Watch(1, key))]
  {
    hide HandleCommand, Finish, Lost, Replay;
  }

  lemma RefusedOnFirstLink(s: State, key: Key)
    requires !Fits(WatchKey(key)) && s.phase == Selecting && s.policy.Backoff?
    requires s.link == Link(0, false, []) && s.task.watchers == map[] && s.mail.channel == [Ticketed(0, Watch(1, key))]
    ensures var s1 := Step(s, Recv(true));
      && s1.phase == Waiting(s.policy.min) && s1.task.watchers == map[key := [1]]
      && s1.link == Link(0, true, [] + [Sent(ByCommand(0), WatchKey(key), 0, false)])
  {
    hide Fits, Finish, FailPending;
    var s0 := PopChannel(s);
    assert Past(s0.task.watchers, key) == [];
    var (s1, ok) := HandleCommand(s0, s.mail.channel[0], true);
    assert !ok && s1.task.watchers == s0.task.watchers[key := Past(s0.task.watchers, key) + [1]];
    assert Past(s0.task.watchers, key) + [1] == [1];
    assert s1.link.sends == [Sent(ByCommand(0), WatchKey(key), 0, false)];
    FailPendingFrame(s1);
    assert ReceiveCommand(s, true) == Lost(s1);
    assert [] + [Sent(ByCommand(0), WatchKey(key), 0, false)] == [Sent(ByCommand(0), WatchKey(key), 0, false)];
  }

  lemma RefusedOnNextLink(s: State, key: Key)
    requires !Fits(WatchKey(key)) && s.phase.Waiting? && s.task.watchers == map[key := [1]] && s.link.epoch == 0
    ensures var s1 := Step(Step(s, Wake(false)), HandshakeOk([key], 1));
      && s1.link == Link(1, false, s.link.sends + [Sent(ByReplay, WatchKey(key), 1, false)])
      && s1.task.watchers == s.task.watchers
  {
    hide Fits, Finish, HandleCommand;
    assert s.task.watchers.Keys == {key};
    var l := s.link.(epoch := 1, dead := false);
    assert !Send(l, ByReplay, WatchKey(key), true).1;
    assert Replay(l, [key], 1) == Send(l, ByReplay, WatchKey(key), true).0;
    var s0 := Step(s, Wake(false));
    assert s0 == s.(phase := Handshaking(s.phase.delay)) && IsOrder([key], s0.task.watchers.Keys);
    var s1 := Step(s0, HandshakeOk([key], 1));
    assert s1 == Reconnected(s0, [key], 1);
    assert s1.link == Replay(l, [key], 1);
    assert s1.link == Link(1, false, s.link.sends + [Sent(ByReplay, WatchKey(key), 1, false)]);
    assert s1.task.watchers == s.task.watchers;
  }

  lemma SubscribedNothing(epoch: nat)
    ensures Subscribed([], epoch) == {}
  {
  }

  /** Agreement in every run that watches only `keys`. */
  ghost predicate AgreementHolds(policy: Reconnect, keys: iset<Key>) {
    forall schedule | Watches(schedule, keys) :: Agrees(Run(Init(policy), schedule))
  }

  /** Agreement holds in all runs that watch only `keys`, exactly when the task never
      reconnects or the codec takes the WATCH packet of each of them. */
  lemma AgreementHoldsExactly(policy: Reconnect, keys: iset<Key>)
    ensures AgreementHolds(policy, keys) <==> policy.Never? || keys <= Sendable()
  {
    hide Run, Subscribed, Fits;
    if policy.Never? || keys <= Sendable() {
      forall schedule | Watches(schedule, keys) ensures Agrees(Run(Init(policy), schedule)) {
        RunAgrees(policy, schedule);
      }
    } else {
      var key :| key in keys && key !in Sendable();
      OversizedKeyIsNeverSubscribed(policy, key);
      assert Watches(Refused(key), keys);
      assert key in Run(Init(policy), Refused(key)).task.watchers.Keys;
    }
  }
}
