/** The connection task as a program: methods that update fields in place, proved to
    do what the state machine does. The environment's choices come in a schedule;
    `Run` is the task's nested loop over it. */
module ConnectionTask {
  import opened Bytes
  import E = Errors
  import R = Responses
  import M = Connection
  import opened Connection
  import opened Conservation
  import opened WriteOrder

  /** What one turn of `select!` decided. */
  datatype Outcome = Continue | Close | Lost | Over

  /** How `reconnect` ended: with a new link, without one, or by the schedule running out. */
  datatype Reconnection = Up | Down | Unfinished

  /** Choices that other tasks make: nothing the connection task does itself. */
  predicate Foreign(c: Choice) {
    c.TakeSync? || c.TakeWatchId? || c.Submit? || c.DropReceiver? || c.DropHandles?
  }

  lemma {:induction false} WithoutAppend(list: seq<nat>, x: nat, gone: nat)
    ensures Without(list + [x], gone) == Without(list, gone) + if x == gone then [] else [x]
    decreases |list|
  {
    if list == [] {
      assert [] + [x] == [x];
    } else {
      WithoutAppend(list[1..], x, gone);
      assert (list + [x])[1..] == list[1..] + [x] && (list + [x])[0] == list[0];
      var head, tail := if list[0] == gone then [] else [list[0]], if x == gone then [] else [x];
      assert head + (Without(list[1..], gone) + tail) == (head + Without(list[1..], gone)) + tail;
    }
  }

  lemma {:induction false} AliveAppend(list: seq<nat>, x: nat, receivers: set<nat>)
    ensures Alive(list + [x], receivers) == Alive(list, receivers) + if x in receivers then [x] else []
    decreases |list|
  {
    if list == [] {
      assert [] + [x] == [x];
    } else {
      AliveAppend(list[1..], x, receivers);
      assert (list + [x])[1..] == list[1..] + [x] && (list + [x])[0] == list[0];
      var head, tail := if list[0] in receivers then [list[0]] else [], if x in receivers then [x] else [];
      assert head + (Alive(list[1..], receivers) + tail) == (head + Alive(list[1..], receivers)) + tail;
    }
  }

  /** One more choice is one more step. */
  lemma RunNext(s: State, schedule: seq<Choice>, used: nat)
    requires used < |schedule|
    ensures M.Run(s, schedule[..used + 1]) == Step(M.Run(s, schedule[..used]), schedule[used])
  {
    assert schedule[..used + 1][..used] == schedule[..used];
  }

  lemma ForeignStep(s: State, c: Choice)
    requires Foreign(c)
    ensures var s1 := Step(s, c); s1.phase == s.phase && s1.task == s.task && s1.link == s.link
  {
  }

  /** A choice the task is not waiting for changes nothing. */
  predicate Idle(phase: Phase, c: Choice) {
    match c
    case Drain(_) => phase != Draining
    case Recv(_) | Arrive(_, _) | LinkError => phase != Selecting
    case Wake(_) => !phase.Waiting?
    case HandshakeFailed | HandshakeOk(_, _) => !phase.Handshaking?
    case _ => false
  }

  lemma IdleStep(s: State, c: Choice)
    requires Idle(s.phase, c)
    ensures Step(s, c) == s
  {
  }

  lemma DrainStep(s: State, io: bool)
    requires s.phase == Draining
    ensures Step(s, Drain(io)) == DrainOne(s, io)
  {
  }

  lemma SelectStep(s: State, c: Choice)
    requires s.phase == Selecting
    ensures c.Recv? ==> Step(s, c) == ReceiveCommand(s, c.io)
    ensures c.Arrive? ==> Step(s, c) == ReceivePacket(s, Classify(c.response), c.io)
    ensures c.LinkError? ==> Step(s, c) == M.Lost(s)
  {
  }

  lemma WakeStep(s: State, c: Choice)
    requires s.phase.Waiting? && c.Wake?
    ensures Step(s, c) == if c.took then TakeDeferred(s, s.phase.delay) else s.(phase := Handshaking(s.phase.delay))
  {
  }

  lemma HandshakeStep(s: State, c: Choice)
    requires s.phase.Handshaking? && s.policy.Backoff?
    ensures c.HandshakeFailed? ==>
      Step(s, c) == s.(phase := Waiting(if 2 * s.phase.delay < s.policy.max then 2 * s.phase.delay else s.policy.max))
    ensures c.HandshakeOk? ==>
      Step(s, c) == if IsOrder(c.keys, s.task.watchers.Keys) then Reconnected(s, c.keys, c.oks) else s
  {
    hide IsOrder, Replay;
  }

  lemma LostIs(s: State)
    ensures M.Lost(s) == (var s1 := DropLink(FailPending(s));
      if s.policy.Never? then Finish(s1) else s1.(phase := Waiting(s.policy.min)))
  {
    hide Finish;
    FailPendingFrame(s);
  }

  /** What is left to do for an outcome of `select!`. */
  function Resolved(s: State, outcome: Outcome): State {
    match outcome
    case Continue | Over => s
    case Close => Finish(s)
    case Lost => M.Lost(s)
  }

  lemma CloseNone(c: Callers)
    ensures CloseAll(c, {}) == c
  {
    assert CloseAll(c, {}).outcomes == c.outcomes;
  }

  lemma CloseOne(c: Callers, done: set<nat>, sync: nat)
    requires sync !in done
    ensures CloseAll(c, done + {sync}) == Settle(CloseAll(c, done), sync, Failed(Closed))
  {
    var all, one := CloseAll(c, done + {sync}).outcomes, Settle(CloseAll(c, done), sync, Failed(Closed)).outcomes;
    forall k | k in all ensures k in one && one[k] == all[k] {
    }
    assert all == one;
  }

  /** The highest schema version among responses, 0 if none carries one. */
  function Highest(responses: seq<R.Located>): nat {
    if responses == [] then 0
    else Higher(Highest(responses[..|responses| - 1]), responses[|responses| - 1].schemaVersion)
  }

  function Higher(n: nat, version: E.Option<nat>): nat {
    if version.Some? && version.value > n then version.value else n
  }

  /** It is one of them, and none is above it. */
  lemma {:induction false} HighestIsMaximum(responses: seq<R.Located>)
    ensures forall r | r in responses && r.schemaVersion.Some? :: r.schemaVersion.value <= Highest(responses)
    ensures Highest(responses) > 0 ==> exists r :: r in responses && r.schemaVersion == E.Some(Highest(responses))
  {
    if responses != [] {
      var front, last := responses[..|responses| - 1], responses[|responses| - 1];
      HighestIsMaximum(front);
      assert responses == front + [last];
      if Highest(responses) > 0 && Highest(responses) != Highest(front) {
        assert last in responses && last.schemaVersion == E.Some(Highest(responses));
      }
    }
  }

  class Task {
    const policy: M.Reconnect
    var pending: map<nat, bool>
    var watchers: map<Key, seq<nat>>
    var deferred: seq<Ticketed>
    var shuttingDown: bool
    var link: Link
    var mail: Mailbox
    var callers: Callers
    var schemaVersion: nat
    ghost var phase: Phase
    ghost var registered: map<nat, Key>
    ghost var log: seq<M.Event>
    ghost var handled: seq<R.Located>  // the responses handled so far

    ghost function View(): State
      reads this
    {
      State(policy, phase, M.Task(pending, watchers, deferred, shuttingDown), link, mail, callers, registered, log)
    }

    /** The counter shared with the handles is the highest schema version seen. */
    ghost predicate SchemaIsHighest()
      reads `schemaVersion, `handled
    {
      schemaVersion == Highest(handled)
    }

    constructor (policy: M.Reconnect)
      ensures View() == Init(policy) && SchemaIsHighest()
    {
      this.policy := policy;
      pending, watchers, deferred, shuttingDown := map[], map[], [], false;
      link, mail := Link(0, false, []), Mailbox([], 0, false, false, 1, {}, {}, 1, {});
      callers := Callers(map[], map[], map[], {});
      schemaVersion := 0;
      phase, registered, log, handled := Draining, map[], [], [];
    }

    // -------------------------------------------------------------------
    // Handles
    // -------------------------------------------------------------------

    method NextSync() returns (sync: nat)
      modifies `mail
      ensures mail == Draw(old(mail)) && sync == old(mail.nextSync)
    {
      sync := mail.nextSync;
      mail := mail.(nextSync := sync + 1, issued := mail.issued + {sync});
    }

    method NextWatchId() returns (id: nat)
      modifies `mail
      ensures mail == DrawWatch(old(mail)) && id == old(mail.nextWatchId)
    {
      id := mail.nextWatchId;
      mail := mail.(nextWatchId := id + 1, issuedWatches := mail.issuedWatches + {id});
    }

    /** A send on the channel: refused once closed, postponed (or dropped) while full. */
    method Push(command: Command) returns (taken: bool)
      modifies `mail
      ensures taken == !(old(mail).closed || Full(old(mail)))
      ensures mail == if taken then Enqueue(old(mail), command) else old(mail)
    {
      taken := !mail.closed && |mail.channel| < CHANNEL_CAPACITY;
      if taken {
        mail := mail.(channel := mail.channel + [Ticketed(mail.nextTicket, command)], nextTicket := mail.nextTicket + 1);
      }
    }

    /** `request_inner` and `request_with_pushes`, for a sync the caller drew. */
    method RequestInner(sync: nat, packet: seq<byte>, pushes: bool)
      requires sync in mail.issued && !mail.handlesGone
      modifies `mail
      ensures mail == SubmitCommand(old(mail), Request(sync, packet, pushes))
    {
      if mail.closed {
        mail := mail.(issued := mail.issued - {sync});
        return;
      }
      var taken := Push(Request(sync, packet, pushes));
      if taken {
        mail := mail.(issued := mail.issued - {sync}, submitted := mail.submitted + {sync});
      }
    }

    /** `watch`, for an id the caller drew: its receiver lives from now on. */
    method Watch(id: nat, key: Key)
      requires id in mail.issuedWatches && !mail.handlesGone
      modifies `mail, `callers
      ensures mail == SubmitCommand(old(mail), M.Watch(id, key))
      ensures callers == old(callers).(receivers := old(callers).receivers + {id})
    {
      callers := callers.(receivers := callers.receivers + {id});
      var taken := Push(M.Watch(id, key));
      if taken || mail.closed {
        mail := mail.(issuedWatches := mail.issuedWatches - {id});
      }
    }

    /** Anything another task does between two steps of this one. */
    method Interrupt(c: Choice)
      requires Foreign(c)
      modifies `mail, `callers
      ensures View() == Step(old(View()), c)
    {
      match c
      case TakeSync =>
        var _ := NextSync();
      case TakeWatchId =>
        var _ := NextWatchId();
      case Submit(command) =>
        if command.Request? && !mail.handlesGone && command.sync in mail.issued {
          RequestInner(command.sync, command.packet, command.pushes);
        } else if command.Watch? && !mail.handlesGone && command.id in mail.issuedWatches {
          Watch(command.id, command.key);
        } else {
          if !command.Request? && !command.Watch? && !mail.handlesGone {
            var _ := Push(command);
          }
          callers := callers.(receivers :=
            if command.Watch? && command.id in mail.issuedWatches then callers.receivers + {command.id} else callers.receivers);
        }
      case DropReceiver(id) => callers := callers.(receivers := callers.receivers - {id});
      case DropHandles => mail := mail.(handlesGone := true);
    }

    // -------------------------------------------------------------------
    // Commands
    // -------------------------------------------------------------------

    method Send(origin: Origin, wire: Wire, io: bool) returns (ok: bool)
      modifies `link
      ensures (link, ok) == M.Send(old(link), origin, wire, io)
    {
      var reached := !link.dead && Fits(wire);
      link := link.(sends := link.sends + [Sent(origin, wire, link.epoch, reached)]);
      if !io {
        link := link.(dead := true);
      }
      ok := reached && io;
    }

    /** `list.retain` over the ids of one key. */
    method Retain(list: seq<nat>, gone: nat) returns (kept: seq<nat>)
      ensures kept == Without(list, gone)
    {
      hide Without;
      kept := [];
      NothingKept(gone, callers.receivers);
      for i := 0 to |list|
        invariant kept == Without(list[..i], gone)
      {
        WithoutAppend(list[..i], list[i], gone);
        assert list[..i + 1] == list[..i] + [list[i]];
        if list[i] != gone {
          kept := kept + [list[i]];
        }
      }
      assert list[..|list|] == list;
    }

    static lemma NothingKept(gone: nat, receivers: set<nat>)
      ensures Without([], gone) == [] && Alive([], receivers) == []
    {
    }

    method HandleCommand(t: Ticketed, io: bool) returns (ok: bool)
      requires !t.command.Close?
      modifies `pending, `watchers, `link, `callers, `registered, `log
      ensures (View(), ok) == M.HandleCommand(old(View()), t, io)
    {
      hide Fits, Without;
      var origin := ByCommand(t.ticket);
      ok := true;
      match t.command
      case Request(sync, packet, pushes) =>
        if shuttingDown {
          callers := Settle(callers, sync, Failed(ShuttingDown));
          return;
        }
        if sync in pending {
          callers := Settle(callers, sync, Failed(Closed));
        }
        pending, log := pending[sync := pushes], log + [Accepted(sync, pushes)];
        ok := Send(origin, Call(sync, packet), io);
      case Fire(packet) =>
        ok := Send(origin, Plain(packet), io);
      case Watch(id, key) =>
        var first := key !in watchers;
        watchers := watchers[key := Past(watchers, key) + [id]];
        registered, log := registered[id := key], log + [Registered(id, key)];
        if first {
          ok := Send(origin, WatchKey(key), io);
        }
      case Unwatch(id, key) =>
        var gone := false;
        if key in watchers {
          var list := Retain(watchers[key], id);
          watchers := watchers[key := list];
          gone := |list| == 0;
        }
        if gone {
          watchers := watchers - {key};
          assert watchers == old(watchers) - {key};
          ok := Send(origin, UnwatchKey(key), io);
        }
    }

    // -------------------------------------------------------------------
    // Packets
    // -------------------------------------------------------------------

    /** An event's value goes to every live subscriber in turn; the others are dropped. */
    method FanOut(key: Key, data: seq<byte>)
      requires key in watchers
      modifies `watchers, `callers
      ensures View() == Publish(old(View()), key, data)
    {
      hide Alive;
      var list, kept, slots := watchers[key], [], callers.slots;
      NothingKept(0, callers.receivers);
      for i := 0 to |list|
        invariant View() == old(View()) && kept == Alive(list[..i], callers.receivers)
        invariant slots == callers.slots + map id | id in kept :: data
      {
        AliveAppend(list[..i], list[i], callers.receivers);
        assert list[..i + 1] == list[..i] + [list[i]];
        if list[i] in callers.receivers {
          slots := slots[list[i] := data];
          kept := kept + [list[i]];
        }
      }
      assert list[..|list|] == list;
      watchers := watchers[key := kept];
      callers := callers.(slots := slots);
      assert slots == Publish(old(View()), key, data).callers.slots;
    }

    method HandleResponse(response: R.Located, io: bool)
      modifies this
      ensures View() == M.HandleResponse(old(View()), Classify(response), io)
      ensures handled == old(handled) + [response] && schemaVersion == Higher(old(schemaVersion), response.schemaVersion)
      ensures old(SchemaIsHighest()) ==> SchemaIsHighest()
    {
      if response.schemaVersion.Some? && response.schemaVersion.value > schemaVersion {
        schemaVersion := response.schemaVersion.value;
      }
      handled := handled + [response];
      assert handled[..|handled| - 1] == old(handled);
      Route(Classify(response), io);
    }

    /** The three ways a packet goes, once its kind is known. */
    method Route(packet: Packet, io: bool)
      modifies `pending, `watchers, `shuttingDown, `link, `callers, `log
      ensures View() == M.HandleResponse(old(View()), packet, io)
    {
      hide Fits, Publish;
      log := log + [Handled(packet)];
      match packet
      case Reply(response) =>
        if response.sync in pending {
          pending := pending - {response.sync};
          callers := Settle(callers, response.sync, Replied(response, link.epoch));
        }
      case Chunk(sync, data) =>
        if sync in pending && pending[sync] {
          callers := callers.(chunks := callers.chunks[sync := Past(callers.chunks, sync) + [data]]);
        }
      case Event(key, data) =>
        if key == SHUTDOWN_KEY && |data| > 0 && data[0] == MP_TRUE {
          shuttingDown := true;
        }
        if key in watchers {
          FanOut(key, data);
          var _ := Send(ByAck, WatchKey(key), io);
        }
      case KeylessEvent =>
    }

    // -------------------------------------------------------------------
    // Failing
    // -------------------------------------------------------------------

    /** Drains `pending` in the map's own order. */
    method FailPending()
      modifies `pending, `callers, `log
      ensures View() == M.FailPending(old(View()))
    {
      hide CloseAll, Settle;
      var left := pending.Keys;
      ghost var done: set<nat> := {};
      CloseNone(callers);
      while left != {}
        invariant done !! left && done + left == pending.Keys
        invariant pending == old(pending) && log == old(log)
        invariant callers == CloseAll(old(callers), done)
      {
        var sync :| sync in left;
        CloseOne(old(callers), done, sync);
        callers := Settle(callers, sync, Failed(Closed));
        left, done := left - {sync}, done + {sync};
      }
      assert done == pending.Keys;
      pending, log := map[], log + [PendingFailed];
    }

    method FailLink()
      modifies `pending, `callers, `log
      ensures View() == M.FailPending(old(View()))
    {
      FailPending();
    }

    /** The reply senders of a dropped queue go with it. */
    method DropAll(queue: seq<Ticketed>)
      modifies `callers
      ensures callers == DropQueue(old(callers), queue)
    {
      var i := 0;
      while i < |queue|
        invariant 0 <= i <= |queue|
        invariant DropQueue(callers, queue[i..]) == DropQueue(old(callers), queue)
      {
        if queue[i].command.Request? {
          callers := Settle(callers, queue[i].command.sync, Failed(Closed));
        }
        assert queue[i..][1..] == queue[i + 1..];
        i := i + 1;
      }
    }

    /** The task's value goes away at the end of `run`, and its queues with it. */
    method Drop()
      modifies `watchers, `deferred, `link, `mail, `callers, `phase
      ensures View() == old(View()).(
        phase := Done,
        task := old(View()).task.(deferred := [], watchers := map[]),
        link := old(link).(dead := true),
        mail := old(mail).(closed := true, channel := []),
        callers := DropQueue(DropQueue(old(callers), old(deferred)), old(mail).channel))
    {
      hide DropQueue;
      DropAll(deferred);
      DropAll(mail.channel);
      deferred, watchers := [], map[];
      link, mail, phase := link.(dead := true), mail.(closed := true, channel := []), Done;
    }

    /** `run` ends on `Close`. */
    method Shut()
      modifies `pending, `watchers, `deferred, `link, `mail, `callers, `phase, `log
      ensures View() == Finish(old(View()))
    {
      hide DropQueue;
      FailPending();
      Drop();
    }

    /** `run` ends without a link: nothing is in flight any more. */
    method GiveUp()
      requires pending == map[]
      modifies `pending, `watchers, `deferred, `link, `mail, `callers, `phase, `log
      ensures View() == Finish(old(View()))
    {
      hide DropQueue, CloseAll;
      CloseNone(callers);
      assert pending.Keys == {};
      log := log + [PendingFailed];
      Drop();
    }

    method Defer(t: Ticketed)
      modifies `deferred, `callers
      ensures View() == M.Defer(old(View()), t)
    {
      if |deferred| >= MAX_DEFERRED {
        if t.command.Request? {
          callers := Settle(callers, t.command.sync, Failed(Closed));
        }
        return;
      }
      deferred := deferred + [t];
    }

    // -------------------------------------------------------------------
    // The loops
    // -------------------------------------------------------------------

    /** `while let Some(command) = deferred.pop_front()`, with other tasks in between. */
    method DrainDeferred(schedule: seq<Choice>, from: nat, ghost start: State) returns (used: nat)
      requires from <= |schedule| && View() == M.Run(start, schedule[..from])
      requires phase == Draining && NoClose(deferred)
      modifies `pending, `watchers, `deferred, `link, `mail, `callers, `phase, `registered, `log
      ensures from <= used <= |schedule| && View() == M.Run(start, schedule[..used])
      ensures NoClose(deferred) && (phase == Selecting || (phase == Draining && used == |schedule|))
    {
      hide M.Run, M.HandleCommand, M.FailPending, Step, SubmitCommand;
      used := from;
      while used < |schedule|
        invariant from <= used <= |schedule| && View() == M.Run(start, schedule[..used])
        invariant phase == Draining && NoClose(deferred)
      {
        ghost var s := View();
        var c := schedule[used];
        RunNext(start, schedule, used);
        used := used + 1;
        if Foreign(c) {
          Interrupt(c);
          ForeignStep(s, c);
        } else if c.Drain? {
          DrainStep(s, c.io);
          if |deferred| == 0 {
            phase := Selecting;
            return;
          }
          var t := deferred[0];
          assert t in deferred;
          deferred := deferred[1..];
          HandleCommandFrame(View(), t, c.io);
          var ok := HandleCommand(t, c.io);
          if !ok {
            FailPendingFrame(View());
            FailLink();
            phase := Selecting;
            return;
          }
        } else {
          IdleStep(s, c);
        }
      }
    }

    /** The command branch of `select!`; `Over` when there is nothing to take yet. */
    method TakeCommand(io: bool) returns (outcome: Outcome)
      requires phase == Selecting && NoClose(deferred)
      modifies `pending, `watchers, `link, `mail, `callers, `phase, `registered, `log
      ensures Resolved(View(), outcome) == ReceiveCommand(old(View()), io)
      ensures outcome == Over ==> View() == old(View())
      ensures outcome == Continue ==> phase == Draining
    {
      hide M.HandleCommand, Finish, M.Lost;
      if |mail.channel| == 0 {
        return if mail.handlesGone then Outcome.Close else Over;
      }
      var t := mail.channel[0];
      mail := mail.(channel := mail.channel[1..]);
      if t.command.Close? {
        return Outcome.Close;
      }
      HandleCommandFrame(View(), t, io);
      var ok := HandleCommand(t, io);
      if !ok {
        return Outcome.Lost;
      }
      phase := Draining;
      outcome := Continue;
    }

    /** The packet branch. */
    method TakePacket(response: R.Located, io: bool) returns (outcome: Outcome)
      requires phase == Selecting && NoClose(deferred)
      modifies this
      ensures deferred == old(deferred)
      ensures Resolved(View(), outcome) == ReceivePacket(old(View()), Classify(response), io)
      ensures outcome == Outcome.Close || (outcome == Continue && phase == Draining)
      ensures old(SchemaIsHighest()) ==> SchemaIsHighest()
    {
      hide M.HandleResponse, Finish, M.Lost;
      HandleResponseFrame(View(), Classify(response), io);
      HandleResponse(response, io);
      if shuttingDown && |pending| == 0 {
        return Outcome.Close;
      }
      phase := Draining;
      outcome := Continue;
    }

    /** `select!`, waiting for a command or a packet. */
    method Select(schedule: seq<Choice>, from: nat, ghost start: State) returns (used: nat, outcome: Outcome)
      requires from <= |schedule| && View() == M.Run(start, schedule[..from])
      requires phase == Selecting && NoClose(deferred)
      modifies this
      ensures from <= used <= |schedule| && NoClose(deferred)
      ensures outcome == Continue ==> phase == Draining && used > from
      ensures outcome == Over ==> used == |schedule|
      ensures M.Run(start, schedule[..used]) == Resolved(View(), outcome)
      ensures old(SchemaIsHighest()) ==> SchemaIsHighest()
    {
      hide M.Run, ReceiveCommand, ReceivePacket, Finish, M.Lost, Step, SubmitCommand, Classify, NoClose, SchemaIsHighest;
      used := from;
      while used < |schedule|
        invariant from <= used <= |schedule| && View() == M.Run(start, schedule[..used])
        invariant phase == Selecting && NoClose(deferred)
        invariant old(SchemaIsHighest()) ==> SchemaIsHighest()
      {
        ghost var s := View();
        var c := schedule[used];
        RunNext(start, schedule, used);
        used := used + 1;
        if Foreign(c) {
          Interrupt(c);
          ForeignStep(s, c);
        } else if c.Recv? {
          SelectStep(s, c);
          outcome := TakeCommand(c.io);
          if outcome != Over {
            return;
          }
        } else if c.Arrive? {
          SelectStep(s, c);
          outcome := TakePacket(c.response, c.io);
          return;
        } else if c.LinkError? {
          SelectStep(s, c);
          return used, Outcome.Lost;
        } else {
          IdleStep(s, c);
        }
      }
      outcome := Over;
    }

    /** WATCH for every key on the new link, until one fails. */
    method ReplayWatches(keys: seq<Key>, oks: nat)
      modifies `link
      ensures link == Replay(old(link), keys, oks)
    {
      hide Fits;
      var i := 0;
      while i < |keys|
        invariant 0 <= i <= |keys| && i <= oks
        invariant Replay(link, keys[i..], oks - i) == Replay(old(link), keys, oks)
      {
        assert keys[i..][0] == keys[i] && keys[i..][1..] == keys[i + 1..];
        var ok := Send(ByReplay, WatchKey(keys[i]), i < oks);
        if !ok {
          return;
        }
        i := i + 1;
      }
    }

    /** The `select!` over the delay and the channel: false when `run` must end. */
    method AwaitDelay(schedule: seq<Choice>, from: nat, delay: nat, ghost start: State)
      returns (used: nat, outcome: Reconnection)
      requires from <= |schedule| && View() == M.Run(start, schedule[..from])
      requires phase == Waiting(delay) && NoClose(deferred) && pending == map[]
      modifies `deferred, `link, `mail, `callers, `phase
      ensures from <= used <= |schedule| && NoClose(deferred) && pending == map[]
      ensures outcome == Up ==> phase == Handshaking(delay) && View() == M.Run(start, schedule[..used])
      ensures outcome == Down ==> Finish(View()) == M.Run(start, schedule[..used])
      ensures outcome == Unfinished ==> used == |schedule| && View() == M.Run(start, schedule[..used])
    {
      hide M.Run, Finish, Step, SubmitCommand, DropCommand;
      used := from;
      while used < |schedule|
        invariant from <= used <= |schedule| && View() == M.Run(start, schedule[..used])
        invariant phase == Waiting(delay) && NoClose(deferred) && pending == map[]
      {
        ghost var s := View();
        var c := schedule[used];
        RunNext(start, schedule, used);
        used := used + 1;
        if Foreign(c) {
          Interrupt(c);
          ForeignStep(s, c);
        } else if c.Wake? {
          WakeStep(s, c);
          if c.took {
            if |mail.channel| == 0 {
              if mail.handlesGone {
                return used, Down;
              }
              continue;
            }
            var t := mail.channel[0];
            mail := mail.(channel := mail.channel[1..]);
            if t.command.Close? {
              return used, Down;
            }
            Defer(t);
          }
          phase := Handshaking(delay);
          return used, Up;
        } else {
          IdleStep(s, c);
        }
      }
      outcome := Unfinished;
    }

    /** The handshake, which takes its time: up, or to be tried again. */
    method AwaitHandshake(schedule: seq<Choice>, from: nat, ghost delay: nat, ghost start: State)
      returns (used: nat, outcome: Reconnection)
      requires from <= |schedule| && View() == M.Run(start, schedule[..from])
      requires phase == Handshaking(delay) && NoClose(deferred) && pending == map[] && policy.Backoff?
      modifies `deferred, `link, `mail, `callers, `phase
      ensures from <= used <= |schedule| && NoClose(deferred) && pending == map[]
      ensures View() == M.Run(start, schedule[..used])
      ensures outcome == Up ==> phase == Draining && used > from
      ensures outcome == Down ==> phase == Waiting(if 2 * delay < policy.max then 2 * delay else policy.max) && used > from
      ensures outcome == Unfinished ==> used == |schedule|
    {
      hide M.Run, Step, SubmitCommand, Replay, IsOrder;
      used := from;
      while used < |schedule|
        invariant from <= used <= |schedule| && View() == M.Run(start, schedule[..used])
        invariant phase == Handshaking(delay) && NoClose(deferred) && pending == map[]
      {
        ghost var s := View();
        var c := schedule[used];
        RunNext(start, schedule, used);
        used := used + 1;
        if Foreign(c) {
          Interrupt(c);
          ForeignStep(s, c);
        } else if c.HandshakeFailed? {
          HandshakeStep(s, c);
          phase := Waiting(if 2 * delay < policy.max then 2 * delay else policy.max);
          return used, Down;
        } else if c.HandshakeOk? {
          HandshakeStep(s, c);
          if IsOrder(c.keys, watchers.Keys) {
            link := link.(epoch := link.epoch + 1, dead := false);
            ReplayWatches(c.keys, c.oks);
            phase := Draining;
            return used, Up;
          }
        } else {
          IdleStep(s, c);
        }
      }
      outcome := Unfinished;
    }

    /** Attempt after attempt, each behind a delay twice as long as the one before. */
    method Reconnect(schedule: seq<Choice>, from: nat, ghost start: State)
      returns (used: nat, outcome: Reconnection)
      requires from <= |schedule| && NoClose(deferred) && pending == map[]
      requires M.Run(start, schedule[..from]) == if policy.Never? then Finish(View()) else View().(phase := Waiting(policy.min))
      modifies `deferred, `link, `mail, `callers, `phase
      ensures from <= used <= |schedule| && NoClose(deferred) && pending == map[]
      ensures outcome == Up ==> phase == Draining && View() == M.Run(start, schedule[..used]) && used > from
      ensures outcome == Down ==> Finish(View()) == M.Run(start, schedule[..used])
      ensures outcome == Unfinished ==> used == |schedule| && View() == M.Run(start, schedule[..used])
    {
      hide M.Run, Finish;
      used := from;
      if policy.Never? {
        return used, Down;
      }
      var delay: nat := policy.min;
      phase := Waiting(delay);
      while true
        invariant from <= used <= |schedule| && View() == M.Run(start, schedule[..used])
        invariant phase == Waiting(delay) && NoClose(deferred) && pending == map[]
        decreases |schedule| - used
      {
        used, outcome := AwaitDelay(schedule, used, delay, start);
        if outcome != Up {
          return;
        }
        used, outcome := AwaitHandshake(schedule, used, delay, start);
        if outcome != Down {
          return;
        }
        delay := if 2 * delay < policy.max then 2 * delay else policy.max;
      }
    }

    /** A lost link is given up, and a new one sought. */
    method Recover(schedule: seq<Choice>, from: nat, ghost start: State) returns (used: nat, outcome: Reconnection)
      requires from <= |schedule| && NoClose(deferred) && M.Lost(View()) == M.Run(start, schedule[..from])
      modifies `pending, `deferred, `link, `mail, `callers, `phase, `log
      ensures from <= used <= |schedule| && NoClose(deferred) && pending == map[]
      ensures outcome == Up ==> phase == Draining && View() == M.Run(start, schedule[..used]) && used > from
      ensures outcome == Down ==> Finish(View()) == M.Run(start, schedule[..used])
      ensures outcome == Unfinished ==> used == |schedule| && View() == M.Run(start, schedule[..used])
    {
      hide M.Run, Finish, M.Lost, M.FailPending, NoClose;
      ghost var s := View();
      FailPendingFrame(s);
      FailLink();
      link := link.(dead := true);
      LostIs(s);
      used, outcome := Reconnect(schedule, from, start);
    }

    /** The task, for as long as the schedule lasts or until it returns: whatever the
        environment does, it is in the state the state machine is in. */
    method Run(schedule: seq<Choice>) returns (used: nat)
      requires phase == Draining && NoClose(deferred)
      modifies this
      ensures used <= |schedule| && View() == M.Run(old(View()), schedule[..used])
      ensures used == |schedule| || phase == Done
      ensures old(SchemaIsHighest()) ==> SchemaIsHighest()
    {
      hide M.Run, Finish, M.Lost, M.FailPending, NoClose, SchemaIsHighest;
      used := 0;
      ghost var start := View();
      RunNothing(start);
      assert schedule[..0] == [];
      while true
        invariant used <= |schedule| && View() == M.Run(start, schedule[..used])
        invariant old(SchemaIsHighest()) ==> SchemaIsHighest()
        invariant phase == Draining && NoClose(deferred)
        decreases |schedule| - used
      {
        used := DrainDeferred(schedule, used, start);
        if used == |schedule| {
          return;
        }
        var outcome;
        used, outcome := Select(schedule, used, start);
        match outcome
        case Continue =>
        case Over => return;
        case Close =>
          FinishIsDone(View());
          Shut();
          return;
        case Lost =>
          var up;
          used, up := Recover(schedule, used, start);
          if up == Down {
            FinishIsDone(View());
            GiveUp();
            return;
          }
          if up == Unfinished {
            return;
          }
      }
    }
  }

  /** A task started afresh and left to any environment: every request it was ever
      given is in exactly one place, and once it returns, all of them are settled. */
  method Serve(policy: M.Reconnect, schedule: seq<Choice>) returns (task: Task, used: nat)
    ensures used <= |schedule| && task.View() == M.Run(Init(policy), schedule[..used])
    ensures Conserved(task.View()) && task.SchemaIsHighest()
    ensures used < |schedule| ==> forall k | k in task.mail.submitted :: |Past(task.callers.outcomes, k)| == 1
  {
    hide M.Run;
    task := new Task(policy);
    used := task.Run(schedule);
    RunConserves(policy, schedule[..used]);
    if used < |schedule| {
      forall k | k in task.mail.submitted ensures |Past(task.callers.outcomes, k)| == 1 {
        ReturnedTaskSettledAll(policy, schedule[..used], k);
      }
    }
  }
}
