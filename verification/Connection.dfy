/** The connection task as a state machine.

    One `State` holds the task's own fields, the link, the command channel, what
    callers can observe, and the history the theorems speak about. `Step` is total:
    a `Choice` names what the environment does next (which `select!` branch is
    ready, whether a send goes through, what packet arrives), and a choice that
    cannot happen in a state leaves it unchanged. */
module Connection {
  import opened Bytes
  import R = Responses

  const CHANNEL_CAPACITY := 1024
  const MAX_DEFERRED := 4096
  const SHUTDOWN_KEY: seq<byte> := [98, 111, 120, 46, 115, 104, 117, 116, 100, 111, 119, 110]  // "box.shutdown"
  const MP_TRUE: byte := 0xc3

  type Key = seq<byte>

  datatype Command =
    | Request(sync: nat, packet: seq<byte>, pushes: bool)
    | Watch(id: nat, key: Key)
    | Unwatch(id: nat, key: Key)
    | Fire(packet: seq<byte>)
    | Close

  /** A command in a queue, numbered by arrival. */
  datatype Ticketed = Ticketed(ticket: nat, command: Command)

  /** A packet on its way out. */
  datatype Wire = Call(sync: nat, packet: seq<byte>) | Plain(packet: seq<byte>) | WatchKey(key: Key) | UnwatchKey(key: Key)

  /** Why a packet was sent: for a command, to replay a subscription, to acknowledge an event. */
  datatype Origin = ByCommand(ticket: nat) | ByReplay | ByAck

  /** One attempt to send. `reached` says that its bytes may have gone out: the link
      was up, and the codec took the packet. */
  datatype Sent = Sent(origin: Origin, wire: Wire, epoch: nat, reached: bool)

  /** What a parsed packet means to the task. */
  datatype Packet =
    | Reply(response: R.Response)
    | Chunk(sync: nat, data: seq<byte>)
    | Event(key: Key, data: seq<byte>)
    | KeylessEvent

  function Classify(r: R.Located): Packet {
    match r.kind
    case Success | Failure => Reply(r)
    case Chunk => Chunk(r.sync, r.DataBytes())
    case Event => (match r.EventOf() case Some((key, data)) => Event(key, data) case None => KeylessEvent)
  }

  datatype Refusal = Closed | ShuttingDown
  datatype Outcome = Replied(response: R.Response, epoch: nat) | Failed(refusal: Refusal)

  /** What the task went through, in order. */
  datatype Event =
    | Accepted(sync: nat, pushes: bool)  // a request became pending
    | Registered(id: nat, key: Key)      // a subscriber was added
    | Handled(packet: Packet)
    | PendingFailed                      // everything in flight was settled with `Closed`

  datatype Reconnect = Never | Backoff(min: nat, max: nat)

  datatype Phase =
    | Draining             // top of `run`'s loop, emptying `deferred`
    | Selecting            // at `select!`
    | Waiting(delay: nat)  // in `reconnect`, before an attempt
    | Handshaking(delay: nat)
    | Done
    | Panicked             // `unreachable!` was reached

  datatype Task = Task(
    pending: map<nat, bool>,       // sync -> does the caller stream pushes
    watchers: map<Key, seq<nat>>,  // key -> subscriber ids
    deferred: seq<Ticketed>,
    shuttingDown: bool)

  /** The current link and, as history, every attempt to send on any link. `dead`
      links stay dead: once a send failed, nothing more gets through. */
  datatype Link = Link(epoch: nat, dead: bool, sends: seq<Sent>)

  /** What the handles share with the task. */
  datatype Mailbox = Mailbox(
    channel: seq<Ticketed>,
    nextTicket: nat,
    closed: bool,
    handlesGone: bool,
    nextSync: nat,
    issued: set<nat>,     // syncs handed out and not used yet
    submitted: set<nat>,  // syncs of requests that entered the channel
    nextWatchId: nat,
    issuedWatches: set<nat>)  // subscriber ids handed out and not used yet

  /** What callers observe. */
  datatype Callers = Callers(
    outcomes: map<nat, seq<Outcome>>,   // sync -> settlements of its reply sender
    chunks: map<nat, seq<seq<byte>>>,   // sync -> what its push channel received
    slots: map<nat, seq<byte>>,         // subscriber -> the value in its watch channel
    receivers: set<nat>)                // subscribers whose receiver is alive

  datatype State = State(
    policy: Reconnect,
    phase: Phase,
    task: Task,
    link: Link,
    mail: Mailbox,
    callers: Callers,
    registered: map<nat, Key>,  // subscribers ever added
    log: seq<Event>)

  function Init(policy: Reconnect): State {
    State(policy, Draining, Task(map[], map[], [], false), Link(0, false, []),
          Mailbox([], 0, false, false, 1, {}, {}, 1, {}), Callers(map[], map[], map[], {}), map[], [])
  }

  // ---------------------------------------------------------------------
  // Small operations
  // ---------------------------------------------------------------------

  function Past<K, V>(m: map<K, seq<V>>, k: K): seq<V> {
    if k in m then m[k] else []
  }

  /** The reply sender of `sync` is used, or dropped. */
  function Settle(c: Callers, sync: nat, o: Outcome): Callers {
    c.(outcomes := c.outcomes[sync := Past(c.outcomes, sync) + [o]])
  }

  /** The codec's limit: a packet length must fit in 32 bits. */
  predicate Fits(wire: Wire) {
    WireSize(wire) < U32_LIMIT
  }

  /** Bytes of the packet; a subscription packet is a 5-byte header map, a body map
      length, a key and the string. */
  function WireSize(wire: Wire): nat {
    match wire
    case Call(_, packet) => |packet|
    case Plain(packet) => |packet|
    case WatchKey(key) => 7 + StrSize(|key|)
    case UnwatchKey(key) => 7 + StrSize(|key|)
  }

  function StrSize(n: nat): nat {
    n + if n < 32 then 1 else if n < U8_LIMIT then 2 else if n < U16_LIMIT then 3 else 5
  }

  /** `send`: fails on a dead link, kills the link on an I/O error (`io` is false), and
      fails without touching the link when the codec refuses the packet. */
  function Send(l: Link, origin: Origin, wire: Wire, io: bool): (Link, bool) {
    var reached := !l.dead && Fits(wire);
    (l.(sends := l.sends + [Sent(origin, wire, l.epoch, reached)], dead := l.dead || !io), reached && io)
  }

  /** `list.retain(|id| id != gone)`. */
  function Without(list: seq<nat>, gone: nat): (r: seq<nat>)
    ensures forall id :: id in r <==> id in list && id != gone
  {
    if list == [] then []
    else (if list[0] == gone then [] else [list[0]]) + Without(list[1..], gone)
  }

  /** `list.retain(|id| the receiver of id is alive)`. */
  function Alive(list: seq<nat>, receivers: set<nat>): (r: seq<nat>)
    ensures forall id :: id in r <==> id in list && id in receivers
  {
    if list == [] then []
    else (if list[0] in receivers then [list[0]] else []) + Alive(list[1..], receivers)
  }

  // ---------------------------------------------------------------------
  // Commands and packets
  // ---------------------------------------------------------------------

  /** `pending.insert`: a reply sender already filed under the sync is dropped. */
  function Accept(s: State, sync: nat, pushes: bool): State {
    s.(task := s.task.(pending := s.task.pending[sync := pushes]),
       callers := if sync in s.task.pending then Settle(s.callers, sync, Failed(Closed)) else s.callers,
       log := s.log + [Accepted(sync, pushes)])
  }

  function Subscribe(s: State, id: nat, key: Key): State {
    s.(task := s.task.(watchers := s.task.watchers[key := Past(s.task.watchers, key) + [id]]),
       registered := s.registered[id := key],
       log := s.log + [Registered(id, key)])
  }

  function Watchers(s: State, watchers: map<Key, seq<nat>>): State {
    s.(task := s.task.(watchers := watchers))
  }

  /** The packet a command sends, if it sends any. */
  function WireOf(c: Command): Wire
    requires !c.Close?
  {
    match c
    case Request(sync, packet, _) => Call(sync, packet)
    case Fire(packet) => Plain(packet)
    case Watch(_, key) => WatchKey(key)
    case Unwatch(_, key) => UnwatchKey(key)
  }

  function SendOn(s: State, origin: Origin, wire: Wire, io: bool): (State, bool) {
    var (link, ok) := Send(s.link, origin, wire, io);
    (s.(link := link), ok)
  }

  function HandleCommand(s: State, t: Ticketed, io: bool): (State, bool)
    requires !t.command.Close?
  {
    var origin := ByCommand(t.ticket);
    match t.command
    case Request(sync, packet, pushes) =>
      if s.task.shuttingDown then (s.(callers := Settle(s.callers, sync, Failed(ShuttingDown))), true)
      else SendOn(Accept(s, sync, pushes), origin, Call(sync, packet), io)
    case Fire(packet) => SendOn(s, origin, Plain(packet), io)
    case Watch(id, key) =>
      if key in s.task.watchers then (Subscribe(s, id, key), true)
      else SendOn(Subscribe(s, id, key), origin, WatchKey(key), io)
    case Unwatch(id, key) =>
      if key !in s.task.watchers then (s, true)
      else
        var list := Without(s.task.watchers[key], id);
        if list == [] then SendOn(Watchers(s, s.task.watchers - {key}), origin, UnwatchKey(key), io)
        else (Watchers(s, s.task.watchers[key := list]), true)
  }

  predicate IsShutdown(key: Key, data: seq<byte>) {
    key == SHUTDOWN_KEY && |data| > 0 && data[0] == MP_TRUE
  }

  /** An event reaches the live subscribers of its key, and drops the others. */
  function Publish(s: State, key: Key, data: seq<byte>): State
    requires key in s.task.watchers
  {
    var live := Alive(s.task.watchers[key], s.callers.receivers);
    s.(task := s.task.(watchers := s.task.watchers[key := live]),
       callers := s.callers.(slots := s.callers.slots + map id | id in live :: data))
  }

  function HandleResponse(s: State, p: Packet, io: bool): State {
    var s1 := s.(log := s.log + [Handled(p)]);
    match p
    case Reply(response) =>
      if response.sync !in s.task.pending then s1
      else s1.(task := s.task.(pending := s.task.pending - {response.sync}),
               callers := Settle(s.callers, response.sync, Replied(response, s.link.epoch)))
    case Chunk(sync, data) =>
      if sync in s.task.pending && s.task.pending[sync]
      then s1.(callers := s.callers.(chunks := s.callers.chunks[sync := Past(s.callers.chunks, sync) + [data]]))
      else s1
    case Event(key, data) =>
      var s2 := s1.(task := s.task.(shuttingDown := s.task.shuttingDown || IsShutdown(key, data)));
      if key !in s.task.watchers then s2 else SendOn(Publish(s2, key, data), ByAck, WatchKey(key), io).0
    case KeylessEvent => s1
  }

  /** Every pending request is settled with `Closed`. */
  function FailPending(s: State): State {
    s.(task := s.task.(pending := map[]), callers := CloseAll(s.callers, s.task.pending.Keys), log := s.log + [PendingFailed])
  }

  function CloseAll(c: Callers, syncs: set<nat>): Callers {
    c.(outcomes := c.outcomes + map sync | sync in syncs :: Past(c.outcomes, sync) + [Failed(Closed)])
  }

  /** Every request in a dropped queue is settled with `Closed`. */
  function DropQueue(c: Callers, queue: seq<Ticketed>): Callers
    decreases |queue|
  {
    if queue == [] then c else DropQueue(DropCommand(c, queue[0].command), queue[1..])
  }

  function DropCommand(c: Callers, command: Command): Callers {
    if command.Request? then Settle(c, command.sync, Failed(Closed)) else c
  }

  /** `run` returns: in-flight requests fail, the link closes, the queues are dropped. */
  function Finish(s: State): State {
    var s1 := FailPending(s);
    s1.(phase := Done,
        task := s1.task.(deferred := [], watchers := map[]),
        link := s1.link.(dead := true),
        mail := s1.mail.(closed := true, channel := []),
        callers := DropQueue(DropQueue(s1.callers, s.task.deferred), s.mail.channel))
  }

  function DropLink(s: State): State {
    s.(link := s.link.(dead := true))
  }

  /** The link is given up: in-flight requests fail, and reconnecting starts (or the task ends). */
  function Lost(s: State): State {
    var s1 := DropLink(FailPending(s));
    match s.policy
    case Never => Finish(s1)
    case Backoff(min, _) => s1.(phase := Waiting(min))
  }

  function Defer(s: State, t: Ticketed): State {
    if |s.task.deferred| < MAX_DEFERRED then s.(task := s.task.(deferred := s.task.deferred + [t]))
    else s.(callers := DropCommand(s.callers, t.command))
  }

  /** WATCH for each key in turn, the first `oks` of them without I/O error; stops at a failure. */
  function Replay(l: Link, keys: seq<Key>, oks: nat): Link
    decreases keys
  {
    if keys == [] then l
    else
      var (l1, ok) := Send(l, ByReplay, WatchKey(keys[0]), oks > 0);
      if ok then Replay(l1, keys[1..], oks - 1) else l1
  }

  // ---------------------------------------------------------------------
  // Steps
  // ---------------------------------------------------------------------

  datatype Choice =
    | TakeSync                          // a handle draws a sync
    | TakeWatchId                       // a handle draws a subscriber id
    | Submit(command: Command)          // a handle sends a command
    | DropReceiver(id: nat)             // a subscriber goes away
    | DropHandles                       // the last handle goes away
    | Drain(io: bool)                   // one turn of the loop over `deferred`
    | Recv(io: bool)                    // `select!` takes the command branch
    | Arrive(response: R.Located, io: bool)  // `select!` takes the packet branch
    | LinkError                         // the packet branch yields an error or the end
    | Wake(took: bool)                  // in `reconnect`: a command came, or the delay is over
    | HandshakeFailed
    | HandshakeOk(keys: seq<Key>, oks: nat)  // replay order, and how many replays get through

  function Enqueue(m: Mailbox, c: Command): Mailbox {
    m.(channel := m.channel + [Ticketed(m.nextTicket, c)], nextTicket := m.nextTicket + 1)
  }

  predicate Full(m: Mailbox) {
    |m.channel| >= CHANNEL_CAPACITY
  }

  function Draw(m: Mailbox): Mailbox {
    m.(nextSync := m.nextSync + 1, issued := m.issued + {m.nextSync})
  }

  function DrawWatch(m: Mailbox): Mailbox {
    m.(nextWatchId := m.nextWatchId + 1, issuedWatches := m.issuedWatches + {m.nextWatchId})
  }

  /** A handle sends a command. A full channel makes `send` wait and `try_send` drop. */
  function SubmitCommand(m: Mailbox, c: Command): Mailbox {
    if m.handlesGone then m
    else match c
      case Request(sync, _, _) =>
        if sync !in m.issued then m
        else if m.closed then m.(issued := m.issued - {sync})  // the caller gets `Closed`
        else if Full(m) then m
        else Enqueue(m, c).(issued := m.issued - {sync}, submitted := m.submitted + {sync})
      case Watch(id, _) =>
        if id !in m.issuedWatches then m
        else if m.closed then m.(issuedWatches := m.issuedWatches - {id})
        else if Full(m) then m
        else Enqueue(m, c).(issuedWatches := m.issuedWatches - {id})
      case _ => if m.closed || Full(m) then m else Enqueue(m, c)
  }

  /** The receivers alive after a submission: a new watcher's is. */
  function Receivers(s: State, c: Command): set<nat> {
    if c.Watch? && c.id in s.mail.issuedWatches then s.callers.receivers + {c.id} else s.callers.receivers
  }

  /** The head of the channel is taken off. */
  function PopChannel(s: State): State
    requires s.mail.channel != []
  {
    s.(mail := s.mail.(channel := s.mail.channel[1..]))
  }

  function PopDeferred(s: State): State
    requires s.task.deferred != []
  {
    s.(task := s.task.(deferred := s.task.deferred[1..]))
  }

  /** A command taken off the channel in `reconnect`. */
  function TakeDeferred(s: State, delay: nat): State {
    if s.mail.channel == [] then if s.mail.handlesGone then Finish(s) else s
    else
      var t := s.mail.channel[0];
      if t.command.Close? then Finish(PopChannel(s))
      else Defer(PopChannel(s), t).(phase := Handshaking(delay))
  }

  function DrainOne(s: State, io: bool): State {
    if s.task.deferred == [] then s.(phase := Selecting)
    else
      var t := s.task.deferred[0];
      if t.command.Close? then s.(phase := Panicked)
      else
        var (s1, ok) := HandleCommand(PopDeferred(s), t, io);
        if ok then s1 else FailPending(s1).(phase := Selecting)
  }

  function ReceiveCommand(s: State, io: bool): State {
    if s.mail.channel == [] then if s.mail.handlesGone then Finish(s) else s
    else
      var t := s.mail.channel[0];
      if t.command.Close? then Finish(PopChannel(s))
      else
        var (s1, ok) := HandleCommand(PopChannel(s), t, io);
        if ok then s1.(phase := Draining) else Lost(s1)
  }

  function ReceivePacket(s: State, p: Packet, io: bool): State {
    var s1 := HandleResponse(s, p, io);
    if s1.task.shuttingDown && s1.task.pending == map[] then Finish(s1) else s1.(phase := Draining)
  }

  /** `keys` lists the watched keys, each once, in the map's own arbitrary order. */
  predicate IsOrder(keys: seq<Key>, watched: set<Key>) {
    && (forall k | k in keys :: k in watched)
    && (forall k | k in watched :: k in keys)
    && (forall i, j :: 0 <= i < j < |keys| ==> keys[i] != keys[j])
  }

  function Reconnected(s: State, keys: seq<Key>, oks: nat): State {
    s.(link := Replay(s.link.(epoch := s.link.epoch + 1, dead := false), keys, oks), phase := Draining)
  }

  function Step(s: State, c: Choice): State {
    match c
    case TakeSync => s.(mail := Draw(s.mail))
    case TakeWatchId => s.(mail := DrawWatch(s.mail))
    case Submit(command) =>
      s.(mail := SubmitCommand(s.mail, command), callers := s.callers.(receivers := Receivers(s, command)))
    case DropReceiver(id) => s.(callers := s.callers.(receivers := s.callers.receivers - {id}))
    case DropHandles => s.(mail := s.mail.(handlesGone := true))
    case Drain(io) => if s.phase == Draining then DrainOne(s, io) else s
    case Recv(io) => if s.phase == Selecting then ReceiveCommand(s, io) else s
    case Arrive(response, io) => if s.phase == Selecting then ReceivePacket(s, Classify(response), io) else s
    case LinkError => if s.phase == Selecting then Lost(s) else s
    case Wake(took) =>
      if !s.phase.Waiting? then s
      else if took then TakeDeferred(s, s.phase.delay)
      else s.(phase := Handshaking(s.phase.delay))
    case HandshakeFailed =>
      if s.phase.Handshaking? && s.policy.Backoff?
      then s.(phase := Waiting(if 2 * s.phase.delay < s.policy.max then 2 * s.phase.delay else s.policy.max))
      else s
    case HandshakeOk(keys, oks) =>
      if s.phase.Handshaking? && IsOrder(keys, s.task.watchers.Keys) then Reconnected(s, keys, oks) else s
  }

  /** The state after a schedule of choices. */
  function Run(s: State, schedule: seq<Choice>): State
    decreases |schedule|
  {
    if schedule == [] then s else Step(Run(s, schedule[..|schedule| - 1]), schedule[|schedule| - 1])
  }
}
