/** The execution protocol: a root actor that connects and starts every operator and waits for
    all of them to complete, and operators that exchange messages over FIFO channels.

    Every interleaving of the steps below is a run.  The operators' bodies are unknown; a body
    may tell its consumers anything at any time after START, may send to any operator it names, and
    may call `notifyComplete` once its local directory says that all producers are complete.  It
    does not `send` to a consumer after that.
 */
module Protocol {
  import opened Collections
  import opened Directories
  import opened OperatorActor
  import opened Links

  /** The operator graph: the operators in the iteration order of the root's directory, and each
      operator's producers and consumers in the order of its `std::set`s. */
  datatype Wiring = Wiring(
    order: seq<OpName>,
    producers: OpName -> seq<OpName>,
    consumers: OpName -> seq<OpName>)

  ghost predicate WellWired(w: Wiring) {
    && Distinct(w.order)
    && (forall a | a in w.order :: Distinct(w.producers(a) + w.consumers(a)))
    && (forall a, b | a in w.order && b in w.consumers(a) :: b in w.order)
    && (forall a, b | a in w.order && b in w.producers(a) :: b in w.order)
    && (forall a, b | a in w.order && b in w.order :: b in w.consumers(a) <==> a in w.producers(b))
  }

  function Connections(producers: seq<OpName>, consumers: seq<OpName>): seq<Connection> {
    seq(|producers|, i requires 0 <= i < |producers| => Connection(producers[i], Producer))
    + seq(|consumers|, i requires 0 <= i < |consumers| => Connection(consumers[i], Consumer))
  }

  datatype Status = Waiting | Returned | Threw

  /** The state of the system. Channels and actors are total functions of operator names; only
      the names in `Wiring.order` ever matter. */
  datatype System = System(
    actor: OpName -> Actor,
    wire: (OpName, OpName) -> seq<Message>,   // operator to operator, in flight
    sent: (OpName, OpName) -> seq<Message>,   // operator to operator, everything ever sent
    control: OpName -> seq<Message>,          // root to operator, in flight
    outbox: seq<(OpName, Message)>,           // what `start` has still to send
    toRoot: OpName -> seq<Message>,           // operator to root, in flight
    root: OpDirectory,
    status: Status)                           // of `join`

  function ConnectAll(w: Wiring, order: seq<OpName>): seq<(OpName, Message)>
  {
    if order == [] then []
    else
      var o := order[|order| - 1];
      ConnectAll(w, order[..|order| - 1]) + [(o, Connect(Connections(w.producers(o), w.consumers(o))))]
  }

  function StartAll(order: seq<OpName>): seq<(OpName, Message)> {
    if order == [] then [] else StartAll(order[..|order| - 1]) + [(order[|order| - 1], Start)]
  }

  function RootDirectory(order: seq<OpName>): OpDirectory {
    if order == [] then EMPTY_ROOT else RootDirectory(order[..|order| - 1]).Insert(order[|order| - 1])
  }

  ghost function Initial(w: Wiring): System {
    System(_ => FRESH_ACTOR, (_, _) => [], (_, _) => [], _ => [],
           ConnectAll(w, w.order) + StartAll(w.order),
           _ => [], RootDirectory(w.order).SetIncomplete(), Waiting)
  }

  datatype Step =
    | RootSend
    | TakeControl(op: OpName)
    | Take(sender: OpName, op: OpName)
    | Replay(op: OpName)
    | Tell(op: OpName, payload: Payload)
    | SendTo(op: OpName, recipient: OpName, payload: Payload)
    | Finish(op: OpName)
    | RootTake(op: OpName)

  /** An actor handles one message at a time; while it replays its buffer it takes none. */
  predicate Ready(a: Actor) {
    !a.running || a.buffer == []
  }

  ghost predicate Enabled(w: Wiring, s: System, step: Step) {
    match step
    case RootSend => s.outbox != []
    case TakeControl(o) => o in w.order && s.control(o) != [] && Ready(s.actor(o))
    case Take(a, o) => a in w.order && o in w.order && s.wire(a, o) != [] && Ready(s.actor(o))
    case Replay(o) => o in w.order && s.actor(o).running && s.actor(o).buffer != []
    case Tell(o, _) => o in w.order && s.actor(o).running
    case SendTo(o, r, _) => o in w.order && s.actor(o).running && (r in w.consumers(o) ==> !s.actor(o).complete)
    case Finish(o) => o in w.order && s.actor(o).running && s.actor(o).directory.AllComplete(Producer)
    case RootTake(o) => o in w.order && s.status == Waiting && s.toRoot(o) != []
  }

  ghost function With<T>(f: OpName -> T, o: OpName, v: T): OpName -> T {
    x => if x == o then v else f(x)
  }

  /** Drops the oldest message of the channel from `a` to `b`. */
  ghost function Pop(channels: (OpName, OpName) -> seq<Message>, a: OpName, b: OpName): (OpName, OpName) -> seq<Message>
    requires channels(a, b) != []
  {
    var rest := channels(a, b)[1..];
    (x, y) => if x == a && y == b then rest else channels(x, y)
  }

  /** Appends `m` to the channels from `a` to every operator in `targets`. */
  ghost function Push(channels: (OpName, OpName) -> seq<Message>, a: OpName, targets: seq<OpName>, m: Message)
    : (OpName, OpName) -> seq<Message>
  {
    (x, y) => if x == a && y in targets then channels(x, y) + [m] else channels(x, y)
  }

  /** Replaces actor `o`. Its first error goes to the root; reporting it destroys the actor's handles,
      so nothing follows. */
  ghost function Put(s: System, o: OpName, a: Actor): System {
    s.(actor := With(s.actor, o, a),
       toRoot := if s.actor(o).errors == 0 && a.errors > 0 then With(s.toRoot, o, s.toRoot(o) + [Error(o)]) else s.toRoot)
  }

  ghost function Reported(s: System, o: OpName): System {
    Put(s, o, s.actor(o).(errors := s.actor(o).errors + 1))
  }

  /** `join`: one message at the root. */
  function RootHandle(d: OpDirectory, m: Message): (OpDirectory, Status) {
    if m.Complete? then
      if d.SetCompleteOutcome(m.sender) != Ok then (d, Threw)
      else
        var d' := d.SetComplete(m.sender);
        (d', if d'.AllComplete() then Returned else Waiting)
    else (d, Threw)
  }

  /** Sends `m` to every operator in `targets`, if the handles are still there. */
  ghost function Transmit(s: System, o: OpName, targets: seq<OpName>, m: Message): System {
    if s.actor(o).errors > 0 then s
    else s.(wire := Push(s.wire, o, targets, m), sent := Push(s.sent, o, targets, m))
  }

  /** `tell` and the common part of `notifyComplete`: a complete operator reports an error. */
  ghost function Broadcast(s: System, o: OpName, targets: seq<OpName>, m: Message): System {
    Transmit(if s.actor(o).complete then Reported(s, o) else s, o, targets, m)
  }

  /** `send` to an operator looks it up in the local directory; it does not ask for completeness. */
  ghost function Send(s: System, o: OpName, r: OpName, m: Message): System {
    if r in s.actor(o).directory.entries then Transmit(s, o, [r], m) else Reported(s, o)
  }

  ghost function Completed(s: System, o: OpName): System {
    s.(actor := With(s.actor, o, s.actor(o).(complete := true)),
       toRoot := if s.actor(o).errors > 0 then s.toRoot else With(s.toRoot, o, s.toRoot(o) + [Complete(o)]))
  }

  ghost function Apply(w: Wiring, s: System, step: Step): System
    requires Enabled(w, s, step)
  {
    match step
    case RootSend =>
      var (o, m) := s.outbox[0];
      s.(outbox := s.outbox[1..], control := With(s.control, o, s.control(o) + [m]))
    case TakeControl(o) =>
      Put(s, o, Begin(s.actor(o), s.control(o)[0])).(control := With(s.control, o, s.control(o)[1..]))
    case Take(a, o) => Put(s, o, Begin(s.actor(o), s.wire(a, o)[0])).(wire := Pop(s.wire, a, o))
    case Replay(o) => Put(s, o, ReplayOne(s.actor(o)))
    case Tell(o, payload) => Broadcast(s, o, w.consumers(o), Data(o, payload))
    case SendTo(o, r, payload) => Send(s, o, r, Data(o, payload))
    case Finish(o) => Completed(Broadcast(s, o, w.consumers(o), Complete(o)), o)
    case RootTake(o) =>
      var (d, status) := RootHandle(s.root, s.toRoot(o)[0]);
      s.(root := d, status := status, toRoot := With(s.toRoot, o, s.toRoot(o)[1..]))
  }

  /** A run is a list of steps, each enabled in the state the ones before it lead to. */
  ghost predicate IsRun(w: Wiring, steps: seq<Step>)
    decreases |steps|, 0
  {
    steps == [] ||
    var before := steps[..|steps| - 1];
    IsRun(w, before) && Enabled(w, After(w, before), steps[|steps| - 1])
  }

  ghost function After(w: Wiring, steps: seq<Step>): (s: System)
    requires IsRun(w, steps)
    decreases |steps|, 1
  {
    if steps == [] then Initial(w) else Apply(w, After(w, steps[..|steps| - 1]), steps[|steps| - 1])
  }

  ghost predicate ErrorFree(w: Wiring, s: System) {
    forall o | o in w.order :: s.actor(o).errors == 0
  }

  // ---------------------------------------------------------------------------
  // The invariant

  /** Every neighbour is in the directory, with its relationship. */
  ghost predicate Connected(d: LocalDirectory, producers: seq<OpName>, consumers: seq<OpName>) {
    && d.Consistent()
    && (forall p | p in producers :: p in d.entries && d.entries[p].relationship == Producer)
    && (forall n | n in d.entries && d.entries[n].relationship == Producer :: n in producers)
    && (forall c | c in consumers :: c in d.entries && d.entries[c].relationship == Consumer)
    && (forall n | n in d.entries :: n in producers || n in consumers)
  }

  ghost predicate FromOperator(m: Message, producers: seq<OpName>) {
    m.Data? || (m.Complete? && m.sender in producers)
  }

  /** `rest` is the control traffic the root has still to deliver to this operator. Whoever sent the
      buffered data, every buffered COMPLETE is a producer's. */
  ghost predicate ActorInv(a: Actor, producers: seq<OpName>, consumers: seq<OpName>, rest: seq<Message>) {
    && a.directory.Consistent() && a.errors == 0
    && (forall m | m in a.buffer :: FromOperator(m, producers))
    && (a.running ==> rest == [] && Connected(a.directory, producers, consumers))
    && (!a.running ==> !a.complete && a.received == [])
    && (!a.running ==> || (rest == [Connect(Connections(producers, consumers)), Start] && a.directory == EMPTY_LOCAL)
                       || (rest == [Start] && Connected(a.directory, producers, consumers)))
    && (a.complete ==> forall p | p in producers :: MarkedComplete(a, p))
  }

  /** The root knows of an operator's completion, or is about to. */
  ghost predicate RootLink(o: OpName, complete: bool, known: bool, toRoot: seq<Message>) {
    toRoot == (if complete && !known then [Complete(o)] else []) && (known ==> complete)
  }

  ghost function ToOp(outbox: seq<(OpName, Message)>, o: OpName): seq<Message> {
    if outbox == [] then []
    else (if outbox[0].0 == o then [outbox[0].1] else []) + ToOp(outbox[1..], o)
  }

  ghost predicate RootInv(w: Wiring, s: System) {
    && s.root.Consistent()
    && (forall o :: o in s.root.complete <==> o in w.order)
    && s.status != Threw
    && (s.status == Waiting && w.order != [] ==> !s.root.AllComplete())
    && (s.status == Returned ==> forall o | o in w.order :: o in s.root.complete && s.root.complete[o])
  }

  ghost predicate OpInv(w: Wiring, s: System, o: OpName) {
    && ActorInv(s.actor(o), w.producers(o), w.consumers(o), s.control(o) + ToOp(s.outbox, o))
    && RootLink(o, s.actor(o).complete, o in s.root.complete && s.root.complete[o], s.toRoot(o))
  }

  ghost predicate PairInv(w: Wiring, s: System, a: OpName, b: OpName) {
    LinkInv(a, b in w.consumers(a), s.actor(a).complete, s.actor(b), s.wire(a, b), s.sent(a, b))
  }

  ghost predicate OpsInv(w: Wiring, s: System) {
    forall o | o in w.order :: OpInv(w, s, o)
  }

  ghost predicate PairsInv(w: Wiring, s: System) {
    forall a, b | a in w.order && b in w.order :: PairInv(w, s, a, b)
  }

  ghost predicate Inv(w: Wiring, s: System) {
    RootInv(w, s) && OpsInv(w, s) && PairsInv(w, s)
  }
}
