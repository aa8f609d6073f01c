/** One operator actor: the message handler of `POpActor` and the sending side in `POpContext`.

    The operator's own `onReceive` is unknown code.  What the actor hands to it is recorded,
    in order, in `received`; what it may do in response (tell, complete) is the subject of
    module `Protocol`.
 */
module OperatorActor {
  import opened Directories

  /** The content of a message between operators, whatever its kind. */
  type Payload(==, !new)

  datatype Connection = Connection(name: OpName, relationship: Relationship)

  /** Messages carry their sender's name.  CONNECT, START and STOP are control messages and come
      from the root; `Data` stands for every message an operator's body gives a meaning to. */
  datatype Message =
    | Connect(connections: seq<Connection>)
    | Start
    | Stop
    | Complete(sender: OpName)
    | Data(sender: OpName, payload: Payload)
    | Error(sender: OpName)

  predicate IsControl(m: Message) {
    m.Connect? || m.Start? || m.Stop?
  }

  /** The state of an actor together with its context. */
  datatype Actor = Actor(
    running: bool,
    complete: bool,
    directory: LocalDirectory,
    buffer: seq<Message>,
    received: seq<Message>,
    errors: nat)

  const FRESH_ACTOR := Actor(false, false, EMPTY_LOCAL, [], [], 0)

  /** CONNECT: every connection is inserted incomplete; a failing insert is reported and the loop goes on. */
  function InsertAll(a: Actor, connections: seq<Connection>): Actor
    decreases |connections|
  {
    if connections == [] then a
    else
      var c := connections[0];
      InsertAll(a.(directory := a.directory.Insert(c.name, Entry(c.relationship, false)),
                   errors := a.errors + if a.directory.InsertOutcome(c.name) == Ok then 0 else 1),
                connections[1..])
  }

  /** A non-control message reaching a running actor. A COMPLETE that the directory refuses is
      reported and not handed on. */
  function Dispatch(a: Actor, m: Message): Actor {
    if m.Complete? then
      if a.directory.SetCompleteOutcome(m.sender) == Ok then
        a.(directory := a.directory.SetComplete(m.sender), received := a.received + [m])
      else
        a.(errors := a.errors + 1)
    else
      a.(received := a.received + [m])
  }

  /** The handler up to, and not including, the replay of buffered messages. */
  function Begin(a: Actor, m: Message): Actor {
    match m
    case Connect(connections) => InsertAll(a, connections)
    case Start => a.(running := true, received := a.received + [m])
    case Stop => a.(running := false, received := a.received + [m])
    case _ => if a.running then Dispatch(a, m) else a.(buffer := a.buffer + [m])
  }

  /** One turn of the replay loop. */
  function ReplayOne(a: Actor): Actor
    requires a.buffer != []
  {
    Dispatch(a.(buffer := a.buffer[1..]), a.buffer[0])
  }

  function ReplayAll(a: Actor): Actor
    decreases |a.buffer|
  {
    if a.buffer == [] then a else ReplayAll(ReplayOne(a))
  }

  /** The whole handler. */
  function Handle(a: Actor, m: Message): Actor {
    if m.Start? then ReplayAll(Begin(a, m)) else Begin(a, m)
  }

  function HandleAll(a: Actor, arrivals: seq<Message>): Actor {
    if arrivals == [] then a
    else Handle(HandleAll(a, arrivals[..|arrivals| - 1]), arrivals[|arrivals| - 1])
  }

  // ---------------------------------------------------------------------------
  // What the operator sees

  function NonControl(ms: seq<Message>): seq<Message> {
    if ms == [] then []
    else NonControl(ms[..|ms| - 1]) + if IsControl(ms[|ms| - 1]) then [] else [ms[|ms| - 1]]
  }

  lemma {:induction false} InsertAllOnlyTouchesDirectory(a: Actor, connections: seq<Connection>)
    ensures var a' := InsertAll(a, connections);
            && a' == a.(directory := a'.directory, errors := a'.errors)
            && a'.errors >= a.errors
    decreases |connections|
  {
    if connections != [] {
      var c := connections[0];
      InsertAllOnlyTouchesDirectory(
        a.(directory := a.directory.Insert(c.name, Entry(c.relationship, false)),
           errors := a.errors + if a.directory.InsertOutcome(c.name) == Ok then 0 else 1),
        connections[1..]);
    }
  }

  /** The replay hands on the buffered messages in order, unless one of them is refused. */
  lemma {:induction false} ReplayHandsOnBuffer(a: Actor)
    ensures ReplayAll(a).buffer == [] && ReplayAll(a).running == a.running
    ensures ReplayAll(a).errors >= a.errors
    ensures ReplayAll(a).errors == a.errors ==> ReplayAll(a).received == a.received + a.buffer
    decreases |a.buffer|
  {
    if a.buffer != [] {
      ReplayHandsOnBuffer(ReplayOne(a));
      assert a.received + [a.buffer[0]] + a.buffer[1..] == a.received + a.buffer;
    }
  }

  lemma {:induction false} ReplayOnlyAdds(a: Actor)
    ensures a.received <= ReplayAll(a).received
    decreases |a.buffer|
  {
    if a.buffer != [] {
      ReplayOnlyAdds(ReplayOne(a));
    }
  }

  /** A COMPLETE of an operator that is not in the directory or is complete already. */
  predicate Refuses(entries: map<OpName, Entry>, sender: OpName) {
    sender !in entries || entries[sender].complete
  }

  /** Every connection of a CONNECT ends up in the directory, next to what was there. */
  lemma {:induction false} InsertAllInsertsAll(a: Actor, connections: seq<Connection>)
    ensures var entries, entries' := a.directory.entries, InsertAll(a, connections).directory.entries;
            && (forall i | 0 <= i < |connections| :: connections[i].name in entries')
            && (forall n | n in entries :: n in entries' && entries'[n] == entries[n])
    decreases |connections|
  {
    if connections != [] {
      var c, rest := connections[0], connections[1..];
      InsertAllInsertsAll(InsertOne(a, c), rest);
      assert forall i | 0 < i < |connections| :: connections[i] == rest[i - 1];
    }
  }

  ghost function InsertOne(a: Actor, c: Connection): Actor {
    a.(directory := a.directory.Insert(c.name, Entry(c.relationship, false)),
       errors := a.errors + if a.directory.InsertOutcome(c.name) == Ok then 0 else 1)
  }

  /** Every connection that was there already, or comes twice, is an error, and no other is. */
  lemma {:induction false} InsertAllCountsErrors(a: Actor, connections: seq<Connection>)
    ensures var a' := InsertAll(a, connections);
            |a'.directory.entries.Keys| + a'.errors == |a.directory.entries.Keys| + a.errors + |connections|
    decreases |connections|
  {
    if connections != [] {
      var c := connections[0];
      assert InsertOne(a, c).directory.entries.Keys == a.directory.entries.Keys + {c.name};
      InsertAllCountsErrors(InsertOne(a, c), connections[1..]);
    }
  }

  lemma {:induction false} ErrorsOnlyGrow(a: Actor, m: Message)
    ensures Handle(a, m).errors >= a.errors
  {
    match m
    case Connect(connections) => InsertAllOnlyTouchesDirectory(a, connections);
    case Start => ReplayHandsOnBuffer(Begin(a, m));
    case _ =>
  }

  /** Once started, the operator has seen START and then the non-control arrivals in order;
      before that it has seen nothing and they wait in the buffer. */
  ghost predicate Sees(a: Actor, arrivals: seq<Message>) {
    && a.running == (Start in arrivals)
    && (a.running ==> a.received == [Start] + NonControl(arrivals) && a.buffer == [])
    && (!a.running ==> a.received == [] && a.buffer == NonControl(arrivals))
  }

  lemma {:induction false} StartSeesBuffer(a: Actor, before: seq<Message>)
    requires Sees(a, before) && Start !in before
    requires Handle(a, Start).errors == a.errors
    ensures Sees(Handle(a, Start), before + [Start])
  {
    ReplayHandsOnBuffer(Begin(a, Start));
    assert NonControl(before + [Start]) == NonControl(before) by {
      assert (before + [Start])[..|before|] == before;
    }
  }

  lemma {:induction false} ArrivalIsSeen(a: Actor, before: seq<Message>, m: Message)
    requires Sees(a, before) && !m.Start? && !m.Stop?
    requires Handle(a, m).errors == a.errors
    ensures Sees(Handle(a, m), before + [m])
  {
    assert (before + [m])[..|before|] == before;
    assert Start in before + [m] <==> Start in before;
    if m.Connect? {
      InsertAllOnlyTouchesDirectory(a, m.connections);
    }
  }

  /** Whatever arrives, in whatever order, before or after its START: as long as nothing was
      refused, none of the arrivals is lost, duplicated or reordered on its way to `onReceive`. */
  lemma {:induction false} SeesArrivalsInOrder(arrivals: seq<Message>)
    requires Stop !in arrivals
    requires multiset(arrivals)[Start] <= 1
    requires HandleAll(FRESH_ACTOR, arrivals).errors == 0
    ensures Sees(HandleAll(FRESH_ACTOR, arrivals), arrivals)
  {
    if arrivals != [] {
      var before, m := arrivals[..|arrivals| - 1], arrivals[|arrivals| - 1];
      assert arrivals == before + [m];
      var a := HandleAll(FRESH_ACTOR, before);
      ErrorsOnlyGrow(a, m);
      SeesArrivalsInOrder(before);
      if m.Start? {
        assert multiset(arrivals)[Start] == multiset(before)[Start] + 1;
        StartSeesBuffer(a, before);
      } else {
        ArrivalIsSeen(a, before, m);
      }
    }
  }

  // ---------------------------------------------------------------------------
  // The sending side

  datatype Recipient = Root | Op(name: OpName)

  datatype Outgoing = Outgoing(to: Recipient, message: Message)

  function ToEach(consumers: seq<OpName>, m: Message): seq<Outgoing> {
    if consumers == [] then [] else ToEach(consumers[..|consumers| - 1], m) + [Outgoing(Op(consumers[|consumers| - 1]), m)]
  }

  /** The first messages go to the consumers, one each and in order. */
  ghost predicate SentToEach(sends: seq<Outgoing>, consumers: seq<OpName>, m: Message) {
    |sends| >= |consumers| && forall i | 0 <= i < |consumers| :: sends[i] == Outgoing(Op(consumers[i]), m)
  }

  lemma {:induction false} ToEachIsEach(consumers: seq<OpName>, m: Message)
    ensures SentToEach(ToEach(consumers, m), consumers, m) && |ToEach(consumers, m)| == |consumers|
    decreases |consumers|
  {
    if consumers != [] {
      ToEachIsEach(consumers[..|consumers| - 1], m);
    }
  }

  /** `tell`. Reporting an error destroys the operator's actor handles, so it is the last thing
      that gets out of it: an operator that is `cut` off sends nothing, and one that is complete
      only its error. */
  function TellSends(self: OpName, complete: bool, cut: bool, consumers: seq<OpName>, m: Message): seq<Outgoing> {
    if cut then [] else if complete then [Outgoing(Root, Error(self))] else ToEach(consumers, m)
  }

  /** `notifyComplete`: all consumers first, then the root. */
  function CompleteSends(self: OpName, complete: bool, cut: bool, consumers: seq<OpName>): seq<Outgoing> {
    if cut then [] else if complete then [Outgoing(Root, Error(self))]
    else ToEach(consumers, Complete(self)) + [Outgoing(Root, Complete(self))]
  }

  /** `POpActor` with its `POpContext`. */
  class POpActor {
    const name: OpName
    const consumers: seq<OpName>
    const isCollate: bool
    const operatorMap: LocalPOpDirectory
    var running: bool
    var complete: bool
    var buffer: seq<Message>
    var received: seq<Message>
    var errors: nat
    var cleared: bool     // the operator's own state was cleared

    function State(): Actor
      reads this, operatorMap
    {
      Actor(running, complete, operatorMap.Snapshot(), buffer, received, errors)
    }

    ghost predicate Valid()
      reads this, operatorMap
    {
      operatorMap.Valid()
    }

    constructor (name: OpName, consumers: seq<OpName>, isCollate: bool)
      ensures Valid() && fresh(operatorMap) && State() == FRESH_ACTOR && !cleared
      ensures this.name == name && this.consumers == consumers && this.isCollate == isCollate
    {
      this.name, this.consumers, this.isCollate, cleared := name, consumers, isCollate, false;
      operatorMap := new LocalPOpDirectory();
      running, complete, buffer, received, errors := false, false, [], [], 0;
    }

    method Receive(m: Message)
      requires Valid()
      modifies this, operatorMap
      ensures Valid()
      ensures State() == Handle(old(State()), m)
      ensures m.Connect? ==> received == old(received) && running == old(running) && buffer == old(buffer)
      ensures m.Start? ==> running && buffer == [] && old(received) + [m] <= received
      ensures m.Stop? ==> !running && received == old(received) + [m] && buffer == old(buffer)
      ensures !IsControl(m) && !old(running) ==> buffer == old(buffer) + [m] && received == old(received)
      ensures !IsControl(m) && old(running) ==> buffer == old(buffer) && running
    {
      if m.Connect? {
        InsertAllOnlyTouchesDirectory(State(), m.connections);
      } else if m.Start? {
        ReplayHandsOnBuffer(Begin(State(), m));
        ReplayOnlyAdds(Begin(State(), m));
      }
      match m
      case Connect(connections) =>
        InsertConnections(connections);
      case Start =>
        running := true;
        received := received + [m];
        Replay();
      case Stop =>
        running := false;
        received := received + [m];
      case _ =>
        if running {
          Deliver(m);
        } else {
          buffer := buffer + [m];
        }
    }

    method InsertConnections(connections: seq<Connection>)
      requires Valid()
      modifies this, operatorMap
      ensures Valid()
      ensures State() == InsertAll(old(State()), connections)
    {
      for i := 0 to |connections|
        invariant Valid()
        invariant InsertAll(State(), connections[i..]) == InsertAll(old(State()), connections)
      {
        var c := connections[i];
        assert connections[i..][0] == c && connections[i..][1..] == connections[i + 1..];
        var r := operatorMap.Insert(c.name, Entry(c.relationship, false));
        if r != Ok {
          errors := errors + 1;
        }
      }
    }

    method Replay()
      requires Valid()
      modifies this, operatorMap
      ensures Valid()
      ensures State() == ReplayAll(old(State()))
    {
      while buffer != []
        invariant Valid()
        invariant ReplayAll(State()) == ReplayAll(old(State()))
        decreases |buffer|
      {
        var item := buffer[0];
        ghost var before := State();
        buffer := buffer[1..];
        Deliver(item);
        assert State() == ReplayOne(before);
      }
    }

    method Deliver(m: Message)
      requires Valid()
      modifies this, operatorMap
      ensures Valid()
      ensures State() == Dispatch(old(State()), m)
      ensures m.Complete? && Refuses(old(operatorMap.entries), m.sender) ==> received == old(received) && errors == old(errors) + 1
      ensures !(m.Complete? && Refuses(old(operatorMap.entries), m.sender)) ==> received == old(received) + [m] && errors == old(errors)
    {
      if m.Complete? {
        var r := operatorMap.SetComplete(m.sender);
        if r != Ok {
          errors := errors + 1;
          return;
        }
      }
      received := received + [m];
    }

    /** The error goes to the root, and with it every handle of the operator. */
    method NotifyError() returns (sends: seq<Outgoing>)
      modifies this`errors
      ensures errors == old(errors) + 1
      ensures sends == if old(errors) > 0 then [] else [Outgoing(Root, Error(name))]
    {
      sends := SendOne(Root, Error(name));
      errors := errors + 1;
    }

    /** A message through a handle, which must not have been destroyed to have an effect. */
    method SendOne(to: Recipient, m: Message) returns (sends: seq<Outgoing>)
      ensures sends == if errors > 0 then [] else [Outgoing(to, m)]
    {
      sends := if errors > 0 then [] else [Outgoing(to, m)];
    }

    method Tell(m: Message) returns (sends: seq<Outgoing>)
      requires Valid()
      modifies this`errors
      ensures sends == TellSends(name, complete, old(errors) > 0, consumers, m)
      ensures old(errors) == 0 && !complete ==> SentToEach(sends, consumers, m) && |sends| == |consumers|
      ensures old(errors) == 0 && complete ==> sends == [Outgoing(Root, Error(name))]
      ensures old(errors) > 0 ==> sends == []
      ensures State() == old(State()).(errors := old(errors) + if complete then 1 else 0)
    {
      sends := [];
      if complete {
        sends := NotifyError();
      }
      var rest := SendToConsumers(m);
      sends := sends + rest;
    }

    method NotifyComplete() returns (sends: seq<Outgoing>)
      requires Valid()
      modifies this`errors, this`complete, this`cleared
      ensures sends == CompleteSends(name, old(complete), old(errors) > 0, consumers)
      ensures old(errors) == 0 && !old(complete) ==>
                && SentToEach(sends, consumers, Complete(name)) && |sends| == |consumers| + 1
                && sends[|consumers|] == Outgoing(Root, Complete(name))
      ensures old(errors) == 0 && old(complete) ==> sends == [Outgoing(Root, Error(name))]
      ensures old(errors) > 0 ==> sends == []
      ensures State() == old(State()).(complete := true, errors := old(errors) + if old(complete) then 1 else 0)
      ensures cleared == (old(cleared) || !isCollate)
    {
      sends := [];
      if complete {
        sends := NotifyError();
      }
      var toConsumers := SendToConsumers(Complete(name));
      var toRoot := SendOne(Root, Complete(name));
      sends := sends + toConsumers + toRoot;
      if !isCollate {
        cleared := true;
      }
      complete := true;
    }

    method SendToConsumers(m: Message) returns (sends: seq<Outgoing>)
      ensures sends == if errors > 0 then [] else ToEach(consumers, m)
      ensures errors == 0 ==> SentToEach(sends, consumers, m) && |sends| == |consumers|
    {
      ToEachIsEach(consumers, m);
      sends := [];
      for i := 0 to |consumers|
        invariant sends == if errors > 0 then [] else ToEach(consumers[..i], m)
      {
        assert consumers[..i + 1][..i] == consumers[..i];
        var one := SendOne(Op(consumers[i]), m);
        sends := sends + one;
      }
      assert consumers[..|consumers|] == consumers;
    }
  }
}
