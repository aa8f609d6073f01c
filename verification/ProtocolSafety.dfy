/** Safety of whole runs of the execution protocol. */
module ProtocolSafety {
  import opened Collections
  import opened Directories
  import opened OperatorActor
  import opened Links
  import opened Protocol

  // ---------------------------------------------------------------------------
  // The initial state

  lemma {:induction false} ToOpAppend(x: seq<(OpName, Message)>, y: seq<(OpName, Message)>, o: OpName)
    ensures ToOp(x + y, o) == ToOp(x, o) + ToOp(y, o)
    decreases |x|
  {
    if x == [] {
      assert x + y == y;
    } else {
      var head := if x[0].0 == o then [x[0].1] else [];
      ToOpAppend(x[1..], y, o);
      assert (x + y)[1..] == x[1..] + y;
      assert head + (ToOp(x[1..], o) + ToOp(y, o)) == head + ToOp(x[1..], o) + ToOp(y, o);
    }
  }

  lemma ToOpSingle(o': OpName, m: Message, o: OpName)
    ensures ToOp([(o', m)], o) == if o' == o then [m] else []
  {
  }

  lemma {:induction false} StartAllToOp(order: seq<OpName>, o: OpName)
    requires Distinct(order)
    ensures ToOp(StartAll(order), o) == if o in order then [Start] else []
    decreases |order|
  {
    if order != [] {
      var most, last := order[..|order| - 1], order[|order| - 1];
      StartAllToOp(most, o);
      ToOpAppend(StartAll(most), [(last, Start)], o);
      ToOpSingle(last, Start, o);
      assert order == most + [last];
      assert last !in most;
    }
  }

  lemma {:induction false} ConnectAllToOp(w: Wiring, order: seq<OpName>, o: OpName)
    requires Distinct(order)
    ensures o !in order ==> ToOp(ConnectAll(w, order), o) == []
    ensures o in order ==> ToOp(ConnectAll(w, order), o) == [Connect(Connections(w.producers(o), w.consumers(o)))]
    decreases |order|
  {
    if order != [] {
      var most, last := order[..|order| - 1], order[|order| - 1];
      var m := Connect(Connections(w.producers(last), w.consumers(last)));
      assert order == most + [last];
      ConnectAllToOp(w, most, o);
      ToOpAppend(ConnectAll(w, most), [(last, m)], o);
      ToOpSingle(last, m, o);
      assert last !in most;
    }
  }

  lemma {:induction false} RootDirectoryLists(order: seq<OpName>)
    requires Distinct(order)
    ensures RootDirectory(order).Consistent()
    ensures forall o :: o in RootDirectory(order).complete <==> o in order
    ensures forall o | o in RootDirectory(order).complete :: !RootDirectory(order).complete[o]
    ensures RootDirectory(order).numOperatorsComplete == 0
    decreases |order|
  {
    if order == [] {
      assert EMPTY_ROOT.CompleteOps() == {};
    } else {
      var most, last := order[..|order| - 1], order[|order| - 1];
      RootDirectoryLists(most);
      RootInsertKeepsConsistent(RootDirectory(most), last);
      assert order == most + [last];
    }
  }

  lemma InitialRootInv(w: Wiring)
    requires WellWired(w)
    ensures RootInv(w, Initial(w))
    ensures forall o | o in w.order :: o in Initial(w).root.complete && !Initial(w).root.complete[o]
  {
    RootDirectoryLists(w.order);
    SetIncompleteKeepsConsistent(RootDirectory(w.order));
    assert w.order != [] ==> w.order[0] in Initial(w).root.complete.Keys;
  }

  lemma OutboxToOp(w: Wiring, o: OpName)
    requires Distinct(w.order) && o in w.order
    ensures ToOp(ConnectAll(w, w.order) + StartAll(w.order), o) ==
            [Connect(Connections(w.producers(o), w.consumers(o))), Start]
  {
    ToOpAppend(ConnectAll(w, w.order), StartAll(w.order), o);
    ConnectAllToOp(w, w.order, o);
    StartAllToOp(w.order, o);
  }

  lemma InitialOpInv(w: Wiring, o: OpName)
    requires WellWired(w) && o in w.order
    ensures OpInv(w, Initial(w), o)
  {
    InitialRootInv(w);
    EmptyLocalIsConsistent();
    OutboxToOp(w, o);
    assert [] + ToOp(Initial(w).outbox, o) == ToOp(Initial(w).outbox, o);
  }

  lemma InitialInv(w: Wiring)
    requires WellWired(w)
    ensures Inv(w, Initial(w))
  {
    InitialRootInv(w);
    assert OpsInv(w, Initial(w)) by {
      forall o | o in w.order
        ensures OpInv(w, Initial(w), o)
      {
        InitialOpInv(w, o);
      }
    }
    assert PairsInv(w, Initial(w)) by {
      forall a, b | a in w.order && b in w.order
        ensures PairInv(w, Initial(w), a, b)
      {
        InitialPairInv(w, a, b);
      }
    }
  }

  lemma InitialPairInv(w: Wiring, a: OpName, b: OpName)
    ensures PairInv(w, Initial(w), a, b)
  {
    assert Pending(FRESH_ACTOR, a, []) == [];
  }

  // ---------------------------------------------------------------------------
  // CONNECT fills the directory

  ghost predicate Fills(d: LocalDirectory, d': LocalDirectory, cs: seq<Connection>) {
    && d'.Consistent()
    && (forall n | n in d.entries :: n in d'.entries && d'.entries[n] == d.entries[n])
    && (forall i | 0 <= i < |cs| :: cs[i].name in d'.entries && d'.entries[cs[i].name] == Entry(cs[i].relationship, false))
    && (forall n | n in d'.entries :: n in d.entries || exists i :: 0 <= i < |cs| && cs[i].name == n)
  }

  lemma {:induction false} InsertAllFills(a: Actor, cs: seq<Connection>)
    requires a.directory.Consistent()
    requires forall i, j | 0 <= i < j < |cs| :: cs[i].name != cs[j].name
    requires forall i | 0 <= i < |cs| :: cs[i].name !in a.directory.entries
    ensures InsertAll(a, cs).errors == a.errors
    ensures Fills(a.directory, InsertAll(a, cs).directory, cs)
    decreases |cs|
  {
    if cs != [] {
      var c, rest := cs[0], cs[1..];
      var d1 := a.directory.Insert(c.name, Entry(c.relationship, false));
      InsertKeepsConsistent(a.directory, c.name, Entry(c.relationship, false));
      InsertAllFills(a.(directory := d1), rest);
      assert cs == [c] + rest;
      FillsStep(a.directory, d1, InsertAll(a, cs).directory, c, rest);
    }
  }

  lemma FillsStep(d: LocalDirectory, d1: LocalDirectory, d2: LocalDirectory, c: Connection, rest: seq<Connection>)
    requires c.name !in d.entries
    requires d1.entries == d.entries[c.name := Entry(c.relationship, false)]
    requires Fills(d1, d2, rest)
    ensures Fills(d, d2, [c] + rest)
  {
    var cs := [c] + rest;
    forall n | n in d2.entries
      ensures n in d.entries || exists i :: 0 <= i < |cs| && cs[i].name == n
    {
      if n !in d1.entries {
        var i :| 0 <= i < |rest| && rest[i].name == n;
        assert cs[i + 1].name == n;
      } else if n == c.name {
        assert cs[0].name == n;
      }
    }
  }

  lemma ConnectConnects(a: Actor, producers: seq<OpName>, consumers: seq<OpName>)
    requires a.directory == EMPTY_LOCAL
    requires Distinct(producers + consumers)
    ensures var a' := InsertAll(a, Connections(producers, consumers));
            && a' == a.(directory := a'.directory)
            && Connected(a'.directory, producers, consumers)
            && forall n | n in a'.directory.entries :: !a'.directory.entries[n].complete
  {
    var cs := Connections(producers, consumers);
    var all := producers + consumers;
    assert forall i | 0 <= i < |cs| :: cs[i].name == all[i];
    EmptyLocalIsConsistent();
    InsertAllFills(a, cs);
    InsertAllOnlyTouchesDirectory(a, cs);
    ConnectedFromFills(InsertAll(a, cs).directory, producers, consumers);
  }

  lemma ConnectedFromFills(d: LocalDirectory, producers: seq<OpName>, consumers: seq<OpName>)
    requires Fills(EMPTY_LOCAL, d, Connections(producers, consumers))
    ensures Connected(d, producers, consumers)
    ensures forall n | n in d.entries :: !d.entries[n].complete
  {
    var cs := Connections(producers, consumers);
    forall p | p in producers
      ensures p in d.entries && d.entries[p].relationship == Producer
    {
      var i :| 0 <= i < |producers| && producers[i] == p;
      assert cs[i] == Connection(p, Producer);
    }
    forall c | c in consumers
      ensures c in d.entries && d.entries[c].relationship == Consumer
    {
      var i :| 0 <= i < |consumers| && consumers[i] == c;
      assert cs[|producers| + i] == Connection(c, Consumer);
    }
    forall n | n in d.entries
      ensures !d.entries[n].complete && (n in producers || n in consumers)
      ensures d.entries[n].relationship == Producer ==> n in producers
    {
      var i :| 0 <= i < |cs| && cs[i].name == n;
      assert d.entries[n] == Entry(cs[i].relationship, false);
    }
  }

  // ---------------------------------------------------------------------------
  // One actor

  /** The first control message is the CONNECT and the second the START. */
  lemma ControlStep(a: Actor, producers: seq<OpName>, consumers: seq<OpName>, m: Message, rest: seq<Message>)
    requires ActorInv(a, producers, consumers, [m] + rest)
    requires Distinct(producers + consumers)
    ensures ActorInv(Begin(a, m), producers, consumers, rest)
    ensures Begin(a, m).errors == a.errors && !a.running && !Begin(a, m).complete
    ensures Begin(a, m).buffer == a.buffer
    ensures Begin(a, m).received == [] || Begin(a, m).received == [Start]
    ensures m.Connect? ==> forall n | n in Begin(a, m).directory.entries :: !Begin(a, m).directory.entries[n].complete
    ensures !m.Connect? ==> Begin(a, m).directory == a.directory
  {
    assert ([m] + rest)[0] == m && ([m] + rest)[1..] == rest;
    if [m] + rest == [Connect(Connections(producers, consumers)), Start] && a.directory == EMPTY_LOCAL {
      ConnectConnects(a, producers, consumers);
      assert rest == [Start];
    } else {
      assert m == Start && rest == [];
    }
  }

  lemma BufferStep(a: Actor, producers: seq<OpName>, consumers: seq<OpName>, rest: seq<Message>, m: Message)
    requires ActorInv(a, producers, consumers, rest) && !a.running && FromOperator(m, producers)
    ensures ActorInv(a.(buffer := a.buffer + [m]), producers, consumers, rest)
  {
  }

  lemma DropFromBuffer(a: Actor, producers: seq<OpName>, consumers: seq<OpName>, rest: seq<Message>)
    requires ActorInv(a, producers, consumers, rest) && a.buffer != []
    ensures ActorInv(a.(buffer := a.buffer[1..]), producers, consumers, rest)
    ensures a.buffer[0] in a.buffer
  {
  }

  /** A running actor accepts a COMPLETE from a producer it has not marked yet, and anything else. */
  lemma DispatchStep(a: Actor, producers: seq<OpName>, consumers: seq<OpName>, rest: seq<Message>, m: Message)
    requires ActorInv(a, producers, consumers, rest) && a.running && FromOperator(m, producers)
    requires m.Complete? ==> !MarkedComplete(a, m.sender)
    ensures Dispatch(a, m).errors == a.errors && Dispatch(a, m).complete == a.complete
    ensures ActorInv(Dispatch(a, m), producers, consumers, rest)
  {
    if m.Complete? {
      SetCompleteKeepsConsistent(a.directory, m.sender);
    }
  }

  // ---------------------------------------------------------------------------
  // Steps at one operator

  /** `s'` differs from `s` only in what operator `o` sees: its own state and its incoming channels. */
  ghost predicate OnlyAt(w: Wiring, s: System, s': System, o: OpName) {
    && s'.root == s.root && s'.status == s.status && s'.toRoot == s.toRoot && s'.outbox == s.outbox && s'.sent == s.sent
    && (forall x | x != o :: s'.actor(x) == s.actor(x) && s'.control(x) == s.control(x))
    && (forall x, y | y != o :: s'.wire(x, y) == s.wire(x, y))
    && s'.actor(o).complete == s.actor(o).complete
  }

  lemma OnlyAtKeepsOps(w: Wiring, s: System, s': System, o: OpName)
    requires OpsInv(w, s) && OnlyAt(w, s, s', o)
    requires ActorInv(s'.actor(o), w.producers(o), w.consumers(o), s'.control(o) + ToOp(s'.outbox, o))
    ensures OpsInv(w, s')
  {
  }

  lemma OnlyAtKeepsPairs(w: Wiring, s: System, s': System, o: OpName)
    requires PairsInv(w, s) && OnlyAt(w, s, s', o)
    requires forall x | x in w.order ::
               LinkInv(x, o in w.consumers(x), s.actor(x).complete, s'.actor(o), s'.wire(x, o), s.sent(x, o))
    ensures PairsInv(w, s')
  {
  }

  lemma OnlyAtKeepsInv(w: Wiring, s: System, s': System, o: OpName)
    requires Inv(w, s) && OnlyAt(w, s, s', o)
    requires ActorInv(s'.actor(o), w.producers(o), w.consumers(o), s'.control(o) + ToOp(s'.outbox, o))
    requires forall x | x in w.order ::
               LinkInv(x, o in w.consumers(x), s.actor(x).complete, s'.actor(o), s'.wire(x, o), s.sent(x, o))
    ensures Inv(w, s')
  {
    OnlyAtKeepsOps(w, s, s', o);
    OnlyAtKeepsPairs(w, s, s', o);
  }

  // ---------------------------------------------------------------------------
  // TakeControl

  lemma ControlKeepsLink(a: OpName, edge: bool, done: bool, b: Actor, b': Actor, wire: seq<Message>, sent: seq<Message>)
    requires LinkInv(a, edge, done, b, wire, sent)
    requires b.received == [] && (b'.received == [] || b'.received == [Start])
    requires b'.buffer == b.buffer
    requires MarkedComplete(b', a) ==> MarkedComplete(b, a)
    ensures LinkInv(a, edge, done, b', wire, sent)
  {
  }

  lemma TakeControlActor(w: Wiring, s: System, o: OpName)
    requires WellWired(w) && OpsInv(w, s) && Enabled(w, s, TakeControl(o))
    ensures var b, b' := s.actor(o), Begin(s.actor(o), s.control(o)[0]);
            && ActorInv(b', w.producers(o), w.consumers(o), s.control(o)[1..] + ToOp(s.outbox, o))
            && b'.errors == b.errors && b'.complete == b.complete
            && b.received == [] && (b'.received == [] || b'.received == [Start]) && b'.buffer == b.buffer
            && forall x :: MarkedComplete(b', x) ==> MarkedComplete(b, x)
  {
    var b, m := s.actor(o), s.control(o)[0];
    var rest := s.control(o)[1..] + ToOp(s.outbox, o);
    assert OpInv(w, s, o);
    assert s.control(o) + ToOp(s.outbox, o) == [m] + rest;
    ControlStep(b, w.producers(o), w.consumers(o), m, rest);
  }

  lemma TakeControlKeepsInv(w: Wiring, s: System, o: OpName)
    requires WellWired(w) && Inv(w, s) && Enabled(w, s, TakeControl(o))
    ensures Inv(w, Apply(w, s, TakeControl(o)))
    ensures Apply(w, s, TakeControl(o)).actor(o).errors == s.actor(o).errors
  {
    var s' := Apply(w, s, TakeControl(o));
    TakeControlActor(w, s, o);
    forall x | x in w.order
      ensures LinkInv(x, o in w.consumers(x), s.actor(x).complete, s'.actor(o), s'.wire(x, o), s.sent(x, o))
    {
      assert PairInv(w, s, x, o);
      ControlKeepsLink(x, o in w.consumers(x), s.actor(x).complete, s.actor(o), s'.actor(o), s.wire(x, o), s.sent(x, o));
    }
    OnlyAtKeepsInv(w, s, s', o);
  }

  // ---------------------------------------------------------------------------
  // Take

  /** The oldest message on a wire comes from the sender; a COMPLETE comes over an edge of the graph. */
  lemma WireHead(a: OpName, edge: bool, done: bool, b: Actor, wire: seq<Message>, sent: seq<Message>)
    requires LinkInv(a, edge, done, b, wire, sent) && wire != []
    ensures SentBy(wire[0], a) && (wire[0].Complete? ==> edge)
  {
    assert sent[|From(b.received, a)| + |From(b.buffer, a)|] == wire[0];
  }

  /** Taking the oldest message of the link from `a`, seen from the link from `x`. */
  lemma TakeKeepsLink(a: OpName, x: OpName, edge: bool, done: bool, b: Actor, wire: seq<Message>, sent: seq<Message>,
                      m: Message, wire': seq<Message>)
    requires LinkInv(x, edge, done, b, wire, sent)
    requires Ready(b) && SentBy(m, a)
    requires if x == a then wire != [] && m == wire[0] && wire' == wire[1..] else wire' == wire
    requires Begin(b, m).errors == b.errors
    ensures LinkInv(x, edge, done, Begin(b, m), wire', sent)
  {
    if b.running {
      assert From([], x) == [];
      assert Pending(b, x, wire) == wire && Pending(b, x, wire') == wire';
      LinkDispatch(x, edge, done, b, wire, sent, m, b, wire');
    } else {
      BufferingKeepsPending(x, b, wire, m);
    }
  }

  lemma TakeActor(a: OpName, edge: bool, done: bool, b: Actor, wire: seq<Message>, sent: seq<Message>,
                  producers: seq<OpName>, consumers: seq<OpName>, rest: seq<Message>)
    requires LinkInv(a, edge, done, b, wire, sent) && wire != [] && Ready(b)
    requires ActorInv(b, producers, consumers, rest)
    requires edge ==> a in producers
    ensures var b' := Begin(b, wire[0]);
            b'.errors == b.errors && b'.complete == b.complete && ActorInv(b', producers, consumers, rest)
  {
    WireHead(a, edge, done, b, wire, sent);
    var m := wire[0];
    if b.running {
      assert Pending(b, a, wire) == wire;
      if m.Complete? {
        NextCompleteIsFirst(a, edge, done, b, wire, sent);
      }
      DispatchStep(b, producers, consumers, rest, m);
    } else {
      BufferStep(b, producers, consumers, rest, m);
    }
  }

  lemma TakeKeepsInv(w: Wiring, s: System, a: OpName, o: OpName)
    requires WellWired(w) && Inv(w, s) && Enabled(w, s, Take(a, o))
    ensures Inv(w, Apply(w, s, Take(a, o)))
    ensures Apply(w, s, Take(a, o)).actor(o).errors == s.actor(o).errors
  {
    var s' := Apply(w, s, Take(a, o));
    var b, m := s.actor(o), s.wire(a, o)[0];
    assert OpInv(w, s, o) && PairInv(w, s, a, o);
    TakeActor(a, o in w.consumers(a), s.actor(a).complete, b, s.wire(a, o), s.sent(a, o),
              w.producers(o), w.consumers(o), s.control(o) + ToOp(s.outbox, o));
    WireHead(a, o in w.consumers(a), s.actor(a).complete, b, s.wire(a, o), s.sent(a, o));
    forall x | x in w.order
      ensures LinkInv(x, o in w.consumers(x), s.actor(x).complete, s'.actor(o), s'.wire(x, o), s.sent(x, o))
    {
      assert PairInv(w, s, x, o);
      TakeKeepsLink(a, x, o in w.consumers(x), s.actor(x).complete, b, s.wire(x, o), s.sent(x, o), m, s'.wire(x, o));
    }
    OnlyAtKeepsInv(w, s, s', o);
  }

  // ---------------------------------------------------------------------------
  // Replay

  lemma ReplayKeepsLink(x: OpName, edge: bool, done: bool, b: Actor, wire: seq<Message>, sent: seq<Message>)
    requires LinkInv(x, edge, done, b, wire, sent)
    requires b.buffer != [] && (b.buffer[0].Data? || b.buffer[0].Complete?)
    requires ReplayOne(b).errors == b.errors
    ensures LinkInv(x, edge, done, ReplayOne(b), wire, sent)
  {
    var m, mid := b.buffer[0], b.(buffer := b.buffer[1..]);
    ReplayPending(x, b, wire);
    LinkDispatch(x, edge, done, b, wire, sent, m, mid, wire);
  }

  lemma ReplayPending(x: OpName, b: Actor, wire: seq<Message>)
    requires b.buffer != []
    ensures Pending(b, x, wire) == (if SentBy(b.buffer[0], x) then [b.buffer[0]] else [])
                                   + Pending(b.(buffer := b.buffer[1..]), x, wire)
  {
    FromPop(b.buffer, x);
    var head := if SentBy(b.buffer[0], x) then [b.buffer[0]] else [];
    assert head + From(b.buffer[1..], x) + wire == head + (From(b.buffer[1..], x) + wire);
  }

  lemma ReplayActor(b: Actor, producers: seq<OpName>, consumers: seq<OpName>, rest: seq<Message>)
    requires ActorInv(b, producers, consumers, rest) && b.running && b.buffer != []
    requires b.buffer[0].Complete? ==> !MarkedComplete(b, b.buffer[0].sender)
    ensures b.buffer[0].Data? || b.buffer[0].Complete?
    ensures ReplayOne(b).errors == b.errors && ReplayOne(b).complete == b.complete
    ensures ActorInv(ReplayOne(b), producers, consumers, rest)
  {
    DropFromBuffer(b, producers, consumers, rest);
    DispatchStep(b.(buffer := b.buffer[1..]), producers, consumers, rest, b.buffer[0]);
  }

  lemma ReplayedCompleteIsFirst(p: OpName, edge: bool, done: bool, b: Actor, wire: seq<Message>, sent: seq<Message>)
    requires LinkInv(p, edge, done, b, wire, sent) && b.buffer != [] && b.buffer[0] == Complete(p)
    ensures !MarkedComplete(b, p)
  {
    ReplayPending(p, b, wire);
    NextCompleteIsFirst(p, edge, done, b, wire, sent);
  }

  lemma ReplayKeepsInv(w: Wiring, s: System, o: OpName)
    requires WellWired(w) && Inv(w, s) && Enabled(w, s, Replay(o))
    ensures Inv(w, Apply(w, s, Replay(o)))
    ensures Apply(w, s, Replay(o)).actor(o).errors == s.actor(o).errors
  {
    var s' := Apply(w, s, Replay(o));
    var b := s.actor(o);
    assert OpInv(w, s, o);
    var rest := s.control(o) + ToOp(s.outbox, o);
    assert b.buffer[0] in b.buffer;
    if b.buffer[0].Complete? {
      var p := b.buffer[0].sender;
      assert PairInv(w, s, p, o);
      ReplayedCompleteIsFirst(p, o in w.consumers(p), s.actor(p).complete, b, s.wire(p, o), s.sent(p, o));
    }
    ReplayActor(b, w.producers(o), w.consumers(o), rest);
    forall x | x in w.order
      ensures LinkInv(x, o in w.consumers(x), s.actor(x).complete, s'.actor(o), s'.wire(x, o), s.sent(x, o))
    {
      assert PairInv(w, s, x, o);
      ReplayKeepsLink(x, o in w.consumers(x), s.actor(x).complete, b, s.wire(x, o), s.sent(x, o));
    }
    OnlyAtKeepsInv(w, s, s', o);
  }

  // ---------------------------------------------------------------------------
  // The root sends

  lemma RootSendKeepsInv(w: Wiring, s: System)
    requires Inv(w, s) && Enabled(w, s, RootSend)
    ensures Inv(w, Apply(w, s, RootSend))
  {
    var s' := Apply(w, s, RootSend);
    SamePairs(w, s, s');
    forall x | x in w.order
      ensures OpInv(w, s', x)
    {
      assert OpInv(w, s, x);
      RootSendKeepsOp(w, s, x);
    }
  }

  lemma RootSendKeepsOp(w: Wiring, s: System, x: OpName)
    requires OpInv(w, s, x) && Enabled(w, s, RootSend)
    ensures OpInv(w, Apply(w, s, RootSend), x)
  {
    var s' := Apply(w, s, RootSend);
    assert s'.control(x) + ToOp(s'.outbox, x) == s.control(x) + ToOp(s.outbox, x);
  }

  lemma SamePairs(w: Wiring, s: System, s': System)
    requires PairsInv(w, s) && s'.actor == s.actor && s'.wire == s.wire && s'.sent == s.sent
    ensures PairsInv(w, s')
  {
  }

  // ---------------------------------------------------------------------------
  // Operators send

  /** `s'` is `s` after operator `o` sent `m` to `targets`; only `o`'s completion flag may change. */
  ghost predicate Sends(s: System, s': System, o: OpName, targets: seq<OpName>, m: Message) {
    && (forall x | x != o :: s'.actor(x) == s.actor(x))
    && s'.actor(o) == s.actor(o).(complete := s'.actor(o).complete)
    && s'.wire == Push(s.wire, o, targets, m)
    && s'.sent == Push(s.sent, o, targets, m)
  }

  lemma LinkIgnoresReceiverFlag(a: OpName, edge: bool, done: bool, b: Actor, c: bool, wire: seq<Message>, sent: seq<Message>)
    requires LinkInv(a, edge, done, b, wire, sent)
    ensures LinkInv(a, edge, done, b.(complete := c), wire, sent)
  {
  }

  /** A complete operator sends to no consumer. */
  ghost predicate MaySend(w: Wiring, s: System, o: OpName, targets: seq<OpName>) {
    forall t | t in targets && t in w.consumers(o) :: !s.actor(o).complete
  }

  lemma SendKeepsPair(w: Wiring, s: System, s': System, o: OpName, targets: seq<OpName>, m: Message, x: OpName, y: OpName)
    requires PairInv(w, s, x, y) && Sends(s, s', o, targets, m)
    requires SentBy(m, o) && MaySend(w, s, o, targets) && s'.actor(o).complete == (s.actor(o).complete || m.Complete?)
    requires m.Complete? ==> targets == w.consumers(o)
    ensures PairInv(w, s', x, y)
  {
    var edge, b := y in w.consumers(x), s.actor(y);
    if x == o && y in targets {
      LinkSend(x, edge, s.actor(x).complete, b, s.wire(x, y), s.sent(x, y), m);
      LinkIgnoresReceiverFlag(x, edge, s'.actor(x).complete, b, s'.actor(y).complete, s.wire(x, y) + [m], s.sent(x, y) + [m]);
    } else {
      assert (edge && s'.actor(x).complete) == (edge && s.actor(x).complete);
      LinkIgnoresReceiverFlag(x, edge, s.actor(x).complete, b, s'.actor(y).complete, s.wire(x, y), s.sent(x, y));
    }
  }

  lemma SendKeepsPairs(w: Wiring, s: System, s': System, o: OpName, targets: seq<OpName>, m: Message)
    requires PairsInv(w, s) && Sends(s, s', o, targets, m)
    requires SentBy(m, o) && MaySend(w, s, o, targets) && s'.actor(o).complete == (s.actor(o).complete || m.Complete?)
    requires m.Complete? ==> targets == w.consumers(o)
    ensures PairsInv(w, s')
  {
    forall x, y | x in w.order && y in w.order
      ensures PairInv(w, s', x, y)
    {
      assert PairInv(w, s, x, y);
      SendKeepsPair(w, s, s', o, targets, m, x, y);
    }
  }

  lemma TransmitKeepsInv(w: Wiring, s: System, o: OpName, targets: seq<OpName>, payload: Payload)
    requires Inv(w, s) && o in w.order && MaySend(w, s, o, targets)
    ensures Inv(w, Transmit(s, o, targets, Data(o, payload)))
  {
    assert OpInv(w, s, o);
    var s' := Transmit(s, o, targets, Data(o, payload));
    SendKeepsPairs(w, s, s', o, targets, Data(o, payload));
    forall x | x in w.order
      ensures OpInv(w, s', x)
    {
      assert OpInv(w, s, x);
      assert s'.actor(x) == s.actor(x);
    }
  }

  lemma FinishActor(a: Actor, producers: seq<OpName>, consumers: seq<OpName>, rest: seq<Message>)
    requires ActorInv(a, producers, consumers, rest) && a.running && a.directory.AllComplete(Producer)
    ensures ActorInv(a.(complete := true), producers, consumers, rest)
  {
    AllCompleteIsForall(a.directory, Producer);
  }

  lemma FinishKeepsInv(w: Wiring, s: System, o: OpName)
    requires Inv(w, s) && Enabled(w, s, Finish(o)) && !s.actor(o).complete
    ensures Inv(w, Apply(w, s, Finish(o)))
  {
    var s' := Apply(w, s, Finish(o));
    assert OpInv(w, s, o);
    SendKeepsPairs(w, s, s', o, w.consumers(o), Complete(o));
    FinishKeepsOps(w, s, o);
  }

  lemma FinishKeepsOps(w: Wiring, s: System, o: OpName)
    requires OpsInv(w, s) && Enabled(w, s, Finish(o)) && !s.actor(o).complete
    ensures OpsInv(w, Apply(w, s, Finish(o)))
  {
    var s' := Apply(w, s, Finish(o));
    assert OpInv(w, s, o);
    FinishActor(s.actor(o), w.producers(o), w.consumers(o), s.control(o) + ToOp(s.outbox, o));
    assert s'.actor(o) == s.actor(o).(complete := true);
    assert s'.toRoot(o) == [Complete(o)];
    forall x | x in w.order
      ensures OpInv(w, s', x)
    {
      assert OpInv(w, s, x);
      assert x != o ==> s'.actor(x) == s.actor(x) && s'.toRoot(x) == s.toRoot(x);
    }
  }

  // ---------------------------------------------------------------------------
  // The root receives

  lemma RootTakeKeepsInv(w: Wiring, s: System, o: OpName)
    requires Inv(w, s) && Enabled(w, s, RootTake(o))
    ensures Inv(w, Apply(w, s, RootTake(o)))
  {
    var s' := Apply(w, s, RootTake(o));
    assert OpInv(w, s, o);
    RootTakeKeepsRoot(w, s, o);
    SamePairs(w, s, s');
    forall x | x in w.order
      ensures OpInv(w, s', x)
    {
      assert OpInv(w, s, x);
      RootTakeKeepsOp(w, s, o, x);
    }
  }

  lemma RootTakeKeepsOp(w: Wiring, s: System, o: OpName, x: OpName)
    requires Enabled(w, s, RootTake(o)) && OpInv(w, s, x)
    requires RootLink(o, s.actor(o).complete, o in s.root.complete && s.root.complete[o], s.toRoot(o))
    requires o in s.root.complete
    ensures OpInv(w, Apply(w, s, RootTake(o)), x)
  {
    assert s.toRoot(o)[0] == Complete(o) && s.toRoot(o)[1..] == [];
  }

  lemma RootTakeKeepsRoot(w: Wiring, s: System, o: OpName)
    requires RootInv(w, s) && Enabled(w, s, RootTake(o))
    requires s.toRoot(o)[0] == Complete(o) && o in s.root.complete && !s.root.complete[o]
    ensures RootInv(w, Apply(w, s, RootTake(o)))
    ensures Apply(w, s, RootTake(o)).root == s.root.SetComplete(o)
  {
    RootSetCompleteKeepsConsistent(s.root, o);
    RootAllCompleteIsForall(s.root.SetComplete(o));
  }

  // ---------------------------------------------------------------------------
  // Runs

  lemma {:induction false} StepErrorsOnlyGrow(w: Wiring, s: System, step: Step, x: OpName)
    requires Enabled(w, s, step)
    ensures Apply(w, s, step).actor(x).errors >= s.actor(x).errors
  {
    match step
    case TakeControl(o) => BeginErrorsOnlyGrow(s.actor(o), s.control(o)[0]);
    case Take(a, o) => BeginErrorsOnlyGrow(s.actor(o), s.wire(a, o)[0]);
    case _ =>
  }

  lemma {:induction false} BeginErrorsOnlyGrow(a: Actor, m: Message)
    ensures Begin(a, m).errors >= a.errors
  {
    if m.Connect? {
      InsertAllOnlyTouchesDirectory(a, m.connections);
    }
  }

  /** The steps that misuse the context: an operator that already completed tells or completes, or
      one sends to an operator it is not connected to. */
  ghost predicate Misuse(s: System, step: Step) {
    || ((step.Tell? || step.Finish?) && s.actor(step.op).complete)
    || (step.SendTo? && step.recipient !in s.actor(step.op).directory.entries)
  }

  /** Every step that is not a misuse keeps the invariant, which says that nobody reported an error:
      CONNECT never inserts twice, and every COMPLETE finds its sender in the directory, not yet
      complete. */
  lemma StepKeepsInv(w: Wiring, s: System, step: Step)
    requires WellWired(w) && Inv(w, s) && Enabled(w, s, step) && !Misuse(s, step)
    ensures Inv(w, Apply(w, s, step))
  {
    match step
    case RootSend => RootSendKeepsInv(w, s);
    case TakeControl(o) => TakeControlKeepsInv(w, s, o);
    case Take(a, o) => TakeKeepsInv(w, s, a, o);
    case Replay(o) => ReplayKeepsInv(w, s, o);
    case Tell(o, payload) => TransmitKeepsInv(w, s, o, w.consumers(o), payload);
    case SendTo(o, r, payload) => TransmitKeepsInv(w, s, o, [r], payload);
    case Finish(o) => FinishKeepsInv(w, s, o);
    case RootTake(o) => RootTakeKeepsInv(w, s, o);
  }

  lemma MisuseIsReported(w: Wiring, s: System, step: Step)
    requires Enabled(w, s, step) && Misuse(s, step)
    ensures Apply(w, s, step).actor(step.op).errors > s.actor(step.op).errors
  {
  }

  lemma {:induction false} RunKeepsInv(w: Wiring, steps: seq<Step>)
    requires WellWired(w) && IsRun(w, steps) && ErrorFree(w, After(w, steps))
    ensures Inv(w, After(w, steps))
    decreases |steps|
  {
    if steps == [] {
      InitialInv(w);
    } else {
      var before, step := steps[..|steps| - 1], steps[|steps| - 1];
      var s := After(w, before);
      forall o | o in w.order
        ensures s.actor(o).errors == 0
      {
        StepErrorsOnlyGrow(w, s, step, o);
      }
      RunKeepsInv(w, before);
      NoMisuse(w, s, step);
      StepKeepsInv(w, s, step);
    }
  }

  lemma NoMisuse(w: Wiring, s: System, step: Step)
    requires Enabled(w, s, step) && ErrorFree(w, s) && ErrorFree(w, Apply(w, s, step))
    ensures !Misuse(s, step)
  {
  }

  /** No step of the run is a misuse. */
  ghost predicate Behaved(w: Wiring, steps: seq<Step>)
    requires IsRun(w, steps)
    decreases |steps|
  {
    steps == [] ||
    var before := steps[..|steps| - 1];
    Behaved(w, before) && !Misuse(After(w, before), steps[|steps| - 1])
  }

  /** A run is error-free exactly when no operator misuses its context: the protocol itself never
      raises an error. */
  lemma {:induction false} ErrorFreeExactly(w: Wiring, steps: seq<Step>)
    requires WellWired(w) && IsRun(w, steps)
    ensures ErrorFree(w, After(w, steps)) <==> Behaved(w, steps)
    decreases |steps|
  {
    if steps != [] {
      var before, step := steps[..|steps| - 1], steps[|steps| - 1];
      var s := After(w, before);
      ErrorFreeExactly(w, before);
      forall o | o in w.order
        ensures Apply(w, s, step).actor(o).errors >= s.actor(o).errors
      {
        StepErrorsOnlyGrow(w, s, step, o);
      }
      if Behaved(w, steps) {
        RunKeepsInv(w, before);
        StepKeepsInv(w, s, step);
        InvIsErrorFree(w, After(w, steps));
      } else if ErrorFree(w, s) {
        MisuseIsReported(w, s, step);
      }
    }
  }

  lemma InvIsErrorFree(w: Wiring, s: System)
    requires Inv(w, s)
    ensures ErrorFree(w, s)
  {
    assert forall o | o in w.order :: OpInv(w, s, o);
  }

  // ---------------------------------------------------------------------------
  // Main results

  /** Nothing an operator sent to a consumer is buffered or in flight: all of it was handed to
      `onReceive`. */
  ghost predicate Drained(w: Wiring, s: System) {
    forall a, b | a in w.order && b in w.consumers(a) :: DrainedPair(s, a, b)
  }

  ghost predicate DrainedPair(s: System, a: OpName, b: OpName) {
    s.wire(a, b) == [] && From(s.actor(b).buffer, a) == [] && From(s.actor(b).received, a) == s.sent(a, b)
  }

  /** Nothing at all was lost, duplicated or reordered: what one operator sent to another was handed
      over, is buffered or is in flight. */
  ghost predicate NothingLost(w: Wiring, s: System) {
    forall a, b | a in w.order && b in w.order :: NotLost(s, a, b)
  }

  ghost predicate NotLost(s: System, a: OpName, b: OpName) {
    s.sent(a, b) == From(s.actor(b).received, a) + (From(s.actor(b).buffer, a) + s.wire(a, b))
  }

  /** A completed operator has been handed everything that its producers ever sent to it. */
  lemma CompletedPairIsDrained(w: Wiring, s: System, a: OpName, b: OpName)
    requires WellWired(w) && Inv(w, s) && a in w.order && b in w.consumers(a) && s.actor(b).complete
    ensures DrainedPair(s, a, b)
  {
    assert OpInv(w, s, b) && PairInv(w, s, a, b);
    MarkedLinkIsDrained(a, true, s.actor(a).complete, s.actor(b), s.wire(a, b), s.sent(a, b));
  }

  lemma InvLosesNothing(w: Wiring, s: System)
    requires PairsInv(w, s)
    ensures NothingLost(w, s)
  {
    forall a, b | a in w.order && b in w.order
      ensures NotLost(s, a, b)
    {
      assert PairInv(w, s, a, b);
    }
  }

  /** In every error-free run, when `join` returns normally every operator has completed and no
      message to a consumer is in flight or buffered: each was handed to its recipient's `onReceive`,
      in the order it was sent. Messages upstream may still be on their way, and none is lost. */
  lemma JoinReturnsOnlyWhenDrained(w: Wiring, steps: seq<Step>)
    requires WellWired(w) && IsRun(w, steps)
    requires ErrorFree(w, After(w, steps)) && After(w, steps).status == Returned
    ensures forall o | o in w.order :: After(w, steps).actor(o).complete
    ensures Drained(w, After(w, steps)) && NothingLost(w, After(w, steps))
  {
    var s := After(w, steps);
    RunKeepsInv(w, steps);
    InvLosesNothing(w, s);
    forall o | o in w.order
      ensures s.actor(o).complete
    {
      assert OpInv(w, s, o);
    }
    forall a, b | a in w.order && b in w.consumers(a)
      ensures DrainedPair(s, a, b)
    {
      CompletedPairIsDrained(w, s, a, b);
    }
  }

  /** In an error-free run `join` never throws. */
  lemma JoinNeverThrows(w: Wiring, steps: seq<Step>)
    requires WellWired(w) && IsRun(w, steps) && ErrorFree(w, After(w, steps))
    ensures After(w, steps).status != Threw
  {
    RunKeepsInv(w, steps);
  }

  /** Nothing is left to deliver, and every operator that may complete has. */
  ghost predicate Quiescent(w: Wiring, s: System) {
    && s.outbox == []
    && (forall o | o in w.order :: s.control(o) == [] && s.actor(o).buffer == [])
    && (forall a, b | a in w.order && b in w.order :: s.wire(a, b) == [])
    && (s.status == Waiting ==> forall o | o in w.order :: s.toRoot(o) == [])
    && (forall o | o in w.order && s.actor(o).running && s.actor(o).directory.AllComplete(Producer) :: s.actor(o).complete)
  }

  lemma {:induction false} QuiescentOpIsComplete(w: Wiring, s: System, rank: OpName -> nat, o: OpName)
    requires WellWired(w) && Inv(w, s) && Quiescent(w, s) && o in w.order
    requires forall a, b | a in w.order && b in w.consumers(a) :: rank(a) < rank(b)
    ensures s.actor(o).complete
    decreases rank(o)
  {
    QuiescentOpRuns(w, s, o);
    var d := s.actor(o).directory;
    forall p | p in d.entries && d.entries[p].relationship == Producer
      ensures d.entries[p].complete
    {
      QuiescentOpIsComplete(w, s, rank, p);
      assert PairInv(w, s, p, o);
      DrainedLinkIsMarked(p, s.actor(o), s.sent(p, o));
    }
    AllCompleteIsForall(d, Producer);
  }

  lemma QuiescentOpRuns(w: Wiring, s: System, o: OpName)
    requires WellWired(w) && OpsInv(w, s) && Quiescent(w, s) && o in w.order
    ensures s.actor(o).running && s.actor(o).directory.Consistent()
    ensures forall p | p in s.actor(o).directory.entries && s.actor(o).directory.entries[p].relationship == Producer ::
              p in w.order && o in w.consumers(p)
  {
  }

  /** No error-free run over an acyclic graph gets stuck waiting: if nothing is left to deliver
      and every operator completes once its producers have, `join` has returned. */
  lemma QuiescentRunHasReturned(w: Wiring, steps: seq<Step>, rank: OpName -> nat)
    requires WellWired(w) && w.order != [] && IsRun(w, steps)
    requires ErrorFree(w, After(w, steps)) && Quiescent(w, After(w, steps))
    requires forall a, b | a in w.order && b in w.consumers(a) :: rank(a) < rank(b)
    ensures After(w, steps).status == Returned
  {
    var s := After(w, steps);
    RunKeepsInv(w, steps);
    RootAllCompleteIsForall(s.root);
    forall o | o in w.order && s.status == Waiting
      ensures o in s.root.complete && s.root.complete[o]
    {
      QuiescentOpIsComplete(w, s, rank, o);
      assert OpInv(w, s, o);
    }
  }
}
