/** The root side of the protocol as code: the two sending loops of `Execution::start` and the
    receive loop of `Execution::join`, proved against the functions `Protocol` runs on. */
module Execution {
  import opened Collections
  import opened Directories
  import opened OperatorActor
  import opened Protocol

  /** `join` over the messages that reach the root, in arrival order. */
  function JoinOver(d: OpDirectory, inbox: seq<Message>): (OpDirectory, Status)
    decreases |inbox|
  {
    if inbox == [] then (d, Waiting)
    else
      var (d', status) := RootHandle(d, inbox[0]);
      if status == Waiting then JoinOver(d', inbox[1..]) else (d', status)
  }

  // ---------------------------------------------------------------------------
  // What `join` does with the messages, said outright. `complete` is what the root knew before.

  /** Message `i` is the first COMPLETE of an operator that is known and was not complete. */
  ghost predicate Accepted(complete: map<OpName, bool>, inbox: seq<Message>, i: nat)
    requires i < |inbox|
  {
    inbox[i].Complete? && inbox[i].sender in complete && !complete[inbox[i].sender] && inbox[i] !in inbox[..i]
  }

  /** With the first `n` messages every operator is complete. */
  ghost predicate AllDone(complete: map<OpName, bool>, inbox: seq<Message>, n: nat)
    requires n <= |inbox|
  {
    forall o | o in complete :: complete[o] || Complete(o) in inbox[..n]
  }

  /** `join` gets to message `i`: it accepted every one before it, and none of them was the last. */
  ghost predicate Reached(complete: map<OpName, bool>, inbox: seq<Message>, i: nat)
    requires i <= |inbox|
  {
    forall j | 0 <= j < i :: Accepted(complete, inbox, j) && !AllDone(complete, inbox, j + 1)
  }

  ghost predicate ThrowsAt(complete: map<OpName, bool>, inbox: seq<Message>, i: nat) {
    i < |inbox| && Reached(complete, inbox, i) && !Accepted(complete, inbox, i)
  }

  ghost predicate ReturnsAt(complete: map<OpName, bool>, inbox: seq<Message>, i: nat) {
    i < |inbox| && Reached(complete, inbox, i) && Accepted(complete, inbox, i) && AllDone(complete, inbox, i + 1)
  }

  /** What the root knows after accepting the first `n` messages. */
  ghost predicate Knows(complete: map<OpName, bool>, inbox: seq<Message>, n: nat, complete': map<OpName, bool>)
    requires n <= |inbox|
  {
    && complete'.Keys == complete.Keys
    && forall o | o in complete :: complete'[o] <==> complete[o] || Complete(o) in inbox[..n]
  }

  /** `join` ends in at most one way. */
  lemma EndsOnce(complete: map<OpName, bool>, inbox: seq<Message>, i: nat, j: nat)
    ensures !(ThrowsAt(complete, inbox, i) && ReturnsAt(complete, inbox, j))
    ensures Reached(complete, inbox, |inbox|) ==> !ThrowsAt(complete, inbox, i) && !ReturnsAt(complete, inbox, j)
  {
  }

  lemma KnowsOneMore(complete: map<OpName, bool>, inbox: seq<Message>, n: nat, complete': map<OpName, bool>)
    requires n < |inbox| && Knows(complete, inbox, n, complete')
    ensures Accepted(complete, inbox, n) <==>
            inbox[n].Complete? && inbox[n].sender in complete' && !complete'[inbox[n].sender]
    ensures Accepted(complete, inbox, n) ==> Knows(complete, inbox, n + 1, complete'[inbox[n].sender := true])
  {
    assert inbox[..n + 1] == inbox[..n] + [inbox[n]];
  }

  /** One CONNECT per operator, in order. */
  lemma {:induction false} ConnectsEach(w: Wiring, order: seq<OpName>)
    ensures |ConnectAll(w, order)| == |order|
    ensures forall i | 0 <= i < |order| ::
              ConnectAll(w, order)[i] == (order[i], Connect(Connections(w.producers(order[i]), w.consumers(order[i]))))
    decreases |order|
  {
    if order != [] {
      ConnectsEach(w, order[..|order| - 1]);
    }
  }

  /** One START per operator, in order. */
  lemma {:induction false} StartsEach(order: seq<OpName>)
    ensures |StartAll(order)| == |order| && forall i | 0 <= i < |order| :: StartAll(order)[i] == (order[i], Message.Start)
    decreases |order|
  {
    if order != [] {
      StartsEach(order[..|order| - 1]);
    }
  }

  class Execution {
    const opDirectory: POpDirectory

    constructor (order: seq<OpName>)
      requires Distinct(order)
      ensures fresh(opDirectory) && opDirectory.Valid()
      ensures opDirectory.Snapshot() == RootDirectory(order)
    {
      var d := new POpDirectory();
      for i := 0 to |order|
        invariant d.Valid() && fresh(d) && d.Snapshot() == RootDirectory(order[..i])
      {
        assert order[..i + 1][..i] == order[..i];
        var _ := d.Insert(order[i]);
      }
      assert order[..|order|] == order;
      opDirectory := d;
    }

    method Start(w: Wiring) returns (sends: seq<(OpName, Message)>)
      requires opDirectory.Valid()
      modifies opDirectory
      ensures opDirectory.Snapshot() == old(opDirectory.Snapshot()).SetIncomplete()
      ensures sends == ConnectAll(w, w.order) + StartAll(w.order)
      ensures var n := |w.order|;
              && |sends| == n + n
              && (forall i | 0 <= i < n :: sends[i] == (w.order[i], Connect(Connections(w.producers(w.order[i]), w.consumers(w.order[i])))))
              && (forall i | 0 <= i < n :: sends[n + i] == (w.order[i], Message.Start))
    {
      ConnectsEach(w, w.order);
      StartsEach(w.order);
      opDirectory.SetIncomplete();
      var connects := ConnectEach(w);
      var starts := StartEach(w.order);
      sends := connects + starts;
    }

    method ConnectEach(w: Wiring) returns (sends: seq<(OpName, Message)>)
      ensures sends == ConnectAll(w, w.order)
    {
      sends := [];
      for i := 0 to |w.order|
        invariant sends == ConnectAll(w, w.order[..i])
      {
        assert w.order[..i + 1][..i] == w.order[..i];
        var connections := ConnectionsOf(w.producers(w.order[i]), w.consumers(w.order[i]));
        sends := sends + [(w.order[i], Connect(connections))];
      }
      assert w.order[..|w.order|] == w.order;
    }

    method StartEach(order: seq<OpName>) returns (sends: seq<(OpName, Message)>)
      ensures sends == StartAll(order)
    {
      sends := [];
      for i := 0 to |order|
        invariant sends == StartAll(order[..i])
      {
        assert order[..i + 1][..i] == order[..i];
        sends := sends + [(order[i], Message.Start)];
      }
      assert order[..|order|] == order;
    }

    method ConnectionsOf(producers: seq<OpName>, consumers: seq<OpName>) returns (connections: seq<Connection>)
      ensures connections == Connections(producers, consumers)
    {
      connections := [];
      for i := 0 to |producers|
        invariant connections == Connections(producers[..i], [])
      {
        connections := connections + [Connection(producers[i], Producer)];
      }
      for i := 0 to |consumers|
        invariant connections == Connections(producers, consumers[..i])
      {
        connections := connections + [Connection(consumers[i], Consumer)];
      }
    }

    /** Receives until every operator is known to be complete. It throws exactly when it gets to a
        message that is no COMPLETE, or a COMPLETE of an operator that is unknown or complete already;
        it returns exactly when it gets to the COMPLETE that was missing; else the inbox ran dry. It
        took `taken` messages, the one it threw at not counted. */
    method Join(inbox: seq<Message>) returns (status: Status, taken: nat)
      requires opDirectory.Valid()
      modifies opDirectory
      ensures opDirectory.Valid()
      ensures status == Threw <==> exists i :: ThrowsAt(old(opDirectory.complete), inbox, i)
      ensures status == Returned <==> exists i :: ReturnsAt(old(opDirectory.complete), inbox, i)
      ensures taken <= |inbox| && Knows(old(opDirectory.complete), inbox, taken, opDirectory.complete)
      ensures status == Returned ==> forall o | o in opDirectory.complete :: opDirectory.complete[o]
      ensures (opDirectory.Snapshot(), status) == JoinOver(old(opDirectory.Snapshot()), inbox)
    {
      ghost var before := opDirectory.complete;
      for i := 0 to |inbox|
        invariant opDirectory.Valid() && Reached(before, inbox, i) && Knows(before, inbox, i, opDirectory.complete)
        invariant JoinOver(opDirectory.Snapshot(), inbox[i..]) == JoinOver(old(opDirectory.Snapshot()), inbox)
      {
        var m := inbox[i];
        assert inbox[i..][0] == m && inbox[i..][1..] == inbox[i + 1..];
        KnowsOneMore(before, inbox, i, opDirectory.complete);
        if !m.Complete? {
          ThrowsExactly(before, inbox, i);
          return Threw, i;
        }
        var r := opDirectory.SetComplete(m.sender);
        if r != Ok {
          ThrowsExactly(before, inbox, i);
          return Threw, i;
        }
        RootAllCompleteIsForall(opDirectory.Snapshot());
        var allComplete := opDirectory.AllComplete();
        DoneExactly(before, inbox, i + 1, opDirectory.complete);
        if allComplete {
          ReturnsExactly(before, inbox, i);
          return Returned, i + 1;
        }
      }
      WaitsExactly(before, inbox);
      return Waiting, |inbox|;
    }
  }

  lemma DoneExactly(complete: map<OpName, bool>, inbox: seq<Message>, n: nat, complete': map<OpName, bool>)
    requires n <= |inbox| && Knows(complete, inbox, n, complete')
    ensures AllDone(complete, inbox, n) <==> forall o | o in complete' :: complete'[o]
  {
  }

  lemma ThrowsExactly(complete: map<OpName, bool>, inbox: seq<Message>, i: nat)
    requires ThrowsAt(complete, inbox, i)
    ensures exists j :: ThrowsAt(complete, inbox, j)
    ensures !exists j :: ReturnsAt(complete, inbox, j)
  {
    forall j: nat
      ensures !ReturnsAt(complete, inbox, j)
    {
      EndsOnce(complete, inbox, i, j);
    }
  }

  lemma ReturnsExactly(complete: map<OpName, bool>, inbox: seq<Message>, i: nat)
    requires ReturnsAt(complete, inbox, i)
    ensures exists j :: ReturnsAt(complete, inbox, j)
    ensures !exists j :: ThrowsAt(complete, inbox, j)
  {
    forall j: nat
      ensures !ThrowsAt(complete, inbox, j)
    {
      EndsOnce(complete, inbox, j, i);
    }
  }

  lemma WaitsExactly(complete: map<OpName, bool>, inbox: seq<Message>)
    requires Reached(complete, inbox, |inbox|)
    ensures !exists j :: ReturnsAt(complete, inbox, j)
    ensures !exists j :: ThrowsAt(complete, inbox, j)
  {
    forall j: nat
      ensures !ReturnsAt(complete, inbox, j) && !ThrowsAt(complete, inbox, j)
    {
      EndsOnce(complete, inbox, j, j);
    }
  }
}
