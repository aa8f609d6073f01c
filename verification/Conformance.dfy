/** The steps of `Protocol` are what the actors' code does: what an operator's methods send is what
    the steps put on the channels, and what the root does with a message is what `join` does. */
module Conformance {
  import opened Collections
  import opened Directories
  import opened OperatorActor
  import opened Protocol
  import opened ProtocolSafety

  // ---------------------------------------------------------------------------
  // Operators

  /** The messages to one recipient, in order. */
  ghost function To(sends: seq<Outgoing>, recipient: Recipient): seq<Message> {
    if sends == [] then []
    else
      var n := |sends| - 1;
      To(sends[..n], recipient) + if sends[n].to == recipient then [sends[n].message] else []
  }

  lemma ToOneMore(sends: seq<Outgoing>, last: Outgoing, recipient: Recipient)
    ensures To(sends + [last], recipient) == To(sends, recipient) + if last.to == recipient then [last.message] else []
  {
    assert (sends + [last])[..|sends|] == sends;
  }

  /** Every consumer gets the message once, and nobody else does. */
  lemma {:induction false} EachGetsOne(consumers: seq<OpName>, m: Message, c: OpName)
    requires Distinct(consumers)
    ensures To(ToEach(consumers, m), Op(c)) == if c in consumers then [m] else []
    ensures To(ToEach(consumers, m), Root) == []
    decreases |consumers|
  {
    if consumers != [] {
      var most, last := consumers[..|consumers| - 1], consumers[|consumers| - 1];
      assert consumers == most + [last] && last !in most;
      EachGetsOne(most, m, c);
      ToOneMore(ToEach(most, m), Outgoing(Op(last), m), Op(c));
      ToOneMore(ToEach(most, m), Outgoing(Op(last), m), Root);
    }
  }

  /** `sends` are what operator `o` puts on its channels between `s` and `s'`, and nothing else moves. */
  ghost predicate PutsOnChannels(w: Wiring, s: System, s': System, o: OpName, sends: seq<Outgoing>) {
    && (forall c :: s'.wire(o, c) == s.wire(o, c) + To(sends, Op(c)) && s'.sent(o, c) == s.sent(o, c) + To(sends, Op(c)))
    && (forall x, c | x != o :: s'.wire(x, c) == s.wire(x, c) && s'.sent(x, c) == s.sent(x, c))
    && s'.toRoot(o) == s.toRoot(o) + To(sends, Root)
    && (forall x | x != o :: s'.toRoot(x) == s.toRoot(x) && s'.actor(x) == s.actor(x))
  }

  lemma ErrorToRoot(o: OpName, c: OpName)
    ensures To([Outgoing(Root, Error(o))], Op(c)) == [] && To([Outgoing(Root, Error(o))], Root) == [Error(o)]
  {
    ToOneMore([], Outgoing(Root, Error(o)), Op(c));
    ToOneMore([], Outgoing(Root, Error(o)), Root);
    assert [] + [Outgoing(Root, Error(o))] == [Outgoing(Root, Error(o))];
  }

  /** The step of `tell` sends what the method sends, and does to the actor what the method does. */
  lemma TellStepSendsTell(w: Wiring, s: System, o: OpName, payload: Payload)
    requires WellWired(w) && Enabled(w, s, Tell(o, payload))
    ensures var a, s' := s.actor(o), Apply(w, s, Tell(o, payload));
            && PutsOnChannels(w, s, s', o, TellSends(o, a.complete, a.errors > 0, w.consumers(o), Data(o, payload)))
            && s'.actor(o) == a.(errors := a.errors + if a.complete then 1 else 0)
  {
    var a, m := s.actor(o), Data(o, payload);
    var sends := TellSends(o, a.complete, a.errors > 0, w.consumers(o), m);
    ConsumersDistinct(w, o);
    forall c
      ensures To(sends, Op(c)) == if a.complete || a.errors > 0 || c !in w.consumers(o) then [] else [m]
      ensures To(sends, Root) == if a.complete && a.errors == 0 then [Error(o)] else []
    {
      TellGoesTo(o, a.complete, a.errors > 0, w.consumers(o), m, c);
    }
    TellPuts(w, s, o, payload, sends);
  }

  lemma TellPuts(w: Wiring, s: System, o: OpName, payload: Payload, sends: seq<Outgoing>)
    requires Enabled(w, s, Tell(o, payload))
    requires var a, m := s.actor(o), Data(o, payload);
             && (forall c :: To(sends, Op(c)) == if a.complete || a.errors > 0 || c !in w.consumers(o) then [] else [m])
             && To(sends, Root) == if a.complete && a.errors == 0 then [Error(o)] else []
    ensures PutsOnChannels(w, s, Apply(w, s, Tell(o, payload)), o, sends)
  {
  }

  lemma TellGoesTo(o: OpName, complete: bool, cut: bool, consumers: seq<OpName>, m: Message, c: OpName)
    requires Distinct(consumers)
    ensures To(TellSends(o, complete, cut, consumers, m), Op(c)) == if complete || cut || c !in consumers then [] else [m]
    ensures To(TellSends(o, complete, cut, consumers, m), Root) == if complete && !cut then [Error(o)] else []
  {
    EachGetsOne(consumers, m, c);
    ErrorToRoot(o, c);
  }

  lemma CompleteGoesTo(o: OpName, complete: bool, cut: bool, consumers: seq<OpName>, c: OpName)
    requires Distinct(consumers)
    ensures To(CompleteSends(o, complete, cut, consumers), Op(c)) == if complete || cut || c !in consumers then [] else [Complete(o)]
    ensures To(CompleteSends(o, complete, cut, consumers), Root)
         == if cut then [] else if complete then [Error(o)] else [Complete(o)]
  {
    EachGetsOne(consumers, Complete(o), c);
    ErrorToRoot(o, c);
    ToOneMore(ToEach(consumers, Complete(o)), Outgoing(Root, Complete(o)), Op(c));
    ToOneMore(ToEach(consumers, Complete(o)), Outgoing(Root, Complete(o)), Root);
  }

  /** The same for `notifyComplete`. */
  lemma FinishStepSendsComplete(w: Wiring, s: System, o: OpName)
    requires WellWired(w) && Enabled(w, s, Finish(o))
    ensures var a, s' := s.actor(o), Apply(w, s, Finish(o));
            && PutsOnChannels(w, s, s', o, CompleteSends(o, a.complete, a.errors > 0, w.consumers(o)))
            && s'.actor(o) == a.(complete := true, errors := a.errors + if a.complete then 1 else 0)
  {
    var a := s.actor(o);
    var sends := CompleteSends(o, a.complete, a.errors > 0, w.consumers(o));
    ConsumersDistinct(w, o);
    forall c
      ensures To(sends, Op(c)) == if a.complete || a.errors > 0 || c !in w.consumers(o) then [] else [Complete(o)]
      ensures To(sends, Root) == if a.errors > 0 then [] else if a.complete then [Error(o)] else [Complete(o)]
    {
      CompleteGoesTo(o, a.complete, a.errors > 0, w.consumers(o), c);
    }
    FinishPuts(w, s, o, sends);
  }

  lemma FinishPuts(w: Wiring, s: System, o: OpName, sends: seq<Outgoing>)
    requires Enabled(w, s, Finish(o))
    requires var a := s.actor(o);
             && (forall c :: To(sends, Op(c)) == if a.complete || a.errors > 0 || c !in w.consumers(o) then [] else [Complete(o)])
             && To(sends, Root) == if a.errors > 0 then [] else if a.complete then [Error(o)] else [Complete(o)]
    ensures PutsOnChannels(w, s, Apply(w, s, Finish(o)), o, sends)
  {
  }

  lemma ConsumersDistinct(w: Wiring, o: OpName)
    requires WellWired(w) && o in w.order
    ensures Distinct(w.consumers(o))
  {
    var all, p := w.producers(o) + w.consumers(o), |w.producers(o)|;
    forall i, j | 0 <= i < j < |w.consumers(o)|
      ensures w.consumers(o)[i] != w.consumers(o)[j]
    {
      assert all[p + i] == w.consumers(o)[i] && all[p + j] == w.consumers(o)[j];
    }
  }

  // ---------------------------------------------------------------------------
  // The root

  lemma {:induction false} PrefixIsRun(w: Wiring, steps: seq<Step>, i: nat)
    requires IsRun(w, steps) && i <= |steps|
    ensures IsRun(w, steps[..i])
    decreases |steps|
  {
    if i == |steps| {
      assert steps[..i] == steps;
    } else {
      var before := steps[..|steps| - 1];
      PrefixIsRun(w, before, i);
      assert before[..i] == steps[..i];
    }
  }

  /** The message the root takes in step `i`. */
  ghost function TakenAt(w: Wiring, steps: seq<Step>, i: nat): Message
    requires IsRun(w, steps) && i < |steps| && steps[i].RootTake?
  {
    PrefixIsRun(w, steps, i);
    PrefixIsRun(w, steps, i + 1);
    assert steps[..i + 1][..i] == steps[..i];
    After(w, steps[..i]).toRoot(steps[i].op)[0]
  }

  /** What makes `join` throw: anything but the first COMPLETE of an operator. */
  ghost predicate Refused(d: OpDirectory, m: Message) {
    !m.Complete? || m.sender !in d.complete || d.complete[m.sender]
  }

  lemma RootThrowsExactly(d: OpDirectory, m: Message)
    ensures RootHandle(d, m).1 == Threw <==> Refused(d, m)
    ensures !Refused(d, m) ==> RootHandle(d, m).0.complete == d.complete[m.sender := true]
  {
  }

  lemma {:induction false} EndStays(w: Wiring, steps: seq<Step>, i: nat)
    requires IsRun(w, steps) && i <= |steps| && IsRun(w, steps[..i]) && After(w, steps[..i]).status != Waiting
    ensures After(w, steps).status == After(w, steps[..i]).status
    decreases |steps|
  {
    if i == |steps| {
      assert steps[..i] == steps;
    } else {
      var before := steps[..|steps| - 1];
      assert before[..i] == steps[..i];
      EndStays(w, before, i);
    }
  }

  /** In every run a root that took an error, or any message but the first COMPLETE of an operator, has
      thrown: so a root that returned took nothing but these. */
  lemma RefusedMessageThrows(w: Wiring, steps: seq<Step>, i: nat)
    requires IsRun(w, steps) && i < |steps| && steps[i].RootTake? && IsRun(w, steps[..i])
    requires Refused(After(w, steps[..i]).root, TakenAt(w, steps, i))
    ensures After(w, steps).status == Threw
  {
    PrefixIsRun(w, steps, i + 1);
    assert steps[..i + 1][..i] == steps[..i];
    RootThrowsExactly(After(w, steps[..i]).root, TakenAt(w, steps, i));
    assert After(w, steps[..i + 1]).status == Threw;
    EndStays(w, steps, i + 1);
  }
}
