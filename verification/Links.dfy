/** What holds of one directed pair of operators: which messages the first ever sent to the
    second, and where they are now.  `Protocol` lifts this to whole systems.
 */
module Links {
  import opened Directories
  import opened OperatorActor

  /** `m` is a message an operator `a` may send to another operator. */
  predicate SentBy(m: Message, a: OpName) {
    (m.Data? || m.Complete?) && m.sender == a
  }

  /** The subsequence of messages that come from `a`. */
  ghost function From(ms: seq<Message>, a: OpName): seq<Message> {
    if ms == [] then []
    else From(ms[..|ms| - 1], a) + if SentBy(ms[|ms| - 1], a) then [ms[|ms| - 1]] else []
  }

  lemma FromAppend(ms: seq<Message>, m: Message, a: OpName)
    ensures From(ms + [m], a) == From(ms, a) + if SentBy(m, a) then [m] else []
  {
  }

  lemma {:induction false} FromPop(ms: seq<Message>, a: OpName)
    requires ms != []
    ensures From(ms, a) == (if SentBy(ms[0], a) then [ms[0]] else []) + From(ms[1..], a)
    decreases |ms|
  {
    if |ms| > 1 {
      var most, last := ms[..|ms| - 1], ms[|ms| - 1];
      FromPop(most, a);
      assert ms[1..][..|ms| - 2] == most[1..];
    }
  }

  lemma {:induction false} FromHas(ms: seq<Message>, a: OpName, m: Message)
    ensures m in From(ms, a) <==> m in ms && SentBy(m, a)
    decreases |ms|
  {
    if ms != [] {
      FromHas(ms[..|ms| - 1], a, m);
      assert ms == ms[..|ms| - 1] + [ms[|ms| - 1]];
    }
  }

  /** COMPLETE is sent once and last, or not yet. */
  ghost predicate ClosedBy(sent: seq<Message>, a: OpName, done: bool) {
    && (done ==> sent != [] && sent[|sent| - 1] == Complete(a))
    && (forall i | 0 <= i < |sent| && sent[i] == Complete(a) :: done && i == |sent| - 1)
  }

  ghost predicate MarkedComplete(b: Actor, a: OpName) {
    a in b.directory.entries && b.directory.entries[a].complete
  }

  /** The invariant of the channel from `a` to the actor `b`: what was ever sent is exactly what
      was handed to `b`'s operator, then what `b` buffers, then what is in flight. COMPLETE goes
      over an edge, that is to a consumer; data may go upstream as well. */
  ghost predicate LinkInv(a: OpName, edge: bool, done: bool, b: Actor, wire: seq<Message>, sent: seq<Message>) {
    && sent == From(b.received, a) + Pending(b, a, wire)
    && (forall i | 0 <= i < |sent| :: SentBy(sent[i], a))
    && ClosedBy(sent, a, edge && done)
    && (MarkedComplete(b, a) <==> Complete(a) in b.received)
  }

  /** What `a` sent and `b` has not handed on yet. */
  ghost function Pending(b: Actor, a: OpName, wire: seq<Message>): seq<Message> {
    From(b.buffer, a) + wire
  }

  lemma LinkSend(a: OpName, edge: bool, done: bool, b: Actor, wire: seq<Message>, sent: seq<Message>, m: Message)
    requires LinkInv(a, edge, done, b, wire, sent)
    requires SentBy(m, a) && (m.Complete? ==> edge) && (edge ==> !done)
    ensures LinkInv(a, edge, done || m.Complete?, b, wire + [m], sent + [m])
  {
  }

  /** Buffering a message keeps every link of the receiver: it moves from the wire to the buffer. */
  lemma BufferingKeepsPending(a: OpName, b: Actor, wire: seq<Message>, m: Message)
    requires SentBy(m, a) ==> wire != [] && wire[0] == m
    ensures Pending(b.(buffer := b.buffer + [m]), a, if SentBy(m, a) then wire[1..] else wire) == Pending(b, a, wire)
  {
  }

  /** Handing on the next pending message of one link leaves every link intact. */
  lemma LinkDispatch(a: OpName, edge: bool, done: bool, b: Actor, wire: seq<Message>, sent: seq<Message>,
                     m: Message, mid: Actor, wire': seq<Message>)
    requires LinkInv(a, edge, done, b, wire, sent)
    requires mid == b.(buffer := mid.buffer)
    requires Pending(b, a, wire) == (if SentBy(m, a) then [m] else []) + Pending(mid, a, wire')
    requires Dispatch(mid, m).errors == b.errors
    requires m.Data? || m.Complete?
    ensures LinkInv(a, edge, done, Dispatch(mid, m), wire', sent)
  {
    DispatchKeepsMark(a, mid, m);
    DispatchMovesNext(a, mid, m, wire');
    assert Dispatch(mid, m).received == b.received + [m];
  }

  lemma DispatchMovesNext(a: OpName, mid: Actor, m: Message, wire: seq<Message>)
    requires Dispatch(mid, m).errors == mid.errors
    ensures From(Dispatch(mid, m).received, a) + Pending(Dispatch(mid, m), a, wire) ==
            From(mid.received, a) + ((if SentBy(m, a) then [m] else []) + Pending(mid, a, wire))
  {
    FromAppend(mid.received, m, a);
    var x, head, rest := From(mid.received, a), if SentBy(m, a) then [m] else [], Pending(mid, a, wire);
    assert x + (head + rest) == (x + head) + rest;
  }

  lemma DispatchKeepsMark(a: OpName, b: Actor, m: Message)
    requires MarkedComplete(b, a) <==> Complete(a) in b.received
    requires Dispatch(b, m).errors == b.errors
    ensures MarkedComplete(Dispatch(b, m), a) <==> Complete(a) in Dispatch(b, m).received
  {
  }

  /** A COMPLETE that is next on its link closes it and has not been processed before. */
  lemma NextCompleteIsFirst(a: OpName, edge: bool, done: bool, b: Actor, wire: seq<Message>, sent: seq<Message>)
    requires LinkInv(a, edge, done, b, wire, sent)
    requires Pending(b, a, wire) != [] && Pending(b, a, wire)[0] == Complete(a)
    ensures edge && done && !MarkedComplete(b, a) && |Pending(b, a, wire)| == 1
  {
    var x := From(b.received, a);
    assert sent[|x|] == Complete(a);
    FromHas(b.received, a, Complete(a));
    assert forall i | 0 <= i < |x| :: x[i] == sent[i];
  }

  /** Once the receiver has marked the sender complete, the link is drained: everything ever
      sent over it was handed to the receiver's operator. */
  lemma MarkedLinkIsDrained(a: OpName, edge: bool, done: bool, b: Actor, wire: seq<Message>, sent: seq<Message>)
    requires LinkInv(a, edge, done, b, wire, sent)
    requires MarkedComplete(b, a)
    ensures From(b.buffer, a) == [] && wire == [] && From(b.received, a) == sent
  {
    var x := From(b.received, a);
    FromHas(b.received, a, Complete(a));
    var i :| 0 <= i < |x| && x[i] == Complete(a);
    assert sent[i] == Complete(a);
    assert |Pending(b, a, wire)| == 0;
  }

  /** Conversely, a closed link with nothing buffered and nothing in flight is marked. */
  lemma DrainedLinkIsMarked(a: OpName, b: Actor, sent: seq<Message>)
    requires LinkInv(a, true, true, b, [], sent)
    requires b.buffer == []
    ensures MarkedComplete(b, a)
  {
    assert Pending(b, a, []) == [];
    assert sent == From(b.received, a);
    FromHas(b.received, a, Complete(a));
  }
}
