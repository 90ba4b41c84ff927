/**
 The bounded, drop-oldest queue of one event subscriber.
 */
module EventQueue {
  import opened Wrappers

  const QUEUE_MAXSIZE := 256

  /** The queue after delivering x: when it is full the oldest entry makes room. */
  function Offer<T>(items: seq<T>, x: T): seq<T> {
    if |items| < QUEUE_MAXSIZE then items + [x] else items[1..] + [x]
  }

  class Queue<T> {
    var items: seq<T>

    constructor ()
      ensures items == []
    {
      items := [];
    }

    /** False stands for the QueueFull error. */
    method PutNowait(x: T) returns (ok: bool)
      modifies this
      ensures ok == (|old(items)| < QUEUE_MAXSIZE)
      ensures items == if ok then old(items) + [x] else old(items)
    {
      ok := |items| < QUEUE_MAXSIZE;
      if ok {
        items := items + [x];
      }
    }

    /** The oldest entry; None stands for the QueueEmpty error. */
    method GetNowait() returns (x: Option<T>)
      modifies this
      ensures x == if old(items) == [] then None else Some(old(items)[0])
      ensures items == if old(items) == [] then [] else old(items)[1..]
    {
      x := None;
      if items != [] {
        x := Some(items[0]);
        items := items[1..];
      }
    }

    method Deliver(x: T)
      requires |items| <= QUEUE_MAXSIZE
      modifies this
      ensures items == Offer(old(items), x)
      ensures |items| <= QUEUE_MAXSIZE && items[|items| - 1] == x
    {
      var ok := PutNowait(x);
      if !ok {
        var oldest := GetNowait();
        ok := PutNowait(x);
      }
    }
  }

  // ---------------------------------------------------------------- a queue over a whole run

  datatype Op<T> = Delivery(x: T) | Consumption

  /** Queue contents, everything ever delivered, and what the consumer took, by index into that. */
  datatype History<T> = History(items: seq<T>, delivered: seq<T>, seen: seq<T>, taken: seq<int>, dropped: nat)

  function Fresh<T>(): History<T> {
    History([], [], [], [], 0)
  }

  function Step<T>(h: History<T>, op: Op<T>): History<T> {
    match op
    case Delivery(x) =>
      h.(items := Offer(h.items, x), delivered := h.delivered + [x],
         dropped := if |h.items| < QUEUE_MAXSIZE then h.dropped else h.dropped + 1)
    case Consumption =>
      if h.items == [] then h
      else h.(items := h.items[1..], seen := h.seen + [h.items[0]],
              taken := h.taken + [|h.delivered| - |h.items|])
  }

  function After<T>(ops: seq<Op<T>>): History<T> {
    if ops == [] then Fresh() else Step(After(ops[..|ops| - 1]), ops[|ops| - 1])
  }

  /** The queue is a gap-free tail of what was delivered. */
  ghost predicate HoldsTail<T>(h: History<T>) {
    |h.items| <= QUEUE_MAXSIZE && |h.items| <= |h.delivered|
    && forall i :: 0 <= i < |h.items| ==> h.items[i] == h.delivered[|h.delivered| - |h.items| + i]
  }

  /** The consumer took earlier deliveries, each once and in order. */
  ghost predicate TookInOrder<T>(h: History<T>) {
    && |h.taken| == |h.seen|
    && (forall i :: 0 <= i < |h.taken| ==> 0 <= h.taken[i] < |h.delivered| - |h.items|)
    && (forall i :: 0 <= i < |h.taken| ==> h.seen[i] == h.delivered[h.taken[i]])
    && (forall i, k :: 0 <= i < k < |h.taken| ==> h.taken[i] < h.taken[k])
  }

  /** Nothing is lost but what was dropped. */
  ghost predicate Accounts<T>(h: History<T>) {
    |h.delivered| == |h.seen| + |h.items| + h.dropped
    && (h.dropped == 0 ==> forall i :: 0 <= i < |h.seen| ==> h.seen[i] == h.delivered[i])
  }

  ghost predicate Refines<T>(h: History<T>) {
    HoldsTail(h) && TookInOrder(h) && Accounts(h)
  }

  lemma {:induction false} DeliveryRefines<T>(h: History<T>, x: T)
    requires Refines(h)
    ensures Refines(Step(h, Delivery(x)))
  {
  }

  lemma {:induction false} ConsumptionRefines<T>(h: History<T>)
    requires Refines(h)
    ensures Refines(Step(h, Consumption))
  {
    if h.items != [] {
      var h' := Step(h, Consumption);
      assert h.items[0] == h.delivered[|h.delivered| - |h.items|];
      assert forall i :: 0 <= i < |h'.items| ==> h'.items[i] == h.items[i + 1];
    }
  }

  /**
   Over every run of deliveries and consumptions the queue holds the last events delivered,
   at most 256 of them and without a gap; the consumer saw earlier ones, in order and each
   once; what it neither saw nor can still see was dropped.
   */
  lemma {:induction false} QueueRefinesLog<T>(ops: seq<Op<T>>)
    ensures Refines(After(ops))
  {
    if ops == [] {
    } else {
      QueueRefinesLog(ops[..|ops| - 1]);
      match ops[|ops| - 1]
      case Delivery(x) => DeliveryRefines(After(ops[..|ops| - 1]), x);
      case Consumption => ConsumptionRefines(After(ops[..|ops| - 1]));
    }
  }

  /** The queue is never found full by a delivery. */
  ghost predicate NeverLags<T>(ops: seq<Op<T>>) {
    ops == []
    || (NeverLags(ops[..|ops| - 1])
        && (ops[|ops| - 1].Delivery? ==> |After(ops[..|ops| - 1]).items| < QUEUE_MAXSIZE))
  }

  lemma {:induction false} DropsCountLags<T>(ops: seq<Op<T>>)
    ensures After(ops).dropped == 0 <==> NeverLags(ops)
  {
    if ops == [] {
    } else {
      DropsCountLags(ops[..|ops| - 1]);
    }
  }

  /** What was seen and what is queued make up the whole log exactly when the consumer never lagged. */
  lemma {:induction false} WholeLogIffNeverLags<T>(ops: seq<Op<T>>)
    ensures var h := After(ops); h.seen + h.items == h.delivered <==> NeverLags(ops)
  {
    QueueRefinesLog(ops);
    DropsCountLags(ops);
  }

  /** The deliveries among some operations. */
  function Deliveries<T>(ops: seq<Op<T>>): seq<T> {
    if ops == [] then []
    else
      Deliveries(ops[..|ops| - 1]) + (match ops[|ops| - 1] case Delivery(x) => [x] case Consumption => [])
  }

  lemma {:induction false} DeliveredInTurn<T>(ops: seq<Op<T>>)
    ensures After(ops).delivered == Deliveries(ops)
  {
    if ops == [] {
    } else {
      DeliveredInTurn(ops[..|ops| - 1]);
    }
  }
}
