/** A FIFO queue of bounded size that makes room by discarding its oldest element. */
module FixedSizeQueues {

  /** The content after a push. */
  function PushOn<T>(c: seq<T>, maxSize: nat, value: T): seq<T>
    requires maxSize >= 1
  {
    (if |c| >= maxSize then c[1..] else c) + [value]
  }

  class FixedSizeQueue<T> {
    const maxSize: nat
    var c: seq<T>

    predicate Valid()
      reads this
    {
      maxSize >= 1 && |c| <= maxSize
    }

    constructor (maxSize: nat)
      requires maxSize >= 1
      ensures Valid() && c == [] && this.maxSize == maxSize
    {
      this.maxSize := maxSize;
      c := [];
    }

    method Push(value: T)
      requires Valid()
      modifies this
      ensures Valid() && c == PushOn(old(c), maxSize, value)
    {
      if |c| >= maxSize {
        c := c[1..];
      }
      c := c + [value];
    }

    method Pop()
      requires Valid() && c != []
      modifies this
      ensures Valid() && old(c) == [old(c)[0]] + c
    {
      c := c[1..];
    }

    method Clear()
      requires Valid()
      modifies this
      ensures Valid() && c == []
    {
      while c != []
        invariant Valid()
        decreases |c|
      {
        c := c[1..];
      }
    }
  }

  // ---------- Histories ----------

  datatype Op<T> = Push(value: T) | Pop

  /** How an element left, and how many elements had been pushed by then. */
  datatype Exit = Popped(pushed: nat) | Dropped(pushed: nat)

  /** The content together with everything that happened. */
  datatype History<T> = History(content: seq<T>, pushes: seq<T>, exits: seq<Exit>)

  function Step<T>(h: History<T>, maxSize: nat, op: Op<T>): History<T>
    requires maxSize >= 1
    requires op.Pop? ==> h.content != []
  {
    match op
    case Push(v) =>
      var exits := if |h.content| >= maxSize then h.exits + [Dropped(|h.pushes|)] else h.exits;
      History(PushOn(h.content, maxSize, v), h.pushes + [v], exits)
    case Pop => History(h.content[1..], h.pushes, h.exits + [Popped(|h.pushes|)])
  }

  /** Every pop finds an element. */
  predicate Legal<T>(h: History<T>, maxSize: nat, ops: seq<Op<T>>)
    requires maxSize >= 1
    decreases |ops|
  {
    ops == [] ||
    ((ops[0].Pop? ==> h.content != []) && Legal(Step(h, maxSize, ops[0]), maxSize, ops[1..]))
  }

  function Run<T>(h: History<T>, maxSize: nat, ops: seq<Op<T>>): History<T>
    requires maxSize >= 1 && Legal(h, maxSize, ops)
    decreases |ops|
  {
    if ops == [] then h else Run(Step(h, maxSize, ops[0]), maxSize, ops[1..])
  }

  /** The `k`-th element pushed is the `k`-th to leave. It is dropped exactly at the push that is
      `maxSize` later than its own; a pop takes it before that. */
  ghost predicate Accounted<T>(h: History<T>, maxSize: nat) {
    && |h.content| <= maxSize
    && |h.exits| <= |h.pushes|
    && h.content == h.pushes[|h.exits|..]
    && forall k | 0 <= k < |h.exits| ::
         match h.exits[k]
         case Dropped(n) => n == k + maxSize && n < |h.pushes|
         case Popped(n) => k < n <= k + maxSize && n <= |h.pushes|
  }

  lemma StepAccounted<T>(h: History<T>, maxSize: nat, op: Op<T>)
    requires maxSize >= 1 && Accounted(h, maxSize)
    requires op.Pop? ==> h.content != []
    ensures Accounted(Step(h, maxSize, op), maxSize)
  {
  }

  /** For every run of pushes and legal pops: the content is a suffix of the push history, no longer
      than the bound, and only the push on a full queue discards, always the oldest. */
  lemma {:induction false} RunAccounted<T>(h: History<T>, maxSize: nat, ops: seq<Op<T>>)
    requires maxSize >= 1 && Accounted(h, maxSize) && Legal(h, maxSize, ops)
    ensures Accounted(Run(h, maxSize, ops), maxSize)
    decreases |ops|
  {
    if ops == [] {
    } else {
      StepAccounted(h, maxSize, ops[0]);
      RunAccounted(Step(h, maxSize, ops[0]), maxSize, ops[1..]);
    }
  }

  lemma AccountedSuffix<T>(h: History<T>, maxSize: nat)
    requires Accounted(h, maxSize)
    ensures |h.content| <= maxSize && |h.content| <= |h.pushes|
    ensures h.content == h.pushes[|h.pushes| - |h.content|..]
  {
  }

  lemma PushLengths<T>(h: History<T>, maxSize: nat, value: T)
    requires maxSize >= 1 && Accounted(h, maxSize)
    ensures var h' := Step(h, maxSize, Push(value));
            && |h'.pushes| == |h.pushes| + 1 && |h.content| <= maxSize
            && |h'.content| == if |h.content| == maxSize then maxSize else |h.content| + 1
  {
  }

  /** Without pops the queue holds exactly the last `maxSize` elements pushed. */
  lemma {:induction false} KeepsTheLast<T>(h: History<T>, maxSize: nat, ops: seq<Op<T>>)
    requires maxSize >= 1 && Accounted(h, maxSize) && Legal(h, maxSize, ops)
    requires forall k :: 0 <= k < |ops| ==> ops[k].Push?
    ensures var end := Run(h, maxSize, ops);
            && |end.pushes| == |h.pushes| + |ops|
            && |end.content| <= |end.pushes| && end.content == end.pushes[|end.pushes| - |end.content|..]
            && |end.content| == if |h.content| + |ops| <= maxSize then |h.content| + |ops| else maxSize
    decreases |ops|
  {
    hide Accounted, Step;
    if ops == [] {
      AccountedSuffix(h, maxSize);
    } else {
      StepAccounted(h, maxSize, ops[0]);
      PushLengths(h, maxSize, ops[0].value);
      KeepsTheLast(Step(h, maxSize, ops[0]), maxSize, ops[1..]);
    }
  }
}
