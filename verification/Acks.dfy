/** Delivery-order tracking: out-of-order acknowledgements become a committed prefix. */
module Acks {
  import opened Options
  import opened Watcher

  /** Length of the longest acknowledged prefix of the sequence numbers below `n`. */
  function PrefixLen(acks: set<nat>, n: nat): (k: nat)
    ensures k <= n
    ensures forall i :: 0 <= i < k ==> i in acks
    ensures k < n ==> k !in acks
  {
    if n == 0 then 0 else
      var k := PrefixLen(acks, n - 1);
      if k == n - 1 && k in acks then n else k
  }

  /** The position just behind that prefix; where tracking began if the prefix is empty. */
  function CommittedOf(initial: Option<Position>, tracked: seq<Position>, acks: set<nat>): Option<Position> {
    var k := PrefixLen(acks, |tracked|);
    if k == 0 then initial else Some(tracked[k - 1])
  }

  /** The prefix is the only one that is acknowledged throughout and not followed by an acknowledged line. */
  lemma PrefixLenUnique(acks: set<nat>, n: nat, k: nat)
    requires k <= n && (forall i :: 0 <= i < k ==> i in acks) && (k < n ==> k !in acks)
    ensures PrefixLen(acks, n) == k
  {
    assert PrefixLen(acks, n) < k ==> PrefixLen(acks, n) in acks;
  }

  lemma CommittedAt(initial: Option<Position>, tracked: seq<Position>, acks: set<nat>, k: nat)
    requires k <= |tracked| && (forall i :: 0 <= i < k ==> i in acks) && (k < |tracked| ==> k !in acks)
    ensures PrefixLen(acks, |tracked|) == k
    ensures CommittedOf(initial, tracked, acks) == if k == 0 then initial else Some(tracked[k - 1])
  {
    PrefixLenUnique(acks, |tracked|, k);
  }

  /** More acknowledgements and more lines never move the committed prefix back. */
  lemma PrefixLenMonotone(a: set<nat>, m: nat, b: set<nat>, n: nat)
    requires a <= b && m <= n
    ensures PrefixLen(a, m) <= PrefixLen(b, n)
  {
    var j := PrefixLen(b, n);
    assert j < PrefixLen(a, m) ==> j in a;
  }

  /** (seq, inode, end offset) */
  datatype Owing = Owing(num: nat, pos: Position)

  class AckTracker {
    var committed: Option<Position>
    var nextSeq: nat
    var pending: seq<Owing>
    var acked: set<nat>
    ghost const initial: Option<Position>
    ghost var tracked: seq<Position>  // every line ever tracked
    ghost var acks: set<nat>          // every sequence number ever acknowledged

    ghost predicate Valid()
      reads this
    {
      && nextSeq == |tracked| && |pending| <= nextSeq
      && var head := nextSeq - |pending|;
      && head == PrefixLen(acks, nextSeq)
      && (forall i :: 0 <= i < |pending| ==> pending[i] == Owing(head + i, tracked[head + i]))
      && (forall s :: s in acks || s in acked ==> s < nextSeq)
      && (forall s :: head <= s < nextSeq ==> (s in acked <==> s in acks))
      && committed == CommittedOf(initial, tracked, acks)
    }

    constructor (start: Option<Position>)
      ensures Valid() && initial == start && tracked == [] && acks == {} && committed == start
    {
      committed, nextSeq, pending, acked := start, 0, [], {};
      initial, tracked, acks := start, [], {};
    }

    /** Register a line that was read. */
    method Track(inode: int, end: nat) returns (num: nat)
      requires Valid()
      modifies this
      ensures Valid() && num == |old(tracked)| && num !in acks
      ensures tracked == old(tracked) + [Position(inode, end)] && acks == old(acks)
      ensures committed == old(committed) && |pending| == |old(pending)| + 1
    {
      num := nextSeq;
      nextSeq := nextSeq + 1;
      pending := pending + [Owing(num, Position(inode, end))];
      ghost var head := PrefixLen(acks, |tracked|);
      tracked := tracked + [Position(inode, end)];
      PrefixLenUnique(acks, nextSeq, head);
    }

    /** Mark a line as delivered: in whatever order this happens, what is committed afterwards is the
        longest acknowledged prefix. */
    method Ack(num: nat)
      requires Valid() && num < |tracked|
      modifies this
      ensures Valid() && acks == old(acks) + {num} && tracked == old(tracked)
      ensures var k := |tracked| - |pending|;
              && k >= 0 && (forall i :: 0 <= i < k ==> i in acks) && (k < |tracked| ==> k !in acks)
              && committed == if k == 0 then initial else Some(tracked[k - 1])
    {
      hide PrefixLen, CommittedOf;
      acked := acked + {num};
      acks := acks + {num};
      ghost var p, h := pending, nextSeq - |pending|;
      while pending != [] && pending[0].num in acked
        invariant acks == old(acks) + {num} && tracked == old(tracked) && nextSeq == old(nextSeq)
        invariant |pending| <= |p|
        invariant forall i :: 0 <= i < |pending| ==>
                    pending[i] == Owing(nextSeq - |pending| + i, tracked[nextSeq - |pending| + i])
        invariant forall s :: s in acked ==> s < nextSeq
        invariant forall s :: h <= s < nextSeq - |pending| ==> s in acks
        invariant forall s :: nextSeq - |pending| <= s < nextSeq ==> (s in acked <==> s in acks)
        invariant committed == if |pending| == |p| then old(committed) else Some(tracked[nextSeq - |pending| - 1])
        decreases |pending|
      {
        var first := pending[0];
        pending := pending[1..];
        acked := acked - {first.num};
        committed := Some(first.pos);
      }
      CommittedAt(initial, tracked, old(acks), h);
      CommittedAt(initial, tracked, acks, nextSeq - |pending|);
    }
  }

  /** Acknowledging one after the other. */
  function AckAll(acks: set<nat>, order: seq<nat>): set<nat>
    decreases |order|
  {
    if order == [] then acks else AckAll(acks + {order[0]}, order[1..])
  }

  lemma {:induction false} AckAllIs(acks: set<nat>, order: seq<nat>)
    ensures forall s :: s in AckAll(acks, order) <==> s in acks || s in order
    decreases |order|
  {
    if order != [] {
      AckAllIs(acks + {order[0]}, order[1..]);
      assert order == [order[0]] + order[1..];
    }
  }

  /** The order of the acknowledgements, and repeating one, make no difference to what is committed. */
  lemma OrderIrrelevant(initial: Option<Position>, tracked: seq<Position>, a: seq<nat>, b: seq<nat>)
    requires forall s :: s in a <==> s in b
    ensures CommittedOf(initial, tracked, AckAll({}, a)) == CommittedOf(initial, tracked, AckAll({}, b))
  {
    AckAllIs({}, a);
    AckAllIs({}, b);
    assert AckAll({}, a) == AckAll({}, b);
  }
}
