/** The hand-off from the journal collector to the queue's writer: two goroutines, an unbuffered channel
    between them, and a cursor on disk. */
module Journal {
  import opened Options

  /** What the collector does with the entry it read last: nothing, or, having handed entry `at` over,
      it is about to persist the cursor past it. */
  datatype Collector = Reading | Persisting(at: nat)

  /** `valid[i]` tells whether journal entry `i` is one the collector emits. `next` is the next entry the
      collector reads, `hand` the one the writer has taken from the channel and not yet written. On disk
      are the cursor, as the number of entries it is past, and the entries in the queue. `base`, `lost`
      and `deaths` only keep the books: reading never went back to before `base`, `lost` are the valid
      entries passed over since then, `deaths` the crashes and failed queue writes. */
  datatype State = State(
    valid: seq<bool>, next: nat, collector: Collector, hand: Option<nat>,
    cursor: Option<nat>, buffered: set<nat>, base: nat, lost: set<nat>, deaths: nat)

  /** `Stop` is a clean shutdown and the next start: the channel is drained and the cursor settled first. */
  datatype Step = Append(ok: bool) | Skip | Emit | Persist(saved: bool) | Buffer(ok: bool) | Stop | Crash

  ghost predicate Can(s: State, step: Step) {
    match step
    case Append(_) => true
    case Skip => s.collector.Reading? && s.next < |s.valid| && !s.valid[s.next]
    // An unbuffered send completes when the writer is back at its receive.
    case Emit => s.collector.Reading? && s.next < |s.valid| && s.valid[s.next] && s.hand.None?
    case Persist(_) => s.collector.Persisting?
    case Buffer(_) => s.hand.Some?
    case Stop => s.collector.Reading? && s.hand.None?
    case Crash => true
  }

  /** With no saved cursor the collector follows the journal from now on. */
  ghost function Start(s: State): State {
    var from := s.cursor.GetOr(|s.valid|);
    s.(next := from, collector := Reading, hand := None, base := if s.cursor.None? then from else s.base)
  }

  /** The entry a crash would pass over: handed over, behind the saved cursor, and in no file. */
  ghost function AtRisk(s: State): set<nat> {
    if s.hand.Some? && s.cursor.Some? && s.hand.value < s.cursor.value then {s.hand.value} - s.buffered else {}
  }

  ghost function Do(s: State, step: Step): State
    requires Can(s, step)
  {
    match step
    case Append(ok) => s.(valid := s.valid + [ok])
    case Skip => s.(next := s.next + 1)
    case Emit => s.(hand := Some(s.next), collector := Persisting(s.next))
    case Persist(saved) =>
      var past := s.collector.at + 1;
      s.(cursor := if saved then Some(past) else s.cursor, next := past, collector := Reading)
    case Buffer(ok) =>
      if ok then s.(buffered := s.buffered + {s.hand.value}, hand := None)
      else s.(lost := s.lost + ({s.hand.value} - s.buffered), hand := None, deaths := s.deaths + 1)
    case Stop => Start(s)
    case Crash => Start(s.(lost := s.lost + AtRisk(s), deaths := s.deaths + 1))
  }

  ghost predicate Accounted(s: State, i: nat) {
    i in s.buffered || i in s.lost || s.hand == Some(i)
  }

  ghost predicate Inv(s: State) {
    && s.base <= s.next <= |s.valid|
    && (s.cursor.Some? ==> s.base <= s.cursor.value <= s.next)
    && (s.collector.Persisting? ==> s.collector.at == s.next < |s.valid| && Accounted(s, s.next))
    && (forall i :: s.base <= i < s.next && s.valid[i] ==> Accounted(s, i))
    && (s.hand.Some? ==> s.hand.value <= s.next)
    && (s.hand == Some(s.next) ==> s.collector.Persisting?)
    && |s.lost| <= s.deaths
  }

  lemma Grow(lost: set<nat>, more: set<nat>, x: nat)
    requires more <= {x}
    ensures |lost + more| <= |lost| + 1
  {
    assert lost + more == lost || lost + more == lost + {x};
  }

  lemma NextKeepsInv(s: State, step: Step)
    requires Inv(s) && Can(s, step)
    ensures Inv(Do(s, step))
  {
    var u := Do(s, step);
    match step {
      case Append(ok) =>
        assert forall i :: 0 <= i < |s.valid| ==> u.valid[i] == s.valid[i];
        assert forall i :: Accounted(s, i) ==> Accounted(u, i);
      case Buffer(ok) =>
        if !ok { Grow(s.lost, {s.hand.value} - s.buffered, s.hand.value); }
        assert forall i :: Accounted(s, i) ==> Accounted(u, i);
      case Crash =>
        if s.hand.Some? { Grow(s.lost, AtRisk(s), s.hand.value); }
        assert AtRisk(s) == {} ==> s.lost + AtRisk(s) == s.lost;
        forall i | u.base <= i < u.next && u.valid[i] ensures Accounted(u, i) {
          assert Accounted(s, i);
        }
      case Stop =>
        assert forall i :: Accounted(s, i) ==> Accounted(u, i);
      case Emit =>
        assert forall i :: Accounted(s, i) ==> Accounted(u, i);
      case _ =>
        assert forall i :: Accounted(s, i) ==> Accounted(u, i);
    }
  }

  ghost predicate Follows(s: State, u: State) {
    exists step :: Can(s, step) && u == Do(s, step)
  }

  /** The first start, over any journal and with or without a saved cursor. */
  ghost predicate Init(s: State) {
    && s == Start(s) && s.base == s.next <= |s.valid|
    && s.lost == {} && s.deaths == 0
  }

  ghost predicate Trace(t: seq<State>) {
    && t != [] && Init(t[0])
    && forall i :: 0 <= i < |t| - 1 ==> Follows(t[i], t[i + 1])
  }

  lemma {:induction false} TraceInv(t: seq<State>, i: nat)
    requires Trace(t) && i < |t|
    ensures Inv(t[i])
  {
    if i > 0 {
      TraceInv(t, i - 1);
      var step :| Can(t[i - 1], step) && t[i] == Do(t[i - 1], step);
      NextKeepsInv(t[i - 1], step);
    }
  }

  /** In every interleaving and through any number of crashes, every entry behind the saved cursor is in
      the queue, or in the writer's hand, or one of the lost, of which there is at most one for each crash
      or failed write. */
  lemma AtMostOneLostPerCrash(t: seq<State>, j: nat, i: nat)
    requires Trace(t) && j < |t|
    requires t[j].cursor.Some? && t[j].base <= i < t[j].cursor.value
    ensures |t[j].lost| <= t[j].deaths
    ensures i < |t[j].valid|
    ensures t[j].valid[i] ==> i in t[j].buffered || i in t[j].lost || t[j].hand == Some(i)
  {
    TraceInv(t, j);
    assert t[j].valid[i] ==> Accounted(t[j], i);
  }

  /** The saved cursor leads what is in the queue by at most one entry, the one in the writer's hand. */
  lemma CursorLeadsByOne(t: seq<State>, j: nat, i: nat, k: nat)
    requires Trace(t) && j < |t|
    requires t[j].cursor.Some? && t[j].base <= i < t[j].cursor.value && t[j].base <= k < t[j].cursor.value
    requires i < |t[j].valid| && k < |t[j].valid| && t[j].valid[i] && t[j].valid[k]
    requires i !in t[j].buffered + t[j].lost && k !in t[j].buffered + t[j].lost
    ensures i == k && t[j].hand == Some(i)
  {
    TraceInv(t, j);
    assert Accounted(t[j], i) && Accounted(t[j], k);
  }

  /** The exact condition: a crash passes an entry behind the cursor over if and only if the entry had been
      handed over and the cursor saved past it before the writer had it on disk. */
  lemma CrashLosesExactly(s: State, i: nat)
    requires Inv(s) && s.cursor.Some? && s.base <= i < s.cursor.value && s.valid[i] && i !in s.lost
    ensures i !in Do(s, Crash).buffered <==> i in AtRisk(s)
  {
    assert Accounted(s, i);
  }

  /** The comment in `scan` promises at-least-once delivery: an entry is read again after a crash rather
      than lost. It is lost in this run: the entry is handed over, the cursor saved, and the process dies. */
  lemma CrashCanLoseOne()
    ensures exists t: seq<State> :: Trace(t) && |t| == 5 && t[0].cursor == Some(0) && t[4].valid == [true]
              && t[4].next == 1 && 0 !in t[4].buffered
  {
    var s0 := State([], 0, Reading, None, Some(0), {}, 0, {}, 0);
    var s1 := Do(s0, Append(true));
    assert Can(s1, Emit);
    var s2 := Do(s1, Emit);
    var s3 := Do(s2, Persist(true));
    var s4 := Do(s3, Crash);
    var t := [s0, s1, s2, s3, s4];
    assert Can(s0, Append(true)) && Can(s2, Persist(true)) && Can(s3, Crash);
    assert Follows(s0, s1) && Follows(s1, s2) && Follows(s2, s3) && Follows(s3, s4);
    assert Trace(t);
  }

  /** The entry has been passed over: it is not in the queue or under way, and reading began behind it. */
  ghost predicate PassedOver(s: State, i: nat) {
    i < s.base && !Accounted(s, i)
  }

  lemma PassedOverStays(s: State, step: Step, i: nat)
    requires Inv(s) && Can(s, step) && PassedOver(s, i)
    ensures PassedOver(Do(s, step), i)
  {}

  lemma {:induction false} PassedOverForGood(t: seq<State>, m: nat, n: nat, i: nat)
    requires Trace(t) && m <= n < |t| && PassedOver(t[m], i)
    ensures PassedOver(t[n], i)
    decreases n
  {
    hide Inv, PassedOver;
    if m < n {
      PassedOverForGood(t, m, n - 1, i);
      TraceInv(t, n - 1);
      var step :| Can(t[n - 1], step) && t[n] == Do(t[n - 1], step);
      PassedOverStays(t[n - 1], step, i);
    }
  }

  /** Once a cursor is saved, reading never begins anew. */
  lemma {:induction false} BaseStays(t: seq<State>, m: nat, n: nat)
    requires Trace(t) && m <= n < |t| && t[m].cursor.Some?
    ensures t[n].cursor.Some? && t[n].base == t[m].base && t[m].valid <= t[n].valid
    decreases n
  {
    hide Inv;
    if m < n {
      BaseStays(t, m, n - 1);
      var step :| Can(t[n - 1], step) && t[n] == Do(t[n - 1], step);
    }
  }

  /** A restart loses an entry that is waiting to be read if and only if no cursor has been saved: then, in
      every continuation of the run, it never reaches the queue; otherwise, in every continuation, it is
      still ahead of the reader, or accounted for. */
  lemma RestartSkips(t: seq<State>, m: nat, n: nat, step: Step, i: nat)
    requires Trace(t) && m < n < |t| && (step.Stop? || step.Crash?)
    requires Can(t[m], step) && t[m + 1] == Do(t[m], step)
    requires t[m].next <= i < |t[m].valid| && t[m].valid[i] && !Accounted(t[m], i)
    ensures t[m].cursor.None? <==> i < t[n].next && !Accounted(t[n], i)
  {
    TraceInv(t, m);
    TraceInv(t, n);
    if t[m].cursor.None? {
      assert PassedOver(t[m + 1], i);
      PassedOverForGood(t, m + 1, n, i);
    } else {
      BaseStays(t, m, n);
      if i < t[n].next { assert t[n].valid[i] ==> Accounted(t[n], i); }
    }
  }

  /** A run in which it happens: an entry comes in and the process dies before a first cursor is saved. */
  lemma RestartCanSkip()
    ensures exists t: seq<State> ::
              && Trace(t) && |t| == 3 && t[2] == Do(t[1], Crash) && t[1].cursor.None?
              && t[1].next == 0 && t[1].valid == [true] && !Accounted(t[1], 0)
              && t[2].next == 1 && !Accounted(t[2], 0)
  {
    var s0 := State([], 0, Reading, None, None, {}, 0, {}, 0);
    var s1 := Do(s0, Append(true));
    var s2 := Do(s1, Crash);
    var t := [s0, s1, s2];
    assert Can(s0, Append(true)) && Can(s1, Crash);
    assert Follows(s0, s1) && Follows(s1, s2);
    assert Trace(t);
  }
}
