/** Shipping: how the ingest endpoint's replies are classified, one pass of the sink over the queue, and
    the machine of one writer and one drainer over the spool, with crashes. */
module Sink {
  import opened Seqs
  import opened FileNames
  import opened Spool
  import opened DiskQueue

  datatype Outcome = Delivered | Unauthorized | Retryable | Permanent

  /** What comes of a request: the batch or the request cannot be built at all, for example because the
      endpoint is no URL; there is no reply, after a network error, a timeout or a TLS failure; or a status. */
  datatype Answer = Unsendable | NoReply | Status(code: int)

  /** The error, if any, that `Send` returns. */
  function Classify(a: Answer): Outcome {
    match a
    case Unsendable => Permanent
    case NoReply => Retryable
    case Status(code) =>
      if 200 <= code < 300 then Delivered
      else if code == 401 || code == 403 then Unauthorized
      else if code == 408 || code == 429 || code >= 500 then Retryable
      else Permanent
  }

  /** The platform has the batch. */
  predicate Accepts(a: Answer) { a.Status? && a.code / 100 == 2 }

  /** The batch can never be delivered: it cannot be sent, or it was turned down for another reason than the
      agent's identity or the platform's state. */
  predicate Refuses(a: Answer) {
    a.Unsendable? || (a.Status? && a.code < 500 && a.code !in {401, 403, 408, 429} && a.code / 100 != 2)
  }

  lemma AnswerMeans(a: Answer)
    ensures Classify(a) == Delivered <==> Accepts(a)
    ensures Classify(a) == Permanent <==> Refuses(a)
    ensures Classify(a) == Unauthorized <==> a == Status(401) || a == Status(403)
    ensures Classify(a) == Retryable <==>
              a == NoReply || a == Status(408) || a == Status(429) || (a.Status? && a.code >= 500)
  {}

  // ---------------------------------------------------------------------------------------------
  // One pass over the queue
  // ---------------------------------------------------------------------------------------------

  lemma {:induction false} WithoutSum(a: Dir, b: Dir, gone: set<string>)
    ensures Without(a + b, gone) == Without(a, gone) + Without(b, gone)
  {
    if a == [] {
      assert a + b == b;
    } else {
      assert (a + b)[1..] == a[1..] + b;
      WithoutSum(a[1..], b, gone);
    }
  }

  lemma {:induction false} WithoutAll(a: Dir, gone: set<string>)
    requires Names(a) <= gone
    ensures Without(a, gone) == []
  {
    if a != [] {
      assert a == [a[0]] + a[1..];
      NamesCons(a[0], a[1..]);
      WithoutAll(a[1..], gone);
    }
  }

  lemma {:induction false} ParseableSum(a: Dir, b: Dir)
    ensures Parseable(a + b) == Parseable(a) + Parseable(b)
  {
    if b == [] {
      assert a + b == a;
    } else {
      var n := |b| - 1;
      assert (a + b)[..|a + b| - 1] == a + b[..n];
      ParseableSum(a, b[..n]);
    }
  }

  /** A file either parses or is corrupt. */
  lemma {:induction false} NamesSplit(dir: Dir, n: nat)
    requires n <= |dir|
    ensures Corrupt(dir[..n]) + Names(Parseable(dir[..n])) == Names(dir[..n])
  {
    hide Names, Parseable, Corrupt;
    if n == 0 {
      NoneParseable(dir[..n]);
      EmptyDir();
    } else {
      var a := dir[..n - 1];
      var f := dir[n - 1];
      NamesSplit(dir, n - 1);
      ParseableSnoc(dir, n - 1);
      CorruptSnoc(dir, n - 1);
      assert dir[..n] == a + [f];
      NamesSum(a, [f]);
      NamesSum(Parseable(a), [f]);
      NamesCons(f, []);
      EmptyDir();
      assert [f] + [] == [f];
      assert Parseable(a) + [] == Parseable(a);
    }
  }

  lemma CorruptIffNot(dir: Dir, n: nat, i: nat)
    requires Sorted(dir) && i < n <= |dir|
    ensures dir[i].name in Corrupt(dir[..n]) <==> !dir[i].parses
  {
    var c := dir[..n];
    assert c[i] == dir[i];
    if dir[i].name in Corrupt(c) {
      var j :| 0 <= j < n && !c[j].parses && c[j].name == dir[i].name;
      LessTotal(dir[i].name, dir[i].name);
    }
  }

  /** Setting the corrupt files aside leaves the parseable ones. */
  lemma {:induction false} WithoutCorrupt(dir: Dir, n: nat, k: nat)
    requires Sorted(dir) && k <= n <= |dir|
    ensures Without(dir[..k], Corrupt(dir[..n])) == Parseable(dir[..k])
  {
    hide Corrupt, Parseable, Sorted, Without;
    var gone := Corrupt(dir[..n]);
    if k == 0 {
      NoneParseable(dir[..k]);
      WithoutFew(dir[0..0], File("", 0, true), gone);
    } else {
      var a, f := dir[..k - 1], dir[k - 1];
      WithoutCorrupt(dir, n, k - 1);
      ParseableSnoc(dir, k - 1);
      CorruptIffNot(dir, n, k - 1);
      assert dir[..k] == a + [f];
      WithoutSum(a, [f], gone);
      WithoutFew([], f, gone);
    }
  }

  lemma WithoutFew(none: Dir, f: File, gone: set<string>)
    requires none == []
    ensures Without(none, gone) == [] && Without([f], gone) == if f.name in gone then [] else [f]
  {
    assert [f][1..] == [];
  }

  lemma {:induction false} ParseableTwice(dir: Dir, k: nat)
    requires k <= |dir|
    ensures Parseable(Parseable(dir[..k])) == Parseable(dir[..k])
  {
    hide Parseable;
    if k == 0 {
      NoneParseable(dir[..0]);
    } else {
      var p, f := Parseable(dir[..k - 1]), dir[k - 1];
      ParseableTwice(dir, k - 1);
      ParseableSnoc(dir, k - 1);
      ParseableSum(p, [f]);
      ParseableOne(f);
      assert p + [] == p;
    }
  }

  lemma ParseableOne(f: File)
    ensures Parseable([f]) == if f.parses then [f] else []
  {
    assert [f][..0] == [];
  }

  /** Setting aside the corrupt files among the first `n` keeps what parses, in order; with the rest of the
      `n` gone too, the queue goes on from `n`. */
  lemma FrontStep(dir: Dir, n: nat)
    requires Sorted(dir) && n <= |dir|
    ensures var a, c := dir[..n], dir[n..];
            && Without(dir, Corrupt(a)) == Parseable(a) + c
            && Without(Parseable(a) + c, Names(Parseable(a))) == c
            && Parseable(Parseable(a) + c) == Parseable(dir) == Parseable(a) + Parseable(c)
  {
    hide Names, Parseable, Corrupt, Sorted, Without;
    var a, c := dir[..n], dir[n..];
    var batch, gone := Parseable(a), Corrupt(a);
    assert a + c == dir;
    SortedSuffix(dir, n);
    NamesSplit(dir, n);
    ParseableSum(a, c);
    ParseableSum(batch, c);
    ParseableTwice(dir, n);
    assert Without(dir, gone) == batch + c by {
      WithoutCorrupt(dir, n, n);
      WithoutSum(a, c, gone);
      WithoutForeign(c, gone);
    }
    assert Without(batch + c, Names(batch)) == c by {
      WithoutSum(batch, c, Names(batch));
      WithoutAll(batch, Names(batch));
      WithoutForeign(c, Names(batch));
      assert [] + c == c;
    }
  }

  /** What reading the first `n` files does to the queue, and acknowledging or refusing them after it. */
  lemma PassStep(b: Books, size: nat, n: nat)
    requires Sorted(b.dir) && Reads(b.dir, size, 0, n)
    ensures n <= |b.dir|
    ensures var batch, mid := Parseable(b.dir[..n]), Bury(b, Corrupt(b.dir[..n]) - {});
            && Parseable(mid.dir) == Parseable(b.dir) == batch + Parseable(b.dir[n..])
            && mid.acked == b.acked
            && Take(mid, Names(batch)) == mid.(dir := b.dir[n..], acked := b.acked + Names(batch))
            && Bury(mid, Names(batch)) == mid.(dir := b.dir[n..], dead := mid.dead + Names(batch))
            && (batch == [] ==> mid.dir == [])
  {
    var a, c := b.dir[..n], b.dir[n..];
    if Parseable(a) == [] { EmptyMeansAll(b.dir, size, n); }
    hide Names, Parseable, Corrupt, Sorted, Without, Sum, Reads;
    assert Corrupt(a) - {} == Corrupt(a);
    FrontStep(b.dir, n);
    NamesSum(Parseable(a), c);
    var taken := Names(Parseable(a));
    assert taken * (taken + Names(c)) == taken;
  }

  lemma {:induction false} ParseableWithout(dir: Dir, gone: set<string>)
    ensures Parseable(Without(dir, gone)) == Without(Parseable(dir), gone)
  {
    if dir != [] {
      var front, f := dir[..|dir| - 1], dir[|dir| - 1];
      assert dir == front + [f];
      ParseableWithout(front, gone);
      WithoutSum(front, [f], gone);
      WithoutFew([], f, gone);
      ParseableOne(f);
      hide Parseable, Without;
      ParseableSum(front, [f]);
      ParseableSum(Without(front, gone), Without([f], gone));
      WithoutSum(Parseable(front), Parseable([f]), gone);
      NoneParseable([]);
      WithoutFew([], f, gone);
    }
  }

  /** No file is among both the parseable and the corrupt. */
  lemma ParseableNotCorrupt(dir: Dir)
    requires Sorted(dir)
    ensures Names(Parseable(dir)) == Names(dir) - Corrupt(dir)
  {
    hide Names, Parseable, Corrupt, Sorted, Without;
    assert dir[..|dir|] == dir;
    WithoutCorrupt(dir, |dir|, |dir|);
    WithoutNames(dir, Corrupt(dir));
  }

  lemma CorruptFront(dir: Dir, n: nat)
    requires n <= |dir|
    ensures Corrupt(dir[..n]) <= Corrupt(dir)
  {
    forall x | x in Corrupt(dir[..n]) ensures x in Corrupt(dir) {
      var i :| 0 <= i < n && !dir[..n][i].parses && dir[..n][i].name == x;
      assert dir[i].name == x && !dir[i].parses;
    }
  }

  /** The same when some files cannot be moved or removed: reading leaves every parseable event where it is,
      and settling a batch takes out exactly those of its events that can be. */
  lemma StuckStep(b: Books, n: nat, stuck: set<string>)
    requires Sorted(b.dir) && n <= |b.dir|
    ensures var batch, mid := Parseable(b.dir[..n]), Bury(b, Corrupt(b.dir[..n]) - stuck);
            var gone := Names(batch) - stuck;
            && Parseable(mid.dir) == Parseable(b.dir) && batch <= Parseable(b.dir) && mid.acked == b.acked
            && Parseable(Without(mid.dir, gone)) == Without(Parseable(b.dir), gone)
            && Take(mid, gone).acked == b.acked + gone && Bury(mid, gone).dead == mid.dead + gone
            && Take(mid, gone).dir == Without(mid.dir, gone)
  {
    hide Names, Parseable, Corrupt, Sorted, Without;
    var dir := b.dir;
    var a := dir[..n];
    var batch, bad := Parseable(a), Corrupt(a) - stuck;
    var gone := Names(batch) - stuck;
    assert a + dir[n..] == dir;
    SortedSuffix(dir, n);
    ParseableSum(a, dir[n..]);
    ParseableNotCorrupt(dir);
    ParseableNotCorrupt(a);
    CorruptFront(dir, n);
    ParseableWithout(dir, bad);
    WithoutForeign(Parseable(dir), bad);
    ParseableWithout(Without(dir, bad), gone);
    WithoutNames(dir, bad);
    assert gone * Names(Without(dir, bad)) == gone;
  }

  /** With nothing parseable in front, reading stopped at the end of the queue. */
  lemma EmptyMeansAll(dir: Dir, size: nat, n: nat)
    requires Reads(dir, size, 0, n) && Parseable(dir[..n]) == []
    ensures n == |dir|
  {}

  function Files(batch: Dir): (r: seq<string>)
    ensures |r| == |batch| && forall i :: 0 <= i < |r| ==> r[i] == batch[i].name
  {
    seq(|batch|, i requires 0 <= i < |batch| => batch[i].name)
  }

  lemma FilesNames(batch: Dir)
    ensures Set(Files(batch)) == Names(batch) && Names(batch) - {} == Names(batch)
  {
    forall x | x in Names(batch) ensures x in Set(Files(batch)) {
      var i :| 0 <= i < |batch| && batch[i].name == x;
      assert Files(batch)[i] == x;
    }
  }

  /** Why a pass ended: nothing left to send, the queue cannot be read, a retryable failure, a rejected
      identity, or shutdown after the last of the given answers. */
  datatype End = Emptied | ReadFailed | BackOff | Halted | Interrupted

  /** What goes wrong on disk: files that cannot be moved or removed, and files that cannot be read. */
  datatype Trouble = Trouble(stuck: set<string>, unreadable: set<string>)

  /** One turn of the drain loop: read a batch, have it answered, and settle it. */
  method Ship(q: Queue, size: nat, answer: Answer, trouble: Trouble) returns (ok: bool, batch: Dir)
    requires q.Exact()
    modifies q`dir, q`dead, q`acked, q`count, q`bytes
    ensures q.Exact() && batch <= Parseable(old(q.dir)) && (!ok ==> batch == [])
    ensures var gone := if Accepts(answer) || Refuses(answer) then Names(batch) - trouble.stuck else {};
            && Parseable(q.dir) == Without(Parseable(old(q.dir)), gone)
            && q.acked == old(q.acked) + (if Accepts(answer) then gone else {})
            && (Refuses(answer) ==> gone <= q.dead) && old(q.dead) <= q.dead
    ensures ok && batch == [] ==> Parseable(q.dir) == [] && (trouble.stuck == {} ==> q.dir == [])
    ensures trouble.unreadable == {} ==> ok
    ensures trouble.stuck == {} && (Accepts(answer) || Refuses(answer)) ==>
              Parseable(old(q.dir)) == batch + Parseable(q.dir)
  {
    hide Names, Parseable, Corrupt, Sorted, Without, Sum, Reads, Set, Files, Take, Classify, Accepts, Refuses;
    AnswerMeans(answer);
    ghost var was := q.State();
    ghost var n;
    ok, batch, n := q.ReadBatch(size, 0, trouble.stuck, trouble.unreadable);
    StuckStep(was, n, trouble.stuck);
    EmptyDir();
    WithoutNothing(Parseable(was.dir), Names([]) - trouble.stuck);
    WithoutNothing(Parseable(was.dir), {});
    if !ok {
      return;
    }
    if batch == [] {
      EmptyMeansAll(was.dir, size, n);
      assert was.dir[..n] == was.dir;
    }
    if trouble.stuck == {} { PassStep(was, size, n); }
    var reply := Classify(answer);
    if batch == [] {
    } else if reply == Delivered {
      FilesNames(batch);
      var _ := q.Ack(Files(batch), trouble.stuck);
    } else if reply == Permanent {
      FilesNames(batch);
      var _ := q.DeadLetter(Files(batch), trouble.stuck);
    }
  }

  lemma WithoutNothing(dir: Dir, gone: set<string>)
    requires gone == {}
    ensures Without(dir, gone) == dir
  {
    WithoutForeign(dir, gone);
  }

  /** What a pass has done so far, `left` being what parses in the queue now: the events handled are those
      sent and those refused; what is left is what parsed before without those of them that are not stuck. */
  ghost predicate Progress(first: Dir, left: Dir, handled: Dir, sent: Dir, refused: Dir, stuck: set<string>) {
    && left == Without(first, Names(handled) - stuck)
    && (stuck == {} ==> handled + left == first)
    && multiset(handled) == multiset(sent) + multiset(refused)
  }

  lemma NoProgress(first: Dir, stuck: set<string>)
    ensures Progress(first, first, [], [], [], stuck) && Names([]) == {}
  {
    EmptyDir();
    WithoutNothing(first, Names([]) - stuck);
    assert [] + first == first;
  }

  lemma MoreProgress(first: Dir, left: Dir, next: Dir, handled: Dir, sent: Dir, refused: Dir, stuck: set<string>,
                     batch: Dir, accepted: bool)
    requires Progress(first, left, handled, sent, refused, stuck)
    requires next == Without(left, Names(batch) - stuck) && (stuck == {} ==> left == batch + next)
    ensures if accepted then Progress(first, next, handled + batch, sent + batch, refused, stuck)
            else Progress(first, next, handled + batch, sent, refused + batch, stuck)
    ensures Names(sent + batch) == Names(sent) + Names(batch) && Names(refused + batch) == Names(refused) + Names(batch)
  {
    hide Names, Without;
    NamesSum(handled, batch);
    NamesSum(sent, batch);
    NamesSum(refused, batch);
    WithoutTwice(first, Names(handled) - stuck, Names(batch) - stuck);
    assert (Names(handled) - stuck) + (Names(batch) - stuck) == Names(handled + batch) - stuck;
    Assoc(handled, batch, next);
  }

  /** One drain pass. Every event handled was in the queue before, and what still parses in it afterwards is
      what parsed before without the events handled and removable. If nothing is stuck, batches leave the
      front of the queue in order: what was handled followed by what is left is what parsed before. */
  method DrainPass(q: Queue, size: nat, answers: seq<Answer>, trouble: Trouble, attempts: nat)
    returns (end: End, sent: Dir, refused: Dir, ghost handled: Dir, attempt: nat, used: nat)
    requires q.Exact()
    modifies q`dir, q`dead, q`acked, q`count, q`bytes
    ensures q.Exact()
    ensures Progress(Parseable(old(q.dir)), Parseable(q.dir), handled, sent, refused, trouble.stuck)
    ensures q.acked == old(q.acked) + (Names(sent) - trouble.stuck) && Names(refused) - trouble.stuck <= q.dead
    ensures end == Emptied ==> Parseable(q.dir) == [] && (trouble.stuck == {} ==> q.dir == [])
    ensures attempt == if end == Emptied then 0
                       else (if handled == [] then attempts else 0) + if end == BackOff then 1 else 0
    // of the answers to the batches sent, `used` in all, only the last can end the pass: 401 or 403 halts
    // shipping, and no reply, 408, 429 or a status from 500 on backs off
    ensures used <= |answers| && (end == Interrupted ==> used == |answers|)
    ensures var settled := used - if end == Halted || end == BackOff then 1 else 0;
            0 <= settled <= |handled| && (settled == 0 <==> handled == [])
    ensures forall i :: 0 <= i < used - 1 ==> Accepts(answers[i]) || Refuses(answers[i])
    ensures end == Halted <==> used > 0 && (answers[used - 1] == Status(401) || answers[used - 1] == Status(403))
    ensures end == BackOff <==> used > 0 && var last := answers[used - 1];
              last == NoReply || last == Status(408) || last == Status(429) || (last.Status? && last.code >= 500)
    ensures trouble == Trouble({}, {}) && |answers| > |Parseable(old(q.dir))|
            && (forall i :: 0 <= i < |answers| ==> Accepts(answers[i]) || Refuses(answers[i]))
            ==> end == Emptied
  {
    hide Names, Parseable, Sorted, Without, Classify, Accepts, Refuses, Progress;
    sent, refused, handled, attempt, used := [], [], [], attempts, 0;
    ghost var first := Parseable(q.dir);
    NoProgress(first, trouble.stuck);
    var i := 0;
    while i < |answers|
      invariant i <= |answers| && i <= |handled| && q.Exact()
      invariant used == i && (i == 0 <==> handled == [])
      invariant forall j :: 0 <= j < i ==> Accepts(answers[j]) || Refuses(answers[j])
      invariant Progress(first, Parseable(q.dir), handled, sent, refused, trouble.stuck)
      invariant q.acked == old(q.acked) + (Names(sent) - trouble.stuck) && Names(refused) - trouble.stuck <= q.dead
      invariant attempt == if handled == [] then attempts else 0
    {
      AnswerMeans(answers[i]);
      ghost var left := Parseable(q.dir);
      var ok, batch := Ship(q, size, answers[i], trouble);
      if batch == [] { NothingShipped(left, batch, trouble.stuck); }
      if i > 0 { AnswerMeans(answers[i - 1]); }
      if !ok {
        return ReadFailed, sent, refused, handled, attempt, used;
      }
      if batch == [] {
        return Emptied, sent, refused, handled, 0, used;
      }
      used := used + 1;
      match Classify(answers[i]) {
        case Delivered =>
          MoreProgress(first, left, Parseable(q.dir), handled, sent, refused, trouble.stuck, batch, true);
          sent, handled, attempt := sent + batch, handled + batch, 0;
        case Unauthorized =>
          WithoutNothing(left, {});
          return Halted, sent, refused, handled, attempt, used;
        case Permanent =>
          MoreProgress(first, left, Parseable(q.dir), handled, sent, refused, trouble.stuck, batch, false);
          refused, handled, attempt := refused + batch, handled + batch, 0;
        case Retryable =>
          WithoutNothing(left, {});
          return BackOff, sent, refused, handled, attempt + 1, used;
      }
      i := i + 1;
    }
    if i > 0 { AnswerMeans(answers[i - 1]); }
    end := Interrupted;
    HandledFits(first, Parseable(q.dir), handled, sent, refused, trouble.stuck);
  }

  lemma NothingShipped(left: Dir, batch: Dir, stuck: set<string>)
    requires batch == []
    ensures Without(left, Names(batch) - stuck) == left == Without(left, {})
    ensures Names(batch) - stuck == {}
  {
    EmptyDir();
    WithoutNothing(left, {});
  }

  lemma HandledFits(first: Dir, left: Dir, handled: Dir, sent: Dir, refused: Dir, stuck: set<string>)
    requires Progress(first, left, handled, sent, refused, stuck)
    ensures stuck == {} ==> |handled| <= |first|
  {}
}
