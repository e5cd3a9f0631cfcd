/** The host agent's queue over whole runs: one goroutine writes, one drains and ships, each queue method
    is one step, and the process may die at any point between or inside them. */
module Shipping {
  import opened Spool
  import opened Sink

  /** What the drainer is doing with the batch it read last; the batch is kept by name, as file paths. */
  datatype Phase = Idle | Holding(batch: set<string>) | Acking(batch: set<string>) | Burying(batch: set<string>)

  /** A batch, by name, and the answer to it. */
  datatype Answered = Answered(answer: Answer, batch: set<string>)

  /** `answers` collects all answers so far, `corrupt` the files written that do not parse. */
  datatype State = State(books: Books, phase: Phase, answers: seq<Answered>, corrupt: set<string>)

  /** A batch with the event in it was accepted, by a status from 200 to 299. */
  ghost predicate Accepted(s: State, x: string) {
    exists i :: 0 <= i < |s.answers| && x in s.answers[i].batch && Accepts(s.answers[i].answer)
  }

  /** A batch with the event in it was refused for good. */
  ghost predicate Refused(s: State, x: string) {
    exists i :: 0 <= i < |s.answers| && x in s.answers[i].batch && Refuses(s.answers[i].answer)
  }

  /** A write removes `n` old files and then lands its own, or fails, or the process dies, before that.
      In `Read` and `Settle` the files in `stuck` were not moved or removed, because the operation failed
      or because the process died first. A read may end at a file that cannot be read. `Crash` is the death
      of the process and its next start. */
  datatype Step =
    | Write(f: File, n: nat, landed: bool)
    | Read(n: nat, stuck: set<string>)
    | ReadFails(n: nat, stuck: set<string>)
    | Reply(answer: Answer)
    | Settle(stuck: set<string>)
    | Crash

  ghost predicate Can(lim: Limits, size: nat, s: State, step: Step) {
    match step
    case Write(f, n, landed) =>
      var surplus := Surplus(lim, s.books.dir, f.size);
      f.name !in s.books.written && n <= surplus && (landed ==> n == surplus)
    case Read(n, _) => s.phase == Idle && Reads(s.books.dir, size, 0, n)
    case ReadFails(n, _) => s.phase == Idle && n <= |s.books.dir|
    case Reply(_) => s.phase.Holding? && s.phase.batch != {}
    case Settle(_) => s.phase.Acking? || s.phase.Burying?
    case Crash => true
  }

  ghost function Do(lim: Limits, size: nat, s: State, step: Step): State
    requires Can(lim, size, s, step)
  {
    match step
    case Write(f, n, landed) =>
      var kept := Drop(s.books, n);
      if landed then s.(books := Put(kept, f), corrupt := s.corrupt + if f.parses then {} else {f.name})
      else s.(books := kept)
    case Read(n, stuck) =>
      s.(books := Bury(s.books, Corrupt(s.books.dir[..n]) - stuck),
         phase := Holding(Names(Parseable(s.books.dir[..n]))))
    case ReadFails(n, stuck) => s.(books := Bury(s.books, Corrupt(s.books.dir[..n]) - stuck))
    case Reply(answer) =>
      var batch := s.phase.batch;
      s.(answers := s.answers + [Answered(answer, batch)],
         phase := match Classify(answer)
                  case Delivered => Acking(batch)
                  case Permanent => Burying(batch)
                  case _ => Idle)
    case Settle(stuck) =>
      if s.phase.Acking? then s.(books := Take(s.books, s.phase.batch - stuck), phase := Idle)
      else s.(books := Bury(s.books, s.phase.batch - stuck), phase := Idle)
    case Crash => s.(phase := Idle)
  }

  ghost predicate Inv(s: State) {
    && Tidy(s.books)
    && (forall x :: x in s.books.acked ==> Accepted(s, x))
    && (forall x :: x in s.books.dead ==> Refused(s, x) || x in s.corrupt)
    && Corrupt(s.books.dir) <= s.corrupt
    && (s.phase.Acking? ==> forall x :: x in s.phase.batch ==> Accepted(s, x))
    && (s.phase.Burying? ==> forall x :: x in s.phase.batch ==> Refused(s, x))
  }

  lemma CorruptPart(a: Dir, b: Dir)
    requires forall f :: f in a ==> f in b
    ensures Corrupt(a) <= Corrupt(b)
  {
    forall x | x in Corrupt(a) ensures x in Corrupt(b) {
      var i :| 0 <= i < |a| && !a[i].parses && a[i].name == x;
      assert a[i] in a;
      var j :| 0 <= j < |b| && b[j] == a[i];
    }
  }

  lemma {:induction false} WithoutIn(dir: Dir, gone: set<string>)
    ensures forall f :: f in Without(dir, gone) ==> f in dir
  {
    if dir != [] {
      WithoutIn(dir[1..], gone);
    }
  }

  lemma {:induction false} PlaceIn(dir: Dir, f: File)
    ensures forall g :: g in Place(dir, f) ==> g in dir || g == f
  {
    if dir != [] {
      PlaceIn(dir[1..], f);
    }
  }

  /** The corrupt files after a write are among those before it and the new one. */
  lemma CorruptPut(dir: Dir, f: File)
    ensures Corrupt(Place(dir, f)) <= Corrupt(dir) + if f.parses then {} else {f.name}
  {
    PlaceIn(dir, f);
    var p := Place(dir, f);
    forall x | x in Corrupt(p) ensures x in Corrupt(dir) + if f.parses then {} else {f.name} {
      var i :| 0 <= i < |p| && !p[i].parses && p[i].name == x;
      if p[i] != f {
        assert p[i] in p;
        var j :| 0 <= j < |dir| && dir[j] == p[i];
      }
    }
  }

  /** Dead-lettering the corrupt files in front. */
  lemma CorruptBuried(s: State, n: nat, stuck: set<string>)
    requires Inv(s) && n <= |s.books.dir|
    ensures var gone := Corrupt(s.books.dir[..n]) - stuck;
            && gone <= s.corrupt && Tidy(Bury(s.books, gone)) && Corrupt(Bury(s.books, gone).dir) <= s.corrupt
  {
    var d, gone := s.books.dir, Corrupt(s.books.dir[..n]) - stuck;
    TakeTidy(s.books, gone);
    WithoutIn(d, gone);
    CorruptPart(Without(d, gone), d);
    CorruptPart(d[..n], d);
  }

  /** Earlier answers are not forgotten, and the new one is what the phase says. */
  lemma AnswerKeeps(s: State, answer: Answer, t: State)
    requires s.phase.Holding? && t.answers == s.answers + [Answered(answer, s.phase.batch)]
    ensures forall x :: Accepted(s, x) ==> Accepted(t, x)
    ensures forall x :: Refused(s, x) ==> Refused(t, x)
    ensures Classify(answer) == Delivered ==> forall x :: x in s.phase.batch ==> Accepted(t, x)
    ensures Classify(answer) == Permanent ==> forall x :: x in s.phase.batch ==> Refused(t, x)
  {
    AnswerMeans(answer);
    hide Classify, Accepts, Refuses;
    var n := |s.answers|;
    assert t.answers[n] == Answered(answer, s.phase.batch);
    forall x | Accepted(s, x) ensures Accepted(t, x) {
      var i :| 0 <= i < n && x in s.answers[i].batch && Accepts(s.answers[i].answer);
      assert t.answers[i] == s.answers[i];
    }
    forall x | Refused(s, x) ensures Refused(t, x) {
      var i :| 0 <= i < n && x in s.answers[i].batch && Refuses(s.answers[i].answer);
      assert t.answers[i] == s.answers[i];
    }
  }

  lemma NextKeepsInv(lim: Limits, size: nat, s: State, step: Step)
    requires Inv(s) && Can(lim, size, s, step)
    ensures Inv(Do(lim, size, s, step))
  {
    var d := s.books.dir;
    match step {
      case Write(f, n, landed) =>
        DropTidy(s.books, n);
        CorruptPart(d[n..], d);
        if landed {
          PutTidy(Drop(s.books, n), f);
          CorruptPut(d[n..], f);
        }
      case Read(n, stuck) =>
        CorruptBuried(s, n, stuck);
      case ReadFails(n, stuck) =>
        CorruptBuried(s, n, stuck);
      case Reply(answer) =>
        AnswerKeeps(s, answer, Do(lim, size, s, step));
      case Settle(stuck) =>
        var gone := s.phase.batch - stuck;
        TakeTidy(s.books, gone);
        WithoutIn(d, gone);
        CorruptPart(Without(d, gone), d);
      case _ =>
    }
  }

  /** A start over any directory, with no history. */
  ghost predicate Init(s: State) {
    var found := s.books.dir;
    Sorted(found) && s == State(Books(found, {}, {}, {}, Names(found)), Idle, [], Corrupt(found))
  }

  ghost predicate Trace(lim: Limits, size: nat, t: seq<State>) {
    && t != [] && Init(t[0])
    && forall i :: 0 <= i < |t| - 1 ==> Follows(lim, size, t[i], t[i + 1])
  }

  ghost predicate Follows(lim: Limits, size: nat, s: State, u: State) {
    exists step :: Can(lim, size, s, step) && u == Do(lim, size, s, step)
  }

  lemma InitInv(s: State)
    requires Init(s)
    ensures Inv(s)
  {}

  lemma FollowsKeepsInv(lim: Limits, size: nat, s: State, u: State)
    requires Inv(s) && Follows(lim, size, s, u)
    ensures Inv(u)
  {
    hide Inv;
    var step :| Can(lim, size, s, step) && u == Do(lim, size, s, step);
    NextKeepsInv(lim, size, s, step);
  }

  /** In every run, every file ever written is pending, acknowledged, dead or dropped, and only one of
      these; what was acknowledged was accepted, and what is dead was refused or does not parse. */
  lemma {:induction false} TraceInv(lim: Limits, size: nat, t: seq<State>, i: nat)
    requires Trace(lim, size, t) && i < |t|
    ensures Inv(t[i])
  {
    hide Inv, Follows;
    if i > 0 {
      hide Init;
      TraceInv(lim, size, t, i - 1);
      assert Follows(lim, size, t[i - 1], t[i - 1 + 1]);
      FollowsKeepsInv(lim, size, t[i - 1], t[i]);
    } else {
      InitInv(t[0]);
    }
  }

  /** One step takes a pending event away only by dropping it for space, with every older one, by
      acknowledging a batch it was in that was answered by 200 to 299, or into the dead directory, because
      its batch was refused for good or it does not parse. In particular no missing reply, and no status of
      401, 403, 408, 429 or from 500 on, takes any. */
  lemma WhatAStepTakes(lim: Limits, size: nat, s: State, step: Step, x: string)
    requires Inv(s) && Can(lim, size, s, step) && x in Names(s.books.dir)
    ensures var u := Do(lim, size, s, step);
            x !in Names(u.books.dir) ==>
              || (step.Write? && x in Names(s.books.dir[..step.n]) && x in u.books.lost)
              || (step.Settle? && s.phase.Acking? && x in s.phase.batch && Accepted(s, x) && x in u.books.acked)
              || (step.Settle? && s.phase.Burying? && x in s.phase.batch && Refused(s, x) && x in u.books.dead)
              || ((step.Read? || step.ReadFails?) && x in Corrupt(s.books.dir[..step.n]) && x in s.corrupt
                  && x in u.books.dead)
  {
    var d := s.books.dir;
    match step {
      case Write(f, n, landed) =>
        SortedSuffix(d, n);
        if landed {
          PlaceSorted(d[n..], f);
        }
      case Read(n, stuck) =>
        WithoutNames(d, Corrupt(d[..n]) - stuck);
        CorruptPart(d[..n], d);
      case ReadFails(n, stuck) =>
        WithoutNames(d, Corrupt(d[..n]) - stuck);
        CorruptPart(d[..n], d);
      case Settle(stuck) =>
        WithoutNames(d, s.phase.batch - stuck);
      case _ =>
    }
  }

  /** Nothing that left ever comes back, and nothing written is forgotten. */
  lemma StepIsOneWay(lim: Limits, size: nat, s: State, step: Step)
    requires Inv(s) && Can(lim, size, s, step)
    ensures var u := Do(lim, size, s, step);
            && s.books.acked <= u.books.acked && s.books.dead <= u.books.dead && s.books.lost <= u.books.lost
            && s.books.written <= u.books.written
            && (u.books.lost == s.books.lost || step.Write?)
  {}

  lemma FollowsOneWay(lim: Limits, size: nat, s: State, u: State)
    requires Inv(s) && Follows(lim, size, s, u)
    ensures s.books.acked <= u.books.acked && s.books.dead <= u.books.dead && s.books.lost <= u.books.lost
    ensures s.books.written <= u.books.written
  {
    hide Inv;
    var step :| Can(lim, size, s, step) && u == Do(lim, size, s, step);
    StepIsOneWay(lim, size, s, step);
  }

  lemma {:induction false} TraceIsOneWay(lim: Limits, size: nat, t: seq<State>, i: nat, j: nat)
    requires Trace(lim, size, t) && i <= j < |t|
    ensures t[i].books.acked <= t[j].books.acked && t[i].books.dead <= t[j].books.dead
    ensures t[i].books.lost <= t[j].books.lost && t[i].books.written <= t[j].books.written
    decreases j - i
  {
    hide Inv, Follows, Init;
    if i < j {
      TraceIsOneWay(lim, size, t, i, j - 1);
      TraceInv(lim, size, t, j - 1);
      assert Follows(lim, size, t[j - 1], t[j - 1 + 1]);
      FollowsOneWay(lim, size, t[j - 1], t[j]);
    }
  }

  /** Over every run: an event once written is, at every later point, still pending, or was dropped for
      space, or a batch with it was accepted before it was removed, or it is in the dead directory because
      a batch with it was refused for good or it does not parse. */
  lemma NothingLeavesUndelivered(lim: Limits, size: nat, t: seq<State>, i: nat, j: nat, x: string)
    requires Trace(lim, size, t) && i <= j < |t|
    requires x in t[i].books.written && x !in t[j].books.lost
    ensures var s := t[j];
            || (x in Names(s.books.dir) && x !in s.books.acked + s.books.dead)
            || (x in s.books.acked && Accepted(s, x) && x !in s.books.dead + Names(s.books.dir))
            || (x in s.books.dead && (Refused(s, x) || x in s.corrupt) && x !in s.books.acked + Names(s.books.dir))
  {
    TraceIsOneWay(lim, size, t, i, j);
    TraceInv(lim, size, t, j);
    hide Names, Sorted, Corrupt;
  }
}
