/** Conservation across the loop and the writer: the fates of the lines of a run are the ledger of the Kafka
    writer, and its counters are the sizes of the ledger's parts. */
module Conservation {
  import opened Rotation
  import opened Checkpoints
  import opened Forwarder
  import P = Producer

  /** What became of the lines of each file in the running process. */
  type Fates = map<Name, seq<Fate>>

  function FatesOf(s: State): Fates { map n | n in s.files :: s.files[n].run.fates }

  /** The lines with this fate, by file and sequence number. */
  ghost function With(m: Fates, fate: Fate): set<P.Id> {
    set n, i: nat | n in m && i < |m[n]| && m[n][i] == fate :: P.Id(n, i)
  }

  ghost predicate InFate(m: Fates, id: P.Id, fate: Fate) {
    id.name in m && id.num < |m[id.name]| && m[id.name][id.num] == fate
  }

  ghost function LedgerOf(m: Fates): P.Ledger {
    P.Ledger(With(m, Sent), With(m, Delivered), With(m, Failed), With(m, Undeliverable))
  }

  lemma WithIn(m: Fates, id: P.Id, fate: Fate)
    ensures id in With(m, fate) <==> InFate(m, id, fate)
  {
    if InFate(m, id, fate) {
      assert P.Id(id.name, id.num) == id;
    }
  }

  /** One more line of a file. */
  lemma WithMore(m: Fates, n: Name, f: Fate, fate: Fate)
    requires n in m
    ensures With(m[n := m[n] + [f]], fate) == With(m, fate) + if f == fate then {P.Id(n, |m[n]|)} else {}
    ensures P.Id(n, |m[n]|) !in With(m, fate)
  {
    hide With;
    var k := m[n := m[n] + [f]];
    WithIn(m, P.Id(n, |m[n]|), fate);
    forall id ensures id in With(k, fate) <==> id in With(m, fate) || (f == fate && id == P.Id(n, |m[n]|)) {
      WithIn(m, id, fate);
      WithIn(k, id, fate);
    }
  }

  /** A line whose fate changes. */
  lemma WithChanged(m: Fates, n: Name, i: nat, f: Fate, fate: Fate)
    requires n in m && i < |m[n]| && m[n][i] != f
    ensures var k := m[n := m[n][i := f]];
            With(k, fate) == if fate == m[n][i] then With(m, fate) - {P.Id(n, i)}
                             else if fate == f then With(m, fate) + {P.Id(n, i)} else With(m, fate)
    ensures P.Id(n, i) in With(m, m[n][i])
  {
    hide With;
    var k := m[n := m[n][i := f]];
    WithIn(m, P.Id(n, i), m[n][i]);
    forall id ensures id in With(k, fate) <==>
                        if id == P.Id(n, i) then fate == f else id in With(m, fate) {
      WithIn(m, id, fate);
      WithIn(k, id, fate);
    }
    WithIn(m, P.Id(n, i), fate);
  }

  /** How a step changes the fates. */
  lemma FatesMove(cfg: Config, s: State, step: Step, t: State)
    requires Inv(cfg, s) && Next(cfg, s, step, t) && (s.up || step.StartUp?)
    ensures match step
            case StartUp(_) => forall n :: n in FatesOf(t) ==> FatesOf(t)[n] == []
            case TrackNext(n, fate) =>
              n in FatesOf(s) && FatesOf(t) == FatesOf(s)[n := FatesOf(s)[n] + [fate]]
            case Report(n, i, ok) =>
              && n in FatesOf(s) && i < |FatesOf(s)[n]| && FatesOf(s)[n][i] == Sent
              && FatesOf(t) == FatesOf(s)[n := FatesOf(s)[n][i := if ok then Delivered else Failed]]
            case _ => FatesOf(t) == FatesOf(s)
  {
    hide Next, Inv, RecordMoves;
    StepIsOf(cfg, s, step, t);
    forall n | n in s.files ensures t.files[n].run.fates == FatesAfter(s, step, n) {
      NextMovesRecord(cfg, s, step, t, n);
      RecordFates(s, step, t, n);
    }
    if step.Report? {
      NextMovesRecord(cfg, s, step, t, step.n);
      RecordFates(s, step, t, step.n);
    }
  }

  function FatesAfter(s: State, step: Step, n: Name): seq<Fate>
    requires n in s.files
  {
    var fates := s.files[n].run.fates;
    match step
    case StartUp(_) => []
    case TrackNext(m, fate) => if m == n then fates + [fate] else fates
    case Report(m, i, ok) =>
      if m == n && i < |fates| then fates[i := if ok then Delivered else Failed] else fates
    case _ => fates
  }

  lemma RecordFates(s: State, step: Step, t: State, n: Name)
    requires n in s.files && n in t.files && RecordMoves(s, step, t, n)
    ensures t.files[n].run.fates == FatesAfter(s, step, n)
    ensures step.Report? && step.n == n ==> step.i < |s.files[n].run.fates| && s.files[n].run.fates[step.i] == Sent
  {}

  lemma StepIsOf(cfg: Config, s: State, step: Step, t: State)
    requires Inv(cfg, s) && Next(cfg, s, step, t) && (s.up || step.StartUp?)
    ensures t.files.Keys == s.files.Keys
    ensures step.TrackNext? || step.Report? ==> step.n in s.files
  {
    hide Inv, TrackFile, PollFile, StartFile, SaveStep, Committed, Do, Legal;
  }

  lemma FirstFate(cfg: Config, s: State, step: Step, t: State)
    requires Next(cfg, s, step, t) && step.TrackNext?
    ensures step.fate in {Blank, Malformed, Undeliverable, Unsent, Sent}
  {
    hide IsBlank, PollFile, StartFile, SaveStep, Committed, Do, Legal;
  }

  // ---------------------------------------------------------------------------------------------
  // The writer's counters
  // ---------------------------------------------------------------------------------------------

  /** The writer's counters after a step, in the terms of its own methods. */
  function Count(c: P.Counters, step: Step): P.Counters {
    match step
    case StartUp(_) => P.Counters(0, 0, 0)
    case TrackNext(_, fate) => if fate == Sent then c.Queued() else if fate == Undeliverable then c.Refused() else c
    case Report(_, _, ok) => c.Served(ok)
    case _ => c
  }

  function CountAll(steps: seq<Step>): P.Counters {
    if steps == [] then P.Counters(0, 0, 0) else Count(CountAll(steps[..|steps| - 1]), steps[|steps| - 1])
  }

  /** A step of the forwarder is a step of the writer's ledger, and keeps the tally. */
  lemma StepTallies(cfg: Config, s: State, step: Step, t: State, c: P.Counters)
    requires Inv(cfg, s) && Next(cfg, s, step, t) && (s.up || step.StartUp?)
    requires s.up ==> P.Tally(LedgerOf(FatesOf(s)), c)
    ensures var d := Count(c, step); P.Tally(LedgerOf(FatesOf(t)), d)
  {
    hide Next, Inv, FatesOf, P.Tally, LedgerOf;
    FatesMove(cfg, s, step, t);
    match step
    case StartUp(_) => NothingYet(FatesOf(t));
    case TrackNext(n, fate) =>
      FirstFate(cfg, s, step, t);
      TrackTallies(FatesOf(s), n, fate, c);
    case Report(n, i, ok) => ReportTallies(FatesOf(s), n, i, ok, c);
    case _ =>
  }

  lemma TrackTallies(m: Fates, n: Name, fate: Fate, c: P.Counters)
    requires n in m && fate in {Blank, Malformed, Undeliverable, Unsent, Sent}
    requires P.Tally(LedgerOf(m), c)
    ensures P.Tally(LedgerOf(m[n := m[n] + [fate]]),
                    if fate == Sent then c.Queued() else if fate == Undeliverable then c.Refused() else c)
  {
    hide LedgerOf, P.Tally, P.Ledger.Known;
    LedgerMore(m, n, fate);
    P.TallySend(LedgerOf(m), P.Id(n, |m[n]|), c);
  }

  lemma LedgerMore(m: Fates, n: Name, fate: Fate)
    requires n in m && fate in {Blank, Malformed, Undeliverable, Unsent, Sent}
    ensures var id, l := P.Id(n, |m[n]|), LedgerOf(m);
            && id !in l.Known()
            && LedgerOf(m[n := m[n] + [fate]])
               == if fate == Sent then l.Queue(id) else if fate == Undeliverable then l.Refuse(id) else l
  {
    hide With;
    WithMore(m, n, fate, Sent);
    WithMore(m, n, fate, Delivered);
    WithMore(m, n, fate, Failed);
    WithMore(m, n, fate, Undeliverable);
    hide P.Ledger.Known;
    NotKnown(LedgerOf(m), P.Id(n, |m[n]|));
  }

  lemma NotKnown(l: P.Ledger, id: P.Id)
    requires id !in l.waiting && id !in l.delivered && id !in l.lost && id !in l.refused
    ensures id !in l.Known()
  {}

  lemma ReportTallies(m: Fates, n: Name, i: nat, ok: bool, c: P.Counters)
    requires n in m && i < |m[n]| && m[n][i] == Sent
    requires P.Tally(LedgerOf(m), c)
    ensures P.Tally(LedgerOf(m[n := m[n][i := if ok then Delivered else Failed]]), c.Served(ok))
  {
    hide With, P.Tally;
    var f, l := if ok then Delivered else Failed, LedgerOf(m);
    var r := P.Report(P.Id(n, i), if ok then P.Stored else P.Rejected(false));
    WithChanged(m, n, i, f, Sent);
    WithChanged(m, n, i, f, Delivered);
    WithChanged(m, n, i, f, Failed);
    WithChanged(m, n, i, f, Undeliverable);
    P.TallyServe(l, r, c);
    assert LedgerOf(m[n := m[n][i := f]]) == l.Serve(r);
  }

  lemma NothingYet(m: Fates)
    requires forall n :: n in m ==> m[n] == []
    ensures P.Tally(LedgerOf(m), P.Counters(0, 0, 0))
  {
    assert With(m, Sent) == {} && With(m, Delivered) == {} && With(m, Failed) == {} && With(m, Undeliverable) == {};
  }

  /** In every run, at every point: each line handed to Kafka is waiting for its callback, delivered, or
      reported as failed, and only one of these; the counters are the sizes of these sets, so that
      produced = acked + failed deliveries + outstanding callbacks. */
  lemma {:induction false} CountersBalance(cfg: Config, ss: seq<State>, steps: seq<Step>, i: nat)
    requires Trace(cfg, ss, steps) && i < |ss| && ss[i].up
    ensures var m, c := FatesOf(ss[i]), CountAll(steps[..i]);
            && P.Tally(LedgerOf(m), c)
            && c.produced == c.acked + |With(m, Failed)| + |With(m, Sent)|
            && c.failed == |With(m, Failed)| + |With(m, Undeliverable)|
  {
    hide Inv, Next, With, FatesOf;
    if i == 0 {
      assert false;
    } else {
      TraceInv(cfg, ss, steps, i - 1);
      NextMovesUnsent(cfg, ss[i - 1], steps[i - 1], ss[i]);
      if ss[i - 1].up { CountersBalance(cfg, ss, steps, i - 1); }
      var c := CountAll(steps[..i - 1]);
      assert steps[..i][..i - 1] == steps[..i - 1];
      StepTallies(cfg, ss[i - 1], steps[i - 1], ss[i], c);
    }
  }

  /** What the trackers have been told: a line counts as acknowledged exactly if it was blank, malformed, or
      settled in the writer's ledger. */
  lemma AckedIsSettled(m: Fates, n: Name, i: nat)
    requires n in m && i < |m[n]|
    ensures i in Acked(m[n]) <==> m[n][i] in {Blank, Malformed} || P.Id(n, i) in LedgerOf(m).Settled()
  {
    hide With;
    WithIn(m, P.Id(n, i), Delivered);
    WithIn(m, P.Id(n, i), Undeliverable);
  }
}
