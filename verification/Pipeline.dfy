/** Forwarder and ingestor together: from lines in rotating files to rows in a table.

    The forwarder may send a line any number of times; the table's key depends on the bytes of the line
    alone, so each distinct storable alert ends up as exactly one row. */
module Pipeline {
  import opened Lines
  import opened Watcher
  import opened Rotation
  import opened Broker
  import Checkpoints
  import F = Forwarder
  import G = Ingest
  import Findings

  datatype State = State(f: F.State, g: G.State)
  datatype Config = Config(f: F.Config, g: G.Config)
  datatype Step = Forward(f: F.Step) | Ingest(g: G.Step)

  /** The only producer of the topics is the forwarder. */
  ghost predicate Next(cfg: Config, s: State, step: Step, t: State) {
    match step
    case Forward(a) => F.Next(cfg.f, s.f, a, t.f) && t.g == s.g.(log := t.f.log)
    case Ingest(b) => !b.Produce? && G.Next(cfg.g, s.g, b, t.g) && t.f == s.f
  }

  ghost predicate Init(s: State) {
    && F.Init(s.f) && G.Init(s.g) && s.f.log == s.g.log
    && (forall p :: p in s.f.log ==> s.f.log[p] == [])
    && (forall n :: n in s.f.files ==> s.f.files[n].handed == {})
  }

  /** The line is a line of the stream. */
  ghost predicate InStream(w: World, l: Line) {
    var c := Cursor(IndexOf(w.gens, l.inode), l.end);
    && c.gen < |w.gens| && Boundary(w, c)
    && Before(w, c) != [] && Before(w, c)[|Before(w, c)| - 1] == l
  }

  /** Everything handed to Kafka is a line of the file's stream. */
  ghost predicate HandedOk(f: F.File) {
    forall l :: l in f.handed ==> InStream(f.w, l)
  }

  ghost predicate HandedRaw(files: map<Checkpoints.Name, F.File>, raw: Bytes) {
    exists n, l :: n in files && l in files[n].handed && l.raw == raw
  }

  /** Everything in the topics was handed over. */
  ghost predicate LogOk(s: F.State) {
    forall p, i :: p in s.log && 0 <= i < |s.log[p]| ==> HandedRaw(s.files, s.log[p][i])
  }

  ghost predicate Inv(cfg: Config, s: State) {
    && F.Inv(cfg.f, s.f) && G.Inv(cfg.g, s.g) && s.f.log == s.g.log
    && LogOk(s.f) && forall n :: n in s.f.files ==> HandedOk(s.f.files[n])
  }

  // ---------------------------------------------------------------------------------------------
  // What is handed over
  // ---------------------------------------------------------------------------------------------

  lemma InStreamStable(w: World, v: World, l: Line)
    requires InStream(w, l) && Grows(w, v) && DistinctInodes(v)
    ensures InStream(v, l)
  {
    hide Before;
    var k := IndexOf(w.gens, l.inode);
    IndexOfUnique(v, k);
    BoundaryStable(w, v, Cursor(k, l.end));
  }

  /** The next line of the batch is a line of the stream. */
  lemma NextLineInStream(cfg: F.Config, log: Log, n: Checkpoints.Name, f: F.File)
    requires F.RunOk(cfg, log, n, f) && f.run.batch != []
    ensures InStream(f.w, f.run.batch[0])
  {
    hide Before, F.SettledTo, F.FateOk;
    var r := f.run;
    var i := |Before(f.w, r.origin)| + |r.tracked|;
    F.RunTail(cfg, log, n, f);
    F.TailBoundary(f.w, r.tail, r.cur);
    hide TailAt;
    BatchAt(Before(f.w, r.origin), r.tracked, r.batch);
    var k := LineNamesPrefix(f.w, r.cur, i);
    IndexOfUnique(f.w, k);
    assert Before(f.w, Cursor(k, r.batch[0].end))[i] == Before(f.w, r.cur)[i];
  }

  lemma BatchAt<T>(a: seq<T>, b: seq<T>, c: seq<T>)
    requires c != []
    ensures |a| + |b| < |a + (b + c)| && (a + (b + c))[|a| + |b|] == c[0]
  {}

  /** How a step of the forwarder changes what was handed over. */
  lemma HandedMoves(cfg: F.Config, s: F.State, step: F.Step, t: F.State, n: Checkpoints.Name)
    requires F.Next(cfg, s, step, t) && n in s.files
    ensures n in t.files
    ensures t.files[n].handed == s.files[n].handed
            || (step.TrackNext? && step.n == n && s.up && s.files[n].run.batch != []
                && t.files[n].handed == s.files[n].handed + {s.files[n].run.batch[0]})
  {
    hide TailAt, Before, Legal, Listed, HandsOn, RaceLoses, StartOf, StartCursor, StartEnv, LegalAll, Do,
         F.IsBlank, InLog, F.Committed, Checkpoints.SaveStep, Grows, Checkpoints.LoadOf, Checkpoints.Quarantined;
  }

  lemma HandedStays(cfg: F.Config, s: F.State, step: F.Step, t: F.State, n: Checkpoints.Name)
    requires F.Inv(cfg, s) && F.Next(cfg, s, step, t) && n in s.files && HandedOk(s.files[n])
    ensures n in t.files && HandedOk(t.files[n])
  {
    hide F.Next, InStream, Grows, F.SafeAt, Before, TailAt;
    F.StepGrows(cfg, s, step, t, n);
    F.NextKeepsInv(cfg, s, step, t);
    HandedMoves(cfg, s, step, t, n);
    assert F.FileOk(cfg, t.log, n, t.files[n]);
    forall l | l in t.files[n].handed ensures InStream(t.files[n].w, l) {
      if l !in s.files[n].handed {
        assert F.RunOk(cfg, s.log, n, s.files[n]);
        NextLineInStream(cfg, s.log, n, s.files[n]);
      }
      InStreamStable(s.files[n].w, t.files[n].w, l);
    }
  }

  lemma LogMoves(cfg: F.Config, s: F.State, step: F.Step, t: F.State)
    requires F.Next(cfg, s, step, t)
    ensures t.files.Keys == s.files.Keys
    ensures if step.Store? then
              && step.n in s.files && step.line in s.files[step.n].handed
              && t.log == Appended(s.log, step.part, step.line.raw)
            else t.log == s.log
  {
    hide F.TrackFile, F.PollFile, F.StartFile, F.Committed, Checkpoints.SaveStep, Legal, Do, InLog,
         Checkpoints.LoadOf, Checkpoints.Quarantined;
  }

  lemma LogStays(cfg: F.Config, s: F.State, step: F.Step, t: F.State)
    requires F.Next(cfg, s, step, t) && LogOk(s)
    ensures LogOk(t)
  {
    hide F.Next;
    LogMoves(cfg, s, step, t);
    forall p, i | p in t.log && 0 <= i < |t.log[p]| ensures HandedRaw(t.files, t.log[p][i]) {
      var raw := t.log[p][i];
      if p in s.log && i < |s.log[p]| {
        assert HandedRaw(s.files, s.log[p][i]);
      }
      var n, l :| n in s.files && l in s.files[n].handed && l.raw == raw;
      HandedGrows(cfg, s, step, t, n);
    }
  }

  lemma HandedGrows(cfg: F.Config, s: F.State, step: F.Step, t: F.State, n: Checkpoints.Name)
    requires F.Next(cfg, s, step, t) && n in s.files
    ensures n in t.files && s.files[n].handed <= t.files[n].handed
  {
    HandedMoves(cfg, s, step, t, n);
  }

  // ---------------------------------------------------------------------------------------------
  // Whole runs
  // ---------------------------------------------------------------------------------------------

  lemma NextKeepsInv(cfg: Config, s: State, step: Step, t: State)
    requires Inv(cfg, s) && Next(cfg, s, step, t)
    ensures Inv(cfg, t)
  {
    hide F.Inv, G.Inv, F.Next, HandedOk, LogOk;
    match step
    case Forward(a) =>
      F.NextKeepsInv(cfg.f, s.f, a, t.f);
      LogMoves(cfg.f, s.f, a, t.f);
      if a.Store? { G.NextKeepsInv(cfg.g, s.g, G.Produce(a.part, a.line.raw), t.g); }
      LogStays(cfg.f, s.f, a, t.f);
      forall n | n in t.f.files ensures HandedOk(t.f.files[n]) {
        HandedStays(cfg.f, s.f, a, t.f, n);
      }
    case Ingest(b) =>
      G.NextKeepsInv(cfg.g, s.g, b, t.g);
      IngestKeepsLog(cfg.g, s.g, b, t.g);
  }

  lemma IngestKeepsLog(cfg: G.Config, s: G.State, step: G.Step, t: G.State)
    requires G.Next(cfg, s, step, t) && !step.Produce?
    ensures t.log == s.log
  {}

  ghost predicate Trace(cfg: Config, ss: seq<State>, steps: seq<Step>) {
    && |ss| == |steps| + 1 && Init(ss[0])
    && forall i :: 0 <= i < |steps| ==> Next(cfg, ss[i], steps[i], ss[i + 1])
  }

  lemma {:induction false} TraceInv(cfg: Config, ss: seq<State>, steps: seq<Step>, i: nat)
    requires Trace(cfg, ss, steps) && i < |ss|
    ensures Inv(cfg, ss[i])
  {
    if i == 0 {
      hide F.Inv;
      F.InitIsInv(cfg.f, ss[0].f);
    } else {
      hide Inv, Next, Init;
      TraceInv(cfg, ss, steps, i - 1);
      NextKeepsInv(cfg, ss[i - 1], steps[i - 1], ss[i]);
    }
  }

  /** What the ingestor parses as an alert, the forwarder takes for JSON; it is not all white space. */
  ghost predicate Agree(cfg: Config) {
    forall raw :: cfg.g.codec.parse(raw).Some? ==>
      cfg.f.isJson(raw) && exists i :: 0 <= i < |raw| && !(9 <= raw[i] <= 13 || raw[i] == 32)
  }

  /** Every partition of the topic is stored up to its end. */
  ghost predicate CaughtUpOn(g: G.State, topic: string) {
    forall p :: p in g.log && p.topic == topic && g.log[p] != [] ==>
      p in g.db.offsets && g.db.offsets[p] == |g.log[p]|
  }

  /** Distinct alerts have distinct identities (Wazuh's ids are unique per manager). */
  ghost predicate UniqueIds(cfg: Config, files: map<Checkpoints.Name, F.File>) {
    forall a, b, k ::
      (HandedRaw(files, a) && HandedRaw(files, b)
       && Findings.Identifies(cfg.g.codec, a, k) && Findings.Identifies(cfg.g.codec, b, k)) ==> a == b
  }

  /** The alert has its row: the row of its key holds these bytes, and no other row does. */
  ghost predicate HasOneRow(g: G.State, raw: Bytes, k: Findings.Key) {
    && k in g.db.findings && g.db.findings[k].raw == raw
    && forall k2 :: k2 in g.db.findings && g.db.findings[k2].raw == raw ==> k2 == k
  }

  /** Rows are made from messages, so bytes determine the row; with unique ids the row determines the bytes. */
  lemma RowIsOfAlert(cfg: Config, s: State, raw: Bytes, k: Findings.Key)
    requires Inv(cfg, s) && UniqueIds(cfg, s.f.files) && HandedRaw(s.f.files, raw)
    requires Findings.Identifies(cfg.g.codec, raw, k) && k in s.g.db.findings
    ensures HasOneRow(s.g, raw, k)
  {
    hide HandedRaw, F.Inv, G.ReadingOk, G.OriginOk, HandedOk;
    assert G.RowOk(cfg.g, s.g, k);
    var r := s.g.db.findings[k];
    assert HandedRaw(s.f.files, s.f.log[r.part][r.offset]);
    forall k2 | k2 in s.g.db.findings && s.g.db.findings[k2].raw == raw ensures k2 == k {
      assert G.RowOk(cfg.g, s.g, k2);
    }
  }

  /** Exactly one row for each distinct alert: in every joint run, a storable alert in a message that the
      stored offsets account for has its row, and only one, however often the line was sent. */
  lemma OneRowEach(cfg: Config, ss: seq<State>, steps: seq<Step>, j: nat, p: Part, i: nat, k: Findings.Key)
    requires Trace(cfg, ss, steps) && j < |ss| && UniqueIds(cfg, ss[j].f.files)
    requires G.Covered(ss[j].g, p, i) && G.HasKey(cfg.g, ss[j].g.log, p, i, k)
    ensures HasOneRow(ss[j].g, ss[j].g.log[p][i], k)
  {
    hide Next, Init, HandedRaw, F.Inv, HandedOk, HasOneRow;
    TraceInv(cfg, ss, steps, j);
    assert HandedRaw(ss[j].f.files, ss[j].f.log[p][i]);
    RowIsOfAlert(cfg, ss[j], ss[j].g.log[p][i], k);
  }

  /** Nothing is lost end to end: a storable alert in front of any loadable checkpoint, not logged as
      undeliverable, has its row as soon as the ingestor has caught up on its topic; with unique ids it is
      the row of this alert and the only one. */
  lemma AlertArrives(cfg: Config, ss: seq<State>, steps: seq<Step>, j: nat, n: Checkpoints.Name, m: nat,
                     k: Findings.Key)
    requires Trace(cfg, ss, steps) && j < |ss| && Agree(cfg) && !cfg.g.fromEnd
    requires n in ss[j].f.files && F.FindsCheckpoint(ss[j].f, n)
    requires CaughtUpOn(ss[j].g, cfg.f.topic(n))
    ensures var s := ss[j];
            var f, p := s.f.files[n], Checkpoints.LoadOf(s.f.disk).GetOr(map[])[n];
            && CursorOk(f.w, f.base) && CursorOk(f.w, F.At(f.w, p))
            && (|Before(f.w, f.base)| <= m < |Before(f.w, F.At(f.w, p))| ==>
                  var l := Before(f.w, F.At(f.w, p))[m];
                  Findings.Identifies(cfg.g.codec, l.raw, k) && cfg.g.codec.storable(l.raw) && l !in f.dropped ==>
                    && k in s.g.db.findings
                    && (UniqueIds(cfg, s.f.files) ==> HasOneRow(s.g, l.raw, k)))
  {
    hide Next, Init, Before, F.RunOk, G.RowOk, TailAt, Boundary, HandedRaw, HasOneRow, HandedOk;
    TraceInv(cfg, ss, steps, j);
    var s := ss[j];
    F.LoadedIsSafe(cfg.f, s.f, n);
    var f, p := s.f.files[n], Checkpoints.LoadOf(s.f.disk).GetOr(map[])[n];
    F.BoundaryOk(f.w, F.At(f.w, p));
    if |Before(f.w, f.base)| <= m < |Before(f.w, F.At(f.w, p))| {
      var l := Before(f.w, F.At(f.w, p))[m];
      assert F.Settled(cfg.f, s.f.log, n, f, l);
      if Findings.Identifies(cfg.g.codec, l.raw, k) && cfg.g.codec.storable(l.raw) && l !in f.dropped {
        StoredArrives(cfg.g, s.g, cfg.f.topic(n), l.raw, k);
        hide UniqueIds;
        InLogIsHanded(s.f, cfg.f.topic(n), l.raw);
        if UniqueIds(cfg, s.f.files) { RowIsOfAlert(cfg, s, l.raw, k); }
      }
    }
  }

  lemma InLogIsHanded(s: F.State, topic: string, raw: Bytes)
    requires LogOk(s) && InLog(s.log, topic, raw)
    ensures HandedRaw(s.files, raw)
  {
    hide HandedRaw;
    var p, i :| p in s.log && p.topic == topic && 0 <= i < |s.log[p]| && s.log[p][i] == raw;
  }

  lemma StoredArrives(cfg: G.Config, g: G.State, topic: string, raw: Bytes, k: Findings.Key)
    requires G.Inv(cfg, g) && !cfg.fromEnd && CaughtUpOn(g, topic) && InLog(g.log, topic, raw)
    requires Findings.Identifies(cfg.codec, raw, k) && cfg.codec.storable(raw)
    ensures k in g.db.findings
  {
    hide G.RowOk, G.ReadingOk, G.OriginOk;
    var p, i :| p in g.log && p.topic == topic && 0 <= i < |g.log[p]| && g.log[p][i] == raw;
    assert G.Covered(g, p, i) && G.HasKey(cfg, g.log, p, i, k);
  }

  /** Nothing is invented: every row is a line of some followed file's stream, under the manager its alert
      names, or nothing, and its id, or else its content hash. */
  lemma NoRowInvented(cfg: Config, ss: seq<State>, steps: seq<Step>, j: nat, k: Findings.Key)
    requires Trace(cfg, ss, steps) && j < |ss| && k in ss[j].g.db.findings
    ensures var s := ss[j];
            var r := s.g.db.findings[k];
            && (exists n, l :: n in s.f.files && InStream(s.f.files[n].w, l) && l.raw == r.raw)
            && r.key == k && cfg.g.codec.parse(r.raw).Some?
            && var a := cfg.g.codec.parse(r.raw).value;
               && k.manager == (if a.manager.Some? then a.manager.value else "")
               && k.alertId == (if a.id.Some? then a.id.value else "sha256:" + cfg.g.codec.digest(r.raw))
  {
    hide Next, Init, InStream, F.Inv, G.ReadingOk, G.OriginOk;
    TraceInv(cfg, ss, steps, j);
    var s := ss[j];
    var r := s.g.db.findings[k];
    assert G.RowOk(cfg.g, s.g, k);
    assert HandedRaw(s.f.files, r.raw);
    var n, l :| n in s.f.files && l in s.f.files[n].handed && l.raw == r.raw;
    assert HandedOk(s.f.files[n]);
  }
}
