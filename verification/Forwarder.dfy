/** The forwarder as a whole: several followed files, their trackers, the broker and the checkpoint.

    `Next` lists what can happen, in any order: the log writers append and rotate, the tailers poll, lines
    are tracked and handed to Kafka, the broker stores messages and reports deliveries in any order,
    offsets are committed, every durable step of a save may be the last one before a crash, and a new
    process starts from whatever checkpoint it finds. `Inv` holds in all of it. */
module Forwarder {
  import opened Options
  import opened Seqs
  import opened Lines
  import opened Watcher
  import opened Rotation
  import opened Acks
  import opened Checkpoints
  import opened Broker

  /** Which topic a file goes to, which lines parse as JSON, and the start_from policy. */
  datatype Config = Config(topic: Name -> string, isJson: Bytes -> bool, fromEnd: bool)

  /** What became of a tracked line. `Sent` is a message whose delivery has not been reported. */
  datatype Fate = Blank | Malformed | Undeliverable | Unsent | Sent | Delivered | Failed

  /** One file in the running process: the tailer and where it stands, where this process began, the
      lines tracked since with what became of each, and the lines polled but not tracked yet. */
  datatype Run = Run(tail: Tail, cur: Cursor, origin: Cursor, start: Option<Position>,
                     tracked: seq<Line>, fates: seq<Fate>, batch: seq<Line>)

  /** One file over all time. `base` is where its stream begins: the place of the last start that found
      no checkpoint for it. `dropped`, `handed` and `stored` are the lines logged undeliverable, the lines
      given to Kafka and those of them that the broker has stored so far. */
  datatype File = File(w: World, base: Cursor, dropped: set<Line>, handed: set<Line>, stored: set<Line>, run: Run)

  datatype State = State(up: bool, stopping: bool, files: map<Name, File>, log: Log,
                         mem: Offsets, dirty: bool, disk: Disk, stage: nat, unsent: Option<(Name, nat)>)

  // ---------------------------------------------------------------------------------------------
  // Settled lines
  // ---------------------------------------------------------------------------------------------

  /** `bytes.strip()` leaves nothing. */
  predicate IsBlank(raw: Bytes) {
    forall i :: 0 <= i < |raw| ==> 9 <= raw[i] <= 13 || raw[i] == 32
  }

  /** The line needs nothing more: it is blank, malformed, logged undeliverable, or this very line has been
      stored by the broker. */
  ghost predicate Settled(cfg: Config, log: Log, n: Name, f: File, l: Line) {
    || IsBlank(l.raw) || !cfg.isJson(l.raw) || l in f.dropped
    || (l in f.stored && InLog(log, cfg.topic(n), l.raw))
  }

  /** In plain terms: unless every byte of it is white space, or it is no JSON, the line is logged
      undeliverable or a message with these bytes is in a partition of its topic. */
  lemma SettledMeans(cfg: Config, log: Log, n: Name, f: File, l: Line)
    requires Settled(cfg, log, n, f, l)
    ensures (exists i :: 0 <= i < |l.raw| && !(9 <= l.raw[i] <= 13 || l.raw[i] == 32)) && cfg.isJson(l.raw) ==>
              || l in f.dropped
              || (l in f.stored && exists p, i :: p in log && p.topic == cfg.topic(n) && 0 <= i < |log[p]|
                                                  && log[p][i] == l.raw)
  {}

  /** Every line of the stream from `base` up to `c` is settled. */
  ghost predicate SettledTo(cfg: Config, log: Log, n: Name, f: File, c: Cursor) {
    && CursorOk(f.w, f.base) && CursorOk(f.w, c)
    && forall i :: |Before(f.w, f.base)| <= i < |Before(f.w, c)| ==>
         Settled(cfg, log, n, f, Before(f.w, c)[i])
  }

  function At(w: World, p: Position): Cursor { Cursor(IndexOf(w.gens, p.inode), p.offset) }

  /** `p` is a checkpoint that skips nothing and that a restart will accept. */
  ghost predicate SafeAt(cfg: Config, log: Log, n: Name, f: File, p: Position) {
    && At(f.w, p).gen < |f.w.gens|
    && Boundary(f.w, At(f.w, p))
    && SettledTo(cfg, log, n, f, At(f.w, p))
  }

  // ---------------------------------------------------------------------------------------------
  // Steps
  // ---------------------------------------------------------------------------------------------

  datatype Step =
    | Env(n: Name, act: Act)
    | StartUp(dirs: map<Name, seq<Entry>>)
    | Poll(n: Name, acts: seq<Act>, dir: seq<Entry>, dir2: seq<Entry>, max: int, statFails: bool)
    | TrackNext(n: Name, fate: Fate)
    | Stop
    | Store(n: Name, line: Line, part: Part)
    | Report(n: Name, i: nat, ok: bool)
    | Commit
    | SaveOn
    | SaveError
    | Crash
    | Damage(main: bool)

  function Acked(fates: seq<Fate>): set<nat> {
    set i | 0 <= i < |fates| && fates[i] in {Blank, Malformed, Undeliverable, Delivered} :: i as nat
  }

  function Ends(lines: seq<Line>): (r: seq<Position>)
    ensures |r| == |lines| && forall i :: 0 <= i < |r| ==> r[i] == Position(lines[i].inode, lines[i].end)
  {
    seq(|lines|, i requires 0 <= i < |lines| => Position(lines[i].inode, lines[i].end))
  }

  /** What the tracker of this file would have persisted. */
  function CommittedPos(r: Run): Option<Position> { CommittedOf(r.start, Ends(r.tracked), Acked(r.fates)) }

  /** `_commit`: every tracker's position that is not None replaces the entry of its file. */
  function Committed(s: State): Offsets {
    s.mem + map n | n in s.files && CommittedPos(s.files[n].run).Some? :: CommittedPos(s.files[n].run).value
  }

  /** A process start, for one file. The tailer opens what `StartOf` says; with a checkpoint the directory
      is as `StartEnv` wants it, without one and with start_from=end the file ends with a whole line. */
  ghost predicate StartFile(cfg: Config, f: File, dir: seq<Entry>, saved: Option<Position>, g: File) {
    var r := g.run;
    && g == f.(base := g.base, run := r)
    && r.tail == StartOf(f.w, dir, cfg.fromEnd, saved) && r.cur == StartCursor(f.w, dir, cfg.fromEnd, saved)
    && r.origin == r.cur && r.tracked == [] && r.fates == [] && r.batch == []
    && r.start == (if r.tail.open then Some(Position(r.tail.inode, r.tail.offset)) else None)
    && match saved
       case None =>
         && (cfg.fromEnd && AtPathAny(f.w) ==> EndsLine(f.w.gens[|f.w.gens| - 1].bytes))
         && g.base == r.cur
       case Some(p) =>
         && StartEnv(f.w, dir, At(f.w, p).gen)
         && g.base == f.base
  }

  predicate EndsLine(s: Bytes) { s == [] || s[|s| - 1] == NL }

  /** A poll of one file, during which the writers do `acts`. They keep to the rules a running tailer relies
      on and do not win the one race it can lose. */
  ghost predicate PollFile(f: File, acts: seq<Act>, dir: seq<Entry>, dir2: seq<Entry>, max: int, statFails: bool,
                           g: File)
  {
    var r, v, o := f.run, DoAll(f.w, acts), Opened(f.w, dir, f.run.tail);
    && r.batch == [] && max > 0
    && LegalAll(f.w, acts, Some(o)) && Grows(f.w, v) && CursorOk(f.w, r.cur) && CursorOk(v, r.cur)
    && Listed(f.w, dir, r.cur.gen) && Listed(v, dir2, r.cur.gen)
    && (statFails || !RaceLoses(f.w, v, o, r.cur, max))
    && g == f.(w := v, run := r.(tail := g.run.tail, cur := g.run.cur, batch := g.run.batch))
    && HandsOn(v, r.cur, max, g.run.tail, g.run.cur, g.run.batch)
  }

  /** The body of the line loop: blank and malformed lines are settled on the spot, anything else goes
      to Kafka, which may refuse it for good or, at shutdown, not be reached any more. */
  ghost predicate TrackFile(cfg: Config, f: File, fate: Fate, g: File) {
    var r := f.run;
    && r.batch != []
    && var l := r.batch[0];
    && (if IsBlank(l.raw) then fate == Blank
        else if !cfg.isJson(l.raw) then fate == Malformed
        else fate in {Undeliverable, Sent, Unsent})
    && g == f.(dropped := if fate == Undeliverable then f.dropped + {l} else f.dropped,
               handed := if fate == Sent then f.handed + {l} else f.handed,
               run := r.(tracked := r.tracked + [l], fates := r.fates + [fate], batch := r.batch[1..]))
  }

  ghost predicate Next(cfg: Config, s: State, step: Step, t: State) {
    match step
    case Env(n, act) =>
      && n in s.files
      && var f := s.files[n];
      && Legal(f.w, act, if s.up then Some(f.run.tail) else None)
      && t == s.(files := s.files[n := f.(w := Do(f.w, act))])
    case StartUp(dirs) =>
      && !s.up && t.files.Keys == s.files.Keys && dirs.Keys == s.files.Keys
      && var loaded := LoadOf(s.disk);
      && t == State(true, false, t.files, s.log, loaded.GetOr(map[]), loaded.Some? && !s.disk.main.Good?,
                    Quarantined(s.disk).(tmp := Missing), 0, None)
      && forall n :: n in s.files ==>
           StartFile(cfg, s.files[n], dirs[n], if n in t.mem then Some(t.mem[n]) else None, t.files[n])
    case Poll(n, acts, dir, dir2, max, statFails) =>
      && s.up && !s.stopping && s.unsent.None? && n in s.files && n in t.files
      && PollFile(s.files[n], acts, dir, dir2, max, statFails, t.files[n])
      && t == s.(files := s.files[n := t.files[n]])
    case TrackNext(n, fate) =>
      && s.up && s.unsent.None? && n in s.files && n in t.files
      && TrackFile(cfg, s.files[n], fate, t.files[n])
      && (fate == Unsent ==> s.stopping)
      && t == s.(files := s.files[n := t.files[n]],
                 unsent := if fate == Unsent then Some((n, |s.files[n].run.tracked|)) else None)
    case Stop =>
      s.up && t == s.(stopping := true)
    case Store(n, line, part) =>
      && n in s.files && line in s.files[n].handed && part.topic == cfg.topic(n)
      && var f := s.files[n];
      && t == s.(log := Appended(s.log, part, line.raw), files := s.files[n := f.(stored := f.stored + {line})])
    case Report(n, i, ok) =>
      && s.up && n in s.files
      && var f := s.files[n];
      && i < |f.run.fates| && i < |f.run.tracked| && f.run.fates[i] == Sent
      && (ok ==> f.run.tracked[i] in f.stored)
      && t == s.(files := s.files[n := f.(run := f.run.(fates := f.run.fates[i := if ok then Delivered else Failed]))])
    case Commit =>
      s.up && s.stage == 0 && t == s.(mem := Committed(s), dirty := s.dirty || Committed(s) != s.mem)
    case SaveOn =>
      && s.up && s.stage < 4 && (s.stage == 0 ==> s.dirty)
      && t == s.(disk := SaveStep(s.disk, s.mem, s.stage), stage := (s.stage + 1) % 4,
                 dirty := s.dirty && s.stage < 3)
    case SaveError =>
      s.up && s.stage > 0 && t == s.(disk := s.disk.(tmp := Missing), stage := 0)
    case Crash =>
      s.up && t == s.(up := false)
    case Damage(main) =>
      t == s.(disk := if main then s.disk.(main := Torn) else s.disk.(bak := Torn))
  }

  /** Nothing has run yet: no checkpoint, nothing sent; the log may have any history. */
  ghost predicate Init(s: State) {
    && !s.up && s.disk == Disk(Missing, Missing, Missing)
    && forall n :: n in s.files ==>
         DistinctInodes(s.files[n].w) && s.files[n].base == Cursor(0, 0) && s.files[n].stored == {}
  }

  // ---------------------------------------------------------------------------------------------
  // The invariant
  // ---------------------------------------------------------------------------------------------

  /** The recorded fate of a tracked line is what happened to it. */
  ghost predicate FateOk(cfg: Config, log: Log, n: Name, f: File, l: Line, fate: Fate) {
    match fate
    case Blank => IsBlank(l.raw)
    case Malformed => !cfg.isJson(l.raw)
    case Undeliverable => l in f.dropped
    case Delivered => l in f.handed && l in f.stored && InLog(log, cfg.topic(n), l.raw)
    case Sent => l in f.handed
    case Failed => l in f.handed
    case Unsent => true
  }

  ghost predicate RunOk(cfg: Config, log: Log, n: Name, f: File) {
    var r := f.run;
    && TailAt(f.w, r.tail, r.cur)
    && Boundary(f.w, r.origin)
    && Before(f.w, r.cur) == Before(f.w, r.origin) + (r.tracked + r.batch)
    && SettledTo(cfg, log, n, f, r.origin)
    && (r.start.Some? ==> At(f.w, r.start.value) == r.origin && r.origin.gen < |f.w.gens|)
    && |r.fates| == |r.tracked|
    && forall i :: 0 <= i < |r.fates| ==> FateOk(cfg, log, n, f, r.tracked[i], r.fates[i])
  }

  ghost predicate FileOk(cfg: Config, log: Log, n: Name, f: File) {
    && DistinctInodes(f.w) && Boundary(f.w, f.base) && (!cfg.fromEnd ==> f.base.off == 0)
    && forall l :: l in f.stored ==> InLog(log, cfg.topic(n), l.raw)
  }

  ghost predicate OffsetsOk(cfg: Config, log: Log, files: map<Name, File>, m: Offsets) {
    forall n :: n in m && n in files ==> SafeAt(cfg, log, n, files[n], m[n])
  }

  ghost predicate SlotOk(cfg: Config, log: Log, files: map<Name, File>, slot: Slot) {
    slot.Good? ==> OffsetsOk(cfg, log, files, slot.files)
  }

  ghost predicate DiskOk(cfg: Config, log: Log, files: map<Name, File>, d: Disk) {
    SlotOk(cfg, log, files, d.main) && SlotOk(cfg, log, files, d.bak) && SlotOk(cfg, log, files, d.tmp)
  }

  ghost predicate Inv(cfg: Config, s: State) {
    && (forall n :: n in s.files ==> FileOk(cfg, s.log, n, s.files[n]))
    && (s.up ==> forall n :: n in s.files ==> RunOk(cfg, s.log, n, s.files[n]))
    && (s.up ==> OffsetsOk(cfg, s.log, s.files, s.mem))
    && DiskOk(cfg, s.log, s.files, s.disk)
  }

  // ---------------------------------------------------------------------------------------------
  // What stays true while everything grows
  // ---------------------------------------------------------------------------------------------

  ghost predicate Evolves(f: File, g: File) {
    && DistinctInodes(f.w) && DistinctInodes(g.w) && Grows(f.w, g.w)
    && Boundary(f.w, f.base) && Boundary(g.w, g.base)
    && |Before(f.w, f.base)| <= |Before(g.w, g.base)|
    && f.dropped <= g.dropped && f.handed <= g.handed && f.stored <= g.stored
  }

  lemma SettledToEvolves(cfg: Config, a: Log, b: Log, n: Name, f: File, g: File, c: Cursor)
    requires LogLe(a, b) && Evolves(f, g) && Boundary(f.w, c) && SettledTo(cfg, a, n, f, c)
    ensures Boundary(g.w, c) && Before(g.w, c) == Before(f.w, c) && SettledTo(cfg, b, n, g, c)
  {
    hide Before, Boundary, InLog, LogLe;
    BoundaryStable(f.w, g.w, c);
    BoundaryOk(g.w, c);
    BoundaryOk(g.w, g.base);
    forall i | |Before(g.w, g.base)| <= i < |Before(g.w, c)| ensures Settled(cfg, b, n, g, Before(g.w, c)[i]) {
      var l := Before(f.w, c)[i];
      assert Settled(cfg, a, n, f, l);
      if l in f.stored && InLog(a, cfg.topic(n), l.raw) { InLogGrows(a, b, cfg.topic(n), l.raw); }
    }
  }

  lemma BoundaryOk(w: World, c: Cursor)
    requires Boundary(w, c)
    ensures CursorOk(w, c)
  {}

  lemma AtStable(w: World, v: World, p: Position)
    requires Grows(w, v) && DistinctInodes(v) && At(w, p).gen < |w.gens|
    ensures At(v, p) == At(w, p) && At(v, p).gen < |v.gens|
  {
    IndexOfUnique(v, At(w, p).gen);
  }

  lemma SafeAtEvolves(cfg: Config, a: Log, b: Log, n: Name, f: File, g: File, p: Position)
    requires LogLe(a, b) && Evolves(f, g) && SafeAt(cfg, a, n, f, p)
    ensures SafeAt(cfg, b, n, g, p)
  {
    hide Boundary, SettledTo;
    AtStable(f.w, g.w, p);
    SettledToEvolves(cfg, a, b, n, f, g, At(f.w, p));
  }

  lemma OffsetsEvolve(cfg: Config, a: Log, b: Log, fs: map<Name, File>, gs: map<Name, File>, m: Offsets)
    requires LogLe(a, b) && OffsetsOk(cfg, a, fs, m) && gs.Keys <= fs.Keys
    requires forall n :: n in gs ==> Evolves(fs[n], gs[n])
    ensures OffsetsOk(cfg, b, gs, m)
  {
    forall n | n in m && n in gs ensures SafeAt(cfg, b, n, gs[n], m[n]) {
      hide SafeAt, Evolves, LogLe;
      SafeAtEvolves(cfg, a, b, n, fs[n], gs[n], m[n]);
    }
  }

  lemma DiskEvolves(cfg: Config, a: Log, b: Log, fs: map<Name, File>, gs: map<Name, File>, d: Disk)
    requires LogLe(a, b) && DiskOk(cfg, a, fs, d) && gs.Keys <= fs.Keys
    requires forall n :: n in gs ==> Evolves(fs[n], gs[n])
    ensures DiskOk(cfg, b, gs, d)
  {
    hide OffsetsOk, Evolves, LogLe;
    if d.main.Good? { OffsetsEvolve(cfg, a, b, fs, gs, d.main.files); }
    if d.bak.Good? { OffsetsEvolve(cfg, a, b, fs, gs, d.bak.files); }
    if d.tmp.Good? { OffsetsEvolve(cfg, a, b, fs, gs, d.tmp.files); }
  }

  /** A run that has not moved stays in order. */
  lemma RunEvolves(cfg: Config, a: Log, b: Log, n: Name, f: File, g: File)
    requires LogLe(a, b) && Evolves(f, g) && RunOk(cfg, a, n, f) && g.run == f.run
    requires TailAt(g.w, f.run.tail, f.run.cur)
    ensures RunOk(cfg, b, n, g)
  {
    hide SettledTo, Boundary, Before, LogLe, InLog;
    var r := f.run;
    TailBoundary(f.w, r.tail, r.cur);
    BoundaryStable(f.w, g.w, r.cur);
    SettledToEvolves(cfg, a, b, n, f, g, r.origin);
    if r.start.Some? { AtStable(f.w, g.w, r.start.value); }
    forall i | 0 <= i < |r.fates| ensures FateOk(cfg, b, n, g, r.tracked[i], r.fates[i]) {
      if r.fates[i] == Delivered { InLogGrows(a, b, cfg.topic(n), r.tracked[i].raw); }
    }
  }

  lemma TailBoundary(w: World, t: Tail, c: Cursor)
    requires TailAt(w, t, c)
    ensures Boundary(w, c) && DistinctInodes(w)
  {}

  /** A step of one file alone. */
  lemma OneFile(cfg: Config, s: State, n: Name, g: File)
    requires Inv(cfg, s) && n in s.files && Evolves(s.files[n], g) && FileOk(cfg, s.log, n, g)
    requires s.up ==> RunOk(cfg, s.log, n, g)
    ensures Inv(cfg, s.(files := s.files[n := g]))
  {
    hide RunOk, SafeAt, DiskOk, OffsetsOk, Evolves, FileOk;
    var gs := s.files[n := g];
    forall m | m in gs ensures Evolves(s.files[m], gs[m]) {
      if m != n { EvolvesReflexive(cfg, s.log, m, s.files[m]); }
    }
    LogLeReflexive(s.log);
    DiskEvolves(cfg, s.log, s.log, s.files, gs, s.disk);
    if s.up { OffsetsEvolve(cfg, s.log, s.log, s.files, gs, s.mem); }
  }

  lemma EvolvesReflexive(cfg: Config, log: Log, n: Name, f: File)
    requires FileOk(cfg, log, n, f)
    ensures Evolves(f, f)
  {
    GrowsReflexive(f.w);
  }

  // ---------------------------------------------------------------------------------------------
  // Every step keeps the invariant
  // ---------------------------------------------------------------------------------------------

  /** New bytes and rotations leave the files in order. */
  lemma GrowOk(cfg: Config, log: Log, n: Name, f: File, v: World)
    requires FileOk(cfg, log, n, f) && DistinctInodes(v) && Grows(f.w, v)
    ensures Evolves(f, f.(w := v)) && FileOk(cfg, log, n, f.(w := v))
  {
    hide Before;
    BoundaryStable(f.w, v, f.base);
  }

  lemma EnvOk(cfg: Config, s: State, n: Name, act: Act, t: State)
    requires Inv(cfg, s) && Next(cfg, s, Env(n, act), t)
    ensures Inv(cfg, t)
  {
    hide Legal, SafeAt, DiskOk, OffsetsOk, TailAt, Before, SettledTo, Boundary, FateOk, Evolves;
    var f := s.files[n];
    var g := f.(w := Do(f.w, act));
    DoGrows(f.w, act, if s.up then Some(f.run.tail) else None);
    GrowOk(cfg, s.log, n, f, g.w);
    if s.up {
      DoKeepsTail(f.w, act, f.run.tail, f.run.cur);
      LogLeReflexive(s.log);
      RunEvolves(cfg, s.log, s.log, n, f, g);
    }
    OneFile(cfg, s, n, g);
  }

  /** The lines polled extend what this process has seen; the world has grown meanwhile. */
  lemma PollRunOk(cfg: Config, log: Log, n: Name, f: File, v: World, t: Tail, c: Cursor, batch: seq<Line>, max: int)
    requires FileOk(cfg, log, n, f) && RunOk(cfg, log, n, f) && f.run.batch == []
    requires DistinctInodes(v) && Grows(f.w, v) && HandsOn(v, f.run.cur, max, t, c, batch)
    ensures RunOk(cfg, log, n, f.(w := v, run := f.run.(tail := t, cur := c, batch := batch)))
  {
    hide Before, Boundary, SettledTo, InLog, Grows, CaughtUp, CursorLe, Evolves;
    var r := f.run;
    var g := f.(w := v, run := r.(tail := t, cur := c, batch := batch));
    GrowOk(cfg, log, n, f, v);
    EvolvesRun(f.(w := v), f, g);
    LogLeReflexive(log);
    TailBoundary(f.w, r.tail, r.cur);
    BoundaryStable(f.w, v, r.cur);
    SettledToEvolves(cfg, log, log, n, f, g, r.origin);
    BoundaryOk(v, r.origin);
    TailBoundary(v, t, c);
    BoundaryOk(v, c);
    if r.start.Some? { AtStable(f.w, v, r.start.value); }
    assert r.tracked + r.batch == r.tracked;
    Assoc(Before(v, r.origin), r.tracked, batch);
    forall i | 0 <= i < |r.fates|
      ensures FateOk(cfg, log, n, g, r.tracked[i], r.fates[i])
    {
      assert FateOk(cfg, log, n, f, r.tracked[i], r.fates[i]);
    }
  }

  lemma PollOk(cfg: Config, s: State, n: Name, acts: seq<Act>, dir: seq<Entry>, dir2: seq<Entry>, max: int,
               statFails: bool, t: State)
    requires Inv(cfg, s) && Next(cfg, s, Poll(n, acts, dir, dir2, max, statFails), t)
    ensures Inv(cfg, t)
  {
    hide Legal, SafeAt, DiskOk, OffsetsOk, TailAt, Before, SettledTo, Boundary, FateOk, Evolves, RaceLoses,
         HandsOn, LegalAll, Opened, Listed, Grows, InLog;
    var f, g := s.files[n], t.files[n];
    DoAllGrows(f.w, acts, Some(Opened(f.w, dir, f.run.tail)));
    GrowOk(cfg, s.log, n, f, g.w);
    PollRunOk(cfg, s.log, n, f, g.w, g.run.tail, g.run.cur, g.run.batch, max);
    EvolvesRun(f.(w := g.w), f, g);
    OneFile(cfg, s, n, g);
  }

  lemma EvolvesRun(e: File, f: File, g: File)
    requires Evolves(f, e) && g.w == e.w && g.base == e.base
    requires e.dropped <= g.dropped && e.handed <= g.handed && e.stored <= g.stored
    ensures Evolves(f, g)
  {}

  /** Tracking the next line of the batch. */
  lemma TrackRunOk(cfg: Config, log: Log, n: Name, f: File, fate: Fate, g: File)
    requires FileOk(cfg, log, n, f) && RunOk(cfg, log, n, f) && TrackFile(cfg, f, fate, g)
    ensures Evolves(f, g) && RunOk(cfg, log, n, g)
  {
    hide Before, Boundary, SettledTo, InLog, TailAt;
    var r, q, l := f.run, g.run, f.run.batch[0];
    assert r.tracked + r.batch == q.tracked + q.batch;
    EvolvesReflexive(cfg, log, n, f);
    EvolvesRun(f, f, g);
    LogLeReflexive(log);
    hide Evolves;
    SettledToEvolves(cfg, log, log, n, f, g, r.origin);
    forall i | 0 <= i < |q.fates| ensures FateOk(cfg, log, n, g, q.tracked[i], q.fates[i]) {
      if i < |r.fates| { assert FateOk(cfg, log, n, f, r.tracked[i], r.fates[i]); }
    }
  }

  lemma TrackOk(cfg: Config, s: State, n: Name, fate: Fate, t: State)
    requires Inv(cfg, s) && Next(cfg, s, TrackNext(n, fate), t)
    ensures Inv(cfg, t)
  {
    hide SafeAt, DiskOk, OffsetsOk, RunOk, Evolves, IsBlank;
    TrackRunOk(cfg, s.log, n, s.files[n], fate, t.files[n]);
    OneFile(cfg, s, n, t.files[n]);
  }

  /** A delivery report; good news only of what the broker has stored. */
  lemma ReportOk(cfg: Config, s: State, n: Name, i: nat, ok: bool, t: State)
    requires Inv(cfg, s) && Next(cfg, s, Report(n, i, ok), t)
    ensures Inv(cfg, t)
  {
    hide SafeAt, DiskOk, OffsetsOk, InLog, Before, Boundary, SettledTo, TailAt;
    var f, g := s.files[n], t.files[n];
    EvolvesReflexive(cfg, s.log, n, f);
    EvolvesRun(f, f, g);
    LogLeReflexive(s.log);
    hide Evolves;
    SettledToEvolves(cfg, s.log, s.log, n, f, g, f.run.origin);
    assert FateOk(cfg, s.log, n, f, f.run.tracked[i], f.run.fates[i]);
    OneFile(cfg, s, n, g);
  }

  /** The broker stores a message that was once handed over; it may do so again, or late. */
  lemma StoreOk(cfg: Config, s: State, n: Name, line: Line, part: Part, t: State)
    requires Inv(cfg, s) && Next(cfg, s, Store(n, line, part), t)
    ensures Inv(cfg, t)
  {
    hide SafeAt, DiskOk, OffsetsOk, RunOk, FileOk, Evolves, LogLe;
    AppendedGrows(s.log, part, line.raw);
    JustStored(s.log, part, line.raw);
    hide InLog, Appended;
    forall m | m in s.files ensures Evolves(s.files[m], t.files[m]) && FileOk(cfg, t.log, m, t.files[m]) {
      StoredFile(cfg, s.log, t.log, m, s.files[m], t.files[m].stored);
    }
    DiskEvolves(cfg, s.log, t.log, s.files, t.files, s.disk);
    if s.up {
      OffsetsEvolve(cfg, s.log, t.log, s.files, t.files, s.mem);
      forall m | m in s.files ensures RunOk(cfg, t.log, m, t.files[m]) {
        RunTail(cfg, s.log, m, s.files[m]);
        RunEvolves(cfg, s.log, t.log, m, s.files[m], t.files[m]);
      }
    }
  }

  lemma JustStored(log: Log, part: Part, raw: Bytes)
    ensures InLog(Appended(log, part, raw), part.topic, raw)
  {
    var after := Appended(log, part, raw);
    assert part in after && after[part][|after[part]| - 1] == raw;
  }

  lemma StoredFile(cfg: Config, a: Log, b: Log, n: Name, f: File, stored: set<Line>)
    requires FileOk(cfg, a, n, f) && LogLe(a, b) && f.stored <= stored
    requires forall l :: l in stored && l !in f.stored ==> InLog(b, cfg.topic(n), l.raw)
    ensures Evolves(f, f.(stored := stored)) && FileOk(cfg, b, n, f.(stored := stored))
  {
    hide InLog, LogLe, Boundary, Before;
    GrowsReflexive(f.w);
    forall l | l in stored ensures InLog(b, cfg.topic(n), l.raw) {
      if l in f.stored { InLogGrows(a, b, cfg.topic(n), l.raw); }
    }
  }

  lemma RunTail(cfg: Config, log: Log, n: Name, f: File)
    requires RunOk(cfg, log, n, f)
    ensures TailAt(f.w, f.run.tail, f.run.cur)
  {}

  // ---------------------------------------------------------------------------------------------
  // Committing
  // ---------------------------------------------------------------------------------------------

  /** The position committed for a file never lies behind a line that is not settled: every line of its stream
      in front of it that has a byte other than white space and is JSON is logged undeliverable or stored. */
  lemma CommittedIsSafe(cfg: Config, log: Log, n: Name, f: File, m: nat)
    requires RunOk(cfg, log, n, f) && FileOk(cfg, log, n, f) && CommittedPos(f.run).Some?
    ensures SafeAt(cfg, log, n, f, CommittedPos(f.run).value)
    ensures var c := At(f.w, CommittedPos(f.run).value);
            && CursorOk(f.w, f.base) && CursorOk(f.w, c)
            && (|Before(f.w, f.base)| <= m < |Before(f.w, c)| ==>
                  var l := Before(f.w, c)[m];
                  (exists i :: 0 <= i < |l.raw| && !(9 <= l.raw[i] <= 13 || l.raw[i] == 32)) && cfg.isJson(l.raw) ==>
                    || l in f.dropped
                    || (l in f.stored && exists p, i :: p in log && p.topic == cfg.topic(n) && 0 <= i < |log[p]|
                                                        && log[p][i] == l.raw))
  {
    CommittedSafe(cfg, log, n, f);
    hide Before, Settled, RunOk, CommittedPos;
    var c := At(f.w, CommittedPos(f.run).value);
    if |Before(f.w, f.base)| <= m < |Before(f.w, c)| { SettledMeans(cfg, log, n, f, Before(f.w, c)[m]); }
  }

  lemma CommittedSafe(cfg: Config, log: Log, n: Name, f: File)
    requires RunOk(cfg, log, n, f) && FileOk(cfg, log, n, f) && CommittedPos(f.run).Some?
    ensures SafeAt(cfg, log, n, f, CommittedPos(f.run).value)
  {
    hide Before, InLog;
    var r := f.run;
    var k := PrefixLen(Acked(r.fates), |r.tracked|);
    if k > 0 {
      var i := |Before(f.w, r.origin)| + k - 1;
      hide TailAt;
      TailBoundary(f.w, r.tail, r.cur);
      SumAt(Before(f.w, r.origin), r.tracked, r.batch, k - 1);
      var g := LineNamesPrefix(f.w, r.cur, i);
      IndexOfUnique(f.w, g);
      var c := Cursor(g, r.tracked[k - 1].end);
      PrefixSettled(cfg, log, n, f, c, k);
    }
  }

  lemma SumAt<T>(a: seq<T>, b: seq<T>, c: seq<T>, j: nat)
    requires j < |b|
    ensures (a + (b + c))[|a| + j] == b[j] && |a| + j < |a + (b + c)|
  {}

  /** Up to the k-th tracked line everything is settled, if the first k are acknowledged. */
  lemma PrefixSettled(cfg: Config, log: Log, n: Name, f: File, c: Cursor, k: nat)
    requires RunOk(cfg, log, n, f) && CursorOk(f.w, c) && CursorOk(f.w, f.base)
    requires k <= |f.run.tracked| && forall j :: 0 <= j < k ==> j in Acked(f.run.fates)
    requires CursorOk(f.w, f.run.cur) && Before(f.w, c) <= Before(f.w, f.run.cur)
    requires |Before(f.w, c)| == |Before(f.w, f.run.origin)| + k
    ensures SettledTo(cfg, log, n, f, c)
  {
    hide Before, Boundary, TailAt, InLog, IsBlank;
    var r, front := f.run, |Before(f.w, f.run.origin)|;
    forall i | |Before(f.w, f.base)| <= i < |Before(f.w, c)| ensures Settled(cfg, log, n, f, Before(f.w, c)[i]) {
      assert Before(f.w, c)[i] == Before(f.w, r.cur)[i];
      if i < front {
        assert Before(f.w, c)[i] == Before(f.w, r.origin)[i];
        assert Settled(cfg, log, n, f, Before(f.w, r.origin)[i]);
      } else {
        var j := i - front;
        SumAt(Before(f.w, r.origin), r.tracked, r.batch, j);
        assert j in Acked(r.fates) && FateOk(cfg, log, n, f, r.tracked[j], r.fates[j]);
        assert Settled(cfg, log, n, f, r.tracked[j]);
      }
    }
  }

  /** A commit is as far as it may go: with `k` the number of lines in front of the first that is not blank,
      malformed, undeliverable or delivered, it is the position behind the last of those `k`; with none of
      them, where the process started, if that was a position. */
  lemma CommitIsLongest(cfg: Config, s: State, t: State, n: Name, k: nat)
    requires Inv(cfg, s) && Next(cfg, s, Commit, t) && n in s.files && k <= |s.files[n].run.fates|
    requires forall i :: 0 <= i < k ==> s.files[n].run.fates[i] in {Blank, Malformed, Undeliverable, Delivered}
    requires k < |s.files[n].run.fates| ==>
               s.files[n].run.fates[k] !in {Blank, Malformed, Undeliverable, Delivered}
    ensures var r := s.files[n].run;
            && |r.tracked| == |r.fates|
            && if k > 0 then n in t.mem && t.mem[n] == Position(r.tracked[k - 1].inode, r.tracked[k - 1].end)
               else if r.start.Some? then n in t.mem && t.mem[n] == r.start.value
               else (n in t.mem <==> n in s.mem) && (n in t.mem ==> t.mem[n] == s.mem[n])
  {
    hide SafeAt, DiskOk, OffsetsOk, FileOk, TailAt, Before, SettledTo, Boundary, FateOk, PrefixLen;
    var r := s.files[n].run;
    assert RunOk(cfg, s.log, n, s.files[n]);
    AckedExact(r.fates);
    CommittedAt(r.start, Ends(r.tracked), Acked(r.fates), k);
  }

  lemma AckedExact(fates: seq<Fate>)
    ensures forall i: nat :: i in Acked(fates) <==>
              i < |fates| && fates[i] in {Blank, Malformed, Undeliverable, Delivered}
  {}

  lemma CommitOk(cfg: Config, s: State, t: State)
    requires Inv(cfg, s) && Next(cfg, s, Commit, t)
    ensures Inv(cfg, t)
  {
    hide SafeAt, DiskOk, RunOk, FileOk, CommittedPos;
    forall n | n in t.mem && n in s.files ensures SafeAt(cfg, s.log, n, s.files[n], t.mem[n]) {
      if CommittedPos(s.files[n].run).Some? { CommittedSafe(cfg, s.log, n, s.files[n]); }
    }
  }

  lemma SaveOnOk(cfg: Config, s: State, t: State)
    requires Inv(cfg, s) && Next(cfg, s, SaveOn, t)
    ensures Inv(cfg, t)
  {
    hide SafeAt, RunOk, FileOk, OffsetsOk;
  }

  // ---------------------------------------------------------------------------------------------
  // Starting
  // ---------------------------------------------------------------------------------------------

  /** A checkpoint that is safe is never turned down: a start from it opens its file at its offset, stands at
      its place in the stream, and owes every later generation. */
  lemma SafeIsResumed(cfg: Config, log: Log, n: Name, f: File, dir: seq<Entry>, p: Position)
    requires SafeAt(cfg, log, n, f, p) && StartEnv(f.w, dir, At(f.w, p).gen)
    ensures Recoverable(f.w, dir, p)
    ensures var t := StartOf(f.w, dir, cfg.fromEnd, Some(p));
            && t.open && t.inode == p.inode && t.offset == p.offset
            && StartCursor(f.w, dir, cfg.fromEnd, Some(p)) == At(f.w, p)
            && TailAt(f.w, t, At(f.w, p))
  {
    hide StartOf, StartCursor, TailAt, Boundary, StartEnv, SettledTo;
    StartStands(f.w, dir, cfg.fromEnd, p);
  }

  /** A committed position is accepted by the restart's boundary test now and however the file grows. */
  lemma CheckpointStaysAccepted(cfg: Config, log: Log, n: Name, f: File, v: World, p: Position)
    requires SafeAt(cfg, log, n, f, p) && Grows(f.w, v) && DistinctInodes(v)
    ensures At(v, p) == At(f.w, p) && AtLineBoundary(BytesOf(v, p.inode), p.offset)
  {
    hide Before, SettledTo;
    AtStable(f.w, v, p);
    BoundaryStable(f.w, v, At(f.w, p));
  }

  lemma SelfSettled(cfg: Config, log: Log, n: Name, f: File)
    requires Boundary(f.w, f.base)
    ensures SettledTo(cfg, log, n, f, f.base)
  {}

  /** A fresh start stands at a boundary, not before any earlier start of this configuration. */
  lemma FreshIsLater(cfg: Config, log: Log, n: Name, f: File)
    requires FileOk(cfg, log, n, f)
    requires cfg.fromEnd && AtPathAny(f.w) ==> EndsLine(f.w.gens[|f.w.gens| - 1].bytes)
    ensures var c := FreshCursor(f.w, cfg.fromEnd);
            && Boundary(f.w, c) && CursorLe(f.base, c) && TailAt(f.w, FreshTail(f.w, cfg.fromEnd), c)
            && (!cfg.fromEnd ==> c.off == 0)
  {
    hide Before;
  }

  lemma StartFileOk(cfg: Config, log: Log, n: Name, f: File, dir: seq<Entry>, saved: Option<Position>, g: File)
    requires FileOk(cfg, log, n, f) && StartFile(cfg, f, dir, saved, g)
    requires saved.Some? ==> SafeAt(cfg, log, n, f, saved.value)
    ensures Evolves(f, g) && FileOk(cfg, log, n, g) && RunOk(cfg, log, n, g)
  {
    hide Before, Listed, MtimesOrdered, StartEnv, StartOf, StartCursor, Recoverable, InLog;
    StartWithout(f.w, dir, cfg.fromEnd);
    GrowsReflexive(f.w);
    var r := g.run;
    if saved.None? {
      FreshIsLater(cfg, log, n, f);
      hide TailAt, Boundary;
      BoundaryOk(f.w, r.cur);
      BeforeMonotone(f.w, f.base, r.cur);
      SelfSettled(cfg, log, n, g);
      FreshStart(f.w, cfg.fromEnd);
    } else {
      SafeIsResumed(cfg, log, n, f, dir, saved.value);
    }
  }

  lemma StartWithout(w: World, dir: seq<Entry>, fromEnd: bool)
    ensures StartOf(w, dir, fromEnd, None) == FreshTail(w, fromEnd)
    ensures StartCursor(w, dir, fromEnd, None) == FreshCursor(w, fromEnd)
  {}

  lemma FreshStart(w: World, fromEnd: bool)
    requires DistinctInodes(w)
    ensures var t := FreshTail(w, fromEnd);
            t.open ==> At(w, Position(t.inode, t.offset)) == FreshCursor(w, fromEnd)
                       && FreshCursor(w, fromEnd).gen < |w.gens|
  {
    if AtPathAny(w) { IndexOfUnique(w, |w.gens| - 1); }
  }

  lemma StartOk(cfg: Config, s: State, dirs: map<Name, seq<Entry>>, t: State)
    requires Inv(cfg, s) && Next(cfg, s, StartUp(dirs), t)
    ensures Inv(cfg, t)
  {
    hide SafeAt, StartFile, RunOk, Evolves, Quarantined, TailAt;
    forall n | n in s.files
      ensures Evolves(s.files[n], t.files[n]) && FileOk(cfg, t.log, n, t.files[n]) && RunOk(cfg, t.log, n, t.files[n])
    {
      LoadedIsSafe(cfg, s, n);
      StartFileOk(cfg, s.log, n, s.files[n], dirs[n], if n in t.mem then Some(t.mem[n]) else None, t.files[n]);
    }
    LogLeReflexive(s.log);
    DiskEvolves(cfg, s.log, t.log, s.files, t.files, s.disk);
    hide FileOk, OffsetsOk;
    QuarantineOk(cfg, t.log, t.files, s.disk);
  }

  lemma LoadedIsSafe(cfg: Config, s: State, n: Name)
    requires Inv(cfg, s) && n in s.files
    ensures var m := LoadOf(s.disk).GetOr(map[]);
            n in m ==> SafeAt(cfg, s.log, n, s.files[n], m[n])
  {
    hide SafeAt, RunOk, FileOk;
  }

  lemma QuarantineOk(cfg: Config, log: Log, files: map<Name, File>, d: Disk)
    requires DiskOk(cfg, log, files, d)
    ensures DiskOk(cfg, log, files, Quarantined(d).(tmp := Missing))
    ensures OffsetsOk(cfg, log, files, LoadOf(d).GetOr(map[]))
  {
    hide SafeAt;
  }

  // ---------------------------------------------------------------------------------------------
  // Main results
  // ---------------------------------------------------------------------------------------------

  /** Steps that move no file and write nothing new to disk. */
  lemma RestOk(cfg: Config, s: State, step: Step, t: State)
    requires Inv(cfg, s) && Next(cfg, s, step, t)
    requires step.Stop? || step.SaveError? || step.Crash? || step.Damage?
    ensures Inv(cfg, t)
  {
    hide RunOk, FileOk, OffsetsOk;
  }

  lemma NextKeepsInv(cfg: Config, s: State, step: Step, t: State)
    requires Inv(cfg, s) && Next(cfg, s, step, t)
    ensures Inv(cfg, t)
  {
    hide Inv, Next;
    match step
    case Env(n, act) => EnvOk(cfg, s, n, act, t);
    case StartUp(dirs) => StartOk(cfg, s, dirs, t);
    case Poll(n, acts, dir, dir2, max, statFails) => PollOk(cfg, s, n, acts, dir, dir2, max, statFails, t);
    case TrackNext(n, fate) => TrackOk(cfg, s, n, fate, t);
    case Store(n, line, part) => StoreOk(cfg, s, n, line, part, t);
    case Report(n, i, ok) => ReportOk(cfg, s, n, i, ok, t);
    case Commit => CommitOk(cfg, s, t);
    case SaveOn => SaveOnOk(cfg, s, t);
    case _ => RestOk(cfg, s, step, t);
  }

  lemma InitIsInv(cfg: Config, s: State)
    requires Init(s)
    ensures Inv(cfg, s)
  {
    hide Before;
  }

  ghost predicate Trace(cfg: Config, ss: seq<State>, steps: seq<Step>) {
    && |ss| == |steps| + 1 && Init(ss[0])
    && forall i :: 0 <= i < |steps| ==> Next(cfg, ss[i], steps[i], ss[i + 1])
  }

  lemma {:induction false} TraceInv(cfg: Config, ss: seq<State>, steps: seq<Step>, i: nat)
    requires Trace(cfg, ss, steps) && i < |ss|
    ensures Inv(cfg, ss[i])
  {
    hide Inv, Next;
    if i == 0 {
      InitIsInv(cfg, ss[0]);
    } else {
      TraceInv(cfg, ss, steps, i - 1);
      NextKeepsInv(cfg, ss[i - 1], steps[i - 1], ss[i]);
    }
  }

  /** The start that follows would find a checkpoint for `n`. */
  predicate FindsCheckpoint(s: State, n: Name) { n in LoadOf(s.disk).GetOr(map[]) }

  /** A line's stream begins elsewhere only when a process starts without a checkpoint for its file. */
  lemma BaseMoves(cfg: Config, s: State, step: Step, t: State, n: Name)
    requires Next(cfg, s, step, t) && n in s.files
    ensures n in t.files
    ensures (step.StartUp? && !FindsCheckpoint(s, n)) || t.files[n].base == s.files[n].base
  {
    hide StartOf, StartCursor, StartEnv, Legal, Listed, HandsOn, RaceLoses;
  }

  lemma StepGrows(cfg: Config, s: State, step: Step, t: State, n: Name)
    requires Inv(cfg, s) && Next(cfg, s, step, t) && n in s.files
    ensures n in t.files && Grows(s.files[n].w, t.files[n].w)
  {
    hide StartOf, StartCursor, StartEnv, Legal, Listed, HandsOn, RaceLoses, Do, TailAt, RunOk, SafeAt, Grows,
         IsBlank, InLog, Committed, SaveStep, LoadOf, Quarantined, Boundary, DiskOk, OffsetsOk;
    GrowsReflexive(s.files[n].w);
    if step.Env? && step.n == n {
      DoGrows(s.files[n].w, step.act, if s.up then Some(s.files[n].run.tail) else None);
    }
  }

  /** From state `i` to state `j` no start finds the file without a checkpoint. */
  ghost predicate KeepsCheckpoint(ss: seq<State>, steps: seq<Step>, i: nat, j: nat, n: Name)
    requires i <= j <= |steps| && |ss| == |steps| + 1
  {
    forall k :: i <= k < j && steps[k].StartUp? ==> FindsCheckpoint(ss[k], n)
  }

  lemma {:induction false} BaseStays(cfg: Config, ss: seq<State>, steps: seq<Step>, i: nat, j: nat, n: Name)
    requires Trace(cfg, ss, steps) && i <= j <= |steps| && n in ss[i].files
    requires KeepsCheckpoint(ss, steps, i, j, n)
    ensures n in ss[j].files && ss[j].files[n].base == ss[i].files[n].base
    ensures Grows(ss[i].files[n].w, ss[j].files[n].w)
    decreases j
  {
    hide Inv, Next, Grows, Init, FindsCheckpoint;
    if i == j {
      GrowsReflexive(ss[i].files[n].w);
    } else {
      BaseStays(cfg, ss, steps, i, j - 1, n);
      TraceInv(cfg, ss, steps, j - 1);
      assert Next(cfg, ss[j - 1], steps[j - 1], ss[j]);
      BaseMoves(cfg, ss[j - 1], steps[j - 1], ss[j], n);
      StepGrows(cfg, ss[j - 1], steps[j - 1], ss[j], n);
      GrowsTransitive(ss[i].files[n].w, ss[j - 1].files[n].w, ss[j].files[n].w);
    }
  }

  /** At-least-once. In every run of appends, rotations, polls, out-of-order reports, delivery errors,
      saves interrupted anywhere, damage to the checkpoint files, crashes and restarts: whatever
      checkpoint could be loaded at the end, every line of the stream in front of it that has a byte other
      than white space and is JSON is logged undeliverable or stored by the broker, counted from the place
      where the stream of that file stood at any earlier state since which no start was left without a
      checkpoint for it. */
  lemma NoLineSkipped(cfg: Config, ss: seq<State>, steps: seq<Step>, i: nat, j: nat, n: Name, m: nat)
    requires Trace(cfg, ss, steps) && i <= j <= |steps| && n in ss[i].files
    requires KeepsCheckpoint(ss, steps, i, j, n) && FindsCheckpoint(ss[j], n)
    ensures n in ss[j].files
    ensures var f, p := ss[j].files[n], LoadOf(ss[j].disk).GetOr(map[])[n];
            && CursorOk(ss[i].files[n].w, ss[i].files[n].base) && CursorOk(f.w, At(f.w, p))
            && At(f.w, p).gen < |f.w.gens|
            && (|Before(ss[i].files[n].w, ss[i].files[n].base)| <= m < |Before(f.w, At(f.w, p))| ==>
                  var l, log := Before(f.w, At(f.w, p))[m], ss[j].log;
                  (exists i :: 0 <= i < |l.raw| && !(9 <= l.raw[i] <= 13 || l.raw[i] == 32)) && cfg.isJson(l.raw) ==>
                    || l in f.dropped
                    || (l in f.stored && exists p, i :: p in log && p.topic == cfg.topic(n) && 0 <= i < |log[p]|
                                                        && log[p][i] == l.raw))
  {
    hide Next, Init, Grows, Before, Settled, RunOk, KeepsCheckpoint;
    BaseStays(cfg, ss, steps, i, j, n);
    TraceInv(cfg, ss, steps, i);
    TraceInv(cfg, ss, steps, j);
    LoadedIsSafe(cfg, ss[j], n);
    BoundaryStable(ss[i].files[n].w, ss[j].files[n].w, ss[i].files[n].base);
    var f, p := ss[j].files[n], LoadOf(ss[j].disk).GetOr(map[])[n];
    if |Before(ss[i].files[n].w, ss[i].files[n].base)| <= m < |Before(f.w, At(f.w, p))| {
      SettledMeans(cfg, ss[j].log, n, f, Before(f.w, At(f.w, p))[m]);
    }
  }

  // ---------------------------------------------------------------------------------------------
  // Every tracked line has one fate
  // ---------------------------------------------------------------------------------------------

  /** At most one line is left unsent by a run: the one at which the shutdown was noticed. */
  ghost predicate OneUnsent(s: State) {
    s.up ==> forall n, i: nat :: n in s.files && 0 <= i < |s.files[n].run.fates| ==>
               (s.files[n].run.fates[i] == Unsent <==> s.unsent == Some((n, i)))
  }

  /** How one step changes the record of a file's lines. */
  ghost predicate RecordMoves(s: State, step: Step, t: State, n: Name)
    requires n in s.files && n in t.files
  {
    var r, q := s.files[n].run, t.files[n].run;
    if step.StartUp? then
      q.tracked == [] && q.fates == []
    else if step.TrackNext? && step.n == n then
      && r.batch != [] && q.tracked == r.tracked + [r.batch[0]] && q.fates == r.fates + [step.fate]
    else if step.Report? && step.n == n then
      && step.i < |r.fates| && r.fates[step.i] == Sent
      && q.tracked == r.tracked && q.fates == r.fates[step.i := if step.ok then Delivered else Failed]
    else
      q.tracked == r.tracked && q.fates == r.fates
  }

  lemma NextMovesRecord(cfg: Config, s: State, step: Step, t: State, n: Name)
    requires Next(cfg, s, step, t) && n in s.files
    ensures n in t.files && RecordMoves(s, step, t, n)
  {
    hide TailAt, Before, Legal, Listed, HandsOn, RaceLoses, StartOf, StartCursor, StartEnv, LegalAll, Do,
         IsBlank, InLog, Committed, SaveStep, Grows, LoadOf, Quarantined;
  }

  lemma NextMovesUnsent(cfg: Config, s: State, step: Step, t: State)
    requires Next(cfg, s, step, t) && t.up
    ensures s.up || step.StartUp?
    ensures step.StartUp? ==> t.unsent == None
    ensures step.TrackNext? ==> s.unsent == None && step.n in s.files
    ensures !step.StartUp? && !(step.TrackNext? && step.fate == Unsent) ==> t.unsent == s.unsent
    ensures step.TrackNext? && step.fate == Unsent ==> t.unsent == Some((step.n, |s.files[step.n].run.tracked|))
    ensures t.files.Keys == s.files.Keys
  {
    hide TailAt, Before, Legal, Listed, HandsOn, RaceLoses, StartOf, StartCursor, StartEnv, LegalAll, Do,
         IsBlank, InLog, Committed, SaveStep, Grows, LoadOf, Quarantined, TrackFile, PollFile, StartFile;
  }

  lemma NextKeepsOneUnsent(cfg: Config, s: State, step: Step, t: State)
    requires Inv(cfg, s) && OneUnsent(s) && Next(cfg, s, step, t)
    ensures OneUnsent(t)
  {
    hide Next, SafeAt, FateOk, DiskOk, OffsetsOk, FileOk, TailAt, Before, SettledTo, Boundary;
    if t.up {
      NextMovesUnsent(cfg, s, step, t);
      forall n, i: nat | n in t.files && i < |t.files[n].run.fates|
        ensures t.files[n].run.fates[i] == Unsent <==> t.unsent == Some((n, i))
      {
        NextMovesRecord(cfg, s, step, t, n);
        assert s.up ==> RunOk(cfg, s.log, n, s.files[n]);
      }
    }
  }

  lemma {:induction false} TraceOneUnsent(cfg: Config, ss: seq<State>, steps: seq<Step>, i: nat)
    requires Trace(cfg, ss, steps) && i < |ss|
    ensures OneUnsent(ss[i])
  {
    hide Inv, Next;
    if i > 0 {
      hide OneUnsent;
      TraceOneUnsent(cfg, ss, steps, i - 1);
      TraceInv(cfg, ss, steps, i - 1);
      NextKeepsOneUnsent(cfg, ss[i - 1], steps[i - 1], ss[i]);
    }
  }

  /** Within a run, lines are only added, and a fate once decided is final: only a message under way can
      still be delivered or fail. */
  lemma FatesAreFinal(cfg: Config, s: State, step: Step, t: State, n: Name, i: nat)
    requires Inv(cfg, s) && Next(cfg, s, step, t) && !step.StartUp? && s.up && n in s.files
    requires i < |s.files[n].run.fates|
    ensures n in t.files && i < |t.files[n].run.fates|
    ensures var a, b := s.files[n].run, t.files[n].run;
            && |a.fates| == |a.tracked| && a.tracked <= b.tracked
            && (b.fates[i] == a.fates[i] || (a.fates[i] == Sent && b.fates[i] in {Delivered, Failed}))
  {
    hide Next, SafeAt, FateOk, DiskOk, OffsetsOk, FileOk, TailAt, Before, SettledTo, Boundary;
    NextMovesRecord(cfg, s, step, t, n);
    assert RunOk(cfg, s.log, n, s.files[n]);
  }
}
