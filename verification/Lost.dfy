/** What a start without a checkpoint leaves behind stays behind: it is sent in no continuation of the run. */
module Lost {
  import opened Options
  import opened Lines
  import opened Watcher
  import opened Rotation
  import opened Acks
  import opened Checkpoints
  import opened Broker
  import opened Forwarder
  import opened Gaps
  import Pipeline

  // ---------------------------------------------------------------------------------------------
  // Nothing ever points behind the base again
  // ---------------------------------------------------------------------------------------------

  /** The place is not in front of where the stream of the file begins. */
  ghost predicate Lead(f: File, c: Cursor) {
    CursorOk(f.w, f.base) && CursorOk(f.w, c) && |Before(f.w, f.base)| <= |Before(f.w, c)|
  }

  ghost predicate Leads(files: map<Name, File>, m: Offsets) {
    forall n :: n in m && n in files ==> Lead(files[n], At(files[n].w, m[n]))
  }

  ghost predicate SlotLeads(files: map<Name, File>, slot: Slot) { slot.Good? ==> Leads(files, slot.files) }

  /** Offsets are only ever added: what the backup knows of, the main file and the process know of too. */
  ghost predicate KeysOk(s: State) {
    var d := s.disk;
    && (d.main.Good? && d.bak.Good? ==> d.bak.files.Keys <= d.main.files.Keys)
    && (s.up && d.main.Good? ==> d.main.files.Keys <= s.mem.Keys)
    && (s.up && d.bak.Good? ==> d.bak.files.Keys <= s.mem.Keys)
    && (s.up && s.stage >= 2 ==> d.tmp == Good(s.mem))
  }

  ghost predicate AllLead(s: State) {
    && (s.up ==> forall n :: n in s.files ==> Lead(s.files[n], s.files[n].run.origin))
    && (s.up ==> Leads(s.files, s.mem))
    && SlotLeads(s.files, s.disk.main) && SlotLeads(s.files, s.disk.bak) && SlotLeads(s.files, s.disk.tmp)
  }

  // ---------------------------------------------------------------------------------------------
  // Steps other than a start
  // ---------------------------------------------------------------------------------------------

  /** The files may have grown; the stream of the file, and where this process began in it, are the same. */
  ghost predicate Steady(f: File, g: File) {
    && Grows(f.w, g.w) && DistinctInodes(g.w) && Boundary(f.w, f.base)
    && g.base == f.base && g.run.origin == f.run.origin
  }

  lemma OriginStays(cfg: Config, s: State, step: Step, t: State, n: Name)
    requires Next(cfg, s, step, t) && !step.StartUp? && n in s.files && n in t.files
    ensures t.files[n].run.origin == s.files[n].run.origin
  {
    hide TailAt, Before, Legal, Listed, HandsOn, RaceLoses, StartOf, StartCursor, StartEnv, LegalAll, Do,
         IsBlank, InLog, Committed, SaveStep, Grows, LoadOf, Quarantined;
  }

  lemma StepIsSteady(cfg: Config, s: State, step: Step, t: State, n: Name)
    requires Inv(cfg, s) && Next(cfg, s, step, t) && !step.StartUp? && n in s.files
    ensures n in t.files && Steady(s.files[n], t.files[n])
  {
    hide Next, RunOk, Grows, Boundary, DistinctInodes, InLog;
    BaseMoves(cfg, s, step, t, n);
    StepGrows(cfg, s, step, t, n);
    OriginStays(cfg, s, step, t, n);
    NextKeepsInv(cfg, s, step, t);
    assert FileOk(cfg, s.log, n, s.files[n]) && FileOk(cfg, t.log, n, t.files[n]);
  }

  lemma LeadStays(f: File, g: File, c: Cursor)
    requires Steady(f, g) && Boundary(f.w, c) && Lead(f, c)
    ensures Lead(g, c)
  {
    hide Before, Grows, Boundary;
    BoundaryStable(f.w, g.w, f.base);
    BoundaryStable(f.w, g.w, c);
    BoundaryOk(g.w, f.base);
    BoundaryOk(g.w, c);
  }

  lemma LeadsStay(cfg: Config, log: Log, fs: map<Name, File>, gs: map<Name, File>, m: Offsets)
    requires OffsetsOk(cfg, log, fs, m) && Leads(fs, m) && gs.Keys <= fs.Keys
    requires forall n :: n in gs ==> Steady(fs[n], gs[n])
    ensures Leads(gs, m)
  {
    hide Lead, Boundary, SettledTo, Grows;
    forall n | n in m && n in gs ensures Lead(gs[n], At(gs[n].w, m[n])) {
      assert SafeAt(cfg, log, n, fs[n], m[n]);
      AtStable(fs[n].w, gs[n].w, m[n]);
      LeadStays(fs[n], gs[n], At(fs[n].w, m[n]));
    }
  }

  lemma SlotLeadsStay(cfg: Config, log: Log, fs: map<Name, File>, gs: map<Name, File>, slot: Slot)
    requires SlotOk(cfg, log, fs, slot) && SlotLeads(fs, slot) && gs.Keys <= fs.Keys
    requires forall n :: n in gs ==> Steady(fs[n], gs[n])
    ensures SlotLeads(gs, slot)
  {
    hide Leads, OffsetsOk, Steady;
    if slot.Good? { LeadsStay(cfg, log, fs, gs, slot.files); }
  }

  /** The position a tracker would commit is not in front of where this process began. */
  lemma CommittedLeads(cfg: Config, log: Log, n: Name, f: File)
    requires RunOk(cfg, log, n, f) && FileOk(cfg, log, n, f) && Lead(f, f.run.origin) && CommittedPos(f.run).Some?
    ensures Lead(f, At(f.w, CommittedPos(f.run).value))
  {
    hide Before, InLog;
    var r := f.run;
    var k := PrefixLen(Acked(r.fates), |r.tracked|);
    if k > 0 {
      var i := |Before(f.w, r.origin)| + k - 1;
      hide TailAt;
      TailBoundary(f.w, r.tail, r.cur);
      SumAt(Before(f.w, r.origin), r.tracked, r.batch, k - 1);
      var g := LineNamesPrefix(f.w, r.cur, i);
      IndexOfUnique(f.w, g);
      BoundaryOk(f.w, Cursor(g, r.tracked[k - 1].end));
    }
  }

  /** Steps that change neither what the process knows nor, but for the worse, the disk. */
  ghost predicate Plain(s: State, t: State) {
    && t.mem == s.mem && (t.up ==> s.up) && (t.up && t.stage >= 2 ==> s.stage >= 2 && t.disk.tmp == s.disk.tmp)
    && (t.disk.main.Good? ==> t.disk.main == s.disk.main)
    && (t.disk.bak.Good? ==> t.disk.bak == s.disk.bak)
    && (t.disk.tmp.Good? ==> t.disk.tmp == s.disk.tmp)
  }

  lemma StepIsPlain(cfg: Config, s: State, step: Step, t: State)
    requires Next(cfg, s, step, t) && !step.StartUp? && !step.Commit? && !step.SaveOn?
    ensures t.files.Keys == s.files.Keys && Plain(s, t)
  {
    hide TailAt, Before, Legal, PollFile, TrackFile, StartFile, Do, InLog, Committed, SaveStep, Grows, LoadOf,
         Quarantined;
  }

  lemma PlainLeads(cfg: Config, s: State, step: Step, t: State)
    requires Inv(cfg, s) && AllLead(s) && KeysOk(s) && Next(cfg, s, step, t)
    requires !step.StartUp? && !step.Commit? && !step.SaveOn?
    ensures AllLead(t) && KeysOk(t)
  {
    hide Next, Steady, Lead, Leads, OffsetsOk, FileOk, RunOk, KeysOk;
    StepIsPlain(cfg, s, step, t);
    AllSteady(cfg, s, step, t);
    PlainKeys(s, t);
    SlotLeadsStay(cfg, s.log, s.files, t.files, s.disk.main);
    SlotLeadsStay(cfg, s.log, s.files, t.files, s.disk.bak);
    SlotLeadsStay(cfg, s.log, s.files, t.files, s.disk.tmp);
    if t.up {
      LeadsStay(cfg, s.log, s.files, t.files, s.mem);
      OriginsLead(cfg, s, t);
    }
  }

  lemma PlainKeys(s: State, t: State)
    requires KeysOk(s) && Plain(s, t)
    ensures KeysOk(t)
  {}

  lemma AllSteady(cfg: Config, s: State, step: Step, t: State)
    requires Inv(cfg, s) && Next(cfg, s, step, t) && !step.StartUp? && t.files.Keys == s.files.Keys
    ensures forall n :: n in t.files ==> Steady(s.files[n], t.files[n])
  {
    hide Next, Inv, Steady;
    forall n | n in t.files ensures Steady(s.files[n], t.files[n]) {
      StepIsSteady(cfg, s, step, t, n);
    }
  }

  lemma OriginsLead(cfg: Config, s: State, t: State)
    requires Inv(cfg, s) && s.up && t.files.Keys == s.files.Keys
    requires forall n :: n in s.files ==> Lead(s.files[n], s.files[n].run.origin)
    requires forall n :: n in t.files ==> Steady(s.files[n], t.files[n])
    ensures forall n :: n in t.files ==> Lead(t.files[n], t.files[n].run.origin)
  {
    hide Lead, Grows, Boundary, TailAt, SettledTo, FateOk, FileOk, OffsetsOk, DiskOk, Before;
    forall n | n in t.files ensures Lead(t.files[n], t.files[n].run.origin) {
      assert RunOk(cfg, s.log, n, s.files[n]);
      LeadStays(s.files[n], t.files[n], s.files[n].run.origin);
    }
  }

  lemma CommitLeads(cfg: Config, s: State, t: State)
    requires Inv(cfg, s) && AllLead(s) && KeysOk(s) && Next(cfg, s, Commit, t)
    ensures AllLead(t) && KeysOk(t)
  {
    hide Lead, RunOk, FileOk, OffsetsOk, DiskOk, CommittedPos;
    forall n | n in t.mem && n in s.files ensures Lead(s.files[n], At(s.files[n].w, t.mem[n])) {
      if CommittedPos(s.files[n].run).Some? { CommittedLeads(cfg, s.log, n, s.files[n]); }
    }
  }

  lemma SaveLeads(cfg: Config, s: State, t: State)
    requires AllLead(s) && KeysOk(s) && Next(cfg, s, SaveOn, t)
    ensures AllLead(t) && KeysOk(t)
  {
    hide Lead, Leads;
  }

  // ---------------------------------------------------------------------------------------------
  // Starts
  // ---------------------------------------------------------------------------------------------

  /** What is left on disk knows of no file that was not loaded. */
  lemma LoadedKeys(s: State)
    requires KeysOk(s)
    ensures var d, m := Quarantined(s.disk).(tmp := Missing), LoadOf(s.disk).GetOr(map[]);
            && (d.main.Good? ==> d.main.files.Keys <= m.Keys && d.main == s.disk.main)
            && (d.bak.Good? ==> d.bak.files.Keys <= m.Keys && d.bak == s.disk.bak)
            && (d.main.Good? && d.bak.Good? ==> d.bak.files.Keys <= d.main.files.Keys)
            && (m == map[] || s.disk.main == Good(m) || s.disk.bak == Good(m))
  {}

  /** A start for one file: from its checkpoint, in the stream it has; or where a fresh start stands, which is
      not in front of where the stream began before. */
  lemma StartOfFile(cfg: Config, log: Log, n: Name, f: File, dir: seq<Entry>, saved: Option<Position>, g: File)
    requires FileOk(cfg, log, n, f) && StartFile(cfg, f, dir, saved, g)
    requires saved.Some? ==> SafeAt(cfg, log, n, f, saved.value) && Lead(f, At(f.w, saved.value))
    ensures g.w == f.w && g.handed == f.handed && Lead(g, g.run.origin)
    ensures saved.Some? ==> g.base == f.base
    ensures CursorOk(f.w, f.base) && CursorOk(f.w, g.base) && Before(f.w, f.base) <= Before(f.w, g.base)
  {
    hide Before, Listed, MtimesOrdered, StartEnv, StartOf, StartCursor, Recoverable, InLog;
    BoundaryOk(f.w, f.base);
    if saved.None? {
      StartWithout(f.w, dir, cfg.fromEnd);
      FreshIsLater(cfg, log, n, f);
      hide TailAt, Boundary;
      BoundaryOk(f.w, g.base);
      BeforeMonotone(f.w, f.base, g.base);
    } else {
      SafeIsResumed(cfg, log, n, f, dir, saved.value);
    }
  }

  lemma LoadedLeads(s: State, n: Name)
    requires AllLead(s) && n in s.files
    ensures var m := LoadOf(s.disk).GetOr(map[]);
            n in m ==> Lead(s.files[n], At(s.files[n].w, m[n]))
  {
    hide Lead;
  }

  lemma StartLeads(cfg: Config, s: State, dirs: map<Name, seq<Entry>>, t: State)
    requires Inv(cfg, s) && AllLead(s) && KeysOk(s) && Next(cfg, s, StartUp(dirs), t)
    ensures AllLead(t) && KeysOk(t)
  {
    hide Inv, AllLead, StartFile, SafeAt, Lead, Quarantined, LoadOf, FileOk, At;
    forall n | n in s.files
      ensures n in t.files && t.files[n].w == s.files[n].w && Lead(t.files[n], t.files[n].run.origin)
      ensures n in t.mem ==> t.files[n].base == s.files[n].base
    {
      StartsFile(cfg, s, dirs, t, n);
    }
    LoadedKeys(s);
    SameBase(s, t);
  }

  lemma StartsFile(cfg: Config, s: State, dirs: map<Name, seq<Entry>>, t: State, n: Name)
    requires Inv(cfg, s) && AllLead(s) && Next(cfg, s, StartUp(dirs), t) && n in s.files
    ensures n in t.files && t.files[n].w == s.files[n].w && t.files[n].handed == s.files[n].handed
    ensures Lead(t.files[n], t.files[n].run.origin)
    ensures n in t.mem ==> t.files[n].base == s.files[n].base
    ensures var f, g := s.files[n], t.files[n];
            CursorOk(f.w, f.base) && CursorOk(f.w, g.base) && Before(f.w, f.base) <= Before(f.w, g.base)
  {
    hide AllLead, StartFile, SafeAt, Lead, Quarantined, LoadOf, RunOk, Before, FileOk, At;
    assert FileOk(cfg, s.log, n, s.files[n]);
    LoadedIsSafe(cfg, s, n);
    LoadedLeads(s, n);
    StartOfFile(cfg, s.log, n, s.files[n], dirs[n], if n in t.mem then Some(t.mem[n]) else None, t.files[n]);
  }

  /** Every offset that is left on disk is of a file whose stream begins where it did. */
  lemma SameBase(s: State, t: State)
    requires AllLead(s) && t.files.Keys == s.files.Keys && t.up && t.stage == 0
    requires forall n :: n in s.files ==>
               && t.files[n].w == s.files[n].w && Lead(t.files[n], t.files[n].run.origin)
               && (n in t.mem ==> t.files[n].base == s.files[n].base)
    requires t.disk.main.Good? ==> t.disk.main.files.Keys <= t.mem.Keys && t.disk.main == s.disk.main
    requires t.disk.bak.Good? ==> t.disk.bak.files.Keys <= t.mem.Keys && t.disk.bak == s.disk.bak
    requires t.disk.main.Good? && t.disk.bak.Good? ==> t.disk.bak.files.Keys <= t.disk.main.files.Keys
    requires t.mem == map[] || s.disk.main == Good(t.mem) || s.disk.bak == Good(t.mem)
    requires !t.disk.tmp.Good?
    ensures AllLead(t) && KeysOk(t)
  {
    hide At;
    forall n, c: Cursor | n in t.mem && n in s.files && Lead(s.files[n], c) ensures Lead(t.files[n], c) {
      hide Before;
    }
    hide Lead;
  }

  // ---------------------------------------------------------------------------------------------
  // Whole runs
  // ---------------------------------------------------------------------------------------------

  lemma NextKeepsLead(cfg: Config, s: State, step: Step, t: State)
    requires Inv(cfg, s) && AllLead(s) && KeysOk(s) && Next(cfg, s, step, t)
    ensures AllLead(t) && KeysOk(t)
  {
    hide Inv, Next, AllLead, KeysOk;
    match step
    case StartUp(dirs) => StartLeads(cfg, s, dirs, t);
    case Commit => CommitLeads(cfg, s, t);
    case SaveOn => SaveLeads(cfg, s, t);
    case _ => PlainLeads(cfg, s, step, t);
  }

  /** In every run, no checkpoint and no running process is behind the place where the stream begins. */
  lemma {:induction false} TraceLeads(cfg: Config, ss: seq<State>, steps: seq<Step>, i: nat)
    requires Trace(cfg, ss, steps) && i < |ss|
    ensures AllLead(ss[i]) && KeysOk(ss[i])
  {
    hide Inv, Next;
    if i == 0 {
      hide Lead;
    } else {
      hide AllLead, KeysOk, Init;
      TraceLeads(cfg, ss, steps, i - 1);
      TraceInv(cfg, ss, steps, i - 1);
      NextKeepsLead(cfg, ss[i - 1], steps[i - 1], ss[i]);
    }
  }

  // ---------------------------------------------------------------------------------------------
  // Lines left behind
  // ---------------------------------------------------------------------------------------------

  /** Line `l` is the m-th of the stream, lies in front of where the stream begins, and was never sent. */
  ghost predicate Left(f: File, m: nat, l: Line) {
    && CursorOk(f.w, f.base) && m < |Before(f.w, f.base)| && Before(f.w, f.base)[m] == l
    && l !in f.handed
  }

  /** The line handled next lies behind the beginning of the stream, so it is another one. */
  lemma NextIsAnother(cfg: Config, log: Log, n: Name, f: File, m: nat, l: Line)
    requires RunOk(cfg, log, n, f) && FileOk(cfg, log, n, f) && Lead(f, f.run.origin) && f.run.batch != []
    requires Left(f, m, l)
    ensures f.run.batch[0] != l
  {
    hide Before, SettledTo, FateOk, InLog;
    var r := f.run;
    var i := |Before(f.w, r.origin)| + |r.tracked|;
    TailBoundary(f.w, r.tail, r.cur);
    hide TailAt;
    Pipeline.BatchAt(Before(f.w, r.origin), r.tracked, r.batch);
    var k := LineNamesPrefix(f.w, r.cur, i);
    IndexOfUnique(f.w, k);
    var j := LineNamesPrefix(f.w, f.base, m);
    IndexOfUnique(f.w, j);
  }

  lemma NextKeepsLeft(cfg: Config, s: State, step: Step, t: State, n: Name, m: nat, l: Line)
    requires Inv(cfg, s) && AllLead(s) && KeysOk(s) && Next(cfg, s, step, t)
    requires n in s.files && Left(s.files[n], m, l)
    ensures n in t.files && Left(t.files[n], m, l)
  {
    hide Next, Inv, AllLead, KeysOk, Before, Grows;
    var f := s.files[n];
    if step.StartUp? {
      StartsFile(cfg, s, step.dirs, t, n);
    } else {
      Pipeline.HandedMoves(cfg, s, step, t, n);
      StepIsSteady(cfg, s, step, t, n);
      BoundaryStable(f.w, t.files[n].w, f.base);
      BoundaryOk(t.files[n].w, f.base);
      if t.files[n].handed != f.handed {
        RunFacts(cfg, s, n);
        NextIsAnother(cfg, s.log, n, f, m, l);
      }
    }
  }

  lemma RunFacts(cfg: Config, s: State, n: Name)
    requires Inv(cfg, s) && AllLead(s) && s.up && n in s.files
    ensures RunOk(cfg, s.log, n, s.files[n]) && FileOk(cfg, s.log, n, s.files[n])
    ensures Lead(s.files[n], s.files[n].run.origin)
  {
    hide RunOk, FileOk, Lead, OffsetsOk, DiskOk;
  }

  /** A line left behind by a start, and not sent before, is sent in no continuation of the run. */
  lemma {:induction false} LeftForGood(cfg: Config, ss: seq<State>, steps: seq<Step>, i: nat, j: nat, n: Name,
                                       m: nat, l: Line)
    requires Trace(cfg, ss, steps) && i <= j < |ss| && n in ss[i].files && Left(ss[i].files[n], m, l)
    ensures n in ss[j].files && l !in ss[j].files[n].handed && Left(ss[j].files[n], m, l)
    decreases j
  {
    hide Inv, Next, AllLead, KeysOk, Init;
    if i < j {
      LeftForGood(cfg, ss, steps, i, j - 1, n, m, l);
      TraceInv(cfg, ss, steps, j - 1);
      TraceLeads(cfg, ss, steps, j - 1);
      NextKeepsLeft(cfg, ss[j - 1], steps[j - 1], ss[j], n, m, l);
    }
  }

  /** What `Gaps.StartSkipsExactly` says of one start is a loss for good: an unsettled line that the start
      leaves behind, if it was never sent before, is sent in no continuation. */
  lemma SkippedForGood(cfg: Config, ss: seq<State>, steps: seq<Step>, i: nat, j: nat, n: Name, m: nat)
    requires Trace(cfg, ss, steps) && i < j < |ss| && steps[i].StartUp? && n in ss[i].files && n in ss[i + 1].files
    requires CursorOk(ss[i].files[n].w, ss[i].files[n].base) && CursorOk(ss[i + 1].files[n].w, ss[i + 1].files[n].base)
    requires LeftBehind(cfg, ss[i].log, n, ss[i].files[n], ss[i + 1].files[n], m)
    requires Before(ss[i + 1].files[n].w, ss[i + 1].files[n].base)[m] !in ss[i].files[n].handed
    ensures var l := Before(ss[i + 1].files[n].w, ss[i + 1].files[n].base)[m];
            n in ss[j].files && l !in ss[j].files[n].handed
  {
    hide Inv, Next, AllLead, Init, Before;
    TraceInv(cfg, ss, steps, i);
    TraceLeads(cfg, ss, steps, i);
    StartsFile(cfg, ss[i], steps[i].dirs, ss[i + 1], n);
    LeftForGood(cfg, ss, steps, i + 1, j, n, m, Before(ss[i + 1].files[n].w, ss[i + 1].files[n].base)[m]);
  }
}
