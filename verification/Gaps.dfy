/** Starts that leave lines behind: exactly when, and a run in which one does. */
module Gaps {
  import opened Options
  import opened Seqs
  import opened Lines
  import opened Watcher
  import opened Rotation
  import opened Checkpoints
  import opened Broker
  import opened Forwarder

  /** The lines of generation `k` from the cursor on, or all of them if it is a later generation. */
  function Rest(w: World, c: Cursor, k: nat): seq<Line>
    requires k < |w.gens| && (k == c.gen ==> c.off <= |w.gens[k].bytes|)
  {
    Split(w.gens[k].bytes, w.gens[k].inode, if k == c.gen then c.off else 0, |w.gens[k].bytes|)
  }

  /** The lines from the cursor on of the generations below `g`. */
  ghost function Between(w: World, c: Cursor, g: nat): seq<Line>
    requires CursorOk(w, c) && c.gen <= g <= |w.gens|
    decreases g
  {
    if g == c.gen then [] else Between(w, c, g - 1) + Rest(w, c, g - 1)
  }

  lemma {:induction false} BetweenIs(w: World, c: Cursor, g: nat)
    requires Boundary(w, c) && c.gen <= g <= |w.gens| && (g == c.gen ==> c.off == 0)
    ensures Before(w, Cursor(g, 0)) == Before(w, c) + Between(w, c, g)
    decreases g
  {
    hide Split, Boundary;
    BoundaryOk(w, c);
    if g == c.gen {
      assert Before(w, c) + [] == Before(w, c);
    } else {
      var k := g - 1;
      AdvanceGen(w, k);
      if k == c.gen {
        AdvanceWithin(w, c, |w.gens[k].bytes|);
        assert [] + Rest(w, c, k) == Rest(w, c, k);
      } else {
        BetweenIs(w, c, k);
        WholeGeneration(w, k);
        Assoc(Before(w, c), Between(w, c, k), Rest(w, c, k));
      }
    }
  }

  lemma WholeGeneration(w: World, k: nat)
    requires k < |w.gens|
    ensures var g := w.gens[k];
            Before(w, Cursor(k, |g.bytes|)) == Before(w, Cursor(k, 0)) + Split(g.bytes, g.inode, 0, |g.bytes|)
  {
    if w.gens[k].bytes == [] { assert Before(w, Cursor(k, 0)) + [] == Before(w, Cursor(k, 0)); }
  }

  lemma {:induction false} BetweenMembers(w: World, c: Cursor, g: nat, l: Line)
    requires CursorOk(w, c) && c.gen <= g <= |w.gens|
    ensures l in Between(w, c, g) <==> exists k :: c.gen <= k < g && l in Rest(w, c, k)
    decreases g
  {
    hide Rest;
    if g > c.gen { BetweenMembers(w, c, g - 1, l); }
  }

  /** How many generations a start without a checkpoint leaves behind: all that have left the path, and with
      start_from=end the one at the path too. */
  function Abandoned(w: World, fromEnd: bool): nat {
    if AtPathAny(w) && !fromEnd then |w.gens| - 1 else |w.gens|
  }

  lemma FreshBefore(w: World, fromEnd: bool)
    ensures CursorOk(w, FreshCursor(w, fromEnd))
    ensures Before(w, FreshCursor(w, fromEnd)) == Before(w, Cursor(Abandoned(w, fromEnd), 0))
  {
    if AtPathAny(w) && fromEnd { WholeGeneration(w, |w.gens| - 1); AdvanceGen(w, |w.gens| - 1); }
  }

  /** A generation that such a start leaves behind holds an unsettled line beyond the place where the stream
      of this file begins. */
  ghost predicate HoldsUnsettled(cfg: Config, log: Log, n: Name, f: File)
    requires CursorOk(f.w, f.base)
  {
    exists k, l :: f.base.gen <= k < Abandoned(f.w, cfg.fromEnd) && l in Rest(f.w, f.base, k)
                   && !Settled(cfg, log, n, f, l)
  }

  /** The m-th line of the stream lies in front of the place where `g` begins and was not settled. */
  ghost predicate LeftBehind(cfg: Config, log: Log, n: Name, f: File, g: File, m: nat)
    requires CursorOk(f.w, f.base) && CursorOk(g.w, g.base)
  {
    |Before(f.w, f.base)| <= m < |Before(g.w, g.base)| && !Settled(cfg, log, n, f, Before(g.w, g.base)[m])
  }

  lemma BaseBeforeFresh(cfg: Config, log: Log, n: Name, f: File)
    requires FileOk(cfg, log, n, f)
    requires cfg.fromEnd && AtPathAny(f.w) ==> EndsLine(f.w.gens[|f.w.gens| - 1].bytes)
    ensures CursorOk(f.w, f.base) && f.base.gen <= Abandoned(f.w, cfg.fromEnd)
    ensures f.base.gen == Abandoned(f.w, cfg.fromEnd) ==> f.base.off == 0
  {
    hide Before, InLog;
    FreshIsLater(cfg, log, n, f);
  }

  /** A start leaves an unsettled line behind if and only if it finds no checkpoint for the file and some
      generation it does not open holds one. */
  lemma StartSkipsExactly(cfg: Config, s: State, dirs: map<Name, seq<Entry>>, t: State, n: Name)
    requires Inv(cfg, s) && Next(cfg, s, StartUp(dirs), t) && n in s.files
    ensures var f, g := s.files[n], t.files[n];
            && CursorOk(f.w, f.base) && CursorOk(g.w, g.base) && g.w == f.w
            && ((exists m: nat :: LeftBehind(cfg, s.log, n, f, g, m))
                <==> !FindsCheckpoint(s, n) && HoldsUnsettled(cfg, s.log, n, f))
  {
    hide Before, SafeAt, RunOk, Listed, MtimesOrdered, StartEnv, TailAt, Settled, InLog, Rest, StartOf, Boundary;
    var f, g := s.files[n], t.files[n];
    assert FileOk(cfg, s.log, n, f);
    assert StartFile(cfg, f, dirs[n], if n in t.mem then Some(t.mem[n]) else None, g);
    BoundaryOk(f.w, f.base);
    if !FindsCheckpoint(s, n) {
      BaseBeforeFresh(cfg, s.log, n, f);
      StartWithout(f.w, dirs[n], cfg.fromEnd);
      FreshBefore(f.w, cfg.fromEnd);
      BetweenIs(f.w, f.base, Abandoned(f.w, cfg.fromEnd));
      LeftBehindIsBetween(cfg, s.log, n, f, g);
    }
  }

  lemma LeftBehindIsBetween(cfg: Config, log: Log, n: Name, f: File, g: File)
    requires CursorOk(f.w, f.base) && CursorOk(g.w, g.base) && f.base.gen <= Abandoned(f.w, cfg.fromEnd)
    requires Before(g.w, g.base) == Before(f.w, f.base) + Between(f.w, f.base, Abandoned(f.w, cfg.fromEnd))
    ensures (exists m: nat :: LeftBehind(cfg, log, n, f, g, m)) <==> HoldsUnsettled(cfg, log, n, f)
  {
    hide Before, Settled, Rest, Between;
    var front, lines := Before(f.w, f.base), Between(f.w, f.base, Abandoned(f.w, cfg.fromEnd));
    if m: nat :| LeftBehind(cfg, log, n, f, g, m) {
      var l := lines[m - |front|];
      assert l == Before(g.w, g.base)[m];
      BetweenMembers(f.w, f.base, Abandoned(f.w, cfg.fromEnd), l);
    }
    if k, l :| f.base.gen <= k < Abandoned(f.w, cfg.fromEnd) && l in Rest(f.w, f.base, k)
               && !Settled(cfg, log, n, f, l) {
      BetweenMembers(f.w, f.base, Abandoned(f.w, cfg.fromEnd), l);
      var i :| 0 <= i < |lines| && lines[i] == l;
      assert Before(g.w, g.base)[|front| + i] == l;
      assert LeftBehind(cfg, log, n, f, g, |front| + i);
    }
  }

  // ---------------------------------------------------------------------------------------------
  // A run with a gap
  // ---------------------------------------------------------------------------------------------

  const BYTES: Bytes := [65, NL]
  const LINE: Line := Line([65], 1, 2)

  /** The forwarder starts before the file exists, so nothing is committed; the file is created and written,
      and its line read; the process dies before the next save; the file is rotated; the next start knows of
      no checkpoint and opens the path. */
  function Steps(n: Name): seq<Step> {
    [ StartUp(map[n := []]), Commit, Env(n, Create(1, 0)), Env(n, Append(BYTES, 1)), Poll(n, [], [], [], 10, false),
      Crash, Env(n, Rename), Env(n, Create(2, 2)), StartUp(map[n := []]) ]
  }

  function World1(): World { World([Gen(1, BYTES, 1)], true) }

  function World2(): World { World([Gen(1, BYTES, 1), Gen(2, [], 2)], true) }

  function FileAt(w: World, base: Cursor, run: Run): File { File(w, base, {}, {}, {}, run) }

  function Fresh(t: Tail, c: Cursor, start: Option<Position>): Run { Run(t, c, c, start, [], [], []) }

  function With(n: Name, up: bool, f: File): State {
    State(up, false, map[n := f], map[], map[], false, Disk(Missing, Missing, Missing), 0, None)
  }

  function States(n: Name): seq<State> {
    var c := Cursor(0, 0);
    var waiting := Fresh(Tail(false, -1, 0, []), c, None);
    var polled := waiting.(tail := Tail(true, 1, 2, []), cur := Cursor(0, 2), batch := [LINE]);
    [ With(n, false, FileAt(World([], false), c, waiting)),
      With(n, true, FileAt(World([], false), c, waiting)),
      With(n, true, FileAt(World([], false), c, waiting)),
      With(n, true, FileAt(World([Gen(1, [], 0)], true), c, waiting)),
      With(n, true, FileAt(World1(), c, waiting)),
      With(n, true, FileAt(World1(), c, polled)),
      With(n, false, FileAt(World1(), c, polled)),
      With(n, false, FileAt(World1().(live := false), c, polled)),
      With(n, false, FileAt(World2(), c, polled)),
      With(n, true, FileAt(World2(), Cursor(1, 0), Fresh(Tail(true, 2, 0, []), Cursor(1, 0), Some(Position(2, 0))))) ]
  }

  lemma OneLine()
    ensures Split(BYTES, 1, 0, 2) == [LINE] && LastEnd(BYTES, 0) == 2
  {
    assert LineEnd(BYTES, 0, 2) == 2 && StripEnd(BYTES, 0, 2) == 1;
    assert Split(BYTES, 1, 2, 2) == [] && BYTES[0..1] == [65];
  }

  lemma PollReads(cfg: Config, n: Name)
    ensures var ss := States(n);
            PollFile(ss[4].files[n], [], [], [], 10, false, ss[5].files[n])
  {
    var w := World1();
    var t, c, d := Tail(false, -1, 0, []), Cursor(0, 0), Cursor(0, 2);
    OneLine();
    GrowsReflexive(w);
    assert DoAll(w, []) == w && Candidates([]) == [];
    assert IndexOf(w.gens, 1) == 0;
    assert Opened(w, [], t) == Tail(true, 1, 0, []);
    assert Stream(w.gens, 0) == [] && Before(w, c) == [] && Before(w, d) == [] + LinesTo(w.gens[0], 2);
  }

  /** Step `i` of the run is one the forwarder can take. */
  ghost predicate Happens(cfg: Config, n: Name, i: nat)
    requires i < 9
  {
    Next(cfg, States(n)[i], Steps(n)[i], States(n)[i + 1])
  }

  lemma Starts(cfg: Config, n: Name)
    requires !cfg.fromEnd
    ensures Happens(cfg, n, 0) && Happens(cfg, n, 8)
  {
    var ss := States(n);
    assert FreshTail(World2(), false) == Tail(true, 2, 0, []);
    StartHappens(cfg, n, ss[0], ss[1]);
    StartHappens(cfg, n, ss[8], ss[9]);
    hide Next;
  }

  lemma StartHappens(cfg: Config, n: Name, s: State, t: State)
    requires s.files.Keys == t.files.Keys == {n}
    requires s == With(n, false, s.files[n]) && t == With(n, true, t.files[n])
    requires StartFile(cfg, s.files[n], [], None, t.files[n])
    ensures Next(cfg, s, StartUp(map[n := []]), t)
  {
    hide StartFile;
    assert LoadOf(s.disk) == None;
  }

  lemma CommitsNothing(cfg: Config, n: Name)
    ensures Happens(cfg, n, 1)
  {
    var ss := States(n);
    assert CommittedPos(ss[1].files[n].run) == None;
    assert Committed(ss[1]) == map[];
  }

  lemma Creates(cfg: Config, n: Name)
    ensures Happens(cfg, n, 2) && Happens(cfg, n, 7)
  {
    assert [Gen(1, BYTES, 1)] + [Gen(2, [], 2)] == [Gen(1, BYTES, 1), Gen(2, [], 2)];
    assert [] + [Gen(1, [], 0)] == [Gen(1, [], 0)];
    assert Do(World([], false), Create(1, 0)) == World([Gen(1, [], 0)], true);
    assert Do(World1().(live := false), Create(2, 2)) == World2();
    hide TailAt, Holds, Do;
  }

  lemma Appends(cfg: Config, n: Name)
    ensures Happens(cfg, n, 3)
  {
    var empty := [Gen(1, [], 0)];
    assert [] + BYTES == BYTES && empty[0 := Gen(1, BYTES, 1)] == [Gen(1, BYTES, 1)];
    assert Do(World(empty, true), Append(BYTES, 1)) == World1();
    hide Do, World1;
  }

  lemma PollsCrashesAndRenames(cfg: Config, n: Name)
    ensures Happens(cfg, n, 4) && Happens(cfg, n, 5) && Happens(cfg, n, 6)
  {
    PollReads(cfg, n);
    hide PollFile, TailAt;
  }

  lemma RunIsTrace(cfg: Config, n: Name)
    requires !cfg.fromEnd
    ensures Trace(cfg, States(n), Steps(n))
  {
    hide Next, States, Steps, Init;
    Lengths(cfg, n);
    Starts(cfg, n);
    CommitsNothing(cfg, n);
    Creates(cfg, n);
    Appends(cfg, n);
    PollsCrashesAndRenames(cfg, n);
    forall i | 0 <= i < 9 ensures Next(cfg, States(n)[i], Steps(n)[i], States(n)[i + 1]) {
      assert Happens(cfg, n, i);
    }
  }

  lemma Lengths(cfg: Config, n: Name)
    ensures |Steps(n)| == 9 && |States(n)| == 10 && Init(States(n)[0])
  {}

  /** No line is malformed or refused, nothing fails but the one crash, and yet the line read is never sent
      and lies in front of where the stream begins afterwards. */
  lemma StartWithoutCheckpointSkips(topic: Name -> string, n: Name)
    ensures var cfg, ss, steps := Config(topic, _ => true, false), States(n), Steps(n);
            && Trace(cfg, ss, steps)
            && ss[5].files[n].run.batch == [LINE]
            && LeftBehind(cfg, ss[9].log, n, ss[8].files[n], ss[9].files[n], 0)
            && !Settled(cfg, ss[9].log, n, ss[9].files[n], LINE)
  {
    var cfg := Config(topic, _ => true, false);
    RunIsTrace(cfg, n);
    hide Trace;
    OneLine();
    var w := World2();
    assert Stream(w.gens, 0) == [] && Before(w, Cursor(1, 0)) == [] + [LINE];
    assert !IsBlank(LINE.raw) by { assert LINE.raw[0] == 65; }
  }
}
