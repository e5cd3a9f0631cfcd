/** The tailer itself through a restart: constructed from a checkpoint, then polled again and again while
    the writers go on. */
module Recovery {
  import opened Options
  import opened Lines
  import opened Watcher
  import opened Rotation

  /** What happens around one poll: what the writers do before and during it, how the directory looks on
      either side, the limit, and whether looking at the path fails. */
  datatype Around = Around(before: seq<Act>, dir: seq<Entry>, during: seq<Act>, dir2: seq<Entry>,
                           max: int, statFails: bool)

  /** The writers keep to the rules a running tailer relies on, and do not win the one race it can lose. */
  ghost predicate Friendly(w: World, t: Tail, c: Cursor, a: Around) {
    var u := DoAll(w, a.before);
    var v := DoAll(u, a.during);
    && a.max > 0
    && LegalAll(w, a.before, Some(t)) && Listed(u, a.dir, c.gen)
    && LegalAll(u, a.during, Some(Opened(u, a.dir, t))) && Listed(v, a.dir2, c.gen)
    && (Grows(u, v) && CursorOk(u, c) && CursorOk(v, c) ==> !RaceLoses(u, v, Opened(u, a.dir, t), c, a.max))
  }

  /** `env` says what happens around the i-th poll; it may depend on the files and on the tailer. */
  type Env = (nat, World, Tail) -> Around

  ghost predicate AlwaysFriendly(env: Env) {
    forall i, w, t, c :: TailAt(w, t, c) ==> Friendly(w, t, c, env(i, w, t))
  }

  /** A poll that the writers let happen. */
  lemma FriendlyPoll(w: World, t: Tail, c: Cursor, a: Around)
    requires TailAt(w, t, c) && Friendly(w, t, c, a)
    ensures var u := DoAll(w, a.before);
            var v := DoAll(u, a.during);
            && PollEnv(u, a.dir, v, a.dir2, t, c) && Grows(w, u) && Grows(u, v)
            && a.max > 0 && CursorOk(u, c) && CursorOk(v, c) && !RaceLoses(u, v, Opened(u, a.dir, t), c, a.max)
  {
    hide TailAt, Listed, LegalAll, Opened, Grows, RaceLoses, Before;
    var u := DoAll(w, a.before);
    DoAllKeepsTail(w, a.before, t, c);
    LegalIsPollEnv(u, a.during, a.dir, a.dir2, t, c);
    OpenedTail(u, a.dir, t, c);
    DoAllKeepsTail(u, a.during, Opened(u, a.dir, t), c);
    StandsOk(u, t, c);
    StandsOk(DoAll(u, a.during), Opened(u, a.dir, t), c);
  }

  /** Restart from a checkpoint and poll `n` times. Whatever is written and rotated meanwhile, generations
      still owed included, the lines handed on are exactly those of the stream between the checkpoint and
      the place reached; if nothing is left by then, they are all there is. */
  method Resume(w: World, dir: seq<Entry>, fromEnd: bool, saved: Position, env: Env, n: nat)
      returns (tail: FileTail, lines: seq<Line>, v: World, ghost ps: seq<Visit>)
    requires Recoverable(w, dir, saved) && AlwaysFriendly(env)
    ensures var c := Cursor(IndexOf(w.gens, saved.inode), saved.offset);
            && Polls(w, StartOf(w, dir, fromEnd, Some(saved)), c, ps) && |ps| == n
            && v == WorldAfter(w, ps) && lines == Handed(ps)
            && Grows(w, v) && TailAt(v, tail.State(), tail.cur)
            && CursorOk(v, c) && CursorOk(v, tail.cur) && Before(v, tail.cur) == Before(v, c) + lines
            && (CaughtUp(v, tail.State(), tail.cur) ==> Everything(v) == Before(v, c) + lines)
  {
    hide TailAt, Before, Friendly, Recoverable, Polls, Everything, CaughtUp, Grows, RaceLoses, PollEnv,
         StartOf, StartCursor, Handed, HandsOn;
    StartStands(w, dir, fromEnd, saved);
    StandsOk(w, StartOf(w, dir, fromEnd, Some(saved)), StartCursor(w, dir, fromEnd, Some(saved)));
    tail := new FileTail(w, dir, fromEnd, Some(saved));
    ghost var t0, c := tail.State(), tail.cur;
    v, lines, ps := w, [], [];
    NoPolls(w, t0, c);
    var i := 0;
    while i < n
      invariant i <= n && |ps| == i && Polls(w, t0, c, ps) && lines == Handed(ps)
      invariant v == WorldAfter(w, ps) && tail.State() == TailAfter(t0, ps) && tail.cur == CursorAfter(c, ps)
      invariant fresh(tail)
    {
      PollsAddUp(w, t0, c, ps);
      ghost var d, before := tail.cur, v;
      var a := env(i, v, tail.State());
      var u := DoAll(v, a.before);
      v := DoAll(u, a.during);
      FriendlyPoll(before, tail.State(), d, a);
      var more := tail.Poll(u, a.dir, v, a.dir2, a.max, a.statFails);
      ghost var p := Visit(u, v, a.max, tail.State(), tail.cur, more);
      OnePollMore(w, t0, c, ps, before, d, p);
      lines, ps, i := lines + more, ps + [p], i + 1;
    }
    PollsAddUp(w, t0, c, ps);
    if CaughtUp(v, tail.State(), tail.cur) { PollsAreExact(w, t0, c, ps); }
  }

  lemma NoPolls(w: World, t: Tail, c: Cursor)
    requires TailAt(w, t, c)
    ensures Polls(w, t, c, []) && Handed([]) == []
  {}

  lemma OnePollMore(w: World, t: Tail, c: Cursor, ps: seq<Visit>, before: World, d: Cursor, p: Visit)
    requires Polls(w, t, c, ps) && before == WorldAfter(w, ps) && d == CursorAfter(c, ps)
    requires Grows(before, p.u) && Grows(p.u, p.v) && HandsOn(p.v, d, p.max, p.t, p.c, p.lines)
    ensures Polls(w, t, c, ps + [p]) && Handed(ps + [p]) == Handed(ps) + p.lines
  {
    assert (ps + [p])[..|ps|] == ps;
  }

  // ---------------------------------------------------------------------------------------------
  // Friendly surroundings exist
  // ---------------------------------------------------------------------------------------------

  /** Every generation that has left the path, under one name each. */
  function Listing(w: World, n: nat): (r: seq<Entry>)
    requires n <= |w.gens|
    ensures |r| == n && forall i :: 0 <= i < n ==> r[i] == Entry("x", w.gens[i].inode)
  {
    if n == 0 then [] else Listing(w, n - 1) + [Entry("x", w.gens[n - 1].inode)]
  }

  lemma ListingListed(w: World, from: nat)
    requires DistinctInodes(w)
    ensures Listed(w, Listing(w, RotatedEnd(w)), from)
  {
    hide IndexOf, Candidates, Listing;
    var n := RotatedEnd(w);
    var c := Listing(w, n);
    NotCompressed("x");
    AllCandidates(c);
    forall i | 0 <= i < n ensures IndexOf(w.gens, c[i].inode) == i {
      IndexOfUnique(w, i);
    }
    forall k | from <= k < |w.gens| && Sealed(w, k) ensures InDir(c, w.gens[k].inode) {
      assert c[k].inode == w.gens[k].inode;
    }
  }

  /** Writers that do nothing. */
  function Idle(i: nat, w: World, t: Tail): Around {
    Around([], Listing(w, RotatedEnd(w)), [], Listing(w, RotatedEnd(w)), 1, false)
  }

  /** The assumption of `Resume` can be met. */
  lemma IdleIsFriendly()
    ensures AlwaysFriendly(Idle)
  {
    hide Listed, RaceLoses, TailAt, Listing;
    forall i: nat, w, t, c | TailAt(w, t, c) ensures Friendly(w, t, c, Idle(i, w, t)) {
      StandsOk(w, t, c);
      ListingListed(w, c.gen);
      OpenedTail(w, Listing(w, RotatedEnd(w)), t, c);
      if Grows(w, w) && CursorOk(w, c) { NoRaceAtRest(w, Opened(w, Listing(w, RotatedEnd(w)), t), c, 1); }
    }
  }

  lemma NoRaceAtRest(w: World, o: Tail, c: Cursor, max: int)
    requires Grows(w, w) && CursorOk(w, c) && TailAt(w, o, c)
    ensures !RaceLoses(w, w, o, c, max)
  {
    if o.open && c.gen < |w.gens| && !AtPathAny(w) {
      var s := w.gens[c.gen].bytes;
      var e := LastEnd(s, c.off);
      if e < |s| { assert LineEnd(s, e, |s|) == |s|; }
    }
  }
}
