/** What the log writer and logrotate do to a followed file, and what the tailer keeps through it. */
module Rotation {
  import opened Options
  import opened Seqs
  import opened Lines
  import opened Watcher

  /** Bytes appended to the live file; the live file renamed away; a new file created at the path. */
  datatype Act = Append(data: Bytes, mtime: int) | Rename | Create(inode: int, mtime: int)

  /** A rename comes, while a tailer runs, only when that tailer holds the live file or already owes it;
      while it is stopped, at any time. Inodes are not reused. */
  ghost predicate Legal(w: World, act: Act, tailer: Option<Tail>) {
    match act
    case Append(_, _) => AtPathAny(w)
    case Rename => AtPathAny(w) && (tailer.Some? ==> Holds(w, tailer.value))
    case Create(inode, _) => !w.live && forall i :: 0 <= i < |w.gens| ==> w.gens[i].inode != inode
  }

  ghost predicate Holds(w: World, t: Tail)
    requires w.gens != []
  {
    var live := w.gens[|w.gens| - 1].inode;
    (t.open && t.inode == live) || exists i :: 0 <= i < |t.pending| && t.pending[i] == live
  }

  function Do(w: World, act: Act): World {
    match act
    case Append(data, mtime) =>
      if w.gens == [] then w else
        var last := |w.gens| - 1;
        w.(gens := w.gens[last := Gen(w.gens[last].inode, w.gens[last].bytes + data, mtime)])
    case Rename => w.(live := false)
    case Create(inode, mtime) => w.(gens := w.gens + [Gen(inode, [], mtime)], live := true)
  }

  ghost predicate LegalAll(w: World, acts: seq<Act>, tailer: Option<Tail>)
    decreases |acts|
  {
    acts == [] || (Legal(w, acts[0], tailer) && LegalAll(Do(w, acts[0]), acts[1..], tailer))
  }

  function DoAll(w: World, acts: seq<Act>): World
    decreases |acts|
  {
    if acts == [] then w else DoAll(Do(w, acts[0]), acts[1..])
  }

  lemma DoGrows(w: World, act: Act, tailer: Option<Tail>)
    requires DistinctInodes(w) && Legal(w, act, tailer)
    ensures DistinctInodes(Do(w, act)) && Grows(w, Do(w, act))
  {
    if act.Append? {
      var v, last := Do(w, act), |w.gens| - 1;
      assert forall i :: 0 <= i < |w.gens| ==> v.gens[i].inode == w.gens[i].inode;
      PrefixOfSum(w.gens[last].bytes, act.data);
    }
  }

  /** The tailer's hold on the stream survives everything the writer may do. */
  lemma DoKeepsTail(w: World, act: Act, t: Tail, c: Cursor)
    requires TailAt(w, t, c) && Legal(w, act, Some(t))
    ensures TailAt(Do(w, act), t, c) && Grows(w, Do(w, act))
  {
    hide Before, Stream;
    DoGrows(w, act, Some(t));
    BoundaryStable(w, Do(w, act), c);
    if act.Rename? {
      OwesAll(w, t, c);
    }
  }

  /** Holding the live file, or owing it, the tailer owes every later generation. */
  lemma OwesAll(w: World, t: Tail, c: Cursor)
    requires TailAt(w, t, c) && AtPathAny(w) && Holds(w, t)
    ensures NextGen(t, c) + |t.pending| == |w.gens|
  {
    hide Before, Boundary;
    if !(t.open && t.inode == w.gens[|w.gens| - 1].inode) {
      var i :| 0 <= i < |t.pending| && t.pending[i] == w.gens[|w.gens| - 1].inode;
      assert NextGen(t, c) + i == |w.gens| - 1;
    }
  }

  lemma GrowsTransitive(u: World, v: World, w: World)
    requires Grows(u, v) && Grows(v, w)
    ensures Grows(u, w)
  {
    forall i | 0 <= i < |u.gens| ensures u.gens[i].bytes <= w.gens[i].bytes {
      PrefixTransitive(u.gens[i].bytes, v.gens[i].bytes, w.gens[i].bytes);
    }
  }

  lemma GrowsReflexive(w: World)
    ensures Grows(w, w)
  {}

  lemma {:induction false} DoAllGrows(w: World, acts: seq<Act>, tailer: Option<Tail>)
    requires DistinctInodes(w) && LegalAll(w, acts, tailer)
    ensures DistinctInodes(DoAll(w, acts)) && Grows(w, DoAll(w, acts))
    decreases |acts|
  {
    hide Grows, DistinctInodes, Do;
    if acts == [] {
      GrowsReflexive(w);
    } else {
      DoGrows(w, acts[0], tailer);
      DoAllGrows(Do(w, acts[0]), acts[1..], tailer);
      GrowsTransitive(w, Do(w, acts[0]), DoAll(w, acts));
    }
  }

  lemma {:induction false} DoAllKeepsTail(w: World, acts: seq<Act>, t: Tail, c: Cursor)
    requires TailAt(w, t, c) && LegalAll(w, acts, Some(t))
    ensures TailAt(DoAll(w, acts), t, c) && Grows(w, DoAll(w, acts))
    decreases |acts|
  {
    hide Grows, DistinctInodes, Do, TailAt;
    if acts == [] {
      GrowsReflexive(w);
    } else {
      DoKeepsTail(w, acts[0], t, c);
      DoAllKeepsTail(Do(w, acts[0]), acts[1..], t, c);
      GrowsTransitive(w, Do(w, acts[0]), DoAll(w, acts));
    }
  }

  /** The tailer that has made sure that a file is open still stands where it stood. */
  lemma OpenedTail(w: World, dir: seq<Entry>, t: Tail, c: Cursor)
    requires TailAt(w, t, c) && Listed(w, dir, c.gen)
    ensures TailAt(w, Opened(w, dir, t), c)
  {
    hide TailAt, Listed, OpenNextOf, Before;
    if !t.open {
      StartCovers(w, t, c);
      CoverOpen(w, dir, c, t, c, []);
    }
  }

  /** What the writers may do during a poll is what a poll can rely on. */
  lemma LegalIsPollEnv(w: World, acts: seq<Act>, dir: seq<Entry>, dir2: seq<Entry>, t: Tail, c: Cursor)
    requires TailAt(w, t, c) && Listed(w, dir, c.gen)
    requires LegalAll(w, acts, Some(Opened(w, dir, t))) && Listed(DoAll(w, acts), dir2, c.gen)
    ensures PollEnv(w, dir, DoAll(w, acts), dir2, t, c)
  {
    hide TailAt, Listed, LegalAll, Opened, Grows;
    OpenedTail(w, dir, t, c);
    DoAllKeepsTail(w, acts, Opened(w, dir, t), c);
  }

  // ---------------------------------------------------------------------------------------------
  // Successive polls
  // ---------------------------------------------------------------------------------------------

  /** One poll: the snapshots on which it begins and ends, its limit, the tailer and the place it leaves,
      and the lines it hands on. */
  datatype Visit = Visit(u: World, v: World, max: int, t: Tail, c: Cursor, lines: seq<Line>)

  function WorldAfter(w: World, ps: seq<Visit>): World { if ps == [] then w else ps[|ps| - 1].v }

  function TailAfter(t: Tail, ps: seq<Visit>): Tail { if ps == [] then t else ps[|ps| - 1].t }

  function CursorAfter(c: Cursor, ps: seq<Visit>): Cursor { if ps == [] then c else ps[|ps| - 1].c }

  /** All lines handed on. */
  function Handed(ps: seq<Visit>): seq<Line> {
    if ps == [] then [] else Handed(ps[..|ps| - 1]) + ps[|ps| - 1].lines
  }

  /** Successive polls by a tailer that stands at `c` in `w`. Between the polls, and during each, the files
      may grow, be rotated, and be rotated again. */
  ghost predicate Polls(w: World, t: Tail, c: Cursor, ps: seq<Visit>)
    decreases |ps|
  {
    if ps == [] then TailAt(w, t, c) else
      var front, p := ps[..|ps| - 1], ps[|ps| - 1];
      && Polls(w, t, c, front)
      && Grows(WorldAfter(w, front), p.u) && Grows(p.u, p.v)
      && HandsOn(p.v, CursorAfter(c, front), p.max, p.t, p.c, p.lines)
  }

  /** Together the polls hand on the stream from the first cursor to the last, in order, each line once,
      whatever is written and rotated meanwhile. */
  lemma {:induction false} PollsAddUp(w: World, t: Tail, c: Cursor, ps: seq<Visit>)
    requires Polls(w, t, c, ps)
    ensures var v, d := WorldAfter(w, ps), CursorAfter(c, ps);
            && Grows(w, v) && Boundary(w, c) && TailAt(v, TailAfter(t, ps), d)
            && CursorOk(v, c) && CursorOk(v, d) && Before(v, d) == Before(v, c) + Handed(ps)
    decreases |ps|
  {
    hide Before, Grows, Boundary;
    if ps == [] {
      GrowsReflexive(w);
      StandsOk(w, t, c);
    } else {
      var front, p := ps[..|ps| - 1], ps[|ps| - 1];
      var v, d := WorldAfter(w, front), CursorAfter(c, front);
      PollsAddUp(w, t, c, front);
      GrowsTransitive(v, p.u, p.v);
      GrowsTransitive(w, v, p.v);
      BoundaryStable(w, v, c);
      BoundaryStable(w, p.v, c);
      StandsOk(v, TailAfter(t, front), d);
      StandsOk(p.v, p.t, p.c);
      BoundaryStable(v, p.v, d);
      Assoc(Before(p.v, c), Handed(front), p.lines);
    }
  }

  /** As soon as nothing is left to read, all there is beyond the first cursor has been handed on. */
  lemma PollsAreExact(w: World, t: Tail, c: Cursor, ps: seq<Visit>)
    requires Polls(w, t, c, ps) && CaughtUp(WorldAfter(w, ps), TailAfter(t, ps), CursorAfter(c, ps))
    ensures CursorOk(WorldAfter(w, ps), c)
    ensures Everything(WorldAfter(w, ps)) == Before(WorldAfter(w, ps), c) + Handed(ps)
  {
    hide Before, TailAt, Everything, CaughtUp;
    PollsAddUp(w, t, c, ps);
    CaughtUpIsEverything(WorldAfter(w, ps), TailAfter(t, ps), CursorAfter(c, ps));
  }

  // ---------------------------------------------------------------------------------------------
  // Polling until nothing is left
  // ---------------------------------------------------------------------------------------------

  /** Bytes and generations still ahead of a cursor. */
  ghost function Ahead(w: World, c: Cursor): int
    requires CursorOk(w, c)
  {
    SizeFrom(w.gens, c.gen) - c.off
  }

  ghost function SizeFrom(gens: seq<Gen>, k: nat): nat
    requires k <= |gens|
    decreases |gens| - k
  {
    if k == |gens| then 0 else |gens[k].bytes| + 1 + SizeFrom(gens, k + 1)
  }

  lemma SizeFromLater(gens: seq<Gen>, i: nat, j: nat)
    requires i < j <= |gens|
    ensures SizeFrom(gens, i) >= |gens[i].bytes| + 1 + SizeFrom(gens, j)
    decreases j - i
  {
    if i + 1 < j { SizeFromLater(gens, i + 1, j); }
  }

  lemma AheadShrinks(w: World, c: Cursor, d: Cursor)
    requires CursorOk(w, c) && CursorOk(w, d) && CursorLe(c, d)
    ensures Ahead(w, c) >= 0
    ensures c != d ==> Ahead(w, d) < Ahead(w, c)
  {
    if c.gen < d.gen { SizeFromLater(w.gens, c.gen, d.gen); }
  }

  /** From the m-th poll on nothing is written, rotated or refused. */
  ghost predicate Quiet(w: World, c: Cursor, ps: seq<Visit>, m: nat)
    requires m <= |ps|
  {
    var v := WorldAfter(w, ps[..m]);
    forall i :: m <= i < |ps| ==>
      && ps[i].u == ps[i].v == v && ps[i].max > 0
      && PollSpec(v, v, CursorAfter(c, ps[..i]), ps[i].max, ps[i].t, ps[i].c, ps[i].lines)
  }

  lemma {:induction false} PollsPrefix(w: World, t: Tail, c: Cursor, ps: seq<Visit>, k: nat)
    requires Polls(w, t, c, ps) && k <= |ps|
    ensures Polls(w, t, c, ps[..k])
    decreases |ps|
  {
    hide TailAt, HandsOn, Grows;
    assert ps[..|ps|] == ps;
    if k < |ps| {
      PollsPrefix(w, t, c, ps[..|ps| - 1], k);
      assert ps[..|ps| - 1][..k] == ps[..k];
    }
  }

  lemma QuietMoves(v: World, d: Cursor, p: Visit)
    requires PollSpec(v, v, d, p.max, p.t, p.c, p.lines) && p.max > 0
    ensures TailAt(v, p.t, p.c) && CursorOk(v, d) && CursorLe(d, p.c)
    ensures CaughtUp(v, p.t, p.c) || d != p.c
  {
    hide TailAt, CaughtUp, Before;
    if d == p.c { NothingAdded(Before(v, d), p.lines); }
  }

  /** A quiet poll brings the end nearer, or it is there. */
  lemma QuietStep(w: World, t: Tail, c: Cursor, ps: seq<Visit>, m: nat, k: nat)
    requires m < k <= |ps| && Quiet(w, c, ps, m)
    ensures var v, d, e := WorldAfter(w, ps[..m]), CursorAfter(c, ps[..k - 1]), CursorAfter(c, ps[..k]);
            && CursorOk(v, d) && CursorOk(v, e) && Ahead(v, e) >= 0
            && (CaughtUp(v, TailAfter(t, ps[..k]), e) || Ahead(v, e) < Ahead(v, d))
  {
    hide TailAt, CaughtUp, Ahead, PollSpec, CursorOk, CursorLe;
    var v, d, p := WorldAfter(w, ps[..m]), CursorAfter(c, ps[..k - 1]), ps[k - 1];
    assert p.u == v && p.max > 0 && PollSpec(v, v, CursorAfter(c, ps[..k - 1]), p.max, p.t, p.c, p.lines);
    assert ps[..k][k - 1] == p;
    hide Quiet;
    QuietMoves(v, d, p);
    StandsOk(v, p.t, p.c);
    AheadShrinks(v, d, p.c);
    AheadShrinks(v, p.c, p.c);
  }

  /** Enough polls of a quiet file system reach its end. */
  lemma {:induction false} PollsReachEnd(w: World, t: Tail, c: Cursor, ps: seq<Visit>, m: nat, k: nat)
    returns (n: nat)
    requires m <= k <= |ps| && Polls(w, t, c, ps) && Quiet(w, c, ps, m)
    ensures m <= n <= k
    ensures var v := WorldAfter(w, ps[..m]);
            && CursorOk(v, CursorAfter(c, ps[..m])) && CursorOk(v, CursorAfter(c, ps[..k]))
            && (CaughtUp(v, TailAfter(t, ps[..n]), CursorAfter(c, ps[..n]))
                || Ahead(v, CursorAfter(c, ps[..k])) + (k - m) <= Ahead(v, CursorAfter(c, ps[..m])))
    decreases k
  {
    hide Before, TailAt, CaughtUp, Polls, Quiet, Ahead, Boundary, CursorAfter, TailAfter, WorldAfter, Grows;
    if k == m {
      PollsPrefix(w, t, c, ps, m);
      PollsAddUp(w, t, c, ps[..m]);
      n := m;
    } else {
      n := PollsReachEnd(w, t, c, ps, m, k - 1);
      QuietStep(w, t, c, ps, m, k);
      var v := WorldAfter(w, ps[..m]);
      if CaughtUp(v, TailAfter(t, ps[..k]), CursorAfter(c, ps[..k])) { n := k; }
    }
  }

  /** All complete lines there are, and the unterminated end of every file that has left the path. */
  ghost function Everything(w: World): seq<Line> {
    if AtPathAny(w) then
      var g := w.gens[|w.gens| - 1];
      Before(w, Cursor(|w.gens| - 1, LastEnd(g.bytes, 0)))
    else
      Stream(w.gens, |w.gens|)
  }

  lemma CaughtUpIsEverything(w: World, t: Tail, c: Cursor)
    requires TailAt(w, t, c) && CaughtUp(w, t, c)
    ensures Before(w, c) == Everything(w)
  {
    hide Before;
    if c.gen < |w.gens| {
      var s := w.gens[c.gen].bytes;
      assert c.off == LastEnd(s, 0);
    } else {
      AtEnd(w, c);
    }
  }

  lemma AtEnd(w: World, c: Cursor)
    requires Boundary(w, c) && c.gen == |w.gens|
    ensures !AtPathAny(w) && Before(w, c) == Stream(w.gens, |w.gens|)
  {}

  lemma StandsOk(w: World, t: Tail, c: Cursor)
    requires TailAt(w, t, c)
    ensures CursorOk(w, c) && Boundary(w, c) && DistinctInodes(w)
  {}

  /** Start-up recovery is exact. From any checkpoint that can be picked up again, however often the file
      was rotated since, and while it goes on being written and rotated during the first `m` polls, queued
      generations included: once polled to the end, what was handed on is the rest of the checkpointed file,
      then each later generation, then the live file, i.e. exactly the lines behind the checkpoint, once,
      in order; and enough polls of a quiet file system reach that end. */
  lemma RecoveryIsExact(w: World, dir: seq<Entry>, fromEnd: bool, saved: Position, ps: seq<Visit>, m: nat)
    returns (n: nat)
    requires Recoverable(w, dir, saved)
    requires var t, c := StartOf(w, dir, fromEnd, Some(saved)), Cursor(IndexOf(w.gens, saved.inode), saved.offset);
             && m <= |ps| && Polls(w, t, c, ps) && Quiet(w, c, ps, m)
             && CursorOk(WorldAfter(w, ps[..m]), CursorAfter(c, ps[..m]))
             && |ps| - m > Ahead(WorldAfter(w, ps[..m]), CursorAfter(c, ps[..m]))
    ensures n <= |ps|
    ensures var v, c := WorldAfter(w, ps[..n]), Cursor(IndexOf(w.gens, saved.inode), saved.offset);
            && Grows(w, v) && CursorOk(v, c) && Everything(v) == Before(v, c) + Handed(ps[..n])
  {
    hide Before, Stream, TailAt, PollSpec, Everything, CaughtUp, Polls, Quiet, Grows, Recoverable, StartOf;
    var t, c := StartOf(w, dir, fromEnd, Some(saved)), Cursor(IndexOf(w.gens, saved.inode), saved.offset);
    n := PollsReachEnd(w, t, c, ps, m, |ps|);
    AheadShrinks(WorldAfter(w, ps[..m]), CursorAfter(c, ps[..|ps|]), CursorAfter(c, ps[..|ps|]));
    PollsPrefix(w, t, c, ps, n);
    PollsAddUp(w, t, c, ps[..n]);
    QuietWorld(w, c, ps, m, n);
    PollsAreExact(w, t, c, ps[..n]);
  }

  lemma QuietWorld(w: World, c: Cursor, ps: seq<Visit>, m: nat, n: nat)
    requires m <= n <= |ps| && Quiet(w, c, ps, m)
    ensures WorldAfter(w, ps[..n]) == WorldAfter(w, ps[..m])
  {
    if m < n { assert ps[..n][n - 1] == ps[n - 1]; }
  }
}
