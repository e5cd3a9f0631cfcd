/** The `tail -F` state machine over inodes, offsets and rotated generations.

    A call sees a snapshot of the file system, a `World` and a directory listing, and a poll sees two: one
    when it reads and one when it compares the path with its handle. `Poll` and the
    constructor are proved against the stream of `Lines`: a poll hands on exactly the lines between the
    cursor before it and the cursor after it. */
module Watcher {
  import opened Options
  import opened Seqs
  import opened Lines

  /** A checkpoint as it is stored: inode and offset of the next unread byte. */
  datatype Position = Position(inode: int, offset: nat)

  /** A rotated sibling of the followed path that can be opened, in the order the glob lists it. */
  datatype Entry = Entry(name: string, inode: int)

  /** What the tailer remembers; `inode` and `offset` mean something only while a file is open. */
  datatype Tail = Tail(open: bool, inode: int, offset: nat, pending: seq<int>)

  // ---------------------------------------------------------------------------------------------
  // Looking things up in a snapshot
  // ---------------------------------------------------------------------------------------------

  function IndexOf(gens: seq<Gen>, inode: int): (k: nat)
    ensures k <= |gens|
    ensures k < |gens| ==> gens[k].inode == inode
    ensures forall i :: 0 <= i < k ==> gens[i].inode != inode
  {
    if gens == [] then 0 else
      var k := IndexOf(gens[..|gens| - 1], inode);
      if k < |gens| - 1 || gens[|gens| - 1].inode == inode then k else |gens|
  }

  lemma IndexOfUnique(w: World, k: nat)
    requires DistinctInodes(w) && k < |w.gens|
    ensures IndexOf(w.gens, w.gens[k].inode) == k
  {}

  /** The file with this inode: a generation, or else any other file of the directory. */
  function FileOf(w: World, inode: int): Gen {
    var k, j := IndexOf(w.gens, inode), IndexOf(w.others, inode);
    if k < |w.gens| then w.gens[k] else if j < |w.others| then w.others[j] else Gen(inode, [], 0)
  }

  function BytesOf(w: World, inode: int): Bytes { FileOf(w, inode).bytes }

  function MtimeOf(w: World, inode: int): int { FileOf(w, inode).mtime }

  /** `os.stat(path).st_ino == inode` */
  predicate AtPath(w: World, inode: int) {
    w.live && w.gens != [] && w.gens[|w.gens| - 1].inode == inode
  }

  /** The end of what has been rotated away, i.e. the generation at the path if there is one. */
  function RotatedEnd(w: World): nat {
    if w.live && w.gens != [] then |w.gens| - 1 else |w.gens|
  }

  function PathInode(w: World): Option<int> {
    if w.live && w.gens != [] then Some(w.gens[|w.gens| - 1].inode) else None
  }

  predicate HasSuffix(s: string, t: string) { |t| <= |s| && s[|s| - |t|..] == t }

  predicate Compressed(name: string) {
    || HasSuffix(name, ".gz") || HasSuffix(name, ".bz2") || HasSuffix(name, ".xz")
    || HasSuffix(name, ".zst") || HasSuffix(name, ".zip")
  }

  /** The rotated generations the tailer is willing to read. */
  function Candidates(dir: seq<Entry>): seq<Entry> {
    if dir == [] then [] else
      (if Compressed(dir[0].name) then [] else [dir[0]]) + Candidates(dir[1..])
  }

  lemma SuffixMeans(s: string, t: string)
    ensures HasSuffix(s, t) <==> exists stem :: s == stem + t
  {
    if HasSuffix(s, t) {
      assert s == s[..|s| - |t|] + t;
    }
    if stem :| s == stem + t {
      assert s[|s| - |t|..] == t;
    }
  }

  /** The names passed over are those with one of five endings. */
  lemma CompressedMeans(name: string)
    ensures Compressed(name) <==>
              exists stem, ending :: ending in {".gz", ".bz2", ".xz", ".zst", ".zip"} && name == stem + ending
  {
    hide HasSuffix;
    forall t ensures HasSuffix(name, t) <==> exists stem :: name == stem + t { SuffixMeans(name, t); }
    if stem, ending :| ending in {".gz", ".bz2", ".xz", ".zst", ".zip"} && name == stem + ending {
      assert HasSuffix(name, ending);
    }
  }

  /** The file has a name with none of these endings. */
  ghost predicate Readable(dir: seq<Entry>, inode: int) {
    exists i :: 0 <= i < |dir| && dir[i].inode == inode
      && forall stem, ending :: ending in {".gz", ".bz2", ".xz", ".zst", ".zip"} ==> dir[i].name != stem + ending
  }

  lemma {:induction false} CandidatesExact(dir: seq<Entry>, inode: int)
    ensures InDir(Candidates(dir), inode) <==> Readable(dir, inode)
  {
    hide Compressed;
    if dir != [] {
      CandidatesExact(dir[1..], inode);
      CompressedMeans(dir[0].name);
      CandidatesFirst(dir, inode);
      assert forall i :: 0 <= i < |dir| - 1 ==> dir[1..][i] == dir[i + 1];
    }
  }

  lemma CandidatesFirst(dir: seq<Entry>, inode: int)
    requires dir != []
    ensures InDir(Candidates(dir), inode) <==>
              (!Compressed(dir[0].name) && dir[0].inode == inode) || InDir(Candidates(dir[1..]), inode)
  {
    hide Compressed, InDir;
    var rest := Candidates(dir[1..]);
    InDirCons(dir[0], rest, inode);
    assert [] + rest == rest;
  }

  lemma InDirCons(e: Entry, rest: seq<Entry>, inode: int)
    ensures InDir([e] + rest, inode) <==> e.inode == inode || InDir(rest, inode)
  {
    var all := [e] + rest;
    if InDir(rest, inode) {
      var i :| 0 <= i < |rest| && rest[i].inode == inode;
      assert all[i + 1].inode == inode;
    }
    if InDir(all, inode) {
      var i :| 0 <= i < |all| && all[i].inode == inode;
      assert i > 0 ==> rest[i - 1].inode == inode;
    }
    assert all[0] == e;
  }

  predicate InDir(dir: seq<Entry>, inode: int) {
    exists i :: 0 <= i < |dir| && dir[i].inode == inode
  }

  /** Is `offset` a position this tailer could have checkpointed in a file holding `s`? */
  predicate AtLineBoundary(s: Bytes, offset: nat) {
    offset <= |s| && (offset == 0 || offset == |s| || s[offset - 1] == NL)
  }

  // ---------------------------------------------------------------------------------------------
  // What the environment promises
  // ---------------------------------------------------------------------------------------------

  /** Every generation from `from` on that has left the path is still there, uncompressed, under exactly
      one searched name. Other files may match the search too. */
  ghost predicate Listed(w: World, dir: seq<Entry>, from: nat) {
    var c := Candidates(dir);
    && DistinctInodes(w)
    && (forall i :: 0 <= i < |c| && IndexOf(w.gens, c[i].inode) < |w.gens| ==>
          Sealed(w, IndexOf(w.gens, c[i].inode)))
    && (forall i, j :: 0 <= i < j < |c| ==> c[i].inode != c[j].inode)
    && (forall k :: from <= k < |w.gens| && Sealed(w, k) ==> InDir(c, w.gens[k].inode))
  }

  /** A searched name belongs to a file that never was at the path and is newer than generation `k`. */
  ghost predicate ForeignLater(w: World, dir: seq<Entry>, k: nat)
    requires k < |w.gens|
  {
    exists ino :: InDir(Candidates(dir), ino) && Foreign(w, ino) && MtimeOf(w, ino) > w.gens[k].mtime
  }

  predicate Foreign(w: World, ino: int) { IndexOf(w.gens, ino) == |w.gens| }

  /** Of two generations that have left the path, the later one was last written later. */
  ghost predicate MtimesOrdered(w: World) {
    forall i, j :: 0 <= i < j < RotatedEnd(w) ==> w.gens[i].mtime < w.gens[j].mtime
  }

  // ---------------------------------------------------------------------------------------------
  // What the tailer keeps
  // ---------------------------------------------------------------------------------------------

  /** First generation the tailer has still to open. */
  ghost function NextGen(t: Tail, c: Cursor): nat { if t.open then c.gen + 1 else c.gen }

  /** The tailer stands at cursor `c`: its handle is that file at that offset, and `pending` owes, oldest
      first, every later generation that can no longer be reached through the path. */
  ghost predicate TailAt(w: World, t: Tail, c: Cursor) {
    && DistinctInodes(w)
    && Boundary(w, c)
    && (t.open ==> c.gen < |w.gens| && t.inode == w.gens[c.gen].inode && t.offset == c.off)
    && (!t.open ==> c.off == 0)
    && Owes(w, t.pending, NextGen(t, c))
  }

  ghost predicate Owes(w: World, pending: seq<int>, next: nat) {
    && (next + |pending| == |w.gens| || (w.live && next + |pending| == |w.gens| - 1))
    && forall i :: 0 <= i < |pending| ==> pending[i] == w.gens[next + i].inode
  }

  /** There is nothing more to hand on until the file system changes. */
  ghost predicate CaughtUp(w: World, t: Tail, c: Cursor) {
    || c.gen == |w.gens|
    || (c.gen == |w.gens| - 1 && w.live && t.open && c.off <= |w.gens[c.gen].bytes|
        && NoNewline(w.gens[c.gen].bytes, c.off, |w.gens[c.gen].bytes|))
  }

  /** One poll from cursor `c`, ended on snapshot `v`: the lines handed on are exactly the lines of the
      stream up to the new cursor, at most `max` of them. */
  ghost predicate HandsOn(v: World, c: Cursor, max: int, t: Tail, d: Cursor, lines: seq<Line>) {
    && TailAt(v, t, d)
    && CursorLe(c, d)
    && CursorOk(v, c) && Before(v, d) == Before(v, c) + lines
    && |lines| <= max
  }

  /** ... and fewer only if a generation was finished or, as of the snapshot `w` on which the poll began,
      nothing was left. */
  ghost predicate PollSpec(w: World, v: World, c: Cursor, max: int, t: Tail, d: Cursor, lines: seq<Line>) {
    && HandsOn(v, c, max, t, d, lines)
    && (|lines| < max ==> CaughtUp(w, t, d) || c.gen < d.gen)
  }

  /** What a poll relies on: nothing has been lost from the directory, and the files only grow and are
      only rotated under a tailer that already holds, or owes, the file at the path. */
  ghost predicate PollEnv(w: World, dir: seq<Entry>, v: World, dir2: seq<Entry>, t: Tail, c: Cursor) {
    && TailAt(w, t, c) && Listed(w, dir, c.gen)
    && Grows(w, v) && TailAt(v, Opened(w, dir, t), c) && Listed(v, dir2, c.gen)
  }

  /** Position of the first pending inode that can still be opened. */
  function FirstReachable(w: World, dir: seq<Entry>, pending: seq<int>): (j: nat)
    ensures j <= |pending|
  {
    if pending == [] || AtPath(w, pending[0]) || InDir(Candidates(dir), pending[0]) then 0
    else 1 + FirstReachable(w, dir, pending[1..])
  }

  // ---------------------------------------------------------------------------------------------
  // Steps inside a poll, seen from the stream
  // ---------------------------------------------------------------------------------------------

  /** The tailer stands at `c`, and `lines` is what lies between `c0` and there. */
  ghost predicate Covers(v: World, c0: Cursor, t: Tail, c: Cursor, lines: seq<Line>) {
    && TailAt(v, t, c)
    && CursorLe(c0, c)
    && CursorOk(v, c0) && Before(v, c) == Before(v, c0) + lines
  }

  /** Reading on, in a file that has grown since the snapshot `w` that was read. */
  lemma SplitEarlier(w: World, v: World, k: nat, from: nat, max: int, to: nat, lines: seq<Line>)
    requires DistinctInodes(w) && DistinctInodes(v) && Grows(w, v) && k < |w.gens|
    requires from <= |w.gens[k].bytes|
    requires ReadSpec(BytesOf(w, v.gens[k].inode), v.gens[k].inode, from, max, to, lines)
    ensures from <= to <= |w.gens[k].bytes| <= |v.gens[k].bytes|
    ensures to == from || v.gens[k].bytes[to - 1] == NL
    ensures lines == Split(v.gens[k].bytes, v.gens[k].inode, from, to)
    ensures |lines| < max ==> NoNewline(w.gens[k].bytes, to, |w.gens[k].bytes|)
  {
    IndexOfUnique(w, k);
    var x, y := w.gens[k].bytes, v.gens[k].bytes;
    assert x <= y && x[..to] == y[..to];
    SplitSame(x, y, v.gens[k].inode, from, to);
  }

  lemma CoverRead(w: World, v: World, c0: Cursor, t: Tail, c: Cursor, lines: seq<Line>,
                  max: int, off: nat, more: seq<Line>)
    requires Covers(v, c0, t, c, lines) && t.open
    requires DistinctInodes(w) && Grows(w, v) && c.gen < |w.gens| && c.off <= |w.gens[c.gen].bytes|
    requires ReadSpec(BytesOf(w, t.inode), t.inode, c.off, max, off, more)
    ensures c.off <= off <= |w.gens[c.gen].bytes|
    ensures Covers(v, c0, t.(offset := off), Cursor(c.gen, off), lines + more)
    ensures |more| < max ==> NoNewline(w.gens[c.gen].bytes, off, |w.gens[c.gen].bytes|)
  {
    hide Before, Stream, Split, ReadSpec, BytesOf, DistinctInodes, Grows;
    SplitEarlier(w, v, c.gen, c.off, max, off, more);
    AdvanceWithin(v, c, off);
    Assoc(Before(v, c0), lines, more);
  }

  /** Just after the last newline of `s` from `from` on: where reading complete lines comes to rest. */
  function LastEnd(s: Bytes, from: nat): (e: nat)
    requires from <= |s|
    ensures from <= e <= |s| && (e == from || s[e - 1] == NL) && NoNewline(s, e, |s|)
  {
    LastEndIn(s, from, |s|)
  }

  function LastEndIn(s: Bytes, from: nat, j: nat): (e: nat)
    requires from <= j <= |s|
    ensures from <= e <= j && (e == from || s[e - 1] == NL) && NoNewline(s, e, j)
    decreases j
  {
    if j == from || s[j - 1] == NL then j else LastEndIn(s, from, j - 1)
  }

  /** The line a single `readline` from `off` on is turned into by `_drain_final_partial`. */
  function Drained(s: Bytes, inode: int, off: nat): seq<Line> {
    if off >= |s| then [] else
      var e := LineEnd(s, off, |s|);
      var k := StripEnd(s, off, e);
      if k == off then [] else [Line(s[off..k], inode, e)]
  }

  /** That single `readline` is enough: what is left is one line at most, and not a terminated blank one. */
  predicate OneReadLeft(s: Bytes, off: nat)
    requires off <= |s|
  {
    off == |s| ||
    var e := LineEnd(s, off, |s|);
    && (s[e - 1] == NL ==> StripEnd(s, off, e) > off)
    && LastEnd(s, e) == e && StripEnd(s, e, |s|) == e
  }

  lemma SplitNothing(s: Bytes, inode: int, e: nat)
    requires e <= |s|
    ensures Split(s, inode, e, |s|) == [] <==> LastEnd(s, e) == e && StripEnd(s, e, |s|) == e
  {
    if e < |s| {
      if LastEnd(s, e) == e {
        SplitTail(s, inode, e, |s|);
      } else {
        assert LineEnd(s, e, |s|) <= LastEnd(s, e);
        assert Piece(s, inode, e, LineEnd(s, e, |s|)) != [];
      }
    }
  }

  lemma DrainedExact(s: Bytes, inode: int, off: nat)
    requires off <= |s|
    ensures Drained(s, inode, off) == Split(s, inode, off, |s|) <==> OneReadLeft(s, off)
  {
    if off < |s| {
      SplitNothing(s, inode, LineEnd(s, off, |s|));
    }
  }

  /** While the path is found to be empty, whole lines have come in since the read that a single
      `readline` cannot pick up. */
  ghost predicate RaceLoses(w: World, v: World, o: Tail, c: Cursor, max: int)
    requires Grows(w, v) && CursorOk(w, c) && CursorOk(v, c)
  {
    o.open && c.gen < |w.gens| && !AtPathAny(v) &&
    var s := w.gens[c.gen].bytes;
    && |Split(s, o.inode, c.off, LastEnd(s, c.off))| < max
    && !OneReadLeft(v.gens[c.gen].bytes, LastEnd(s, c.off))
  }

  lemma NoRaceClosed(w: World, v: World, o: Tail, c: Cursor, max: int)
    requires Grows(w, v) && CursorOk(w, c) && CursorOk(v, c) && !o.open
    ensures !RaceLoses(w, v, o, c, max)
  {}

  lemma FirstReadEnds(s: Bytes, inode: int, from: nat, max: int, to: nat, lines: seq<Line>)
    requires from <= |s| && ReadSpec(s, inode, from, max, to, lines)
    ensures |lines| < max ==> to == LastEnd(s, from)
    ensures |lines| >= max ==> |Split(s, inode, from, LastEnd(s, from))| >= max
  {
    if |lines| >= max {
      SplitConcat(s, inode, from, to, LastEnd(s, from));
    }
  }

  /** Closing a file that has left the path, with nothing of it left to hand on. */
  lemma CoverClose(v: World, c0: Cursor, t: Tail, c: Cursor, lines: seq<Line>, last: seq<Line>, off: nat)
    requires Covers(v, c0, t, c, lines) && t.open && Sealed(v, c.gen)
    requires last == Split(v.gens[c.gen].bytes, t.inode, c.off, |v.gens[c.gen].bytes|)
    ensures Covers(v, c0, t.(open := false, offset := off), Cursor(c.gen + 1, 0), lines + last)
  {
    hide Before, Stream, Split, DistinctInodes;
    AdvanceWithin(v, c, |v.gens[c.gen].bytes|);
    AdvanceGen(v, c.gen);
    Assoc(Before(v, c0), lines, last);
  }

  /** Closing it after a `readline` that did not hand on all that was left. */
  lemma CloseLoses(v: World, c0: Cursor, t: Tail, c: Cursor, lines: seq<Line>, last: seq<Line>)
    requires Covers(v, c0, t, c, lines) && t.open && Sealed(v, c.gen)
    requires last != Split(v.gens[c.gen].bytes, t.inode, c.off, |v.gens[c.gen].bytes|)
    ensures CursorOk(v, Cursor(c.gen + 1, 0))
    ensures Before(v, Cursor(c.gen + 1, 0)) != Before(v, c0) + (lines + last)
  {
    hide Before, Stream, Split, DistinctInodes;
    var rest := Split(v.gens[c.gen].bytes, t.inode, c.off, |v.gens[c.gen].bytes|);
    AdvanceWithin(v, c, |v.gens[c.gen].bytes|);
    AdvanceGen(v, c.gen);
    Assoc(Before(v, c0), lines, last);
    Cancel(Before(v, c), rest, last);
  }

  /** What `_open_next` makes of a closed tailer, whatever the directory holds. */
  function OpenNextOf(w: World, dir: seq<Entry>, t: Tail): Tail {
    var j := FirstReachable(w, dir, t.pending);
    if j < |t.pending| then
      Tail(true, t.pending[j], 0, if AtPath(w, t.pending[j]) then [] else t.pending[j + 1..])
    else if AtPathAny(w) then
      Tail(true, w.gens[|w.gens| - 1].inode, 0, [])
    else
      t.(pending := [])
  }

  predicate AtPathAny(w: World) { w.live && w.gens != [] }

  /** The tailer once `poll` has made sure that a file is open, if it can. */
  function Opened(w: World, dir: seq<Entry>, t: Tail): Tail {
    if t.open then t else OpenNextOf(w, dir, t)
  }

  lemma NextReachable(w: World, dir: seq<Entry>, t: Tail, c: Cursor)
    requires TailAt(w, t, c) && !t.open && Listed(w, dir, c.gen) && t.pending != []
    ensures c.gen < |w.gens| && t.pending[0] == w.gens[c.gen].inode
    ensures FirstReachable(w, dir, t.pending) == 0
    ensures AtPath(w, t.pending[0]) ==> |t.pending| == 1 && c.gen == |w.gens| - 1
  {
    assert Sealed(w, c.gen) ==> InDir(Candidates(dir), w.gens[c.gen].inode);
  }

  /** With nothing lost from the directory, that is the generation owed first, else the path. */
  lemma OpenNextIs(w: World, dir: seq<Entry>, t: Tail, c: Cursor)
    requires TailAt(w, t, c) && !t.open && Listed(w, dir, c.gen)
    ensures OpenNextOf(w, dir, t) ==
            if t.pending != [] then Tail(true, t.pending[0], 0, t.pending[1..])
            else if AtPathAny(w) then Tail(true, w.gens[|w.gens| - 1].inode, 0, [])
            else t
  {
    hide TailAt, Listed, AtPath, FirstReachable;
    if t.pending != [] { NextReachable(w, dir, t, c); } else { NothingPending(w, dir); }
  }

  lemma NothingPending(w: World, dir: seq<Entry>)
    ensures FirstReachable(w, dir, []) == 0
  {}

  lemma OpenedStands(w: World, t: Tail, c: Cursor)
    requires TailAt(w, t, c) && !t.open
    ensures t.pending != [] ==> TailAt(w, Tail(true, t.pending[0], 0, t.pending[1..]), c)
    ensures t.pending == [] && AtPathAny(w) ==> TailAt(w, Tail(true, w.gens[|w.gens| - 1].inode, 0, []), c)
    ensures t.pending == [] && !AtPathAny(w) ==> c.gen == |w.gens|
  {
    hide DistinctInodes;
  }

  /** With nothing lost from the directory, the generation opened next is the next of the stream. */
  lemma CoverOpen(v: World, dir: seq<Entry>, c0: Cursor, t: Tail, c: Cursor, lines: seq<Line>)
    requires Covers(v, c0, t, c, lines) && !t.open && Listed(v, dir, c.gen)
    ensures Covers(v, c0, OpenNextOf(v, dir, t), c, lines)
    ensures !OpenNextOf(v, dir, t).open ==> c.gen == |v.gens|
  {
    hide Before, TailAt, Listed, OpenNextOf, CursorOk, CursorLe;
    OpenNextIs(v, dir, t, c);
    OpenedStands(v, t, c);
  }

  // ---------------------------------------------------------------------------------------------
  // Generations rotated away while the forwarder was stopped
  // ---------------------------------------------------------------------------------------------

  /** (mtime, inode) of every candidate written after `after`, except the two inodes named. */
  function LaterPairs(w: World, c: seq<Entry>, inode: int, path: Option<int>, after: int): seq<(int, int)> {
    if c == [] then [] else
      var ino := c[0].inode;
      (if ino != inode && path != Some(ino) && MtimeOf(w, ino) > after then [(MtimeOf(w, ino), ino)] else [])
      + LaterPairs(w, c[1..], inode, path, after)
  }

  predicate PairLe(a: (int, int), b: (int, int)) { a.0 < b.0 || (a.0 == b.0 && a.1 <= b.1) }

  function Insert(x: (int, int), s: seq<(int, int)>): seq<(int, int)> {
    if s == [] || PairLe(x, s[0]) then [x] + s else [s[0]] + Insert(x, s[1..])
  }

  function Sort(s: seq<(int, int)>): seq<(int, int)> {
    if s == [] then [] else Insert(s[0], Sort(s[1..]))
  }

  function Inodes(s: seq<(int, int)>): (r: seq<int>)
    ensures |r| == |s| && forall i :: 0 <= i < |s| ==> r[i] == s[i].1
  {
    if s == [] then [] else [s[0].1] + Inodes(s[1..])
  }

  ghost predicate StrictlySorted(s: seq<(int, int)>) {
    forall i, j :: 0 <= i < j < |s| ==> s[i].0 < s[j].0
  }

  ghost predicate DistinctTimes(s: seq<(int, int)>) {
    forall i, j :: 0 <= i < j < |s| ==> s[i].0 != s[j].0
  }

  lemma InsertSorted(x: (int, int), s: seq<(int, int)>)
    requires StrictlySorted(s) && forall i :: 0 <= i < |s| ==> s[i].0 != x.0
    ensures StrictlySorted(Insert(x, s))
    ensures forall p :: p in Insert(x, s) <==> p == x || p in s
  {
    if s != [] && !PairLe(x, s[0]) {
      var t := s[1..];
      InsertSorted(x, t);
      var r := Insert(x, t);
      forall i | 0 <= i < |r| ensures s[0].0 < r[i].0 {
        assert r[i] in r;
      }
      assert s == [s[0]] + t;
    }
  }

  lemma SortSorted(s: seq<(int, int)>)
    requires DistinctTimes(s)
    ensures StrictlySorted(Sort(s))
    ensures forall p :: p in Sort(s) <==> p in s
  {
    if s != [] {
      var t, r := s[1..], Sort(s[1..]);
      SortSorted(t);
      forall i | 0 <= i < |r| ensures r[i].0 != s[0].0 {
        assert r[i] in r;
      }
      InsertSorted(s[0], r);
      assert s == [s[0]] + t;
    }
  }

  /** Two listings in strict time order with the same members are the same. */
  lemma SortedUnique(a: seq<(int, int)>, b: seq<(int, int)>)
    requires StrictlySorted(a) && StrictlySorted(b)
    requires forall p :: p in a <==> p in b
    ensures a == b
  {
    assert a != [] ==> a[0] in b;
    assert b != [] ==> b[0] in a;
    if a != [] && b != [] {
      var a', b' := a[1..], b[1..];
      assert a == [a[0]] + a' && b == [b[0]] + b';
      forall p ensures p in a' <==> p in b' {
        assert p in a' ==> p in b && p.0 > a[0].0;
        assert p in b' ==> p in a && p.0 > b[0].0;
      }
      SortedUnique(a', b');
    }
  }

  /** (mtime, inode) of the generations from `i` up to `j`. */
  function GenPairs(w: World, i: nat, j: nat): (r: seq<(int, int)>)
    requires i <= j <= |w.gens|
    ensures |r| == j - i && forall n :: 0 <= n < j - i ==> r[n] == (w.gens[i + n].mtime, w.gens[i + n].inode)
    decreases j - i
  {
    if i == j then [] else [(w.gens[i].mtime, w.gens[i].inode)] + GenPairs(w, i + 1, j)
  }

  /** The candidate `ino` was written after generation `k`, and is neither it nor the file at the path. */
  predicate IsLater(w: World, ino: int, inode: int, path: Option<int>, after: int) {
    ino != inode && path != Some(ino) && MtimeOf(w, ino) > after
  }

  lemma LaterPairsIn(w: World, c: seq<Entry>, inode: int, path: Option<int>, after: int, p: (int, int))
    ensures p in LaterPairs(w, c, inode, path, after)
            <==> InDir(c, p.1) && IsLater(w, p.1, inode, path, after) && p.0 == MtimeOf(w, p.1)
  {
    if c != [] {
      LaterPairsIn(w, c[1..], inode, path, after, p);
      assert InDir(c, p.1) <==> c[0].inode == p.1 || InDir(c[1..], p.1) by {
        if InDir(c[1..], p.1) {
          var i :| 0 <= i < |c[1..]| && c[1..][i].inode == p.1;
          assert c[i + 1].inode == p.1;
        }
        if InDir(c, p.1) && c[0].inode != p.1 {
          var i :| 0 <= i < |c| && c[i].inode == p.1;
          assert c[1..][i - 1].inode == p.1;
        }
      }
    }
  }

  lemma MtimesDiffer(w: World, a: nat, b: nat)
    requires MtimesOrdered(w) && a < RotatedEnd(w) && b < RotatedEnd(w) && a != b
    ensures w.gens[a].mtime != w.gens[b].mtime
  {
    if a < b { assert w.gens[a].mtime < w.gens[b].mtime; } else { assert w.gens[b].mtime < w.gens[a].mtime; }
  }

  lemma MtimeIs(w: World, ino: int)
    ensures var k := IndexOf(w.gens, ino);
            k < |w.gens| ==> w.gens[k].inode == ino && MtimeOf(w, ino) == w.gens[k].mtime
  {}

  lemma LaterDistinct(w: World, c: seq<Entry>, inode: int, path: Option<int>, after: int)
    requires DistinctInodes(w) && MtimesOrdered(w)
    requires forall i :: 0 <= i < |c| && MtimeOf(w, c[i].inode) > after ==> IndexOf(w.gens, c[i].inode) < RotatedEnd(w)
    requires forall i, j :: 0 <= i < j < |c| ==> c[i].inode != c[j].inode
    ensures DistinctTimes(LaterPairs(w, c, inode, path, after))
  {
    hide MtimeOf, IndexOf, MtimesOrdered, DistinctInodes;
    if c != [] {
      var s := LaterPairs(w, c[1..], inode, path, after);
      LaterDistinct(w, c[1..], inode, path, after);
      assert forall i :: 0 <= i < |c[1..]| ==> c[1..][i] == c[i + 1];
      forall i | 0 <= i < |s| && MtimeOf(w, c[0].inode) > after ensures s[i].0 != MtimeOf(w, c[0].inode) {
        LaterPairsIn(w, c[1..], inode, path, after, s[i]);
        var n :| 0 <= n < |c[1..]| && c[1..][n].inode == s[i].1;
        assert c[n + 1].inode == s[i].1;
        var a, b := IndexOf(w.gens, c[0].inode), IndexOf(w.gens, s[i].1);
        MtimeIs(w, c[0].inode);
        MtimeIs(w, s[i].1);
        MtimesDiffer(w, a, b);
      }
    }
  }

  lemma LaterIsBetween(w: World, dir: seq<Entry>, k: nat, ino: int)
    requires Listed(w, dir, k) && MtimesOrdered(w) && k < RotatedEnd(w) && !Foreign(w, ino)
    requires InDir(Candidates(dir), ino) && IsLater(w, ino, w.gens[k].inode, PathInode(w), w.gens[k].mtime)
    ensures k < IndexOf(w.gens, ino) < RotatedEnd(w)
  {
    var c := Candidates(dir);
    var i :| 0 <= i < |c| && c[i].inode == ino;
    var j := IndexOf(w.gens, ino);
  }

  lemma BetweenIsLater(w: World, dir: seq<Entry>, k: nat, j: nat)
    requires Listed(w, dir, k) && MtimesOrdered(w) && k < j < RotatedEnd(w)
    ensures var ino := w.gens[j].inode;
            && IndexOf(w.gens, ino) == j
            && InDir(Candidates(dir), ino)
            && IsLater(w, ino, w.gens[k].inode, PathInode(w), w.gens[k].mtime)
  {
    IndexOfUnique(w, j);
  }

  lemma GenPairsIn(w: World, i: nat, j: nat, k: nat)
    requires i <= k < j <= |w.gens|
    ensures (w.gens[k].mtime, w.gens[k].inode) in GenPairs(w, i, j)
  {
    assert GenPairs(w, i, j)[k - i] == (w.gens[k].mtime, w.gens[k].inode);
  }

  lemma InGenPairs(w: World, i: nat, j: nat, p: (int, int)) returns (k: nat)
    requires i <= j <= |w.gens| && p in GenPairs(w, i, j)
    ensures i <= k < j && p == (w.gens[k].mtime, w.gens[k].inode)
  {
    var g := GenPairs(w, i, j);
    var n :| 0 <= n < |g| && g[n] == p;
    k := i + n;
  }

  lemma LaterMembers(w: World, dir: seq<Entry>, k: nat, p: (int, int))
    requires Listed(w, dir, k) && MtimesOrdered(w) && k < RotatedEnd(w) && !ForeignLater(w, dir, k)
    ensures InDir(Candidates(dir), p.1) && IsLater(w, p.1, w.gens[k].inode, PathInode(w), w.gens[k].mtime)
              && p.0 == MtimeOf(w, p.1)
            <==> p in GenPairs(w, k + 1, RotatedEnd(w))
  {
    if p in GenPairs(w, k + 1, RotatedEnd(w)) {
      var j := InGenPairs(w, k + 1, RotatedEnd(w), p);
      BetweenIsLater(w, dir, k, j);
    } else if InDir(Candidates(dir), p.1)
              && IsLater(w, p.1, w.gens[k].inode, PathInode(w), w.gens[k].mtime) && p.0 == MtimeOf(w, p.1) {
      LaterIsBetween(w, dir, k, p.1);
      GenPairsIn(w, k + 1, RotatedEnd(w), IndexOf(w.gens, p.1));
    }
  }

  /** Sorting the later candidates by mtime lists exactly the generations between the saved file and the
      path, oldest first, if and only if no other file that matches the search is newer than the saved one:
      such a file is taken for a generation. */
  lemma LaterExact(w: World, dir: seq<Entry>, k: nat)
    requires Listed(w, dir, k) && MtimesOrdered(w) && k < RotatedEnd(w)
    ensures Sort(LaterPairs(w, Candidates(dir), w.gens[k].inode, PathInode(w), w.gens[k].mtime))
            == GenPairs(w, k + 1, RotatedEnd(w))
            <==> !ForeignLater(w, dir, k)
  {
    if ForeignLater(w, dir, k) {
      ForeignIsOwed(w, dir, k);
    } else {
      LaterIsExact(w, dir, k);
    }
  }

  lemma ForeignIsOwed(w: World, dir: seq<Entry>, k: nat)
    requires k < RotatedEnd(w) && ForeignLater(w, dir, k)
    ensures Sort(LaterPairs(w, Candidates(dir), w.gens[k].inode, PathInode(w), w.gens[k].mtime))
            != GenPairs(w, k + 1, RotatedEnd(w))
  {
    var c, ino, path, after := Candidates(dir), w.gens[k].inode, PathInode(w), w.gens[k].mtime;
    var s, g := LaterPairs(w, c, ino, path, after), GenPairs(w, k + 1, RotatedEnd(w));
    var x :| InDir(c, x) && Foreign(w, x) && MtimeOf(w, x) > after;
    var p := (MtimeOf(w, x), x);
    LaterPairsIn(w, c, ino, path, after, p);
    SortMembers(s, p);
    if p in g {
      var j := InGenPairs(w, k + 1, RotatedEnd(w), p);
    }
  }

  lemma {:induction false} SortMembers(s: seq<(int, int)>, p: (int, int))
    ensures p in Sort(s) <==> p in s
  {
    if s != [] {
      SortMembers(s[1..], p);
      InsertMembers(s[0], Sort(s[1..]), p);
      assert s == [s[0]] + s[1..];
    }
  }

  lemma {:induction false} InsertMembers(x: (int, int), s: seq<(int, int)>, p: (int, int))
    ensures p in Insert(x, s) <==> p == x || p in s
  {
    if s != [] && !PairLe(x, s[0]) {
      InsertMembers(x, s[1..], p);
      assert s == [s[0]] + s[1..];
    }
  }

  lemma LaterIsExact(w: World, dir: seq<Entry>, k: nat)
    requires Listed(w, dir, k) && MtimesOrdered(w) && k < RotatedEnd(w) && !ForeignLater(w, dir, k)
    ensures Sort(LaterPairs(w, Candidates(dir), w.gens[k].inode, PathInode(w), w.gens[k].mtime))
            == GenPairs(w, k + 1, RotatedEnd(w))
  {
    var c, ino, path, after := Candidates(dir), w.gens[k].inode, PathInode(w), w.gens[k].mtime;
    var s, g := LaterPairs(w, c, ino, path, after), GenPairs(w, k + 1, RotatedEnd(w));
    forall i | 0 <= i < |c| && MtimeOf(w, c[i].inode) > after ensures IndexOf(w.gens, c[i].inode) < RotatedEnd(w) {
      assert InDir(c, c[i].inode) && !Foreign(w, c[i].inode);
    }
    forall p ensures p in s <==> p in g {
      LaterPairsIn(w, c, ino, path, after, p);
      LaterMembers(w, dir, k, p);
    }
    GenPairsSorted(w, k + 1, RotatedEnd(w));
    LaterDistinct(w, c, ino, path, after);
    SortSorted(s);
    SortedUnique(Sort(s), g);
  }

  lemma GenPairsSorted(w: World, i: nat, j: nat)
    requires MtimesOrdered(w) && i <= j <= RotatedEnd(w)
    ensures StrictlySorted(GenPairs(w, i, j))
  {}

  /** The inodes still to read after the saved file `inode`, when `path` is the file at the path. */
  function Owed(w: World, dir: seq<Entry>, inode: int, path: Option<int>): seq<int> {
    Inodes(Sort(LaterPairs(w, Candidates(dir), inode, path, MtimeOf(w, inode))))
    + if path.Some? then [path.value] else []
  }

  lemma OwedExact(w: World, dir: seq<Entry>, k: nat)
    requires Listed(w, dir, k) && MtimesOrdered(w) && k < RotatedEnd(w) && !ForeignLater(w, dir, k)
    ensures Owes(w, Owed(w, dir, w.gens[k].inode, PathInode(w)), k + 1)
  {
    hide MtimesOrdered, LaterPairs, Sort, ForeignLater;
    IndexOfUnique(w, k);
    LaterIsExact(w, dir, k);
  }

  // ---------------------------------------------------------------------------------------------
  // The tailer
  // ---------------------------------------------------------------------------------------------

  /** What a restart does when the saved file is nowhere to be found, or nothing was saved. */
  function FreshTail(w: World, fromEnd: bool): Tail {
    if AtPathAny(w) then
      var g := w.gens[|w.gens| - 1];
      Tail(true, g.inode, if fromEnd then |g.bytes| else 0, [])
    else
      Tail(false, -1, 0, [])
  }

  function FreshCursor(w: World, fromEnd: bool): Cursor {
    if AtPathAny(w) then Cursor(|w.gens| - 1, FreshTail(w, fromEnd).offset) else Cursor(|w.gens|, 0)
  }

  /** The saved position can be picked up again. */
  ghost predicate Recoverable(w: World, dir: seq<Entry>, p: Position) {
    var k := IndexOf(w.gens, p.inode);
    k < |w.gens| && Boundary(w, Cursor(k, p.offset)) && StartEnv(w, dir, k)
  }

  /** What a start relies on from generation `k` on: nothing has been lost from the directory, later
      generations have later times, and no newer file passes for one. */
  ghost predicate StartEnv(w: World, dir: seq<Entry>, k: nat) {
    Listed(w, dir, k) && MtimesOrdered(w) && (k < |w.gens| ==> !ForeignLater(w, dir, k))
  }

  /** The first open, whatever the directory holds: the saved position if its file is at the path or under
      a rotated name and the position passes the boundary test, else the path. */
  function StartOf(w: World, dir: seq<Entry>, fromEnd: bool, saved: Option<Position>): Tail {
    match saved
    case None => FreshTail(w, fromEnd)
    case Some(p) =>
      if !AtLineBoundary(BytesOf(w, p.inode), p.offset) then FreshTail(w, false)
      else if AtPath(w, p.inode) then Tail(true, p.inode, p.offset, [])
      else if InDir(Candidates(dir), p.inode) then Tail(true, p.inode, p.offset, Owed(w, dir, p.inode, PathInode(w)))
      else FreshTail(w, false)
  }

  /** In plain terms: a position is taken up only if it is 0, the end of the file, or just behind a newline;
      else, if the saved file is at the path, that is read from its beginning. */
  lemma StartMeans(w: World, dir: seq<Entry>, fromEnd: bool, p: Position)
    requires DistinctInodes(w)
    ensures var t, s := StartOf(w, dir, fromEnd, Some(p)), BytesOf(w, p.inode);
            var good := p.offset == 0 || p.offset == |s| || (p.offset < |s| && s[p.offset - 1] == 10);
            && (t.open && t.inode == p.inode && t.offset == p.offset ==> good)
            && (w.live && w.gens != [] && w.gens[|w.gens| - 1].inode == p.inode ==>
                  s == w.gens[|w.gens| - 1].bytes && t == Tail(true, p.inode, if good then p.offset else 0, []))
            && (!(w.live && w.gens != [] && w.gens[|w.gens| - 1].inode == p.inode) ==>
                  if good && Readable(dir, p.inode) then t.open && t.inode == p.inode && t.offset == p.offset
                  else if w.live && w.gens != [] then t == Tail(true, w.gens[|w.gens| - 1].inode, 0, [])
                  else !t.open && t.pending == [])
  {
    hide Owed, IndexOf, Candidates, InDir, Readable;
    CandidatesExact(dir, p.inode);
    PathBytes(w);
  }

  lemma PathBytes(w: World)
    requires DistinctInodes(w)
    ensures w.live && w.gens != [] ==> BytesOf(w, w.gens[|w.gens| - 1].inode) == w.gens[|w.gens| - 1].bytes
  {
    if w.gens != [] { IndexOfUnique(w, |w.gens| - 1); }
  }

  /** Where in the stream that is. */
  ghost function StartCursor(w: World, dir: seq<Entry>, fromEnd: bool, saved: Option<Position>): Cursor {
    match saved
    case None => FreshCursor(w, fromEnd)
    case Some(p) =>
      if StartOf(w, dir, fromEnd, saved).open
         && AtLineBoundary(BytesOf(w, p.inode), p.offset) && (AtPath(w, p.inode) || InDir(Candidates(dir), p.inode))
      then Cursor(IndexOf(w.gens, p.inode), p.offset) else FreshCursor(w, false)
  }

  /** A position that a previous run could have committed is resumed exactly, and everything rotated since
      is owed. */
  lemma StartStands(w: World, dir: seq<Entry>, fromEnd: bool, p: Position)
    requires Recoverable(w, dir, p)
    ensures var t := StartOf(w, dir, fromEnd, Some(p));
            && t.open && t.inode == p.inode && t.offset == p.offset
            && StartCursor(w, dir, fromEnd, Some(p)) == Cursor(IndexOf(w.gens, p.inode), p.offset)
            && TailAt(w, t, StartCursor(w, dir, fromEnd, Some(p)))
  {
    hide Boundary, Listed, MtimesOrdered, Owed, ForeignLater;
    RecoverRotated(w, dir, p);
    if AtPath(w, p.inode) { RecoverAtPath(w, dir, p); }
  }

  /** The saved file is still at the path: pick it up there. */
  lemma RecoverAtPath(w: World, dir: seq<Entry>, p: Position)
    requires Recoverable(w, dir, p) && AtPath(w, p.inode)
    ensures TailAt(w, Tail(true, p.inode, p.offset, []), Cursor(IndexOf(w.gens, p.inode), p.offset))
  {
    hide Before;
    IndexOfUnique(w, |w.gens| - 1);
  }

  /** The saved file has been rotated away, perhaps several times: everything since is owed. */
  lemma RecoverRotated(w: World, dir: seq<Entry>, p: Position)
    requires Recoverable(w, dir, p)
    ensures AtLineBoundary(BytesOf(w, p.inode), p.offset)
    ensures !AtPath(w, p.inode) ==>
              && InDir(Candidates(dir), p.inode)
              && TailAt(w, Tail(true, p.inode, p.offset, Owed(w, dir, p.inode, PathInode(w))),
                        Cursor(IndexOf(w.gens, p.inode), p.offset))
  {
    hide Before, Owed, ForeignLater, MtimesOrdered, Owes, DistinctInodes;
    var k := IndexOf(w.gens, p.inode);
    if !AtPath(w, p.inode) {
      assert k < RotatedEnd(w) && Sealed(w, k);
      OwedExact(w, dir, k);
    }
  }

  lemma StartCovers(v: World, t: Tail, c: Cursor)
    requires TailAt(v, t, c)
    ensures Covers(v, c, t, c, [])
  {}

  lemma InFile(w: World, t: Tail, c: Cursor)
    requires TailAt(w, t, c) && t.open
    ensures c.gen < |w.gens| && t.inode == w.gens[c.gen].inode && t.offset == c.off <= |w.gens[c.gen].bytes|
  {}

  lemma NothingRead(s: Bytes, inode: int, from: nat, max: int, to: nat, lines: seq<Line>)
    requires ReadSpec(s, inode, from, max, to, lines)
    ensures from >= |s| ==> to == from && lines == []
  {}

  /** The path still names the open file: it was the live one all along, and has not shrunk. */
  lemma SameFile(w: World, v: World, t: Tail, c: Cursor)
    requires TailAt(v, t, c) && t.open && Grows(w, v) && c.gen < |w.gens|
    requires AtPathAny(v) && v.gens[|v.gens| - 1].inode == t.inode
    ensures c.gen == |w.gens| - 1 && w.live && |BytesOf(v, t.inode)| >= t.offset
  {
    hide Before;
    IndexOfUnique(v, c.gen);
    assert c.gen == |v.gens| - 1;
    assert !Sealed(w, c.gen);
  }

  lemma ListedLater(w: World, dir: seq<Entry>, k: nat)
    requires Listed(w, dir, k)
    ensures Listed(w, dir, k + 1)
  {}

  /** The first read of a poll, on the earlier snapshot. */
  lemma FirstRead(w: World, v: World, t: Tail, c: Cursor, max: int, off: nat, lines: seq<Line>)
    requires Covers(v, c, t, c, []) && t.open && max > 0
    requires DistinctInodes(w) && Grows(w, v) && c.gen < |w.gens| && c.off <= |w.gens[c.gen].bytes|
    requires ReadSpec(BytesOf(w, t.inode), t.inode, c.off, max, off, lines)
    ensures c.off <= off <= |w.gens[c.gen].bytes| <= |v.gens[c.gen].bytes|
    ensures Covers(v, c, t.(offset := off), Cursor(c.gen, off), lines)
    ensures |lines| < max ==> NoNewline(w.gens[c.gen].bytes, off, |w.gens[c.gen].bytes|)
    ensures RaceLoses(w, v, t, c, max) <==>
              |lines| < max && !AtPathAny(v) && !OneReadLeft(v.gens[c.gen].bytes, off)
  {
    hide Before, Stream, Split, DistinctInodes;
    CoverRead(w, v, c, t, c, [], max, off, lines);
    assert [] + lines == lines;
    IndexOfUnique(w, c.gen);
    FirstReadEnds(w.gens[c.gen].bytes, t.inode, c.off, max, off, lines);
  }

  /** The end of a rotated file: the last `readline` hands on all that is left. */
  lemma EndOfFile(v: World, c0: Cursor, t: Tail, c: Cursor, lines: seq<Line>, last: seq<Line>, off: nat)
    requires Covers(v, c0, t, c, lines) && t.open && Sealed(v, c.gen)
    requires NoNewline(v.gens[c.gen].bytes, c.off, |v.gens[c.gen].bytes|)
    requires last == Drained(BytesOf(v, t.inode), t.inode, c.off)
    ensures Covers(v, c0, t.(open := false, offset := off), Cursor(c.gen + 1, 0), lines + last)
  {
    hide Before, Stream, DistinctInodes;
    var s := v.gens[c.gen].bytes;
    IndexOfUnique(v, c.gen);
    if c.off < |s| { SplitTail(s, t.inode, c.off, |s|); }
    CoverClose(v, c0, t, c, lines, last, off);
  }

  class FileTail {
    var open: bool
    var inode: int
    var offset: nat
    var pending: seq<int>
    ghost var cur: Cursor  // where in the stream this tailer stands

    function State(): Tail reads this { Tail(open, inode, offset, pending) }

    /** First open: honour the saved position, else start at the end or the beginning. */
    constructor (w: World, dir: seq<Entry>, fromEnd: bool, saved: Option<Position>)
      requires DistinctInodes(w)
      ensures State() == StartOf(w, dir, fromEnd, saved) && cur == StartCursor(w, dir, fromEnd, saved)
      // the saved position is taken up only if it is 0, the end of the file, or just behind a newline
      ensures saved.Some? && open && inode == saved.value.inode && offset == saved.value.offset ==>
                var s := BytesOf(w, inode);
                offset == 0 || offset == |s| || (offset < |s| && s[offset - 1] == 10)
      // with the saved file at the path, that is also enough; if it fails, the file is read from its beginning
      ensures saved.Some? && w.live && w.gens != [] && w.gens[|w.gens| - 1].inode == saved.value.inode ==>
                var s, off := w.gens[|w.gens| - 1].bytes, saved.value.offset;
                && open && inode == saved.value.inode && pending == []
                && offset == if off == 0 || off == |s| || (off < |s| && s[off - 1] == 10) then off else 0
      // else it is looked for under the names without one of five endings, and failing that the path is read
      ensures saved.Some? && !(w.live && w.gens != [] && w.gens[|w.gens| - 1].inode == saved.value.inode) ==>
                var s, off := BytesOf(w, saved.value.inode), saved.value.offset;
                if (off == 0 || off == |s| || (off < |s| && s[off - 1] == 10))
                   && Readable(dir, saved.value.inode)
                then open && inode == saved.value.inode && offset == off
                else if w.live && w.gens != [] then
                  open && inode == w.gens[|w.gens| - 1].inode && offset == 0 && pending == []
                else !open && pending == []
      ensures saved.None? ==>
                && open == (w.live && w.gens != []) && pending == []
                && (open ==> var g := w.gens[|w.gens| - 1];
                             inode == g.inode && offset == if fromEnd then |g.bytes| else 0)
    {
      open, inode, offset, pending, cur := false, -1, 0, [], StartCursor(w, dir, fromEnd, saved);
      new;
      PathBytes(w);
      hide Owed, DistinctInodes, IndexOf, Readable, Candidates, InDir, StartCursor, BytesOf;
      if saved.Some? { StartMeans(w, dir, fromEnd, saved.value); }
      var isOpen := OpenPath(w);
      match saved
      case None =>
        if isOpen && fromEnd { offset := |BytesOf(w, inode)|; }
      case Some(p) =>
        if isOpen && inode == p.inode && AtLineBoundary(BytesOf(w, inode), p.offset) {
          offset := p.offset;
          return;
        }
        var found := FindRotated(w, dir, p.inode, p.offset);
        if found {
          pending := Owed(w, dir, p.inode, if isOpen then Some(inode) else None);
          open, inode, offset := true, p.inode, p.offset;
        }
    }

    /** Up to `max` new lines. The first read sees the snapshot `w`; by the time the path is compared
        with the open handle the files may have grown, and been rotated, to `v`. If the path cannot be
        looked at (`statFails`) the poll ends with what it has read. */
    method Poll(w: World, dir: seq<Entry>, v: World, dir2: seq<Entry>, max: int, statFails: bool)
        returns (lines: seq<Line>)
      modifies this
      ensures |lines| <= if max > 0 then max else 0
      ensures max > 0 && !statFails && old(PollEnv(w, dir, v, dir2, State(), cur)) ==>
                var o := Opened(w, dir, old(State()));
                (!RaceLoses(w, v, o, old(cur), max) <==> PollSpec(w, v, old(cur), max, State(), cur, lines))
      ensures max > 0 && statFails && old(PollEnv(w, dir, v, dir2, State(), cur)) ==>
                HandsOn(v, old(cur), max, State(), cur, lines)
      // copytruncate: the file shrank under the handle, so it is read again from the start
      ensures max > 0 && !statFails && old(open) && AtPath(v, old(inode)) && |BytesOf(w, old(inode))| <= old(offset)
              && |BytesOf(v, old(inode))| < old(offset) ==>
                && ReadSpec(BytesOf(v, old(inode)), old(inode), 0, max, offset, lines)
                && State() == old(State()).(offset := offset)
    {
      hide Before, Stream, Split, LineEnd, Listed, Boundary, DistinctInodes, Owes, ReadSpec, IndexOf,
           OpenNextOf, LastEnd, OneReadLeft, Grows, RaceLoses, BytesOf;
      ghost var env := max > 0 && PollEnv(w, dir, v, dir2, State(), cur);
      ghost var c := cur;
      lines := [];
      if !open {
        if env { StartCovers(w, State(), c); CoverOpen(w, dir, c, State(), c, []); }
        var ok := OpenNext(w, dir);
        if !ok {
          if env { StartCovers(v, State(), c); NoRaceClosed(w, v, State(), c, max); }
          return;
        }
      }
      ghost var o := State();
      lines := ReadLines(w, max);
      if env {
        InFile(w, o, c);
        StartCovers(v, o, c);
        FirstRead(w, v, o, c, max, offset, lines);
        cur := Cursor(c.gen, offset);
      }
      NothingRead(BytesOf(w, inode), inode, o.offset, max, offset, lines);
      if |lines| >= max || statFails { return; }

      if !AtPathAny(v) {
        var last := CloseGone(v, c, lines);
        lines := lines + last;
        return;
      }
      if v.gens[|v.gens| - 1].inode != inode {
        var more := NextGeneration(v, dir2, max, c, lines);
        lines := lines + more;
      } else if |BytesOf(v, inode)| < offset {
        if env { SameFile(w, v, State(), cur); }
        offset := 0;
        var more := ReadLines(v, max - |lines|);
        EmptySum(lines, more);
        lines := lines + more;
      } else if env {
        SameFile(w, v, State(), cur);
      }
    }

    /** The deleted branch of `poll`: one more `readline`, then close. */
    method CloseGone(v: World, ghost c0: Cursor, ghost sofar: seq<Line>) returns (last: seq<Line>)
      requires open
      modifies this
      ensures |last| <= 1
      ensures old(Covers(v, c0, State(), cur, sofar)) && !AtPathAny(v) ==>
                && !open && cur == Cursor(old(cur.gen) + 1, 0)
                && (OneReadLeft(v.gens[old(cur.gen)].bytes, old(cur.off)) <==>
                    Covers(v, c0, State(), cur, sofar + last))
    {
      hide Before, Stream, Split, LineEnd, Listed, DistinctInodes, Owes, ReadSpec, Drained, OneReadLeft;
      ghost var t, c := State(), cur;
      last := DrainFinalPartial(v);
      open := false;
      if Covers(v, c0, t, c, sofar) && !AtPathAny(v) {
        cur := Cursor(c.gen + 1, 0);
        IndexOfUnique(v, c.gen);
        DrainedExact(v.gens[c.gen].bytes, t.inode, c.off);
        if OneReadLeft(v.gens[c.gen].bytes, c.off) {
          CoverClose(v, c0, t, c, sofar, last, offset);
        } else {
          CloseLoses(v, c0, t, c, sofar, last);
        }
      }
    }

    /** The rotated branch of `poll`: finish the old file, then go on to the next generation owed. */
    method NextGeneration(v: World, dir: seq<Entry>, max: int, ghost c0: Cursor, sofar: seq<Line>)
        returns (more: seq<Line>)
      requires open && |sofar| < max && AtPathAny(v)
      modifies this
      ensures |sofar| + |more| <= max
      ensures old(Covers(v, c0, State(), cur, sofar)) && Listed(v, dir, old(cur.gen))
              && v.gens[|v.gens| - 1].inode != old(inode) ==>
                && Covers(v, c0, State(), cur, sofar + more)
                && (|sofar + more| < max ==> cur.gen > old(cur.gen))
    {
      hide Before, Stream, Split, LineEnd, Listed, DistinctInodes, Owes, ReadSpec, Drained, OpenNextOf;
      ghost var c := cur;
      ghost var env := Covers(v, c0, State(), cur, sofar) && Listed(v, dir, cur.gen)
                       && v.gens[|v.gens| - 1].inode != inode;
      more := ReadRest(v, max, c0, sofar);
      if |sofar| + |more| >= max { return; }
      ghost var u, d := State(), cur;
      var last := DrainFinalPartial(v);
      open := false;
      if env {
        EndOfFile(v, c0, u, d, sofar + more, last, offset);
        cur := Cursor(c.gen + 1, 0);
        Assoc(sofar, more, last);
        ListedLater(v, dir, c.gen);
      }
      more := more + last;
      if env { CoverOpen(v, dir, c0, State(), cur, sofar + more); }
      var ok := OpenNext(v, dir);
      if ok {
        var first := ReadRest(v, max, c0, sofar + more);
        Assoc(sofar, more, first);
        more := more + first;
      }
    }

    /** Read on in the open file, keeping within `max` lines altogether. */
    method ReadRest(v: World, max: int, ghost c0: Cursor, sofar: seq<Line>) returns (more: seq<Line>)
      requires open && |sofar| <= max
      modifies this`offset, this`cur
      ensures |sofar| + |more| <= max
      ensures cur.gen == old(cur.gen)
      ensures old(Covers(v, c0, State(), cur, sofar)) ==>
                && Covers(v, c0, State(), cur, sofar + more)
                && (|sofar| + |more| < max ==>
                      NoNewline(v.gens[cur.gen].bytes, cur.off, |v.gens[cur.gen].bytes|))
    {
      hide Before, Stream, Split, LineEnd, ReadSpec, DistinctInodes, Owes;
      ghost var u, c := State(), cur;
      more := ReadLines(v, max - |sofar|);
      if Covers(v, c0, u, c, sofar) {
        CoverRead(v, v, c0, u, c, sofar, max - |sofar|, offset, more);
        cur := Cursor(c.gen, offset);
      }
    }

    /** `_open` */
    method OpenPath(w: World) returns (ok: bool)
      requires !open
      modifies this
      ensures ok == AtPathAny(w)
      ensures State() == if ok then Tail(true, w.gens[|w.gens| - 1].inode, 0, old(pending)) else old(State())
      ensures cur == old(cur)
    {
      ok := AtPathAny(w);
      if ok {
        open, inode, offset := true, w.gens[|w.gens| - 1].inode, 0;
      }
    }

    /** `_find_rotated`: the search by inode among the rotated siblings. */
    method FindRotated(w: World, dir: seq<Entry>, ino: int, off: nat) returns (found: bool)
      ensures found <==> InDir(Candidates(dir), ino) && AtLineBoundary(BytesOf(w, ino), off)
      // a name without one of five endings, and a position that is 0, the end, or just behind a newline
      ensures found <==>
                && Readable(dir, ino)
                && var s := BytesOf(w, ino);
                   off == 0 || off == |s| || (off < |s| && s[off - 1] == 10)
    {
      hide Candidates, BytesOf, Readable;
      CandidatesExact(dir, ino);
      var c := Candidates(dir);
      for i := 0 to |c|
        invariant InDir(c[..i], ino) ==> !AtLineBoundary(BytesOf(w, ino), off)
      {
        if c[i].inode == ino {
          assert InDir(c, ino);
          if AtLineBoundary(BytesOf(w, ino), off) { return true; }
        }
      }
      assert c[..|c|] == c;
      found := false;
    }

    /** `_open_next`: the oldest generation still owed, else the path itself. */
    method OpenNext(w: World, dir: seq<Entry>) returns (ok: bool)
      requires !open
      modifies this
      ensures State() == OpenNextOf(w, dir, old(State())) && ok == open && cur == old(cur)
    {
      ghost var i := 0;
      while pending != []
        invariant i <= |old(pending)| && pending == old(pending)[i..]
        invariant FirstReachable(w, dir, old(pending)) == i + FirstReachable(w, dir, pending)
        invariant State() == old(State()).(pending := pending) && cur == old(cur)
        decreases |pending|
      {
        var ino := pending[0];
        pending := pending[1..];
        i := i + 1;
        if AtPath(w, ino) {
          pending := [];
          ok := OpenPath(w);
          return;
        }
        var found := FindRotated(w, dir, ino, 0);
        if found {
          open, inode, offset := true, ino, 0;
          return true;
        }
      }
      ok := OpenPath(w);
    }

    /** `_read_lines`: complete lines from the current position, at most `max`. */
    method ReadLines(w: World, max: int) returns (lines: seq<Line>)
      modifies this`offset
      ensures |lines| <= if max > 0 then max else 0
      ensures ReadSpec(BytesOf(w, inode), inode, old(offset), max, offset, lines)
    {
      hide Split, LineEnd;
      var s := BytesOf(w, inode);
      SplitStart(s, inode, offset);
      lines := [];
      if offset > |s| { return; }
      while |lines| < max
        invariant |lines| <= if max > 0 then max else 0
        invariant old(offset) <= offset <= |s|
        invariant lines == Split(s, inode, old(offset), offset)
        invariant old(offset) == offset || s[offset - 1] == NL
        decreases |s| - offset
      {
        var e := ReadLine(s, offset);
        if e == offset || s[e - 1] != NL { break; }
        OneMore(s, inode, old(offset), offset, e);
        lines := lines + [Line(s[offset..StripEnd(s, offset, e)], inode, e)];
        offset := e;
      }
    }

    /** `_drain_final_partial`: one more readline, for a file that is gone. */
    method DrainFinalPartial(w: World) returns (lines: seq<Line>)
      modifies this`offset
      ensures lines == Drained(BytesOf(w, inode), inode, old(offset)) && |lines| <= 1
      ensures var s := BytesOf(w, inode);
              offset == if old(offset) >= |s| then old(offset) else LineEnd(s, old(offset), |s|)
    {
      var s := BytesOf(w, inode);
      if offset >= |s| { return []; }
      var e := LineEnd(s, offset, |s|);
      var k := StripEnd(s, offset, e);
      lines := if k == offset then [] else [Line(s[offset..k], inode, e)];
      offset := e;
    }
  }

  /** `readline` from byte `from` of a file that holds `s`: where it stops. */
  method ReadLine(s: Bytes, from: nat) returns (e: nat)
    requires from <= |s|
    ensures from <= e <= |s| && (e == from <==> from == |s|)
    ensures from < e ==> NoNewline(s, from, e - 1) && (s[e - 1] == NL || e == |s|)
  {
    e := if from == |s| then from else LineEnd(s, from, |s|);
  }

  lemma SplitStart(s: Bytes, inode: int, i: nat)
    ensures i <= |s| ==> Split(s, inode, i, i) == []
  {}

  lemma OneMore(s: Bytes, inode: int, from: nat, at: nat, e: nat)
    requires from <= at < e <= |s| && NoNewline(s, at, e - 1) && s[e - 1] == NL
    requires from == at || s[at - 1] == NL
    ensures Split(s, inode, from, e)
            == Split(s, inode, from, at) + [Line(s[at..StripEnd(s, at, e)], inode, e)]
  {
    SplitConcat(s, inode, from, at, e);
    SplitTail(s, inode, at, e);
    assert Piece(s, inode, at, e) == [Line(s[at..StripEnd(s, at, e)], inode, e)];
  }

  /** The effect of reading on in a file that holds `s`. */
  ghost predicate ReadSpec(s: Bytes, inode: int, from: nat, max: int, to: nat, lines: seq<Line>) {
    if from > |s| then to == from && lines == [] else
      && from <= to <= |s|
      && (to == from || s[to - 1] == NL)
      && lines == Split(s, inode, from, to)
      && (|lines| < max ==> NoNewline(s, to, |s|))
  }

  // ---------------------------------------------------------------------------------------------
  // Inputs on which something goes wrong
  // ---------------------------------------------------------------------------------------------

  const TWO_LINES: Bytes := [65, NL, 66, NL]

  lemma TwoLines()
    ensures LastEnd(TWO_LINES, 2) == 4 && StripEnd(TWO_LINES, 0, 2) == 1 && LineEnd(TWO_LINES, 0, 4) == 2
    ensures |Split(TWO_LINES, 1, 0, 4)| == 2 && |Drained(TWO_LINES, 1, 0)| == 1
    ensures LastEnd([], 0) == 0 && Split([], 1, 0, 0) == []
  {
    assert LineEnd(TWO_LINES, 2, 4) == 4 && StripEnd(TWO_LINES, 2, 4) == 3;
    assert Split(TWO_LINES, 1, 4, 4) == [];
    assert |Split(TWO_LINES, 1, 2, 4)| == 1;
  }

  lemma TwoLinesRace()
    ensures !OneReadLeft(TWO_LINES, 0)
  {
    TwoLines();
    hide LastEnd, StripEnd, Split, LineEnd;
  }

  /** No compressed file's name ends like this. */
  lemma NotCompressed(name: string)
    requires name != "" && name[|name| - 1] !in {'z', '2', 't', 'p'}
    ensures !Compressed(name)
  {
    forall t: string | HasSuffix(name, t) && t != "" ensures t[|t| - 1] == name[|name| - 1] {
      assert name[|name| - |t|..][|t| - 1] == t[|t| - 1];
    }
    assert ".gz"[2] == 'z' && ".bz2"[3] == '2' && ".xz"[2] == 'z' && ".zst"[3] == 't' && ".zip"[3] == 'p';
  }

  lemma {:induction false} AllCandidates(dir: seq<Entry>)
    requires forall i :: 0 <= i < |dir| ==> !Compressed(dir[i].name)
    ensures Candidates(dir) == dir
  {
    if dir != [] {
      AllCandidates(dir[1..]);
      assert dir == [dir[0]] + dir[1..];
    }
  }

  lemma OneGeneration(g: Gen, inode: int)
    ensures IndexOf([g], inode) == if inode == g.inode then 0 else 1
  {
    assert [g][..0] == [];
  }

  lemma TwoGenerations(g: Gen, h: Gen, inode: int)
    ensures IndexOf([g, h], inode) == if inode == g.inode then 0 else if inode == h.inode then 1 else 2
  {
    OneGeneration(g, inode);
    assert [g, h][..1] == [g];
  }

  /** An input on which the deleted branch loses: the tailer holds an empty live file; after it has read
      nothing, two lines come in and the file is renamed away before the path is looked at. The poll
      relies on nothing that does not hold, hands on the first line and closes the file. */
  lemma RaceIsReal() returns (w: World, v: World, dir2: seq<Entry>, t: Tail)
    ensures var c := Cursor(0, 0);
            && PollEnv(w, [], v, dir2, t, c) && RaceLoses(w, v, Opened(w, [], t), c, 10)
            && |Split(v.gens[0].bytes, t.inode, 0, |v.gens[0].bytes|)| == 2
            && |Drained(v.gens[0].bytes, t.inode, 0)| == 1
  {
    hide Split, LineEnd, StripEnd, LastEnd, Drained, OneReadLeft, Candidates, Compressed, IndexOf, OpenNextOf;
    w, v := World([Gen(1, [], 0)], true), World([Gen(1, TWO_LINES, 1)], false);
    dir2, t := [Entry("a.1", 1)], Tail(true, 1, 0, []);
    TwoLines();
    TwoLinesRace();
    NotCompressed("a.1");
    AllCandidates(dir2);
    AllCandidates([]);
    assert dir2[0].inode == 1 && InDir(dir2, 1);
    OneGeneration(w.gens[0], 1);
    OneGeneration(v.gens[0], 1);
    assert Listed(w, [], 0) && Listed(v, dir2, 0);
    assert Grows(w, v);
  }

  /** A directory in which a file that never was at the path passes for a later generation. */
  lemma ForeignIsReal() returns (w: World, dir: seq<Entry>)
    ensures Listed(w, dir, 0) && MtimesOrdered(w) && 0 < RotatedEnd(w) && ForeignLater(w, dir, 0)
    ensures Boundary(w, Cursor(0, 2))
  {
    hide Candidates, Compressed, IndexOf;
    w := World([Gen(1, [65, NL], 1), Gen(2, [], 0)], true, [Gen(9, [66, NL], 5)]);
    dir := [Entry("a.1", 1), Entry("a.o", 9)];
    NotCompressed("a.1");
    NotCompressed("a.o");
    AllCandidates(dir);
    TwoGenerations(w.gens[0], w.gens[1], 1);
    TwoGenerations(w.gens[0], w.gens[1], 9);
    OneGeneration(w.others[0], 9);
    assert dir[0].inode == 1 && InDir(dir, 1) && dir[1].inode == 9 && InDir(dir, 9);
    assert Foreign(w, 9) && MtimeOf(w, 9) == 5;
  }

  /** A start from a rotated file stands where it should, with exactly the later generations owed, if and only
      if no newer file that matches the search passes for one of them. */
  lemma StartIsExact(w: World, dir: seq<Entry>, fromEnd: bool, p: Position)
    requires var k := IndexOf(w.gens, p.inode);
             && k < RotatedEnd(w) && Listed(w, dir, k) && MtimesOrdered(w) && Boundary(w, Cursor(k, p.offset))
    ensures var k := IndexOf(w.gens, p.inode);
            TailAt(w, StartOf(w, dir, fromEnd, Some(p)), Cursor(k, p.offset)) <==> !ForeignLater(w, dir, k)
  {
    var k := IndexOf(w.gens, p.inode);
    if ForeignLater(w, dir, k) {
      ForeignStart(w, dir, fromEnd, p);
    } else {
      StartStands(w, dir, fromEnd, p);
      hide StartOf, TailAt;
    }
  }

  lemma ForeignStart(w: World, dir: seq<Entry>, fromEnd: bool, p: Position)
    requires var k := IndexOf(w.gens, p.inode);
             && k < RotatedEnd(w) && Listed(w, dir, k) && Boundary(w, Cursor(k, p.offset)) && ForeignLater(w, dir, k)
    ensures !TailAt(w, StartOf(w, dir, fromEnd, Some(p)), Cursor(IndexOf(w.gens, p.inode), p.offset))
  {
    hide Candidates, LaterPairs, Sort, Before;
    var k := IndexOf(w.gens, p.inode);
    var owed := Owed(w, dir, p.inode, PathInode(w));
    ForeignOwed(w, dir, k, owed);
    RotatedStart(w, dir, fromEnd, p);
    var i :| 0 <= i < |owed| && Foreign(w, owed[i]);
    hide StartOf, Owed, Boundary;
    ForeignNotOwed(w, owed, k + 1, i);
  }

  lemma ForeignNotOwed(w: World, owed: seq<int>, next: nat, i: nat)
    requires i < |owed| && Foreign(w, owed[i])
    ensures !Owes(w, owed, next)
  {}

  /** The saved file has left the path and is listed, so it is opened and something is owed. */
  lemma RotatedStart(w: World, dir: seq<Entry>, fromEnd: bool, p: Position)
    requires var k := IndexOf(w.gens, p.inode);
             k < RotatedEnd(w) && Listed(w, dir, k) && Boundary(w, Cursor(k, p.offset))
    ensures StartOf(w, dir, fromEnd, Some(p))
            == Tail(true, p.inode, p.offset, Owed(w, dir, p.inode, PathInode(w)))
  {
    hide Owed, Candidates, Before;
    assert Sealed(w, IndexOf(w.gens, p.inode));
  }

  /** The newer foreign file is among what is owed. */
  lemma ForeignOwed(w: World, dir: seq<Entry>, k: nat, owed: seq<int>)
    requires k < RotatedEnd(w) && IndexOf(w.gens, w.gens[k].inode) == k && ForeignLater(w, dir, k)
    requires owed == Owed(w, dir, w.gens[k].inode, PathInode(w))
    ensures exists i :: 0 <= i < |owed| && Foreign(w, owed[i])
  {
    hide Candidates, LaterPairs, Sort;
    var c, ino, path, after := Candidates(dir), w.gens[k].inode, PathInode(w), w.gens[k].mtime;
    var x :| InDir(c, x) && Foreign(w, x) && MtimeOf(w, x) > after;
    var s := LaterPairs(w, c, ino, path, after);
    var q := (MtimeOf(w, x), x);
    LaterPairsIn(w, c, ino, path, after, q);
    SortMembers(s, q);
    var i :| 0 <= i < |Sort(s)| && Sort(s)[i] == q;
    assert owed[i] == x;
  }
}
