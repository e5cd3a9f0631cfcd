/** Bytes, lines and the stream that the rotated generations of one watched file form.

    The reference meaning of a log is `Stream`: every generation split at its newlines, oldest
    generation first. A `Cursor` is a place between two lines of that stream, and `Before` is the
    part of the stream in front of it. */
module Lines {
  import opened Seqs

  newtype Byte = b: int | 0 <= b < 256
  type Bytes = seq<Byte>

  const NL: Byte := 10
  const CR: Byte := 13

  /** A line as the tailer hands it on: content without line terminator, inode, offset just after it. */
  datatype Line = Line(raw: Bytes, inode: int, end: nat)

  /** Where the content of s[i..j] ends once `rstrip(b"\r\n")` has removed its terminators. */
  function StripEnd(s: Bytes, i: nat, j: nat): (k: nat)
    requires i <= j <= |s|
    ensures i <= k <= j
    ensures i < k ==> s[k - 1] != NL && s[k - 1] != CR
    ensures forall m :: k <= m < j ==> s[m] == NL || s[m] == CR
    decreases j
  {
    if i < j && (s[j - 1] == NL || s[j - 1] == CR) then StripEnd(s, i, j - 1) else j
  }

  /** Where a `readline` that starts at `i` stops when the file holds s[..j]. */
  function LineEnd(s: Bytes, i: nat, j: nat): (e: nat)
    requires i < j <= |s|
    ensures i < e <= j
    ensures forall m :: i <= m < e - 1 ==> s[m] != NL
    ensures e < j ==> s[e - 1] == NL
    decreases j - i
  {
    if s[i] == NL || i + 1 == j then i + 1 else LineEnd(s, i + 1, j)
  }

  /** What the bytes s[i..e] of one `readline` contribute: a line, unless they are an unterminated tail
      of which nothing is left once stripped. */
  function Piece(s: Bytes, inode: int, i: nat, e: nat): seq<Line>
    requires i < e <= |s|
  {
    if s[e - 1] != NL && StripEnd(s, i, e) == i then [] else [Line(s[i..StripEnd(s, i, e)], inode, e)]
  }

  /** The lines of s[i..j], where `s` is the content of the file `inode`. */
  function Split(s: Bytes, inode: int, i: nat, j: nat): seq<Line>
    requires i <= j <= |s|
    decreases j - i
  {
    if i == j then [] else
      var e := LineEnd(s, i, j);
      Piece(s, inode, i, e) + Split(s, inode, e, j)
  }

  ghost predicate NoNewline(s: Bytes, i: nat, j: nat)
    requires i <= j <= |s|
  {
    forall m :: i <= m < j ==> s[m] != NL
  }

  /** An earlier end of input that holds the first line leaves that line as it is. */
  lemma LineEndShorter(s: Bytes, i: nat, j: nat, k: nat)
    requires i < j <= k <= |s| && (s[j - 1] == NL || LineEnd(s, i, k) <= j)
    ensures LineEnd(s, i, j) == LineEnd(s, i, k)
  {}

  /** Cutting just after a newline splits the lines. */
  lemma {:induction false} SplitConcat(s: Bytes, inode: int, i: nat, j: nat, k: nat)
    requires i <= j <= k <= |s|
    requires j == i || j == k || s[j - 1] == NL
    ensures Split(s, inode, i, k) == Split(s, inode, i, j) + Split(s, inode, j, k)
    decreases j - i
  {
    if i < j < k {
      LineEndShorter(s, i, j, k);
      var e := LineEnd(s, i, j);
      SplitConcat(s, inode, e, j, k);
      Assoc(Piece(s, inode, i, e), Split(s, inode, e, j), Split(s, inode, j, k));
    }
  }

  /** Bytes without a newline give at most one line. */
  lemma SplitTail(s: Bytes, inode: int, i: nat, j: nat)
    requires i < j <= |s| && NoNewline(s, i, j - 1)
    ensures Split(s, inode, i, j) == Piece(s, inode, i, j)
  {
    assert LineEnd(s, i, j) == j;
  }

  /** The end offset of the n-th line cuts the bytes just behind the first n + 1 lines, at a place that
      is the end of the input or just after a newline. */
  lemma {:induction false} SplitCount(s: Bytes, inode: int, i: nat, j: nat, n: nat)
    requires i <= j <= |s| && n < |Split(s, inode, i, j)|
    ensures var l := Split(s, inode, i, j)[n];
            && l.inode == inode && i < l.end <= j
            && (l.end < j ==> s[l.end - 1] == NL)
            && |Split(s, inode, i, l.end)| == n + 1
    decreases j - i
  {
    hide Split, Piece;
    SplitStep(s, inode, i, j);
    var e := LineEnd(s, i, j);
    SplitTail(s, inode, i, e);
    if n < |Piece(s, inode, i, e)| {
    } else if e < j {
      SplitCount(s, inode, e, j, n - 1);
      var end := Split(s, inode, e, j)[n - 1].end;
      LineEndShorter(s, i, end, j);
      SplitStep(s, inode, i, end);
    }
  }

  /** The first line, and the lines after it. */
  lemma SplitStep(s: Bytes, inode: int, i: nat, j: nat)
    requires i <= j <= |s|
    ensures i == j ==> Split(s, inode, i, j) == []
    ensures i < j ==>
              var e := LineEnd(s, i, j);
              var p := Piece(s, inode, i, e);
              && Split(s, inode, i, j) == p + Split(s, inode, e, j)
              && |p| <= 1 && (e < j ==> |p| == 1) && (p != [] ==> p[0].inode == inode && p[0].end == e)
              && (e == j ==> Split(s, inode, e, j) == [])
  {}

  lemma {:induction false} SplitAt(s: Bytes, inode: int, i: nat, j: nat, n: nat)
    requires i <= j <= |s| && n < |Split(s, inode, i, j)|
    ensures var ls := Split(s, inode, i, j);
            var from := if n == 0 then i else ls[n - 1].end;
            && i <= from < ls[n].end <= j
            && ls[n].raw == s[from..StripEnd(s, from, ls[n].end)]
            && NoNewline(s, from, ls[n].end - 1)
    decreases j - i
  {
    var e := LineEnd(s, i, j);
    if e < j && n > 0 {
      SplitAt(s, inode, e, j, n - 1);
    }
  }

  /** What a line of the stream is: the bytes behind the end of the line before it up to the first 10, or up
      to the end if there is none, without the 10s and 13s at their end. The deltas of the end offsets are
      therefore the raw byte counts. */
  lemma SplitExact(s: Bytes, inode: int, i: nat, j: nat, n: nat)
    requires i <= j <= |s| && n < |Split(s, inode, i, j)|
    ensures var l := Split(s, inode, i, j)[n];
            var from := if n == 0 then i else Split(s, inode, i, j)[n - 1].end;
            && l.inode == inode && i <= from < l.end <= j
            && (forall m :: from <= m < l.end - 1 ==> s[m] != 10) && (s[l.end - 1] == 10 || l.end == j)
            && from + |l.raw| <= l.end && l.raw == s[from..from + |l.raw|]
            && (l.raw != [] ==> l.raw[|l.raw| - 1] != 10 && l.raw[|l.raw| - 1] != 13)
            && (forall m :: from + |l.raw| <= m < l.end ==> s[m] == 10 || s[m] == 13)
  {
    SplitAt(s, inode, i, j, n);
    SplitCount(s, inode, i, j, n);
    hide Split, StripEnd, NoNewline;
    var from := if n == 0 then i else Split(s, inode, i, j)[n - 1].end;
    var l := Split(s, inode, i, j)[n];
    Stripped(s, from, l.end, l.raw);
  }

  lemma Stripped(s: Bytes, i: nat, j: nat, raw: Bytes)
    requires i < j <= |s| && raw == s[i..StripEnd(s, i, j)] && NoNewline(s, i, j - 1)
    ensures i + |raw| <= j && raw == s[i..i + |raw|]
    ensures raw != [] ==> raw[|raw| - 1] != 10 && raw[|raw| - 1] != 13
    ensures forall m :: i + |raw| <= m < j ==> s[m] == 10 || s[m] == 13
    ensures forall m :: i <= m < j - 1 ==> s[m] != 10
  {}

  /** What no line holds is, at the very end, a run of carriage returns without a newline. */
  lemma {:induction false} SplitLeavesOut(s: Bytes, inode: int, i: nat, j: nat)
    requires i <= j <= |s|
    ensures var ls := Split(s, inode, i, j);
            var last := if ls == [] then i else ls[|ls| - 1].end;
            i <= last <= j && forall m :: last <= m < j ==> s[m] == 13
    decreases j - i
  {
    if i < j { SplitLeavesOut(s, inode, LineEnd(s, i, j), j); }
  }

  /** Only the bytes in the range matter. */
  lemma {:induction false} SplitSame(s: Bytes, t: Bytes, inode: int, i: nat, j: nat)
    requires i <= j <= |s| && j <= |t| && s[..j] == t[..j]
    ensures Split(s, inode, i, j) == Split(t, inode, i, j)
    decreases j - i
  {
    if i < j {
      assert forall m :: 0 <= m < j ==> s[m] == s[..j][m] == t[m];
      var e := LineEnd(s, i, j);
      LineEndSame(s, t, i, j);
      assert StripEnd(s, i, e) == StripEnd(t, i, e);
      assert s[i..StripEnd(s, i, e)] == t[i..StripEnd(s, i, e)];
      SplitSame(s, t, inode, e, j);
    }
  }

  lemma LineEndSame(s: Bytes, t: Bytes, i: nat, j: nat)
    requires i < j <= |s| && j <= |t| && forall m :: 0 <= m < j ==> s[m] == t[m]
    ensures LineEnd(s, i, j) == LineEnd(t, i, j)
    decreases j - i
  {}

  // ---------------------------------------------------------------------------------------------
  // Generations and the stream
  // ---------------------------------------------------------------------------------------------

  /** One file that was, or is, at the followed path. */
  datatype Gen = Gen(inode: int, bytes: Bytes, mtime: int)

  /** Every generation so far, oldest first. `live`: the last one is at the followed path; otherwise
      nothing is there. `others` are files in the same directory that never were at the path. */
  datatype World = World(gens: seq<Gen>, live: bool, others: seq<Gen> := [])

  /** Inodes are not reused. */
  ghost predicate DistinctInodes(w: World) {
    forall i, j :: 0 <= i < j < |w.gens| ==> w.gens[i].inode != w.gens[j].inode
  }

  /** Generation `i` is no longer at the path, so nothing is appended to it any more. */
  predicate Sealed(w: World, i: int) { i < |w.gens| - 1 || !w.live }

  /** All lines of the first `n` generations. */
  function Stream(gens: seq<Gen>, n: nat): seq<Line>
    requires n <= |gens|
  {
    if n == 0 then [] else Stream(gens, n - 1) + LinesTo(gens[n - 1], |gens[n - 1].bytes|)
  }

  /** The lines of a generation up to byte `off`. */
  function LinesTo(g: Gen, off: nat): seq<Line>
    requires off <= |g.bytes|
  {
    Split(g.bytes, g.inode, 0, off)
  }

  datatype Cursor = Cursor(gen: nat, off: nat)

  ghost predicate CursorOk(w: World, c: Cursor) {
    && c.gen <= |w.gens|
    && c.off <= if c.gen < |w.gens| then |w.gens[c.gen].bytes| else 0
  }

  /** A place the tailer may checkpoint: between two lines, now and after any further append. */
  ghost predicate Boundary(w: World, c: Cursor) {
    && CursorOk(w, c)
    && (c.gen == 0 || Sealed(w, c.gen - 1))
    && (c.off == 0
        || w.gens[c.gen].bytes[c.off - 1] == NL
        || (c.off == |w.gens[c.gen].bytes| && Sealed(w, c.gen)))
  }

  ghost function Before(w: World, c: Cursor): seq<Line>
    requires CursorOk(w, c)
  {
    if c.off == 0 then Stream(w.gens, c.gen) else Stream(w.gens, c.gen) + LinesTo(w.gens[c.gen], c.off)
  }

  predicate CursorLe(c: Cursor, d: Cursor) { c.gen < d.gen || (c.gen == d.gen && c.off <= d.off) }

  /** Moving within one generation adds the lines of the bytes passed over. */
  lemma AdvanceWithin(w: World, c: Cursor, off: nat)
    requires Boundary(w, c) && c.gen < |w.gens| && c.off <= off <= |w.gens[c.gen].bytes|
    ensures var g := w.gens[c.gen];
            Before(w, Cursor(c.gen, off)) == Before(w, c) + Split(g.bytes, g.inode, c.off, off)
  {
    var g := w.gens[c.gen];
    SplitConcat(g.bytes, g.inode, 0, c.off, off);
    Assoc(Stream(w.gens, c.gen), LinesTo(g, c.off), Split(g.bytes, g.inode, c.off, off));
  }

  /** The end of one generation is the start of the next. */
  lemma AdvanceGen(w: World, g: nat)
    requires g < |w.gens|
    ensures Before(w, Cursor(g + 1, 0)) == Before(w, Cursor(g, |w.gens[g].bytes|))
  {}

  lemma StreamMonotone(gens: seq<Gen>, i: nat, j: nat)
    requires i <= j <= |gens|
    ensures Stream(gens, i) <= Stream(gens, j)
  {}

  /** Further on in the files is further on in the stream. */
  lemma BeforeMonotone(w: World, c: Cursor, d: Cursor)
    requires Boundary(w, c) && CursorOk(w, d) && CursorLe(c, d)
    ensures Before(w, c) <= Before(w, d)
  {
    hide Split, Stream;
    if c.gen < |w.gens| {
      var g, off := w.gens[c.gen], if c.gen == d.gen then d.off else |w.gens[c.gen].bytes|;
      AdvanceWithin(w, c, off);
      PrefixOfSum(Before(w, c), Split(g.bytes, g.inode, c.off, off));
      if c.gen < d.gen {
        AdvanceGen(w, c.gen);
        StreamMonotone(w.gens, c.gen + 1, d.gen);
        BeforeFront(w, d);
        PrefixTransitive(Stream(w.gens, c.gen + 1), Stream(w.gens, d.gen), Before(w, d));
        PrefixTransitive(Before(w, c), Stream(w.gens, c.gen + 1), Before(w, d));
      }
    }
  }

  lemma BeforeFront(w: World, d: Cursor)
    requires CursorOk(w, d)
    ensures Stream(w.gens, d.gen) <= Before(w, d)
  {
    if d.off > 0 { PrefixOfSum(Stream(w.gens, d.gen), LinesTo(w.gens[d.gen], d.off)); }
  }

  /** The generation in which inode `ino` lives. */
  ghost predicate LivesAt(w: World, ino: int, k: nat) { k < |w.gens| && w.gens[k].inode == ino }

  /** The i-th line in front of a boundary names, by its inode and end offset, the boundary just behind
      itself. This is what makes (inode, end offset) a checkpoint. */
  lemma {:induction false} LineNamesPrefix(w: World, c: Cursor, i: nat) returns (k: nat)
    requires Boundary(w, c) && i < |Before(w, c)|
    ensures var l := Before(w, c)[i];
            && LivesAt(w, l.inode, k)
            && Boundary(w, Cursor(k, l.end))
            && CursorLe(Cursor(k, l.end), c)
            && |Before(w, Cursor(k, l.end))| == i + 1
            && Before(w, Cursor(k, l.end)) <= Before(w, c)
    decreases c.gen
  {
    hide Split;
    var front := Stream(w.gens, c.gen);
    if i < |front| {
      // The line lies in an earlier generation: step back to the end of the previous one.
      var d := Cursor(c.gen - 1, |w.gens[c.gen - 1].bytes|);
      AdvanceGen(w, c.gen - 1);
      BeforeFront(w, c);
      k := LineNamesPrefix(w, d, i);
      PrefixTransitive(Before(w, Cursor(k, Before(w, c)[i].end)), front, Before(w, c));
    } else {
      k := c.gen;
      LastPart(w, c, i);
      BeforeMonotone(w, Cursor(k, Before(w, c)[i].end), c);
    }
  }

  lemma LastPart(w: World, c: Cursor, i: nat)
    requires Boundary(w, c) && c.gen < |w.gens| && |Stream(w.gens, c.gen)| <= i < |Before(w, c)|
    ensures var l := Before(w, c)[i];
            && l.inode == w.gens[c.gen].inode && 0 < l.end <= c.off
            && (l.end < c.off ==> w.gens[c.gen].bytes[l.end - 1] == NL)
            && |Before(w, Cursor(c.gen, l.end))| == i + 1
  {
    var front, g := Stream(w.gens, c.gen), w.gens[c.gen];
    SplitCount(g.bytes, g.inode, 0, c.off, i - |front|);
  }

  /** The file system may grow at the end of the live generation, seal it, or start a new one. */
  ghost predicate Grows(w: World, v: World) {
    && |w.gens| <= |v.gens|
    && (forall i :: 0 <= i < |w.gens| ==>
          && v.gens[i].inode == w.gens[i].inode
          && w.gens[i].bytes <= v.gens[i].bytes
          && (Sealed(w, i) ==> v.gens[i].bytes == w.gens[i].bytes && Sealed(v, i)))
  }

  lemma StreamSame(a: seq<Gen>, b: seq<Gen>, n: nat)
    requires n <= |a| && n <= |b|
    requires forall i :: 0 <= i < n ==> a[i].inode == b[i].inode && a[i].bytes == b[i].bytes
    ensures Stream(a, n) == Stream(b, n)
  {}

  /** A boundary stays a boundary, with the same lines in front of it, however the files grow. */
  lemma BoundaryStable(w: World, v: World, c: Cursor)
    requires Boundary(w, c) && Grows(w, v)
    ensures Boundary(v, c) && Before(v, c) == Before(w, c)
  {
    forall i | 0 <= i < c.gen ensures w.gens[i].bytes == v.gens[i].bytes {
      assert Sealed(w, i);
    }
    StreamSame(w.gens, v.gens, c.gen);
    if c.off > 0 {
      var s, t := w.gens[c.gen].bytes, v.gens[c.gen].bytes;
      assert s <= t;
      SplitSame(s, t, w.gens[c.gen].inode, 0, c.off);
    }
  }
}
