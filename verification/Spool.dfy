/** The host agent's disk queue: a directory with one file per event, its cached counters, and what
    becomes of every event written to it. */
module Spool {
  import opened FileNames

  /** A queued event file; `parses` is false if its content does not unmarshal. */
  datatype File = File(name: string, size: nat, parses: bool)

  /** The pending event files in the order of their names. */
  type Dir = seq<File>

  ghost predicate Sorted(dir: Dir) {
    forall i, j :: 0 <= i < j < |dir| ==> Less(dir[i].name, dir[j].name)
  }

  function Names(dir: Dir): (r: set<string>)
    ensures forall x :: x in r <==> exists i :: 0 <= i < |dir| && dir[i].name == x
  {
    set i | 0 <= i < |dir| :: dir[i].name
  }

  function Total(dir: Dir): nat {
    if dir == [] then 0 else dir[0].size + Total(dir[1..])
  }

  /** Put a file in its place; a file of the same name is replaced. */
  function Place(dir: Dir, f: File): Dir {
    if dir == [] || Less(f.name, dir[0].name) then [f] + dir
    else if dir[0].name == f.name then [f] + dir[1..]
    else [dir[0]] + Place(dir[1..], f)
  }

  function Without(dir: Dir, gone: set<string>): Dir {
    if dir == [] then [] else
      (if dir[0].name in gone then [] else [dir[0]]) + Without(dir[1..], gone)
  }

  lemma NamesCons(f: File, dir: Dir)
    ensures Names([f] + dir) == {f.name} + Names(dir)
  {
    var s := [f] + dir;
    assert forall i :: 0 <= i < |dir| ==> s[i + 1] == dir[i];
    assert s[0] == f;
    forall x | x in Names(s) ensures x in {f.name} + Names(dir) {
      var i :| 0 <= i < |s| && s[i].name == x;
      assert i > 0 ==> dir[i - 1].name == x;
    }
    forall x | x in {f.name} + Names(dir) ensures x in Names(s) {
      if x in Names(dir) {
        var i :| 0 <= i < |dir| && dir[i].name == x;
        assert s[i + 1].name == x;
      } else {
        assert s[0].name == x;
      }
    }
  }

  lemma NamesSum(a: Dir, b: Dir)
    ensures Names(a + b) == Names(a) + Names(b)
  {
    if a == [] {
      assert a + b == b;
    } else {
      assert a + b == [a[0]] + (a[1..] + b) && a == [a[0]] + a[1..];
      NamesCons(a[0], a[1..] + b);
      NamesCons(a[0], a[1..]);
      NamesSum(a[1..], b);
    }
  }

  /** Placing a file keeps the order and adds its name. */
  lemma {:induction false} PlaceSorted(dir: Dir, f: File)
    requires Sorted(dir)
    ensures Sorted(Place(dir, f)) && Names(Place(dir, f)) == Names(dir) + {f.name}
  {
    hide Names, Sorted, Less;
    NamesCons(f, dir);
    if dir == [] {
      EmptyDir();
      SortedCons(f, dir);
    } else {
      var h, t := dir[0], dir[1..];
      assert dir == [h] + t;
      NamesCons(h, t);
      SortedHead(h, t);
      if Less(f.name, h.name) {
        forall x | x in Names(dir) ensures Less(f.name, x) {
          if x != h.name { LessTransitive(f.name, h.name, x); }
        }
        SortedCons(f, dir);
      } else if h.name == f.name {
        NamesCons(f, t);
        SortedCons(f, t);
      } else {
        LessTotal(f.name, h.name);
        PlaceSorted(t, f);
        NamesCons(h, Place(t, f));
        SortedCons(h, Place(t, f));
      }
    }
  }

  /** The file is there, in place of any of its name, and the others still are. */
  lemma {:induction false} PlaceHolds(dir: Dir, f: File, g: File)
    requires Sorted(dir)
    ensures g in Place(dir, f) <==> g == f || (g in dir && g.name != f.name)
  {
    hide Names, Sorted, Less;
    if dir != [] {
      var h, t := dir[0], dir[1..];
      assert dir == [h] + t;
      SortedHead(h, t);
      if g in t { InNames(t, g); }
      LessTotal(f.name, h.name);
      LessTotal(f.name, f.name);
      if Less(f.name, h.name) {
        if f.name in Names(t) { LessTransitive(f.name, h.name, f.name); }
      } else if h.name != f.name {
        PlaceHolds(t, f, g);
      }
    }
  }

  lemma InNames(dir: Dir, g: File)
    requires g in dir
    ensures g.name in Names(dir)
  {}

  /** A new name makes one file more, of its size; an old one makes none. */
  lemma {:induction false} PlaceCounts(dir: Dir, f: File)
    requires Sorted(dir)
    ensures f.name !in Names(dir) ==>
              |Place(dir, f)| == |dir| + 1 && Total(Place(dir, f)) == Total(dir) + f.size
    ensures f.name in Names(dir) ==> |Place(dir, f)| == |dir|
  {
    hide Names, Sorted, Less;
    if dir == [] {
      EmptyDir();
    } else {
      var h, t := dir[0], dir[1..];
      assert dir == [h] + t;
      NamesCons(h, t);
      SortedHead(h, t);
      if Less(f.name, h.name) {
        if f.name in Names(t) { LessTransitive(f.name, h.name, f.name); LessTotal(f.name, f.name); }
        LessTotal(f.name, h.name);
        TotalCons(f, dir);
      } else if h.name != f.name {
        PlaceCounts(t, f);
        TotalCons(h, Place(t, f));
      }
    }
  }

  lemma TotalCons(h: File, t: Dir)
    ensures Total([h] + t) == h.size + Total(t)
  {}

  lemma {:induction false} TotalSnoc(dir: Dir, f: File)
    ensures Total(dir + [f]) == Total(dir) + f.size
  {
    if dir == [] {
      assert dir + [f] == [f] && [f][1..] == [];
    } else {
      assert (dir + [f])[1..] == dir[1..] + [f];
      TotalSnoc(dir[1..], f);
    }
  }

  lemma EmptyDir()
    ensures Names([]) == {} && Sorted([])
  {}

  lemma SortedHead(h: File, t: Dir)
    requires Sorted([h] + t)
    ensures Sorted(t) && forall x :: x in Names(t) ==> Less(h.name, x)
    ensures h.name !in Names(t)
  {
    var s := [h] + t;
    assert forall i :: 0 <= i < |t| ==> s[i + 1] == t[i];
    forall x | x in Names(t) ensures Less(h.name, x) {
      var i :| 0 <= i < |t| && t[i].name == x;
      assert Less(s[0].name, s[i + 1].name);
    }
    LessTotal(h.name, h.name);
  }

  lemma SortedCons(h: File, t: Dir)
    requires Sorted(t) && forall x :: x in Names(t) ==> Less(h.name, x)
    ensures Sorted([h] + t)
  {
    var s := [h] + t;
    forall i, j | 0 <= i < j < |s| ensures Less(s[i].name, s[j].name) {
      assert s[j] == t[j - 1] && t[j - 1].name in Names(t);
    }
  }

  lemma {:induction false} WithoutNames(dir: Dir, gone: set<string>)
    ensures Names(Without(dir, gone)) == Names(dir) - gone
    ensures Sorted(dir) ==> Sorted(Without(dir, gone))
  {
    hide Names, Sorted;
    EmptyDir();
    if dir != [] {
      var h, t := dir[0], dir[1..];
      var r := Without(t, gone);
      assert dir == [h] + t;
      WithoutNames(t, gone);
      NamesCons(h, t);
      NamesCons(h, r);
      if Sorted(dir) {
        SortedHead(h, t);
        SortedCons(h, r);
      }
      assert [] + r == r;
    }
  }

  lemma {:induction false} WithoutHolds(dir: Dir, gone: set<string>, g: File)
    ensures g in Without(dir, gone) <==> g in dir && g.name !in gone
  {
    if dir != [] {
      assert dir == [dir[0]] + dir[1..];
      WithoutHolds(dir[1..], gone, g);
    }
  }

  lemma {:induction false} WithoutTwice(dir: Dir, a: set<string>, b: set<string>)
    ensures Without(Without(dir, a), b) == Without(dir, a + b)
  {
    if dir != [] {
      var r := Without(dir[1..], a);
      WithoutTwice(dir[1..], a, b);
      assert ([dir[0]] + r)[1..] == r;
      assert [] + r == r;
    }
  }

  lemma {:induction false} WithoutForeign(dir: Dir, gone: set<string>)
    requires Names(dir) !! gone
    ensures Without(dir, gone) == dir
  {
    if dir != [] {
      assert dir == [dir[0]] + dir[1..];
      NamesCons(dir[0], dir[1..]);
      assert dir[0].name in Names(dir);
      WithoutForeign(dir[1..], gone);
    }
  }

  /** The size `os.Stat` reports, or 0. */
  function SizeOf(dir: Dir, name: string): nat {
    if dir == [] then 0 else if dir[0].name == name then dir[0].size else SizeOf(dir[1..], name)
  }

  /** Taking one file away takes it out of both counts. */
  lemma {:induction false} WithoutOne(dir: Dir, name: string)
    requires Sorted(dir) && name in Names(dir)
    ensures |Without(dir, {name})| == |dir| - 1
    ensures Total(Without(dir, {name})) == Total(dir) - SizeOf(dir, name)
  {
    var h, t := dir[0], dir[1..];
    assert dir == [h] + t;
    SortedHead(h, t);
    NamesCons(h, t);
    if h.name == name {
      WithoutForeign(t, {name});
      assert [] + t == t;
    } else {
      WithoutOne(t, name);
      var r := Without(t, {name});
      assert ([h] + r)[1..] == r;
    }
  }

  lemma SortedSuffix(dir: Dir, n: nat)
    requires Sorted(dir) && n <= |dir|
    ensures Sorted(dir[n..]) && Sorted(dir[..n])
    ensures Names(dir[..n]) !! Names(dir[n..]) && Names(dir) == Names(dir[..n]) + Names(dir[n..])
  {
    NamesSum(dir[..n], dir[n..]);
    assert dir[..n] + dir[n..] == dir;
    forall x | x in Names(dir[..n]) && x in Names(dir[n..]) ensures false {
      var i :| 0 <= i < n && dir[..n][i].name == x;
      var j :| 0 <= j < |dir| - n && dir[n..][j].name == x;
      assert Less(dir[i].name, dir[n + j].name);
      LessTotal(x, x);
    }
  }

  // ---------------------------------------------------------------------------------------------
  // Limits
  // ---------------------------------------------------------------------------------------------

  /** Zero means no limit. */
  datatype Limits = Limits(maxEvents: nat, maxBytes: nat)

  /** `overLimitLocked` */
  predicate Over(lim: Limits, count: int, bytes: int, incoming: nat) {
    (lim.maxEvents > 0 && count + 1 > lim.maxEvents) || (lim.maxBytes > 0 && bytes + incoming > lim.maxBytes)
  }

  predicate Fits(lim: Limits, dir: Dir, incoming: nat) { !Over(lim, |dir|, Total(dir), incoming) }

  /** How many of the oldest events have to go before one of `incoming` bytes is let in. */
  function Surplus(lim: Limits, dir: Dir, incoming: nat): (n: nat)
    ensures n <= |dir|
  {
    if dir == [] || Fits(lim, dir, incoming) then 0 else 1 + Surplus(lim, dir[1..], incoming)
  }

  lemma SurplusStep(lim: Limits, dir: Dir, incoming: nat)
    ensures var s := Surplus(lim, dir, incoming);
            if Over(lim, |dir|, Total(dir), incoming) && dir != [] then s == 1 + Surplus(lim, dir[1..], incoming)
            else s == 0
  {}

  /** Exactly the longest suffix of the old queue that fits is kept: what is left fits unless nothing is
      left, and with any more of the old events it would not. */
  lemma {:induction false} KeepsLongestSuffix(lim: Limits, dir: Dir, incoming: nat, k: nat)
    requires k <= |dir|
    ensures var n := Surplus(lim, dir, incoming);
            && (n == |dir| || Fits(lim, dir[n..], incoming))
            && (k < n ==> !Fits(lim, dir[k..], incoming))
  {
    hide Fits;
    assert dir[0..] == dir;
    if dir != [] && !Fits(lim, dir, incoming) {
      var n := Surplus(lim, dir[1..], incoming);
      KeepsLongestSuffix(lim, dir[1..], incoming, if k == 0 then 0 else k - 1);
      assert dir[1..][n..] == dir[n + 1..];
      if k > 0 { assert dir[1..][k - 1..] == dir[k..]; }
    }
  }

  /** In plain numbers: with any more of the old events kept a limit would be exceeded, and with these,
      unless nothing is left, none is. */
  lemma SurplusIsLeast(lim: Limits, dir: Dir, incoming: nat)
    ensures var n := Surplus(lim, dir, incoming);
            && (forall gone, kept :: gone + kept == dir && |gone| < n ==>
                  |kept| + 1 > lim.maxEvents > 0 || Total(kept) + incoming > lim.maxBytes > 0)
            && (n < |dir| ==>
                  && (lim.maxEvents > 0 ==> |dir[n..]| + 1 <= lim.maxEvents)
                  && (lim.maxBytes > 0 ==> Total(dir[n..]) + incoming <= lim.maxBytes))
  {
    hide Total;
    KeepsLongestSuffix(lim, dir, incoming, Surplus(lim, dir, incoming));
    forall gone: Dir, kept | gone + kept == dir && |gone| < Surplus(lim, dir, incoming)
      ensures |kept| + 1 > lim.maxEvents > 0 || Total(kept) + incoming > lim.maxBytes > 0
    {
      KeepsLongestSuffix(lim, dir, incoming, |gone|);
      assert dir[|gone|..] == kept;
    }
  }

  /** After the write both limits hold, except that a single event larger than the byte limit may be the
      sole occupant. */
  lemma LimitsHoldAfterWrite(lim: Limits, dir: Dir, f: File)
    requires Sorted(dir) && f.name !in Names(dir)
    ensures var d := Place(dir[Surplus(lim, dir, f.size)..], f);
            && (lim.maxEvents > 0 ==> |d| <= lim.maxEvents)
            && (lim.maxBytes > 0 ==> Total(d) <= lim.maxBytes || (|d| == 1 && f.size > lim.maxBytes))
  {
    var n := Surplus(lim, dir, f.size);
    KeepsLongestSuffix(lim, dir, f.size, n);
    SortedSuffix(dir, n);
    PlaceCounts(dir[n..], f);
  }

  // ---------------------------------------------------------------------------------------------
  // Batches
  // ---------------------------------------------------------------------------------------------

  function Parseable(dir: Dir): (r: Dir)
    ensures |r| <= |dir|
  {
    if dir == [] then [] else
      Parseable(dir[..|dir| - 1]) + if dir[|dir| - 1].parses then [dir[|dir| - 1]] else []
  }

  /** The names of the files that do not unmarshal. */
  function Corrupt(dir: Dir): set<string> { set i | 0 <= i < |dir| && !dir[i].parses :: dir[i].name }

  /** The batch is full before `f`: it has `maxN` events, or `f` would take it over `maxBytes`. */
  predicate Full(have: Dir, f: File, maxN: nat, maxBytes: nat) {
    (maxN > 0 && |have| >= maxN) || (maxBytes > 0 && have != [] && Sum(have) + f.size > maxBytes)
  }

  function Sum(dir: Dir): nat {
    if dir == [] then 0 else Sum(dir[..|dir| - 1]) + dir[|dir| - 1].size
  }

  /** Reading `n` files from the front is what a batch of these bounds calls for: each was read because
      the batch was not yet full, and reading ended at the end of the queue or because it was. */
  ghost predicate Reads(dir: Dir, maxN: nat, maxBytes: nat, n: nat) {
    && n <= |dir|
    && (forall i :: 0 <= i < n ==> !Full(Parseable(dir[..i]), dir[i], maxN, maxBytes))
    && (n < |dir| ==> Full(Parseable(dir[..n]), dir[n], maxN, maxBytes))
  }

  /** That number is determined. */
  lemma ReadsUnique(dir: Dir, maxN: nat, maxBytes: nat, m: nat, n: nat)
    requires Reads(dir, maxN, maxBytes, m) && Reads(dir, maxN, maxBytes, n)
    ensures m == n
  {}

  lemma {:induction false} ParseableIn(dir: Dir, f: File)
    ensures f in Parseable(dir) <==> f in dir && f.parses
  {
    if dir != [] {
      ParseableIn(dir[..|dir| - 1], f);
      assert dir == dir[..|dir| - 1] + [dir[|dir| - 1]];
    }
  }

  lemma ParseableSnoc(dir: Dir, i: nat)
    requires i < |dir|
    ensures Parseable(dir[..i + 1]) == Parseable(dir[..i]) + if dir[i].parses then [dir[i]] else []
  {
    assert dir[..i + 1][..i] == dir[..i];
  }

  /** A batch keeps both bounds, except that its first event may exceed the bytes alone. */
  lemma {:induction false} BatchBounds(dir: Dir, maxN: nat, maxBytes: nat, n: nat)
    requires n <= |dir| && forall i :: 0 <= i < n ==> !Full(Parseable(dir[..i]), dir[i], maxN, maxBytes)
    ensures var b := Parseable(dir[..n]);
            && (maxN > 0 ==> |b| <= maxN)
            && (maxBytes > 0 ==> |b| <= 1 || Sum(b) <= maxBytes)
  {
    hide Parseable, Sum;
    if n > 0 {
      BatchBounds(dir, maxN, maxBytes, n - 1);
      ParseableSnoc(dir, n - 1);
      var a := Parseable(dir[..n - 1]);
      assert !Full(a, dir[n - 1], maxN, maxBytes);
      SumSnoc(a, dir[n - 1]);
      assert a + [] == a;
    } else {
      NoneParseable(dir[..0]);
    }
  }

  /** A batch ends only with the queue, or because it has all the events asked for, or because the next file
      would take it over the byte limit; the first event is never refused. */
  lemma BatchEnds(dir: Dir, maxN: nat, maxBytes: nat, n: nat)
    requires Reads(dir, maxN, maxBytes, n)
    ensures var b := Parseable(dir[..n]);
            && (maxN > 0 ==> |b| <= maxN)
            && (maxBytes > 0 ==> |b| <= 1 || Sum(b) <= maxBytes)
            && (n < |dir| ==> b != [] && (|b| == maxN || Sum(b) + dir[n].size > maxBytes > 0))
  {
    hide Parseable, Sum;
    BatchBounds(dir, maxN, maxBytes, n);
  }

  lemma NoneParseable(dir: Dir)
    requires dir == []
    ensures Parseable(dir) == [] && Sum(dir) == 0 && Corrupt(dir) == {}
  {}

  lemma CorruptSnoc(dir: Dir, i: nat)
    requires i < |dir|
    ensures Corrupt(dir[..i + 1]) == Corrupt(dir[..i]) + if dir[i].parses then {} else {dir[i].name}
  {
    var a, b := dir[..i], dir[..i + 1];
    assert b == a + [dir[i]];
    forall x | x in Corrupt(a) ensures x in Corrupt(b) {
      var j :| 0 <= j < i && !a[j].parses && a[j].name == x;
      assert b[j].name == x;
    }
    assert b[i] == dir[i];
  }

  lemma SortedTail(dir: Dir)
    requires Sorted(dir) && dir != []
    ensures Sorted(dir[1..]) && Total(dir[1..]) == Total(dir) - dir[0].size
  {}

  lemma SumSnoc(a: Dir, f: File)
    ensures Sum(a + [f]) == Sum(a) + f.size
  {
    assert (a + [f])[..|a|] == a;
  }

  /** Each batch is the oldest run of parseable events, and it is not empty if there is any. */
  lemma BatchIsOldestRun(dir: Dir, maxN: nat, maxBytes: nat, n: nat, f: File)
    requires Sorted(dir) && Reads(dir, maxN, maxBytes, n) && f in dir && f.parses
    ensures Parseable(dir[..n]) != []
    ensures f in Parseable(dir[..n]) || forall g :: g in Parseable(dir[..n]) ==> Less(g.name, f.name)
  {
    var k :| 0 <= k < |dir| && dir[k] == f;
    ParseableIn(dir[..n], f);
    if k < n {
      assert dir[..n][k] == f;
    } else {
      forall g | g in Parseable(dir[..n]) ensures Less(g.name, f.name) {
        ParseableIn(dir[..n], g);
        var i :| 0 <= i < n && dir[..n][i] == g;
        assert dir[i] == g;
      }
    }
  }

  // ---------------------------------------------------------------------------------------------
  // What becomes of every file
  // ---------------------------------------------------------------------------------------------

  /** The pending files, and the names of those moved to the dead directory, removed once acknowledged,
      dropped for space, and ever written. */
  datatype Books = Books(dir: Dir, dead: set<string>, acked: set<string>, lost: set<string>, written: set<string>)

  /** Every file written is in exactly one place. */
  ghost predicate Tidy(b: Books) {
    && Sorted(b.dir)
    && (Names(b.dir) !! b.dead !! b.acked !! b.lost)
    && Names(b.dir) + b.dead + b.acked + b.lost == b.written
  }

  ghost function Drop(b: Books, n: nat): Books
    requires n <= |b.dir|
  {
    b.(dir := b.dir[n..], lost := b.lost + Names(b.dir[..n]))
  }

  ghost function Put(b: Books, f: File): Books {
    b.(dir := Place(b.dir, f), written := b.written + {f.name})
  }

  ghost function Take(b: Books, names: set<string>): Books {
    b.(dir := Without(b.dir, names), acked := b.acked + names * Names(b.dir))
  }

  ghost function Bury(b: Books, names: set<string>): Books {
    b.(dir := Without(b.dir, names), dead := b.dead + names * Names(b.dir))
  }

  lemma DropTidy(b: Books, n: nat)
    requires Tidy(b) && n <= |b.dir|
    ensures Tidy(Drop(b, n))
  {
    SortedSuffix(b.dir, n);
    hide Names, Sorted;
  }

  lemma PutTidy(b: Books, f: File)
    requires Tidy(b) && f.name !in b.written
    ensures Tidy(Put(b, f))
  {
    PlaceSorted(b.dir, f);
    hide Names, Sorted;
  }

  lemma TakeTidy(b: Books, names: set<string>)
    requires Tidy(b)
    ensures Tidy(Take(b, names)) && Tidy(Bury(b, names))
  {
    WithoutNames(b.dir, names);
    hide Names, Sorted;
  }

  lemma TakeTwice(b: Books, x: set<string>, y: set<string>)
    ensures Take(Take(b, x), y) == Take(b, x + y)
    ensures Bury(Bury(b, x), y) == Bury(b, x + y)
  {
    hide Names, Without;
    WithoutNames(b.dir, x);
    WithoutTwice(b.dir, x, y);
    var n := Names(b.dir);
    assert x * n + y * (n - x) == (x + y) * n;
    assert (b.acked + x * n) + y * (n - x) == b.acked + (x + y) * n;
    assert (b.dead + x * n) + y * (n - x) == b.dead + (x + y) * n;
  }

  lemma TakeForeign(b: Books, names: set<string>)
    requires Names(b.dir) !! names
    ensures Take(b, names) == b && Bury(b, names) == b
  {
    WithoutForeign(b.dir, names);
    hide Names;
    assert names * Names(b.dir) == {};
  }

  lemma TakeHolds(b: Books, names: set<string>, g: File)
    ensures g in Take(b, names).dir <==> g in b.dir && g.name !in names
    ensures g in Bury(b, names).dir <==> g in b.dir && g.name !in names
  {
    WithoutHolds(b.dir, names, g);
  }

  lemma TakeNames(b: Books, names: set<string>)
    ensures Names(Take(b, names).dir) == Names(b.dir) - names
    ensures Names(Bury(b, names).dir) == Names(b.dir) - names
  {
    WithoutNames(b.dir, names);
  }

  lemma DropFiles(b: Books, n: nat)
    requires n <= |b.dir|
    ensures Drop(b, n).dir == b.dir[n..] && Drop(b, n).written == b.written
  {}

  lemma DropNothing(b: Books)
    ensures Drop(b, 0) == b
  {
    assert b.dir[0..] == b.dir && b.dir[..0] == [];
  }

  lemma DropOneMore(b: Books, n: nat)
    requires n < |b.dir|
    ensures Drop(b, n + 1) == Drop(Drop(b, n), 1)
  {
    var d := b.dir;
    assert d[n..][1..] == d[n + 1..] && d[n..][..1] == [d[n]] && d[..n + 1] == d[..n] + [d[n]];
    NamesSum(d[..n], [d[n]]);
  }

  /** Dropping the oldest of what is left after `n`. */
  lemma DropNext(b: Books, n: nat)
    requires n < |b.dir| && Sorted(Drop(b, n).dir)
    ensures var d := Drop(b, n);
            && d.dir != [] && Drop(b, n + 1) == d.(dir := d.dir[1..], lost := d.lost + Names(d.dir[..1]))
            && Sorted(d.dir[1..]) && Total(d.dir[1..]) == Total(d.dir) - d.dir[0].size
  {
    hide Sorted, Total, Names;
    DropOneMore(b, n);
    SortedTail(Drop(b, n).dir);
  }
}
