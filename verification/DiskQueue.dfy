/** The queue's methods over the spool directory. Each runs under the mutex, so one call is one step to
    every other goroutine. */
module DiskQueue {
  import opened Spool

  /** What stops a write: the removal of an old file after `after` of them, the temporary file, or the
      rename that commits it. */
  datatype Fault = NoFault | DropFails(after: nat) | WriteFails | RenameFails

  function Set(files: seq<string>): set<string> { set x | x in files }

  /** What a scan of the queue directory meets: event files, temporary files, and what it passes over:
      directories and other names. */
  datatype Entry = Event(f: File) | Temp(name: string) | Other

  function Events(entries: seq<Entry>): Dir {
    if entries == [] then [] else
      Events(entries[..|entries| - 1])
      + if entries[|entries| - 1].Event? then [entries[|entries| - 1].f] else []
  }

  function Temporary(entries: seq<Entry>): set<string> {
    set e | e in entries && e.Temp? :: e.name
  }

  lemma EntriesSnoc(entries: seq<Entry>, i: nat)
    requires i < |entries|
    ensures var a, b, e := entries[..i], entries[..i + 1], entries[i];
            && Events(b) == Events(a) + (if e.Event? then [e.f] else [])
            && Total(Events(b)) == Total(Events(a)) + (if e.Event? then e.f.size else 0)
            && Temporary(b) == Temporary(a) + if e.Temp? then {e.name} else {}
  {
    var a, b := entries[..i], entries[..i + 1];
    assert b == a + [entries[i]] && b[..i] == a;
    if entries[i].Event? { TotalSnoc(Events(a), entries[i].f); } else { assert Events(a) + [] == Events(a); }
  }

  /** The event files and the temporary files met, and no others. */
  lemma {:induction false} EntriesExact(entries: seq<Entry>)
    ensures forall f :: f in Events(entries) <==> Event(f) in entries
    ensures forall name :: name in Temporary(entries) <==> Temp(name) in entries
  {
    if entries != [] {
      var n := |entries| - 1;
      assert entries == entries[..n] + [entries[n]];
      EntriesExact(entries[..n]);
    }
  }

  lemma EntriesNone(entries: seq<Entry>)
    ensures Events(entries[..0]) == [] && Total(Events(entries[..0])) == 0 && Temporary(entries[..0]) == {}
  {}

  class Queue {
    const limits: Limits
    /** On disk: pending files, the dead directory, temporary files. */
    var dir: Dir
    var dead: set<string>
    var partial: set<string>
    var count: int
    var bytes: int
    var dropped: nat
    ghost var acked: set<string>
    ghost var lost: set<string>
    ghost var written: set<string>

    ghost function State(): Books
      reads this
    {
      Books(dir, dead, acked, lost, written)
    }

    /** The cached counters are what a fresh `Open` would count. */
    ghost predicate Exact()
      reads this
    {
      Sorted(dir) && count == |dir| && bytes == Total(dir)
    }

    /** A fresh start over the directory: temporary files are removed, unless the removal fails (`stuck`),
        which goes unnoticed, and event files are counted. */
    constructor Open(lim: Limits, entries: seq<Entry>, deadDir: set<string>, stuck: set<string>, ghost b: Books)
      requires Sorted(Events(entries)) && b.dir == Events(entries) && b.dead == deadDir
      ensures Exact() && State() == b && limits == lim && dropped == 0
      ensures partial == Temporary(entries) * stuck
      ensures forall f :: f in dir <==> Event(f) in entries
      ensures forall name :: name in partial <==> Temp(name) in entries && name in stuck
    {
      limits := lim;
      dir, dead, partial, dropped := Events(entries), deadDir, Temporary(entries), 0;
      count, bytes := 0, 0;
      acked, lost, written := b.acked, b.lost, b.written;
      new;
      EntriesExact(entries);
      hide Events, Total, Temporary, Sorted;
      EntriesNone(entries);
      var i := 0;
      while i < |entries|
        invariant i <= |entries| && State() == b && dropped == 0
        invariant count == |Events(entries[..i])| && bytes == Total(Events(entries[..i]))
        invariant partial == Temporary(entries) - (Temporary(entries[..i]) - stuck)
      {
        EntriesSnoc(entries, i);
        match entries[i] {
          case Event(f) =>
            count, bytes := count + 1, bytes + f.size;
          case Temp(name) =>
            if name !in stuck { partial := partial - {name}; }
          case Other =>
        }
        i := i + 1;
      }
      assert entries[..|entries|] == entries;
    }

    /** `enforceLimitsLocked`: drop the oldest until the newcomer fits or nothing is left. */
    method EnforceLimits(incoming: nat, fault: Fault) returns (ok: bool, n: nat)
      requires Exact()
      modifies this`dir, this`lost, this`count, this`bytes, this`dropped
      ensures n <= |old(dir)| && State() == Drop(old(State()), n) && Exact() && dropped == old(dropped) + n
      ensures dir == old(dir)[n..]
      ensures var s := Surplus(limits, old(dir), incoming);
              && (ok <==> !(fault.DropFails? && fault.after < s))
              && n == if ok then s else fault.after
      // with any more of the old events kept a limit would be exceeded; with these, if any are left, none is
      ensures forall gone, kept :: gone + kept == old(dir) && |gone| < n ==>
                |kept| + 1 > limits.maxEvents > 0 || Total(kept) + incoming > limits.maxBytes > 0
      ensures ok && n < |old(dir)| ==>
                && (limits.maxEvents > 0 ==> |old(dir)[n..]| + 1 <= limits.maxEvents)
                && (limits.maxBytes > 0 ==> Total(old(dir)[n..]) + incoming <= limits.maxBytes)
    {
      hide Sorted, Names, Drop, Total, Surplus, Fits, Over;
      n := 0;
      DropNothing(State());
      ghost var s := Surplus(limits, dir, incoming);
      while Over(limits, count, bytes, incoming) && dir != []
        invariant n <= s && n <= |old(dir)| && s == n + Surplus(limits, dir, incoming)
        invariant fault.DropFails? ==> n <= fault.after
        invariant Exact() && State() == Drop(old(State()), n) && dropped == old(dropped) + n && dir == old(dir)[n..]
        decreases |dir|
      {
        SurplusStep(limits, dir, incoming);
        if fault == DropFails(n) {
          SurplusIsLeast(limits, old(dir), incoming);
          return false, n;
        }
        DropNext(old(State()), n);
        lost := lost + Names(dir[..1]);
        count, bytes, dropped := count - 1, bytes - dir[0].size, dropped + 1;
        dir := dir[1..];
        n := n + 1;
      }
      SurplusStep(limits, dir, incoming);
      SurplusIsLeast(limits, old(dir), incoming);
      ok := true;
    }

    /** Afterwards the counters are exact if and only if no pending file had the new file's name: the
        rename replaces such a file, but the counters grow all the same. */
    method Write(f: File, fault: Fault) returns (ok: bool, n: nat)
      requires Exact()
      modifies this`dir, this`lost, this`written, this`partial, this`count, this`bytes, this`dropped
      ensures var s := Surplus(limits, old(dir), f.size);
              && (ok <==> !(fault.DropFails? && fault.after < s) && !fault.WriteFails? && !fault.RenameFails?)
              && n == if fault.DropFails? && fault.after < s then fault.after else s
      ensures n <= |old(dir)| && dropped == old(dropped) + n
      ensures State() == if ok then Put(Drop(old(State()), n), f) else Drop(old(State()), n)
      ensures Sorted(dir) && (Exact() <==> !ok || f.name !in Names(old(dir)[n..]))
      ensures forall g :: g in dir <==> (ok && g == f) || (g in old(dir)[n..] && (ok ==> g.name != f.name))
      ensures partial <= old(partial) + {f.name}
      // with any more of the old events kept a limit would be exceeded; with these, if any are left, none is
      ensures forall gone, kept :: gone + kept == old(dir) && |gone| < n ==>
                |kept| + 1 > limits.maxEvents > 0 || Total(kept) + f.size > limits.maxBytes > 0
      ensures (ok || !fault.DropFails?) && n < |old(dir)| ==>
                && (limits.maxEvents > 0 ==> |old(dir)[n..]| + 1 <= limits.maxEvents)
                && (limits.maxBytes > 0 ==> Total(old(dir)[n..]) + f.size <= limits.maxBytes)
    {
      hide Sorted, Names, Total, Surplus, Drop, Put;
      ok, n := EnforceLimits(f.size, fault);
      DropFiles(old(State()), n);
      if !ok {
        return;
      }
      partial := partial + {f.name};
      if fault.WriteFails? {
        return false, n;
      }
      partial := partial - {f.name};
      if fault.RenameFails? {
        return false, n;
      }
      Commit(f);
    }

    /** The rename that puts the file among the pending ones, and the counting. */
    method Commit(f: File)
      requires Exact()
      modifies this`dir, this`written, this`count, this`bytes
      ensures State() == Put(old(State()), f) && Sorted(dir)
      ensures Exact() <==> f.name !in Names(old(dir))
      ensures forall g :: g in dir <==> g == f || (g in old(dir) && g.name != f.name)
    {
      hide Sorted, Names, Total, Place;
      forall g ensures g in Place(dir, f) <==> g == f || (g in dir && g.name != f.name) {
        PlaceHolds(dir, f, g);
      }
      PlaceCounts(dir, f);
      PlaceSorted(dir, f);
      dir := Place(dir, f);
      written := written + {f.name};
      count, bytes := count + 1, bytes + f.size;
    }

    /** `deadLetterFileLocked`; a name in `stuck` cannot be moved. */
    method DeadLetterFile(name: string, stuck: set<string>) returns (ok: bool)
      requires Exact()
      modifies this`dir, this`dead, this`count, this`bytes
      ensures Exact() && State() == Bury(old(State()), {name} - stuck)
      ensures ok <==> name in Names(old(dir)) ==> name !in stuck
    {
      hide Sorted, Names, Total, Without, SizeOf;
      if name !in Names(dir) || name in stuck {
        TakeForeign(State(), {name} - stuck);
        return name !in Names(dir);
      }
      WithoutOne(dir, name);
      WithoutNames(dir, {name});
      assert {name} - stuck == {name};
      count, bytes := count - 1, bytes - SizeOf(dir, name);
      dead := dead + {name};
      dir := Without(dir, {name});
      ok := true;
    }

    /** One pass of the loop of `Ack`. */
    method AckFile(name: string, stuck: set<string>) returns (ok: bool)
      requires Exact()
      modifies this`dir, this`acked, this`count, this`bytes
      ensures Exact() && State() == Take(old(State()), {name} - stuck)
      ensures ok <==> name in Names(old(dir)) ==> name !in stuck
    {
      hide Sorted, Names, Total, Without, SizeOf;
      if name !in Names(dir) || name in stuck {
        TakeForeign(State(), {name} - stuck);
        return name !in Names(dir);
      }
      WithoutOne(dir, name);
      WithoutNames(dir, {name});
      assert {name} - stuck == {name};
      count, bytes := count - 1, bytes - SizeOf(dir, name);
      acked := acked + {name};
      dir := Without(dir, {name});
      ok := true;
    }

    /** Files already gone, dropped for space since the batch was read, are passed over: they are neither
        acknowledged nor counted out twice. */
    method Ack(files: seq<string>, stuck: set<string>) returns (ok: bool)
      requires Exact()
      modifies this`dir, this`acked, this`count, this`bytes
      ensures Exact() && State() == Take(old(State()), Set(files) - stuck)
      ensures forall g :: g in dir <==> g in old(dir) && (g.name !in files || g.name in stuck)
      ensures ok <==> forall x :: x in files && x in Names(old(dir)) ==> x !in stuck
    {
      hide Sorted, Names, Total, Without, Take, Bury;
      ok := true;
      ghost var start := State();
      ghost var gone: set<string> := {};
      TakeForeign(start, {});
      var i := 0;
      while i < |files|
        invariant i <= |files| && gone == Set(files[..i]) - stuck
        invariant Exact() && State() == Take(start, gone)
        invariant ok <==> forall x :: x in files[..i] && x in Names(start.dir) ==> x !in stuck
      {
        var name := files[i];
        TakeNames(start, gone);
        TakeTwice(start, gone, {name} - stuck);
        assert files[..i + 1] == files[..i] + [name];
        var removed := AckFile(name, stuck);
        ok := ok && removed;
        gone := gone + ({name} - stuck);
        i := i + 1;
      }
      assert files[..|files|] == files;
      forall g ensures g in dir <==> g in old(dir) && g.name !in gone {
        TakeHolds(start, gone, g);
      }
    }

    method DeadLetter(files: seq<string>, stuck: set<string>) returns (ok: bool)
      requires Exact()
      modifies this`dir, this`dead, this`count, this`bytes
      ensures Exact() && State() == Bury(old(State()), Set(files) - stuck)
      ensures forall g :: g in dir <==> g in old(dir) && (g.name !in files || g.name in stuck)
      ensures ok <==> forall x :: x in files && x in Names(old(dir)) ==> x !in stuck
    {
      hide Sorted, Names, Total, Without, Take, Bury;
      ok := true;
      ghost var start := State();
      ghost var gone: set<string> := {};
      TakeForeign(start, {});
      var i := 0;
      while i < |files|
        invariant i <= |files| && gone == Set(files[..i]) - stuck
        invariant Exact() && State() == Bury(start, gone)
        invariant ok <==> forall x :: x in files[..i] && x in Names(start.dir) ==> x !in stuck
      {
        var name := files[i];
        TakeNames(start, gone);
        TakeTwice(start, gone, {name} - stuck);
        assert files[..i + 1] == files[..i] + [name];
        var moved := DeadLetterFile(name, stuck);
        ok := ok && moved;
        gone := gone + ({name} - stuck);
        i := i + 1;
      }
      assert files[..|files|] == files;
      forall g ensures g in dir <==> g in old(dir) && g.name !in gone {
        TakeHolds(start, gone, g);
      }
    }

    /** The oldest events within both bounds stay on disk and are returned; files that do not parse are
        dead-lettered on the way. A file that cannot be read (`unreadable`) ends it with an error. */
    method ReadBatch(maxN: nat, maxBytes: nat, stuck: set<string>, unreadable: set<string>)
        returns (ok: bool, batch: Dir, ghost n: nat)
      requires Exact()
      modifies this`dir, this`dead, this`count, this`bytes
      ensures Exact() && n <= |old(dir)|
      ensures ok ==> Reads(old(dir), maxN, maxBytes, n) && batch == Parseable(old(dir)[..n])
      ensures ok ==> (maxN > 0 ==> |batch| <= maxN) && (maxBytes > 0 ==> |batch| <= 1 || Sum(batch) <= maxBytes)
      ensures ok && n < |old(dir)| ==>
                batch != [] && (|batch| == maxN || Sum(batch) + old(dir)[n].size > maxBytes > 0)
      ensures !ok ==> batch == [] && n < |old(dir)| && old(dir)[n].name in unreadable
                      && (maxN == 0 || |Parseable(old(dir)[..n])| < maxN)
                      && forall j :: 0 <= j < n ==> !Full(Parseable(old(dir)[..j]), old(dir)[j], maxN, maxBytes)
      ensures forall j :: 0 <= j < n ==> old(dir)[j].name !in unreadable
      ensures unreadable == {} ==> ok
      ensures State() == Bury(old(State()), Corrupt(old(dir)[..n]) - stuck)
    {
      hide Sorted, Names, Total, Without, Take, Bury, Parseable, Sum, Corrupt;
      var listed := dir;
      ghost var start := State();
      var total := 0;
      batch := [];
      var i := 0;
      ghost var bad: set<string> := {};
      TakeForeign(start, {});
      assert {} - stuck == {};
      NoneParseable(listed[..0]);
      while i < |listed|
        invariant i <= |listed| && batch == Parseable(listed[..i]) && total == Sum(batch)
        invariant bad == Corrupt(listed[..i]) && forall j :: 0 <= j < i ==> listed[j].name !in unreadable
        invariant forall j :: 0 <= j < i ==> !Full(Parseable(listed[..j]), listed[j], maxN, maxBytes)
        invariant Exact() && State() == Bury(start, bad - stuck)
      {
        var f := listed[i];
        if maxN > 0 && |batch| >= maxN {
          break;
        }
        if f.name in unreadable {
          return false, [], i;
        }
        if maxBytes > 0 && |batch| > 0 && total + f.size > maxBytes {
          break;
        }
        ParseableSnoc(listed, i);
        CorruptSnoc(listed, i);
        if !f.parses {
          TakeTwice(start, bad - stuck, {f.name} - stuck);
          assert (bad - stuck) + ({f.name} - stuck) == (bad + {f.name}) - stuck;
          assert batch + [] == batch;
          var moved := DeadLetterFile(f.name, stuck);
          bad := bad + {f.name};
        } else {
          SumSnoc(batch, f);
          batch, total := batch + [f], total + f.size;
        }
        i := i + 1;
      }
      ok, n := true, i;
      BatchEnds(listed, maxN, maxBytes, n);
    }
  }

  // ---------------------------------------------------------------------------------------------
  // Any interleaving
  // ---------------------------------------------------------------------------------------------

  /** A call by either goroutine, with what goes wrong in it. The files of an `Ack` or a `DeadLetter` are
      those of any batch read before, or none ever read. */
  datatype Call =
    | Writes(f: File, fault: Fault)
    | ReadsBatch(maxN: nat, maxBytes: nat, stuck: set<string>, unreadable: set<string>)
    | Acks(files: seq<string>, stuck: set<string>)
    | DeadLetters(files: seq<string>, stuck: set<string>)

  /** What a call makes of the books. */
  ghost predicate Called(lim: Limits, b: Books, call: Call, c: Books) {
    match call
    case Writes(f, fault) =>
      var s := Surplus(lim, b.dir, f.size);
      if fault.DropFails? && fault.after < s then c == Drop(b, fault.after)
      else if fault.WriteFails? || fault.RenameFails? then c == Drop(b, s)
      else c == Put(Drop(b, s), f)
    case ReadsBatch(_, _, stuck, _) =>
      exists n: nat :: n <= |b.dir| && c == Bury(b, Corrupt(b.dir[..n]) - stuck)
    case Acks(files, stuck) => c == Take(b, Set(files) - stuck)
    case DeadLetters(files, stuck) => c == Bury(b, Set(files) - stuck)
  }

  /** No two writes, and no write and a file ever written, have the same name. */
  ghost predicate NewNames(calls: seq<Call>, written: set<string>) {
    && (forall i :: 0 <= i < |calls| && calls[i].Writes? ==> calls[i].f.name !in written)
    && (forall i, j :: 0 <= i < j < |calls| && calls[i].Writes? && calls[j].Writes? ==>
          calls[i].f.name != calls[j].f.name)
  }

  lemma NewNamesRest(calls: seq<Call>, written: set<string>, more: set<string>)
    requires calls != [] && NewNames(calls, written)
    requires more <= if calls[0].Writes? then {calls[0].f.name} else {}
    ensures NewNames(calls[1..], written + more)
  {
    assert forall i :: 0 <= i < |calls[1..]| ==> calls[1..][i] == calls[i + 1];
  }

  lemma WriteTidy(b: Books, n: nat, f: File)
    requires Tidy(b) && n <= |b.dir| && f.name !in b.written
    ensures Tidy(Drop(b, n)) && Tidy(Put(Drop(b, n), f)) && f.name !in Names(b.dir[n..])
  {
    hide Names, Sorted;
    SortedSuffix(b.dir, n);
    DropTidy(b, n);
    PutTidy(Drop(b, n), f);
    assert f.name !in Names(b.dir) by { DropFiles(b, n); }
  }

  /** One call keeps the counters exact and every file in exactly one place. */
  method OneCall(q: Queue, call: Call)
    requires q.Exact() && Tidy(q.State()) && (call.Writes? ==> call.f.name !in q.written)
    modifies q
    ensures q.Exact() && Tidy(q.State())
    ensures old(q.written) <= q.written <= old(q.written) + if call.Writes? then {call.f.name} else {}
    ensures Called(q.limits, old(q.State()), call, q.State())
  {
    hide Names, Sorted, Total, Tidy, Surplus, Without, Place, Corrupt, Parseable, Full;
    ghost var was := q.State();
    match call
    case Writes(f, fault) =>
      var ok, n := q.Write(f, fault);
      WriteTidy(was, n, f);
    case ReadsBatch(maxN, maxBytes, stuck, unreadable) =>
      var ok, batch;
      ghost var n;
      ok, batch, n := q.ReadBatch(maxN, maxBytes, stuck, unreadable);
      TakeTidy(was, Corrupt(was.dir[..n]) - stuck);
    case Acks(files, stuck) =>
      var ok := q.Ack(files, stuck);
      TakeTidy(was, Set(files) - stuck);
    case DeadLetters(files, stuck) =>
      var ok := q.DeadLetter(files, stuck);
      TakeTidy(was, Set(files) - stuck);
  }

  /** Under any interleaving of calls, batches outstanding while others are written, dropped or settled
      included, the cached counters stay what a fresh scan would find, and every file ever written stays in
      exactly one place. */
  method Interleave(q: Queue, calls: seq<Call>) returns (ghost states: seq<Books>)
    requires q.Exact() && Tidy(q.State()) && NewNames(calls, q.written)
    modifies q
    ensures q.Exact() && Tidy(q.State())
    ensures |states| == |calls| + 1 && states[0] == old(q.State()) && states[|calls|] == q.State()
    ensures forall i :: 0 <= i < |calls| ==> Called(q.limits, states[i], calls[i], states[i + 1])
  {
    hide NewNames, Tidy, Called;
    var i := 0;
    assert calls[0..] == calls;
    states := [q.State()];
    while i < |calls|
      invariant i <= |calls| && q.Exact() && Tidy(q.State())
      invariant NewNames(calls[i..], q.written)
      invariant |states| == i + 1 && states[0] == old(q.State()) && states[i] == q.State()
      invariant forall j :: 0 <= j < i ==> Called(q.limits, states[j], calls[j], states[j + 1])
    {
      ghost var before := q.written;
      NewNamesFirst(calls[i..], q.written);
      OneCall(q, calls[i]);
      NewNamesRest(calls[i..], before, q.written - before);
      assert calls[i..][1..] == calls[i + 1..] && before + (q.written - before) == q.written;
      states := states + [q.State()];
      i := i + 1;
    }
  }

  lemma NewNamesFirst(calls: seq<Call>, written: set<string>)
    requires calls != [] && NewNames(calls, written)
    ensures calls[0].Writes? ==> calls[0].f.name !in written
  {}
}
