/** The ingestor over whole runs: the consumer's position is volatile, the database is not.

    Every failure, wherever it strikes, ends in reading again from the offsets the database holds. */
module Ingest {
  import opened Lines
  import opened Broker
  import opened Findings

  /** `pos` is where the consumer reads next; `origin` where the last assignment placed it; `hand` the
      batch consumed and not written. `base` is, for a partition with a stored offset, where the messages
      accounted for begin. */
  datatype State = State(log: Log, db: Db, reading: bool, pos: Offsets, origin: Offsets,
                         hand: seq<Event>, base: Offsets)

  datatype Config = Config(codec: Codec, fromEnd: bool)

  datatype Step =
    | Produce(part: Part, value: Bytes)
    | Assign
    | Consume(events: seq<Event>)
    | Write(ok: bool, applied: bool)
    | Crash

  /** `assign`: every partition at its stored offset, else at the beginning or the end. */
  function Assigned(cfg: Config, s: State): Offsets {
    map p | p in s.log :: if p in s.db.offsets then s.db.offsets[p] else if cfg.fromEnd then |s.log[p]| else 0
  }

  /** Reading `events` moves the consumer from `from` to `to`: messages come in order, without a gap. */
  ghost predicate Fetch(log: Log, from: Offsets, events: seq<Event>, to: Offsets)
    decreases |events|
  {
    if events == [] then to == from else
      match events[0]
      case Notice => Fetch(log, from, events[1..], to)
      case Message(p, o, v) =>
        && p in from && o == from[p] && p in log && o < |log[p]| && log[p][o] == v
        && Fetch(log, from[p := o + 1], events[1..], to)
  }

  /** What the batch in hand makes of the database. */
  function AfterWrite(cfg: Config, s: State): Db {
    if Messages(s.hand) > 0 then Written(cfg.codec, s.db, RowsOf(cfg.codec, s.hand), OffsetsOf(s.hand)) else s.db
  }

  /** A partition written for the first time is accounted for from where it was assigned. */
  function AfterBase(s: State): Offsets {
    (map p | p in OffsetsOf(s.hand) && p in s.origin :: s.origin[p]) + s.base
  }

  /** Writing a batch is what `Ingestor.Process` does: without a connection error (`ok`) it takes effect;
      with one it may have (`applied`) or not, and either way the consumer goes back to an assignment. */
  ghost predicate Next(cfg: Config, s: State, step: Step, t: State) {
    match step
    case Produce(part, value) =>
      t == s.(log := Appended(s.log, part, value))
    case Assign =>
      t == s.(reading := true, pos := Assigned(cfg, s), origin := Assigned(cfg, s), hand := [])
    case Consume(events) =>
      && s.reading && s.hand == [] && Fetch(s.log, s.pos, events, t.pos)
      && t == s.(pos := t.pos, hand := events)
    case Write(ok, applied) =>
      && s.reading && (ok ==> applied) && (!ok ==> Messages(s.hand) > 0)
      && t == s.(db := if applied then AfterWrite(cfg, s) else s.db,
                 base := if applied then AfterBase(s) else s.base, hand := [], reading := ok)
    case Crash =>
      t == s.(reading := false, hand := [])
  }

  ghost predicate Init(s: State) {
    !s.reading && s.db == Db(map[], map[]) && s.base == map[] && s.origin == map[] && s.hand == []
  }

  // ---------------------------------------------------------------------------------------------
  // The invariant
  // ---------------------------------------------------------------------------------------------

  /** Message `i` of partition `p` is accounted for by the stored offsets. */
  ghost predicate Covered(s: State, p: Part, i: int) {
    p in s.db.offsets && p in s.base && s.base[p] <= i < s.db.offsets[p]
  }

  /** Message `i` of partition `p` is a storable alert with key `k`. */
  ghost predicate HasKey(cfg: Config, log: Log, p: Part, i: int, k: Key) {
    p in log && 0 <= i < |log[p]| && cfg.codec.storable(log[p][i]) && Identifies(cfg.codec, log[p][i], k)
  }

  /** The table holds a row for exactly the keys of the storable alerts accounted for, and each row is the
      normal form of the first of them. */
  ghost predicate TableOk(cfg: Config, s: State) {
    && (forall k, p, i :: Covered(s, p, i) && HasKey(cfg, s.log, p, i, k) ==> HasRow(s.db, k, p, i))
    && (forall k :: k in s.db.findings ==> RowOk(cfg, s, k))
  }

  /** The key has a row, of no later message of the partition than this one. */
  ghost predicate HasRow(db: Db, k: Key, p: Part, i: int) {
    k in db.findings && NotLater(db.findings[k], p, i)
  }

  ghost predicate NotLater(r: Row, p: Part, i: int) {
    r.part == p ==> r.offset <= i
  }

  ghost predicate RowOk(cfg: Config, s: State, k: Key)
    requires k in s.db.findings
  {
    var r := s.db.findings[k];
    && Covered(s, r.part, r.offset) && HasKey(cfg, s.log, r.part, r.offset, k)
    && r == Row(k, s.log[r.part][r.offset], r.part, r.offset)
  }

  ghost predicate OffsetsOk(cfg: Config, s: State) {
    && s.base.Keys == s.db.offsets.Keys
    && (forall p :: p in s.db.offsets ==> p in s.log && s.base[p] <= s.db.offsets[p] <= |s.log[p]|)
    && (!cfg.fromEnd ==> forall p :: p in s.base ==> s.base[p] == 0)
  }

  /** Where reading began that the batch in hand is the result of. */
  function ReadFrom(s: State): Offsets {
    map p | p in s.origin :: if p in s.db.offsets then s.db.offsets[p] else s.origin[p]
  }

  ghost predicate OriginOk(cfg: Config, s: State) {
    && s.origin.Keys <= s.log.Keys
    && (forall p :: p in s.origin && p !in s.db.offsets ==> s.origin[p] <= |s.log[p]|)
    && (!cfg.fromEnd ==> forall p :: p in s.origin && p !in s.db.offsets ==> s.origin[p] == 0)
  }

  ghost predicate ReadingOk(s: State) {
    Fetch(s.log, ReadFrom(s), s.hand, s.pos)
  }

  ghost predicate Inv(cfg: Config, s: State) {
    && OffsetsOk(cfg, s) && OriginOk(cfg, s) && TableOk(cfg, s)
    && (s.reading ==> ReadingOk(s))
  }

  // ---------------------------------------------------------------------------------------------
  // Reading in order
  // ---------------------------------------------------------------------------------------------

  ghost predicate InHand(events: seq<Event>, p: Part, o: int) {
    exists j :: 0 <= j < |events| && events[j].Message? && events[j].part == p && events[j].offset == o
  }

  /** The batch holds, of each partition, exactly the messages between the two positions. */
  lemma {:induction false} FetchCovers(log: Log, from: Offsets, events: seq<Event>, to: Offsets)
    requires Fetch(log, from, events, to)
    ensures to.Keys == from.Keys && forall p :: p in from ==> from[p] <= to[p]
    ensures forall p, o :: InHand(events, p, o) <==> p in from && from[p] <= o < to[p]
    decreases |events|
  {
    if events != [] {
      var e, rest := events[0], events[1..];
      FetchCovers(log, if e.Message? then from[e.part := e.offset + 1] else from, rest, to);
      forall p, o ensures InHand(events, p, o) <==> (e.Message? && e.part == p && e.offset == o) || InHand(rest, p, o) {
        InHandCons(events, p, o);
      }
    }
  }

  lemma InHandCons(events: seq<Event>, p: Part, o: int)
    requires events != []
    ensures InHand(events, p, o) <==>
              (events[0].Message? && events[0].part == p && events[0].offset == o) || InHand(events[1..], p, o)
  {
    if InHand(events[1..], p, o) {
      var j :| 0 <= j < |events[1..]| && events[1..][j].Message? && events[1..][j].part == p
                   && events[1..][j].offset == o;
      assert events[j + 1] == events[1..][j];
    }
    if InHand(events, p, o) {
      var j :| 0 <= j < |events| && events[j].Message? && events[j].part == p && events[j].offset == o;
      assert j > 0 ==> events[1..][j - 1] == events[j];
    }
  }

  /** ... with the values the log holds. */
  lemma {:induction false} FetchValues(log: Log, from: Offsets, events: seq<Event>, to: Offsets, j: nat)
    requires Fetch(log, from, events, to) && j < |events| && events[j].Message?
    ensures var e := events[j];
            e.part in log && e.offset < |log[e.part]| && e.value == log[e.part][e.offset]
    decreases |events|
  {
    if j > 0 {
      var e := events[0];
      FetchValues(log, if e.Message? then from[e.part := e.offset + 1] else from, events[1..], to, j - 1);
    }
  }

  /** Growth of the log does not disturb what was read. */
  lemma {:induction false} FetchGrows(a: Log, b: Log, from: Offsets, events: seq<Event>, to: Offsets)
    requires LogLe(a, b) && Fetch(a, from, events, to)
    ensures Fetch(b, from, events, to)
    decreases |events|
  {
    if events != [] {
      var e := events[0];
      FetchGrows(a, b, if e.Message? then from[e.part := e.offset + 1] else from, events[1..], to);
    }
  }

  /** Splitting off the last event. */
  lemma {:induction false} FetchSnoc(log: Log, from: Offsets, events: seq<Event>, to: Offsets) returns (mid: Offsets)
    requires Fetch(log, from, events, to) && events != []
    ensures Fetch(log, from, events[..|events| - 1], mid)
    ensures Fetch(log, mid, [events[|events| - 1]], to)
    decreases |events|
  {
    if |events| == 1 {
      mid := from;
      assert events[..0] == [] && events == [events[0]];
    } else {
      var e, n := events[0], |events| - 1;
      mid := FetchSnoc(log, if e.Message? then from[e.part := e.offset + 1] else from, events[1..], to);
      assert events[1..][..n - 1] == events[..n][1..];
      assert events[1..][n - 1] == events[n];
    }
  }

  /** The offsets saved with a batch are the positions the consumer has reached. */
  lemma {:induction false} OffsetsReached(log: Log, from: Offsets, events: seq<Event>, to: Offsets)
    requires Fetch(log, from, events, to)
    ensures forall p :: p in OffsetsOf(events) ==>
              p in to && OffsetsOf(events)[p] == to[p] && p in from && from[p] < to[p]
    ensures forall p, o: nat :: InHand(events, p, o) ==> p in OffsetsOf(events)
    ensures forall p :: p in to && p !in OffsetsOf(events) ==> p in from && to[p] == from[p]
    decreases |events|
  {
    if events != [] {
      var mid := FetchSnoc(log, from, events, to);
      OffsetsReached(log, from, events[..|events| - 1], mid);
      FetchCovers(log, from, events[..|events| - 1], mid);
      FetchOne(log, mid, events[|events| - 1], to);
      forall p, o: nat | InHand(events, p, o) ensures p in OffsetsOf(events) {
        InHandSnoc(events, p, o);
      }
    }
  }

  lemma FetchOne(log: Log, from: Offsets, e: Event, to: Offsets)
    requires Fetch(log, from, [e], to)
    ensures e.Notice? ==> to == from
    ensures e.Message? ==> e.part in from && e.offset == from[e.part] && to == from[e.part := e.offset + 1]
  {
    var events := [e];
    assert events[1..] == [];
  }

  lemma InHandSnoc(events: seq<Event>, p: Part, o: int)
    requires events != []
    ensures var last := events[|events| - 1];
            InHand(events, p, o) <==>
              InHand(events[..|events| - 1], p, o) || (last.Message? && last.part == p && last.offset == o)
  {
    var n := |events| - 1;
    assert forall j :: 0 <= j < n ==> events[..n][j] == events[j];
    if InHand(events[..n], p, o) {
      var j :| 0 <= j < n && events[..n][j].Message? && events[..n][j].part == p && events[..n][j].offset == o;
      assert events[j].Message? && events[j].part == p && events[j].offset == o;
    }
    if InHand(events, p, o) {
      var j :| 0 <= j < |events| && events[j].Message? && events[j].part == p && events[j].offset == o;
      assert j < n ==> events[..n][j].part == p;
    }
  }

  // ---------------------------------------------------------------------------------------------
  // Writing a batch
  // ---------------------------------------------------------------------------------------------

  ghost predicate Applied(cfg: Config, s: State, t: State) {
    t == s.(db := AfterWrite(cfg, s), base := AfterBase(s), hand := [], reading := t.reading)
  }

  /** Writing the batch accounts for the messages in hand, and for no others. */
  lemma NewlyCovered(cfg: Config, s: State, t: State, p: Part, i: nat)
    requires OffsetsOk(cfg, s) && OriginOk(cfg, s) && ReadingOk(s) && Applied(cfg, s, t)
    ensures Covered(t, p, i) <==> Covered(s, p, i) || InHand(s.hand, p, i)
  {
    OffsetsReached(s.log, ReadFrom(s), s.hand, s.pos);
    FetchCovers(s.log, ReadFrom(s), s.hand, s.pos);
    RowsCount(cfg.codec, s.hand);
  }

  /** What the positions of a batch mean for the offsets saved with it. */
  lemma HandFacts(cfg: Config, s: State)
    requires ReadingOk(s)
    ensures s.pos.Keys == s.origin.Keys
    ensures forall p :: p in OffsetsOf(s.hand) ==>
              && p in s.pos && OffsetsOf(s.hand)[p] == s.pos[p] && p in s.log
              && ReadFrom(s)[p] <= s.pos[p] <= |s.log[p]|
    ensures forall p :: p in s.pos && p !in OffsetsOf(s.hand) ==> s.pos[p] == ReadFrom(s)[p]
    ensures AfterWrite(cfg, s).offsets == s.db.offsets + OffsetsOf(s.hand)
  {
    OffsetsReached(s.log, ReadFrom(s), s.hand, s.pos);
    FetchCovers(s.log, ReadFrom(s), s.hand, s.pos);
    FetchBounded(s.log, ReadFrom(s), s.hand, s.pos);
    RowsCount(cfg.codec, s.hand);
  }

  /** One partition after a batch has been written. */
  lemma OffsetWritten(cfg: Config, s: State, t: State, p: Part)
    requires OffsetsOk(cfg, s) && OriginOk(cfg, s) && ReadingOk(s) && Applied(cfg, s, t)
    ensures p in t.base <==> p in t.db.offsets
    ensures p in t.db.offsets ==>
              && p in t.log && t.base[p] <= t.db.offsets[p] <= |t.log[p]| && (!cfg.fromEnd ==> t.base[p] == 0)
              && (p in OffsetsOf(s.hand) ==> p in s.pos && t.db.offsets[p] == s.pos[p])
    ensures p in s.origin ==>
              p in s.pos && s.pos[p] == if p in t.db.offsets then t.db.offsets[p] else s.origin[p]
  {
    HandFacts(cfg, s);
    hide OffsetsOf, AfterWrite, Fetch;
  }

  lemma WriteKeepsOffsets(cfg: Config, s: State, t: State)
    requires OffsetsOk(cfg, s) && OriginOk(cfg, s) && ReadingOk(s) && Applied(cfg, s, t)
    ensures OffsetsOk(cfg, t)
  {
    hide AfterWrite, AfterBase, ReadingOk, OriginOk, OffsetsOf, Applied;
    forall p ensures p in t.base <==> p in t.db.offsets {
      OffsetWritten(cfg, s, t, p);
    }
    forall p | p in t.db.offsets
      ensures p in t.log && t.base[p] <= t.db.offsets[p] <= |t.log[p]| && (!cfg.fromEnd ==> t.base[p] == 0)
    {
      OffsetWritten(cfg, s, t, p);
    }
  }

  lemma WriteKeepsReading(cfg: Config, s: State, t: State)
    requires OffsetsOk(cfg, s) && OriginOk(cfg, s) && ReadingOk(s) && Applied(cfg, s, t)
    ensures OriginOk(cfg, t) && ReadingOk(t)
  {
    HandFacts(cfg, s);
    hide OffsetsOf, AfterWrite, AfterBase, OffsetsOk;
    forall p | p in s.origin ensures p in s.pos && s.pos[p] == ReadFrom(t)[p] {
      OffsetWritten(cfg, s, t, p);
    }
    assert ReadFrom(t) == s.pos;
  }

  /** The consumer never gets ahead of the log. */
  lemma {:induction false} FetchBounded(log: Log, from: Offsets, events: seq<Event>, to: Offsets)
    requires Fetch(log, from, events, to)
    ensures forall p :: p in to && p in from && from[p] < to[p] ==> p in log && to[p] <= |log[p]|
    decreases |events|
  {
    if events != [] {
      var e := events[0];
      var next := if e.Message? then from[e.part := e.offset + 1] else from;
      FetchBounded(log, next, events[1..], to);
      FetchCovers(log, next, events[1..], to);
    }
  }

  /** Within a partition the batch is in the order of the log. */
  lemma {:induction false} FetchOrdered(log: Log, from: Offsets, events: seq<Event>, to: Offsets, i: nat, j: nat)
    requires Fetch(log, from, events, to) && i <= j < |events| && events[i].Message? && events[j].Message?
    requires events[i].part == events[j].part
    ensures events[i].offset <= events[j].offset
    decreases |events|
  {
    if i < j {
      var e := events[0];
      var next := if e.Message? then from[e.part := e.offset + 1] else from;
      if i > 0 {
        FetchOrdered(log, next, events[1..], to, i - 1, j - 1);
      } else {
        FetchCovers(log, next, events[1..], to);
        assert events[1..][j - 1] == events[j];
        assert InHand(events[1..], e.part, events[j].offset);
      }
    }
  }

  /** What the batch makes of the table. */
  lemma AfterTable(cfg: Config, s: State)
    ensures AfterWrite(cfg, s).findings == TableAfter(cfg.codec, s.db.findings, s.hand)
  {
    hide Written, TableAfter;
    WrittenTable(cfg.codec, s.db, s.hand);
  }

  /** The message in hand with a storable alert has a row, and none later in its partition. */
  lemma HandStored(cfg: Config, s: State, p: Part, i: nat, k: Key)
    requires OffsetsOk(cfg, s) && ReadingOk(s) && TableOk(cfg, s) && InHand(s.hand, p, i) && HasKey(cfg, s.log, p, i, k)
    ensures HasRow(AfterWrite(cfg, s), k, p, i)
  {
    hide TableAfter, AfterWrite;
    var j :| 0 <= j < |s.hand| && s.hand[j].Message? && s.hand[j].part == p && s.hand[j].offset == i;
    FetchValues(s.log, ReadFrom(s), s.hand, s.pos, j);
    AfterTable(cfg, s);
    EventRows(cfg.codec, s.db.findings, s.hand, k);
    assert Gives(cfg.codec, s.hand, j, k);
    if k in s.db.findings {
      assert RowOk(cfg, s, k);
      FetchCovers(s.log, ReadFrom(s), s.hand, s.pos);
    } else {
      var r := AfterWrite(cfg, s).findings[k];
      var h :| RowFrom(cfg.codec, s.hand, h, r) && forall h2 :: 0 <= h2 < h ==> !Gives(cfg.codec, s.hand, h2, k);
      if r.part == p { FetchOrdered(s.log, ReadFrom(s), s.hand, s.pos, h, j); }
    }
  }

  /** A key new to the table comes from a storable message in hand, and its row is that message's. */
  lemma NewKeyFromHand(cfg: Config, s: State, k: Key)
    requires ReadingOk(s) && k in AfterWrite(cfg, s).findings && k !in s.db.findings
    ensures var r := AfterWrite(cfg, s).findings[k];
            && InHand(s.hand, r.part, r.offset) && HasKey(cfg, s.log, r.part, r.offset, k)
            && r == Row(k, s.log[r.part][r.offset], r.part, r.offset)
  {
    hide TableAfter, AfterWrite;
    AfterTable(cfg, s);
    EventRows(cfg.codec, s.db.findings, s.hand, k);
    var j :| RowFrom(cfg.codec, s.hand, j, AfterWrite(cfg, s).findings[k]);
    FetchValues(s.log, ReadFrom(s), s.hand, s.pos, j);
  }

  lemma RowStays(cfg: Config, s: State, k: Key)
    requires k in s.db.findings
    ensures k in AfterWrite(cfg, s).findings && AfterWrite(cfg, s).findings[k] == s.db.findings[k]
  {
    InsertAllAdds(s.db.findings, Storable(cfg.codec, RowsOf(cfg.codec, s.hand)));
  }

  lemma WriteKeepsTable(cfg: Config, s: State, t: State)
    requires Inv(cfg, s) && s.reading && Applied(cfg, s, t)
    ensures TableOk(cfg, t)
  {
    hide AfterWrite, OffsetsOk, OriginOk, ReadingOk, Covered, InHand, HasKey, AfterBase;
    forall k, p, i | Covered(t, p, i) && HasKey(cfg, t.log, p, i, k) ensures HasRow(t.db, k, p, i) {
      KeyIndex(cfg, t.log, p, i, k);
      NewlyCovered(cfg, s, t, p, i);
      if Covered(s, p, i) { RowStays(cfg, s, k); } else { HandStored(cfg, s, p, i, k); }
    }
    forall k | k in t.db.findings ensures RowOk(cfg, t, k) {
      if k in s.db.findings {
        RowStays(cfg, s, k);
        assert RowOk(cfg, s, k);
      } else {
        NewKeyFromHand(cfg, s, k);
      }
      NewlyCovered(cfg, s, t, t.db.findings[k].part, t.db.findings[k].offset);
    }
  }

  lemma KeyIndex(cfg: Config, log: Log, p: Part, i: int, k: Key)
    requires HasKey(cfg, log, p, i, k)
    ensures i >= 0
  {}

  // ---------------------------------------------------------------------------------------------
  // Main results
  // ---------------------------------------------------------------------------------------------

  lemma ProduceOk(cfg: Config, s: State, t: State, part: Part, value: Bytes)
    requires Inv(cfg, s) && Next(cfg, s, Produce(part, value), t)
    ensures Inv(cfg, t)
  {
    AppendedGrows(s.log, part, value);
    forall k, p, i | Covered(t, p, i) && HasKey(cfg, t.log, p, i, k) ensures HasRow(t.db, k, p, i) {
      assert s.log[p] <= t.log[p];
      assert Covered(s, p, i) && HasKey(cfg, s.log, p, i, k);
    }
    forall k | k in t.db.findings ensures RowOk(cfg, t, k) {
      assert RowOk(cfg, s, k);
    }
    if s.reading {
      assert ReadFrom(t) == ReadFrom(s);
      FetchGrows(s.log, t.log, ReadFrom(s), s.hand, s.pos);
    }
  }

  lemma SameTable(cfg: Config, s: State, t: State)
    requires TableOk(cfg, s) && t.db == s.db && t.base == s.base && t.log == s.log
    ensures TableOk(cfg, t)
  {
    forall k, p, i | Covered(t, p, i) && HasKey(cfg, t.log, p, i, k) ensures HasRow(t.db, k, p, i) {
      assert Covered(s, p, i);
    }
    forall k | k in t.db.findings ensures RowOk(cfg, t, k) {
      assert RowOk(cfg, s, k);
    }
  }

  lemma AssignOk(cfg: Config, s: State, t: State)
    requires Inv(cfg, s) && Next(cfg, s, Assign, t)
    ensures Inv(cfg, t)
  {
    SameTable(cfg, s, t);
    assert ReadFrom(t) == t.pos;
  }

  lemma NextKeepsInv(cfg: Config, s: State, step: Step, t: State)
    requires Inv(cfg, s) && Next(cfg, s, step, t)
    ensures Inv(cfg, t)
  {
    hide TableOk, Applied;
    match step
    case Produce(part, value) => ProduceOk(cfg, s, t, part, value);
    case Assign => AssignOk(cfg, s, t);
    case Consume(events) =>
      SameTable(cfg, s, t);
      assert ReadFrom(t) == ReadFrom(s);
    case Write(ok, applied) =>
      if applied {
        WriteApplies(cfg, s, t, ok);
        WriteKeepsOffsets(cfg, s, t);
        WriteKeepsReading(cfg, s, t);
        WriteKeepsTable(cfg, s, t);
      } else {
        SameTable(cfg, s, t);
      }
    case Crash => SameTable(cfg, s, t);
  }

  lemma WriteApplies(cfg: Config, s: State, t: State, ok: bool)
    requires Next(cfg, s, Write(ok, true), t)
    ensures Applied(cfg, s, t)
  {}

  ghost predicate Trace(cfg: Config, ss: seq<State>, steps: seq<Step>) {
    && |ss| == |steps| + 1 && Init(ss[0])
    && forall i :: 0 <= i < |steps| ==> Next(cfg, ss[i], steps[i], ss[i + 1])
  }

  lemma {:induction false} TraceInv(cfg: Config, ss: seq<State>, steps: seq<Step>, i: nat)
    requires Trace(cfg, ss, steps) && i < |ss|
    ensures Inv(cfg, ss[i])
  {
    if i > 0 {
      hide Inv, Next, Init;
      TraceInv(cfg, ss, steps, i - 1);
      NextKeepsInv(cfg, ss[i - 1], steps[i - 1], ss[i]);
    }
  }

  /** The row of a storable alert accounted for. */
  lemma RowOfMessage(cfg: Config, s: State, p: Part, i: int)
    requires Inv(cfg, s) && Covered(s, p, i) && p in s.log && 0 <= i < |s.log[p]|
    requires cfg.codec.parse(s.log[p][i]).Some? && cfg.codec.storable(s.log[p][i])
    ensures var a := cfg.codec.parse(s.log[p][i]).value;
            var key := Key(if a.manager.Some? then a.manager.value else "",
                           if a.id.Some? then a.id.value else "sha256:" + cfg.codec.digest(s.log[p][i]));
            && Identifies(cfg.codec, s.log[p][i], key) && key in s.db.findings && RowOk(cfg, s, key)
            && (s.db.findings[key].part == p ==> s.db.findings[key].offset <= i)
  {
    var a := cfg.codec.parse(s.log[p][i]).value;
    var key := Key(if a.manager.Some? then a.manager.value else "",
                   if a.id.Some? then a.id.value else "sha256:" + cfg.codec.digest(s.log[p][i]));
    hide OffsetsOk, OriginOk, ReadingOk, RowOk;
    assert HasKey(cfg, s.log, p, i, key);
  }

  /** The row of a key in the table. */
  lemma MessageOfRow(cfg: Config, s: State, k: Key)
    requires Inv(cfg, s) && k in s.db.findings
    ensures var r := s.db.findings[k];
            && Covered(s, r.part, r.offset) && r.part in s.log && r.offset < |s.log[r.part]|
            && r == Row(k, s.log[r.part][r.offset], r.part, r.offset)
            && cfg.codec.storable(r.raw) && cfg.codec.parse(r.raw).Some?
            && var a := cfg.codec.parse(r.raw).value;
               && k.manager == (if a.manager.Some? then a.manager.value else "")
               && k.alertId == (if a.id.Some? then a.id.value else "sha256:" + cfg.codec.digest(r.raw))
  {
    assert RowOk(cfg, s, k);
  }

  /** Exactly once. In every run, whatever fails and whether a failed commit took effect or not: every
      storable alert in a message accounted for by the stored offsets has a row under its manager, or
      nothing, and its id, or else its content hash, and no other key has a row. The row is made of a message
      accounted for with this same identity, in this partition none later. With start_from=beginning the
      messages accounted for are all messages below the stored offsets. */
  lemma TableIsExact(cfg: Config, ss: seq<State>, steps: seq<Step>, n: nat, p: Part, i: int, k: Key)
    requires Trace(cfg, ss, steps) && n < |ss|
    ensures Covered(ss[n], p, i) ==> p in ss[n].log && 0 <= i < |ss[n].log[p]|
    ensures Covered(ss[n], p, i) && cfg.codec.parse(ss[n].log[p][i]).Some? && cfg.codec.storable(ss[n].log[p][i]) ==>
              var a := cfg.codec.parse(ss[n].log[p][i]).value;
              var key := Key(if a.manager.Some? then a.manager.value else "",
                             if a.id.Some? then a.id.value else "sha256:" + cfg.codec.digest(ss[n].log[p][i]));
              && key in ss[n].db.findings
              && (ss[n].db.findings[key].part == p ==> ss[n].db.findings[key].offset <= i)
    ensures k in ss[n].db.findings ==>
              var r := ss[n].db.findings[k];
              && Covered(ss[n], r.part, r.offset) && r.part in ss[n].log && r.offset < |ss[n].log[r.part]|
              && r == Row(k, ss[n].log[r.part][r.offset], r.part, r.offset)
              && cfg.codec.storable(r.raw) && cfg.codec.parse(r.raw).Some?
              && var a := cfg.codec.parse(r.raw).value;
                 && k.manager == (if a.manager.Some? then a.manager.value else "")
                 && k.alertId == (if a.id.Some? then a.id.value else "sha256:" + cfg.codec.digest(r.raw))
    ensures !cfg.fromEnd ==> (Covered(ss[n], p, i) <==> p in ss[n].db.offsets && 0 <= i < ss[n].db.offsets[p])
  {
    TraceInv(cfg, ss, steps, n);
    CoveredInLog(cfg, ss[n], p, i);
    hide Trace, Inv, Covered, RowOk, Identifies;
    if Covered(ss[n], p, i) && cfg.codec.parse(ss[n].log[p][i]).Some? && cfg.codec.storable(ss[n].log[p][i]) {
      RowOfMessage(cfg, ss[n], p, i);
    }
    if k in ss[n].db.findings { MessageOfRow(cfg, ss[n], k); }
  }

  lemma CoveredInLog(cfg: Config, s: State, p: Part, i: int)
    requires Inv(cfg, s)
    ensures Covered(s, p, i) ==> p in s.log && 0 <= i < |s.log[p]|
    ensures !cfg.fromEnd ==> (Covered(s, p, i) <==> p in s.db.offsets && 0 <= i < s.db.offsets[p])
  {
    hide OriginOk, ReadingOk, TableOk;
  }

  /** Two storable alerts accounted for share a row if and only if they agree in manager and id, where no
      manager reads as the empty one and no id as the content hash. */
  lemma SharedRow(cfg: Config, ss: seq<State>, steps: seq<Step>, n: nat, p: Part, i: int, q: Part, h: int)
    requires Trace(cfg, ss, steps) && n < |ss|
    requires Covered(ss[n], p, i) && p in ss[n].log && 0 <= i < |ss[n].log[p]|
    requires Covered(ss[n], q, h) && q in ss[n].log && 0 <= h < |ss[n].log[q]|
    requires cfg.codec.parse(ss[n].log[p][i]).Some? && cfg.codec.storable(ss[n].log[p][i])
    requires cfg.codec.parse(ss[n].log[q][h]).Some? && cfg.codec.storable(ss[n].log[q][h])
    ensures var x, y := ss[n].log[p][i], ss[n].log[q][h];
            var a, b := cfg.codec.parse(x).value, cfg.codec.parse(y).value;
            (exists k :: k in ss[n].db.findings && Identifies(cfg.codec, x, k) && Identifies(cfg.codec, y, k))
            <==>
            && (if a.manager.Some? then a.manager.value else "") == (if b.manager.Some? then b.manager.value else "")
            && (if a.id.Some? then a.id.value else "sha256:" + cfg.codec.digest(x))
               == (if b.id.Some? then b.id.value else "sha256:" + cfg.codec.digest(y))
  {
    TraceInv(cfg, ss, steps, n);
    RowOfMessage(cfg, ss[n], p, i);
    RowOfMessage(cfg, ss[n], q, h);
    hide Trace, Inv, Covered, RowOk;
  }

  /** One step never takes back or replaces a row, nor an offset, nor where a partition's account begins. */
  lemma NextOnlyAdds(cfg: Config, s: State, step: Step, t: State)
    requires Inv(cfg, s) && Next(cfg, s, step, t)
    ensures forall k :: k in s.db.findings ==> k in t.db.findings && t.db.findings[k] == s.db.findings[k]
    ensures forall p :: p in s.db.offsets ==>
              p in t.db.offsets && s.db.offsets[p] <= t.db.offsets[p] && p in s.base && p in t.base
              && t.base[p] == s.base[p]
  {
    hide TableOk, OriginOk, Fetch;
    if step.Write? && step.applied {
      HandFacts(cfg, s);
      forall k | k in s.db.findings ensures k in t.db.findings && t.db.findings[k] == s.db.findings[k] {
        RowStays(cfg, s, k);
      }
      hide AfterWrite, OffsetsOf;
    }
  }

  /** The first committed copy of an alert is kept unchanged for good. */
  lemma {:induction false} FirstCopyStays(cfg: Config, ss: seq<State>, steps: seq<Step>, m: nat, n: nat, k: Key)
    requires Trace(cfg, ss, steps) && m <= n < |ss| && k in ss[m].db.findings
    ensures k in ss[n].db.findings && ss[n].db.findings[k] == ss[m].db.findings[k]
    decreases n
  {
    hide Inv, Next, Init;
    if m < n {
      FirstCopyStays(cfg, ss, steps, m, n - 1, k);
      TraceInv(cfg, ss, steps, n - 1);
      NextOnlyAdds(cfg, ss[n - 1], steps[n - 1], ss[n]);
    }
  }

  /** Once a partition has a stored offset, nothing behind it is ever skipped: the account keeps its
      beginning and its end only moves on. */
  lemma {:induction false} AccountGrows(cfg: Config, ss: seq<State>, steps: seq<Step>, m: nat, n: nat, p: Part)
    requires Trace(cfg, ss, steps) && m <= n < |ss| && p in ss[m].db.offsets
    ensures p in ss[m].base && p in ss[n].base && p in ss[n].db.offsets
    ensures ss[n].base[p] == ss[m].base[p] && ss[m].db.offsets[p] <= ss[n].db.offsets[p]
    decreases n
  {
    hide Next, Init, TableOk, OriginOk, ReadingOk;
    TraceInv(cfg, ss, steps, m);
    if m < n {
      AccountGrows(cfg, ss, steps, m, n - 1, p);
      TraceInv(cfg, ss, steps, n - 1);
      NextOnlyAdds(cfg, ss[n - 1], steps[n - 1], ss[n]);
    }
  }

  /** Message `i` will still be read: it is not below the stored offset, or, with none stored, not below the
      place of the last assignment. */
  ghost predicate Ahead(s: State, p: Part, i: int) {
    if p in s.db.offsets then s.db.offsets[p] <= i else p in s.origin && s.origin[p] <= i
  }

  /** Message `i` has been passed over: the account begins, or will begin, behind it. */
  ghost predicate PassedOver(s: State, p: Part, i: int) {
    && p in s.log && i < |s.log[p]|
    && if p in s.db.offsets then p in s.base && i < s.base[p] else p in s.origin && i < s.origin[p]
  }

  /** With start_from=end what was passed over stays so, whatever happens next. */
  lemma PassedOverStays(cfg: Config, s: State, step: Step, t: State, p: Part, i: int)
    requires Inv(cfg, s) && Next(cfg, s, step, t) && cfg.fromEnd && PassedOver(s, p, i)
    ensures PassedOver(t, p, i)
  {
    hide TableOk, Fetch;
    NextOnlyAdds(cfg, s, step, t);
    if step.Write? && step.applied { HandFacts(cfg, s); }
    hide OffsetsOf, AfterWrite;
  }

  lemma {:induction false} PassedOverForGood(cfg: Config, ss: seq<State>, steps: seq<Step>, m: nat, n: nat, p: Part,
                                             i: int)
    requires Trace(cfg, ss, steps) && m <= n < |ss| && cfg.fromEnd && PassedOver(ss[m], p, i)
    ensures PassedOver(ss[n], p, i)
    decreases n
  {
    hide Inv, Next, Init, PassedOver;
    if m < n {
      PassedOverForGood(cfg, ss, steps, m, n - 1, p, i);
      TraceInv(cfg, ss, steps, n - 1);
      PassedOverStays(cfg, ss[n - 1], steps[n - 1], ss[n], p, i);
    }
  }

  /** A reconnection loses a message that is waiting to be read if and only if the policy is start_from=end
      and no offset of its partition is stored yet: then, in every continuation of the run, the message is
      never accounted for; otherwise, in every continuation, it is accounted for or still ahead. */
  lemma ReassignSkips(cfg: Config, ss: seq<State>, steps: seq<Step>, m: nat, n: nat, p: Part, i: nat)
    requires Trace(cfg, ss, steps) && m < n < |ss| && steps[m] == Assign
    requires p in ss[m].log && i < |ss[m].log[p]| && Ahead(ss[m], p, i)
    ensures cfg.fromEnd && p !in ss[m].db.offsets <==> !Covered(ss[n], p, i) && !Ahead(ss[n], p, i)
  {
    hide TableOk, Fetch, Init, AfterWrite, AfterBase;
    TraceInv(cfg, ss, steps, m);
    TraceInv(cfg, ss, steps, n);
    assert Next(cfg, ss[m], Assign, ss[m + 1]);
    if cfg.fromEnd && p !in ss[m].db.offsets {
      assert PassedOver(ss[m + 1], p, i);
      PassedOverForGood(cfg, ss, steps, m + 1, n, p, i);
    } else if cfg.fromEnd {
      AccountGrows(cfg, ss, steps, m, n, p);
    } else {
      OriginStays(cfg, ss, steps, m + 1, n, p);
    }
  }

  /** A partition once assigned stays assigned. */
  lemma {:induction false} OriginStays(cfg: Config, ss: seq<State>, steps: seq<Step>, m: nat, n: nat, p: Part)
    requires Trace(cfg, ss, steps) && m <= n < |ss| && p in ss[m].origin && p in ss[m].log
    ensures p in ss[n].origin && p in ss[n].log
    decreases n
  {
    hide Init, Fetch, AfterWrite, AfterBase;
    if m < n {
      OriginStays(cfg, ss, steps, m, n - 1, p);
      assert Next(cfg, ss[n - 1], steps[n - 1], ss[n]);
    }
  }

  /** A run in which it happens: a message comes in between two assignments, with nothing stored yet. */
  lemma ReassignCanSkip(codec: Codec, p: Part, a: Bytes, b: Bytes) returns (ss: seq<State>, steps: seq<Step>)
    ensures Trace(Config(codec, true), ss, steps) && |ss| == 5 && steps[3] == Assign
    ensures p in ss[3].log && 1 < |ss[3].log[p]| && Ahead(ss[3], p, 1) && p !in ss[3].db.offsets
    ensures !Covered(ss[4], p, 1) && !Ahead(ss[4], p, 1)
  {
    var cfg := Config(codec, true);
    steps := [Produce(p, a), Assign, Produce(p, b), Assign];
    var s0 := State(map[], Db(map[], map[]), false, map[], map[], [], map[]);
    var s1 := s0.(log := map[p := [a]]);
    var s2 := s1.(reading := true, pos := map[p := 1], origin := map[p := 1]);
    var s3 := s2.(log := map[p := [a, b]]);
    var s4 := s3.(pos := map[p := 2], origin := map[p := 2]);
    assert [] + [a] == [a] && [a] + [b] == [a, b];
    assert Appended(s0.log, p, a) == s1.log && Appended(s2.log, p, b) == s3.log;
    assert Assigned(cfg, s1) == map[p := 1] && Assigned(cfg, s3) == map[p := 2];
    ss := [s0, s1, s2, s3, s4];
  }
}
