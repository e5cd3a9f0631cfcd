/** The findings store: what a batch of Kafka messages does to it, in one transaction with the offsets. */
module Findings {
  import opened Options
  import opened Lines
  import opened Broker

  // ---------------------------------------------------------------------------------------------
  // Normalisation
  // ---------------------------------------------------------------------------------------------

  /** What parsing yields of an alert's identity. */
  datatype Alert = Alert(id: Option<string>, manager: Option<string>)

  /** `parse` finds the JSON object in a message, if it is one; `digest` is the content hash; `storable`
      says whether PostgreSQL accepts the values of the row. All are functions of the bytes alone. */
  datatype Codec = Codec(parse: Bytes -> Option<Alert>, digest: Bytes -> string, storable: Bytes -> bool)

  /** The primary key of a finding. */
  datatype Key = Key(manager: string, alertId: string)

  /** A row: its key, the alert, and the Kafka record it came from. */
  datatype Row = Row(key: Key, raw: Bytes, part: Part, offset: nat)

  /** The alert in these bytes has this identity: the manager's name or nothing, and its id or else the hash
      of its content. */
  ghost predicate Identifies(codec: Codec, raw: Bytes, k: Key) {
    && codec.parse(raw).Some?
    && var a := codec.parse(raw).value;
       && k.manager == (if a.manager.Some? then a.manager.value else "")
       && k.alertId == (if a.id.Some? then a.id.value else "sha256:" + codec.digest(raw))
  }

  function Normalize(codec: Codec, raw: Bytes, part: Part, offset: nat): Option<Row> {
    match codec.parse(raw)
    case None => None
    case Some(alert) =>
      var key := Key(alert.manager.GetOr(""), alert.id.GetOr("sha256:" + codec.digest(raw)));
      Some(Row(key, raw, part, offset))
  }

  // ---------------------------------------------------------------------------------------------
  // Transactions
  // ---------------------------------------------------------------------------------------------

  type Table = map<Key, Row>
  type Offsets = map<Part, nat>
  datatype Db = Db(findings: Table, offsets: Offsets)

  /** INSERT ... ON CONFLICT DO NOTHING */
  function Insert(t: Table, row: Row): Table {
    if row.key in t then t else t[row.key := row]
  }

  function InsertAll(t: Table, rows: seq<Row>): Table {
    if rows == [] then t else Insert(InsertAll(t, rows[..|rows| - 1]), rows[|rows| - 1])
  }

  /** The rows PostgreSQL will store. */
  function Storable(codec: Codec, rows: seq<Row>): seq<Row> {
    if rows == [] then [] else
      var last := rows[|rows| - 1];
      Storable(codec, rows[..|rows| - 1]) + if codec.storable(last.raw) then [last] else []
  }

  /** What writing a batch does: its storable rows are inserted, each partition's offset is replaced. */
  function Written(codec: Codec, db: Db, rows: seq<Row>, offsets: Offsets): Db {
    Db(InsertAll(db.findings, Storable(codec, rows)), db.offsets + offsets)
  }

  lemma StorableSnoc(codec: Codec, rows: seq<Row>, i: nat)
    requires i < |rows|
    ensures Storable(codec, rows[..i + 1])
            == Storable(codec, rows[..i]) + if codec.storable(rows[i].raw) then [rows[i]] else []
  {
    assert rows[..i + 1][..i] == rows[..i];
  }

  lemma InsertAllSnoc(t: Table, rows: seq<Row>, row: Row)
    ensures InsertAll(t, rows + [row]) == Insert(InsertAll(t, rows), row)
  {
    assert (rows + [row])[..|rows|] == rows;
  }

  lemma NoRows(codec: Codec, t: Table, rows: seq<Row>)
    ensures Storable(codec, rows[..0]) == [] && InsertAll(t, []) == t
  {}

  /** Handling one more row of the batch. */
  lemma OneRow(codec: Codec, t: Table, rows: seq<Row>, i: nat)
    requires i < |rows|
    ensures var a, b := Storable(codec, rows[..i]), Storable(codec, rows[..i + 1]);
            if codec.storable(rows[i].raw) then |b| == |a| + 1 && InsertAll(t, b) == Insert(InsertAll(t, a), rows[i])
            else b == a
  {
    StorableSnoc(codec, rows, i);
    if codec.storable(rows[i].raw) { InsertAllSnoc(t, Storable(codec, rows[..i]), rows[i]); }
  }

  lemma StorableLength(codec: Codec, rows: seq<Row>)
    ensures |Storable(codec, rows)| <= |rows|
  {}

  lemma {:induction false} OneRefused(codec: Codec, rows: seq<Row>, i: nat)
    requires i < |rows| && !codec.storable(rows[i].raw)
    ensures |Storable(codec, rows)| < |rows|
  {
    var n := |rows| - 1;
    if i < n { OneRefused(codec, rows[..n], i); } else { StorableLength(codec, rows[..n]); }
  }

  /** Rows are only ever added, at most as many as were inserted, and never replaced. */
  lemma {:induction false} InsertAllAdds(t: Table, rows: seq<Row>)
    ensures forall k :: k in t ==> k in InsertAll(t, rows) && InsertAll(t, rows)[k] == t[k]
    ensures |t| <= |InsertAll(t, rows)| <= |t| + |rows|
  {
    if rows != [] { InsertAllAdds(t, rows[..|rows| - 1]); }
  }

  /** The keys afterwards are the keys before and those of the rows; a new key holds one of the rows. */
  lemma {:induction false} InsertAllKeys(t: Table, rows: seq<Row>, k: Key)
    ensures k in InsertAll(t, rows) <==> k in t || exists i :: 0 <= i < |rows| && rows[i].key == k
    ensures k in InsertAll(t, rows) && k !in t ==>
              exists i :: 0 <= i < |rows| && rows[i] == InsertAll(t, rows)[k] && rows[i].key == k
  {
    if rows != [] {
      var n := |rows| - 1;
      InsertAllKeys(t, rows[..n], k);
      assert forall i :: 0 <= i < n ==> rows[..n][i] == rows[i];
      assert rows[n].key == k ==> k in InsertAll(t, rows);
      if i :| 0 <= i < |rows| && rows[i].key == k {
        assert i < n ==> rows[..n][i].key == k;
      }
    }
  }

  /** What can go wrong with one transaction: nothing; the connection is lost and nothing was committed;
      the commit took effect but a connection error is all the client hears. */
  datatype Fault = NoFault | Lost | Unreported

  datatype WriteResult = Done(inserted: nat, rejected: nat) | Unavailable

  class Store {
    var db: Db
    const codec: Codec

    constructor (codec: Codec, db: Db)
      ensures this.db == db && this.codec == codec
    {
      this.codec, this.db := codec, db;
    }

    /** `write`: one transaction; if PostgreSQL refuses a value, a second one with a savepoint per row.
        Either way the effect is the same: that of inserting the storable rows alone. */
    method Write(rows: seq<Row>, offsets: Offsets, fast: Fault, slow: Fault) returns (r: WriteResult)
      modifies this
      ensures r.Done? ==>
                && db == Written(codec, old(db), rows, offsets)
                && r.inserted == |db.findings| - |old(db).findings|
                && r.rejected == |rows| - |Storable(codec, rows)|
                && r.inserted + r.rejected <= |rows|
      ensures var refused := |Storable(codec, rows)| < |rows|;
              && (r.Unavailable? <==> fast == Lost || (if refused then slow else fast) != NoFault)
              && (r.Unavailable? ==>
                    db == if fast == Lost || (refused && slow == Lost) then old(db)
                          else Written(codec, old(db), rows, offsets))
    {
      NoRows(codec, db.findings, rows);
      hide InsertAll, Storable;
      var tx, inserted, i := db.findings, 0, 0;
      while i < |rows| && codec.storable(rows[i].raw)
        invariant 0 <= i <= |rows| && db == old(db)
        invariant |Storable(codec, rows[..i])| == i && tx == InsertAll(db.findings, Storable(codec, rows[..i]))
        invariant |tx| == |db.findings| + inserted
      {
        OneRow(codec, db.findings, rows, i);
        if rows[i].key !in tx {
          tx := tx[rows[i].key := rows[i]];
          inserted := inserted + 1;
        }
        i := i + 1;
      }
      assert rows[..|rows|] == rows;
      InsertAllAdds(db.findings, Storable(codec, rows));
      StorableLength(codec, rows);
      if fast == Lost { return Unavailable; }
      if i == |rows| {
        db := Db(tx, db.offsets + offsets);
        return if fast == NoFault then Done(inserted, 0) else Unavailable;
      }

      OneRefused(codec, rows, i);
      // a value was refused: roll back and retry row by row
      tx, inserted, i := db.findings, 0, 0;
      var rejected := 0;
      while i < |rows|
        invariant 0 <= i <= |rows| && db == old(db)
        invariant tx == InsertAll(db.findings, Storable(codec, rows[..i]))
        invariant |tx| == |db.findings| + inserted
        invariant rejected == i - |Storable(codec, rows[..i])|
      {
        OneRow(codec, db.findings, rows, i);
        if codec.storable(rows[i].raw) {
          if rows[i].key !in tx {
            tx := tx[rows[i].key := rows[i]];
            inserted := inserted + 1;
          }
        } else {
          rejected := rejected + 1;
        }
        i := i + 1;
      }
      if slow == Lost { return Unavailable; }
      db := Db(tx, db.offsets + offsets);
      r := if slow == NoFault then Done(inserted, rejected) else Unavailable;
    }
  }

  // ---------------------------------------------------------------------------------------------
  // Batches
  // ---------------------------------------------------------------------------------------------

  /** What `consume` returns an element of: a message, or a notice such as end of partition. */
  datatype Event = Message(part: Part, offset: nat, value: Bytes) | Notice

  function RowsOf(codec: Codec, events: seq<Event>): seq<Row> {
    if events == [] then [] else
      var e := events[|events| - 1];
      RowsOf(codec, events[..|events| - 1])
      + if e.Message? && Normalize(codec, e.value, e.part, e.offset).Some?
        then [Normalize(codec, e.value, e.part, e.offset).value] else []
  }

  /** Next offset to read, for each partition with a message in the batch. */
  function OffsetsOf(events: seq<Event>): Offsets {
    if events == [] then map[] else
      var e := events[|events| - 1];
      var m := OffsetsOf(events[..|events| - 1]);
      if e.Message? then m[e.part := e.offset + 1] else m
  }

  function Messages(events: seq<Event>): nat {
    if events == [] then 0 else
      Messages(events[..|events| - 1]) + if events[|events| - 1].Message? then 1 else 0
  }

  lemma RowsCount(codec: Codec, events: seq<Event>)
    ensures |RowsOf(codec, events)| <= Messages(events)
    ensures Messages(events) > 0 <==> OffsetsOf(events) != map[]
  {
    if events != [] {
      RowsCount(codec, events[..|events| - 1]);
      var e := events[|events| - 1];
      if e.Message? { assert e.part in OffsetsOf(events); }
    }
  }

  /** The j-th event is a message that PostgreSQL will store, and its alert has this identity. */
  ghost predicate Gives(codec: Codec, events: seq<Event>, j: int, k: Key) {
    && 0 <= j < |events| && events[j].Message?
    && codec.storable(events[j].value) && Identifies(codec, events[j].value, k)
  }

  /** This row was made of the j-th event. */
  ghost predicate RowFrom(codec: Codec, events: seq<Event>, j: int, row: Row) {
    Gives(codec, events, j, row.key) && row == Row(row.key, events[j].value, events[j].part, events[j].offset)
  }

  /** The table after a batch. */
  ghost function TableAfter(codec: Codec, t: Table, events: seq<Event>): Table {
    InsertAll(t, Storable(codec, RowsOf(codec, events)))
  }

  /** The last event inserts the row of its identity, if it gives one. */
  lemma TableAfterLast(codec: Codec, t: Table, events: seq<Event>, k: Key)
    requires events != []
    ensures var n := |events| - 1;
            var front, e := TableAfter(codec, t, events[..n]), events[n];
            && (Gives(codec, events, n, k) ==>
                  TableAfter(codec, t, events) == Insert(front, Row(k, e.value, e.part, e.offset)))
            && ((forall k :: !Gives(codec, events, n, k)) ==> TableAfter(codec, t, events) == front)
  {
    hide InsertAll;
    var n := |events| - 1;
    var rows, e := RowsOf(codec, events[..n]), events[n];
    if e.Message? && codec.parse(e.value).Some? {
      var row := Normalize(codec, e.value, e.part, e.offset).value;
      assert RowsOf(codec, events) == rows + [row];
      OneRow(codec, t, rows + [row], |rows|);
      assert (rows + [row])[..|rows|] == rows && (rows + [row])[..|rows| + 1] == rows + [row];
      assert codec.storable(e.value) ==> Gives(codec, events, n, row.key);
    } else {
      assert rows + [] == rows;
    }
  }

  /** What a batch puts into the table: every identity it gives has a row, that of the first event to give it
      unless the table had one before, and no other row is new. */
  lemma {:induction false} EventRows(codec: Codec, t: Table, events: seq<Event>, k: Key)
    ensures var u := TableAfter(codec, t, events);
            && (k in u <==> k in t || exists j :: Gives(codec, events, j, k))
            && (k in t ==> u[k] == t[k])
            && (k in u && k !in t ==>
                  u[k].key == k && exists j :: RowFrom(codec, events, j, u[k])
                                               && (forall h :: 0 <= h < j ==> !Gives(codec, events, h, k)))
  {
    hide TableAfter;
    if events == [] {
      NothingAfter(codec, t, events);
    } else {
      var n := |events| - 1;
      var front := events[..n];
      EventRows(codec, t, front, k);
      assert forall j :: 0 <= j < n ==> front[j] == events[j];
      forall j | 0 <= j < n ensures Gives(codec, front, j, k) <==> Gives(codec, events, j, k) {}
      assert forall j :: Gives(codec, events, j, k) ==> j == n || Gives(codec, front, j, k);
      assert forall j, row :: RowFrom(codec, front, j, row) ==> RowFrom(codec, events, j, row);
      if x :| Gives(codec, events, n, x) {
        TableAfterLast(codec, t, events, x);
        OneIdentity(codec, events, n, x, k);
        assert RowFrom(codec, events, n, Row(x, events[n].value, events[n].part, events[n].offset));
      } else {
        TableAfterLast(codec, t, events, k);
      }
    }
  }

  lemma OneIdentity(codec: Codec, events: seq<Event>, j: int, a: Key, b: Key)
    requires Gives(codec, events, j, a)
    ensures Gives(codec, events, j, b) <==> a == b
  {}

  lemma NothingAfter(codec: Codec, t: Table, events: seq<Event>)
    requires events == []
    ensures TableAfter(codec, t, events) == t
  {}

  /** Writing a batch leaves the table after it; nothing is written for a batch without a message. */
  lemma WrittenTable(codec: Codec, db: Db, events: seq<Event>)
    ensures Written(codec, db, RowsOf(codec, events), OffsetsOf(events)).findings
            == TableAfter(codec, db.findings, events)
    ensures Messages(events) == 0 ==> TableAfter(codec, db.findings, events) == db.findings
  {
    RowsCount(codec, events);
    if Messages(events) == 0 {
      assert Storable(codec, RowsOf(codec, events)) == [];
    }
  }

  /** Every storable alert of the batch has its row, and nothing else is new. */
  lemma EveryRow(codec: Codec, t: Table, events: seq<Event>)
    ensures var u := TableAfter(codec, t, events);
            && (forall j :: 0 <= j < |events| && events[j].Message?
                            && codec.parse(events[j].value).Some? && codec.storable(events[j].value) ==>
                  var a := codec.parse(events[j].value).value;
                  var key := Key(if a.manager.Some? then a.manager.value else "",
                                 if a.id.Some? then a.id.value else "sha256:" + codec.digest(events[j].value));
                  && key in u
                  && (key in t ==> u[key] == t[key])
                  && (key !in t ==> u[key].key == key
                                    && exists i :: 0 <= i <= j && RowFrom(codec, events, i, u[key])))
            && (forall k :: k in u && k !in t ==> exists j :: RowFrom(codec, events, j, u[k]))
  {
    hide TableAfter, RowFrom;
    forall j | 0 <= j < |events| && events[j].Message?
               && codec.parse(events[j].value).Some? && codec.storable(events[j].value)
      ensures var a := codec.parse(events[j].value).value;
              var key := Key(if a.manager.Some? then a.manager.value else "",
                             if a.id.Some? then a.id.value else "sha256:" + codec.digest(events[j].value));
              Gives(codec, events, j, key)
    {}
    hide Gives;
    forall j, k | Gives(codec, events, j, k)
      ensures var u := TableAfter(codec, t, events);
              && k in u
              && (k in t ==> u[k] == t[k])
              && (k !in t ==> u[k].key == k && exists i :: 0 <= i <= j && RowFrom(codec, events, i, u[k]))
    {
      OneIdentitysRow(codec, t, events, j, k);
    }
    forall k | k in TableAfter(codec, t, events) && k !in t
      ensures exists j :: RowFrom(codec, events, j, TableAfter(codec, t, events)[k])
    {
      EventRows(codec, t, events, k);
    }
  }

  lemma OneIdentitysRow(codec: Codec, t: Table, events: seq<Event>, j: int, k: Key)
    requires Gives(codec, events, j, k)
    ensures var u := TableAfter(codec, t, events);
            && k in u
            && (k in t ==> u[k] == t[k])
            && (k !in t ==> u[k].key == k && exists i :: 0 <= i <= j && RowFrom(codec, events, i, u[k]))
  {
    hide TableAfter;
    EventRows(codec, t, events, k);
  }

  class Ingestor {
    const store: Store
    var consumed: nat
    var inserted: nat
    var duplicates: nat
    var rejected: nat
    var dbRetries: nat

    constructor (store: Store)
      ensures this.store == store && Balanced()
      ensures consumed == 0
    {
      this.store := store;
      consumed, inserted, duplicates, rejected, dbRetries := 0, 0, 0, 0, 0;
    }

    /** Every message counted was inserted, already there, or turned down. */
    predicate Balanced() reads this { consumed == inserted + duplicates + rejected }

    /** One pass of the main loop over the events of one `consume`. False: the connection failed, and
        the consumer has to go back to the stored offsets. */
    method Process(events: seq<Event>, fast: Fault, slow: Fault) returns (ok: bool)
      requires Balanced()
      modifies this, store
      ensures Balanced()
      ensures var db := Written(store.codec, old(store.db), RowsOf(store.codec, events), OffsetsOf(events));
              && (ok ==> store.db == if Messages(events) > 0 then db else old(store.db))
              && (!ok ==> store.db == old(store.db) || store.db == db)
      ensures consumed == old(consumed) + if ok then Messages(events) else 0
      ensures ok ==> inserted == old(inserted) + |store.db.findings| - |old(store.db).findings|
      ensures ok ==> rejected == old(rejected) + Messages(events)
                                 - |Storable(store.codec, RowsOf(store.codec, events))|
      ensures dbRetries == old(dbRetries) + if ok then 0 else 1
      // a storable alert has its row under its manager, or nothing, and its id, or else its content hash: the
      // row that was there, or that of the first message of the batch with this identity
      ensures ok ==> forall j ::
                0 <= j < |events| && events[j].Message?
                && store.codec.parse(events[j].value).Some? && store.codec.storable(events[j].value) ==>
                var a := store.codec.parse(events[j].value).value;
                var key := Key(if a.manager.Some? then a.manager.value else "",
                               if a.id.Some? then a.id.value else "sha256:" + store.codec.digest(events[j].value));
                && key in store.db.findings
                && (key in old(store.db).findings ==> store.db.findings[key] == old(store.db).findings[key])
                && (key !in old(store.db).findings ==>
                      store.db.findings[key].key == key
                      && exists i :: 0 <= i <= j && RowFrom(store.codec, events, i, store.db.findings[key]))
      // and nothing else is new
      ensures ok ==> forall k :: k in store.db.findings && k !in old(store.db).findings ==>
                exists j :: RowFrom(store.codec, events, j, store.db.findings[k])
    {
      hide Storable, InsertAll, Written, TableAfter, RowFrom, Gives;
      var rows, offsets, count, skipped := [], map[], 0, 0;
      for i := 0 to |events|
        invariant rows == RowsOf(store.codec, events[..i]) && offsets == OffsetsOf(events[..i])
        invariant count == Messages(events[..i]) && skipped == count - |rows|
      {
        assert events[..i + 1][..i] == events[..i];
        match events[i]
        case Notice =>
        case Message(part, offset, value) =>
          count := count + 1;
          offsets := offsets[part := offset + 1];
          var row := Normalize(store.codec, value, part, offset);
          if row.None? { skipped := skipped + 1; } else { rows := rows + [row.value]; }
      }
      assert events[..|events|] == events;
      RowsCount(store.codec, events);
      StorableLength(store.codec, rows);
      hide RowsOf, OffsetsOf, Messages, Normalize;
      ok := true;
      if offsets != map[] {
        var r := store.Write(rows, offsets, fast, slow);
        match r
        case Unavailable =>
          dbRetries := dbRetries + 1;
          ok := false;
        case Done(ins, rej) =>
          consumed := consumed + count;
          inserted := inserted + ins;
          rejected := rejected + skipped + rej;
          duplicates := duplicates + (|rows| - ins - rej);
      }
      if ok {
        WrittenTable(store.codec, old(store.db), events);
        EveryRow(store.codec, old(store.db).findings, events);
      }
    }
  }
}
