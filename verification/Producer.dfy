/** The Kafka producer wrapper: what happens to each message, and what the counters say about it. */
module Producer {
  import opened Options
  import opened Acks
  import opened Checkpoints

  /** A line handed over, named by its file and its sequence number in this run. */
  datatype Id = Id(name: Name, num: nat)

  /** A delivery callback. */
  datatype Outcome = Stored | Rejected(fatal: bool)
  datatype Report = Report(id: Id, outcome: Outcome)

  /** What `produce` does: queue the message, refuse it for good, or find the local queue full, in which
      case the shutdown flag is looked at and pending callbacks are served before the next attempt. */
  datatype Attempt = Queued | Refused | Full(abort: bool, served: seq<Report>)

  /** Callbacks come once per queued message. */
  ghost predicate Serveable(waiting: set<Id>, rs: seq<Report>) {
    && (forall i :: 0 <= i < |rs| ==> rs[i].id in waiting)
    && (forall i, j :: 0 <= i < j < |rs| ==> rs[i].id != rs[j].id)
  }

  ghost function Ids(rs: seq<Report>): set<Id> { set i | 0 <= i < |rs| :: rs[i].id }

  /** From attempt `i` on, the callbacks served are of messages still waiting by then. */
  ghost predicate AttemptsOk(waiting: set<Id>, attempts: seq<Attempt>, i: nat)
    requires i <= |attempts|
    decreases |attempts| - i
  {
    i < |attempts| && attempts[i].Full? && !attempts[i].abort ==>
      Serveable(waiting, attempts[i].served)
      && AttemptsOk(waiting - Ids(attempts[i].served), attempts, i + 1)
  }

  /** Where the messages are: queued with no callback yet; stored; reported as not delivered, so not
      settled and read again by the next run; logged as undeliverable. */
  datatype Ledger = Ledger(waiting: set<Id>, delivered: set<Id>, lost: set<Id>, refused: set<Id>) {
    ghost function Known(): set<Id> { waiting + delivered + lost + refused }
    ghost function Settled(): set<Id> { delivered + refused }
    ghost predicate Disjoint() { waiting !! delivered !! lost !! refused }
    function Queue(id: Id): Ledger { this.(waiting := waiting + {id}) }
    function Refuse(id: Id): Ledger { this.(refused := refused + {id}) }
    function Serve(r: Report): Ledger {
      if r.outcome.Stored? then this.(waiting := waiting - {r.id}, delivered := delivered + {r.id})
      else this.(waiting := waiting - {r.id}, lost := lost + {r.id})
    }
    function ServeAll(rs: seq<Report>): Ledger {
      if rs == [] then this else ServeAll(rs[..|rs| - 1]).Serve(rs[|rs| - 1])
    }
  }

  /** `produced`, `acked` and `failed`, and how a call of `send` and a callback change them. */
  datatype Counters = Counters(produced: nat, acked: nat, failed: nat) {
    function Queued(): Counters { this.(produced := produced + 1) }
    function Refused(): Counters { this.(failed := failed + 1) }
    function Served(stored: bool): Counters {
      if stored then this.(acked := acked + 1) else this.(failed := failed + 1)
    }
  }

  /** The counters tell how many messages are in each place. */
  ghost predicate Tally(l: Ledger, c: Counters) {
    && l.Disjoint()
    && c.produced == |l.waiting| + |l.delivered| + |l.lost|
    && c.acked == |l.delivered|
    && c.failed == |l.lost| + |l.refused|
  }

  lemma TallyServe(l: Ledger, r: Report, c: Counters)
    requires Tally(l, c) && r.id in l.waiting
    ensures Tally(l.Serve(r), c.Served(r.outcome.Stored?))
  {
    hide Ledger.Known, Ledger.Settled, Ledger.Disjoint;
    ServeKnown(l, r);
    WaitingOnly(l, r.id);
    MoveOne(l.waiting, l.delivered, r.id);
    MoveOne(l.waiting, l.lost, r.id);
  }

  lemma WaitingOnly(l: Ledger, id: Id)
    requires l.Disjoint() && id in l.waiting
    ensures id !in l.delivered && id !in l.lost && id !in l.refused
  {}

  lemma MoveOne(from: set<Id>, to: set<Id>, x: Id)
    requires x in from && x !in to
    ensures |from - {x}| == |from| - 1 && |to + {x}| == |to| + 1
  {}

  lemma TallySend(l: Ledger, id: Id, c: Counters)
    requires Tally(l, c) && id !in l.Known()
    ensures Tally(l.Queue(id), c.Queued()) && Tally(l.Refuse(id), c.Refused())
  {}

  lemma SendKnown(l: Ledger, id: Id)
    requires id !in l.Known()
    ensures l.Queue(id).Known() == l.Known() + {id} == l.Refuse(id).Known()
    ensures id !in l.Settled() && id in l.Queue(id).waiting && id !in l.Refuse(id).waiting
    ensures l.Queue(id).(waiting := l.waiting) == l == l.Refuse(id).(refused := l.refused)
    ensures l.Queue(id).Settled() == l.Settled() && l.Refuse(id).Settled() == l.Settled() + {id}
  {}

  /** Serving callbacks moves messages that were waiting and no others. */
  lemma {:induction false} ServeAllMoves(l: Ledger, rs: seq<Report>)
    requires l.Disjoint() && Serveable(l.waiting, rs)
    ensures var m := l.ServeAll(rs);
            && m.Disjoint() && m.waiting == l.waiting - Ids(rs) && m.refused == l.refused
            && l.delivered <= m.delivered && l.lost <= m.lost && m.Known() == l.Known()
  {
    if rs != [] {
      var k := |rs| - 1;
      var init, r, n := rs[..k], rs[k], l.ServeAll(rs[..k]);
      ServeAllMoves(l, init);
      assert rs[..k + 1] == rs;
      IdsSnoc(rs, k);
      assert r.id in n.waiting by { assert forall j :: 0 <= j < k ==> init[j] == rs[j]; }
      ServeKnown(n, r);
    }
  }

  lemma ServeKnown(l: Ledger, r: Report)
    requires r.id in l.waiting && l.Disjoint()
    ensures l.Serve(r).Known() == l.Known() && l.Serve(r).Disjoint()
    ensures l.Serve(r).Settled() == l.Settled() + if r.outcome.Stored? then {r.id} else {}
  {}

  /** The attempt at which a call of `send` ends: the first that is not a full queue to wait for. */
  function Decisive(attempts: seq<Attempt>): (k: nat)
    ensures k <= |attempts|
    ensures forall i :: 0 <= i < k ==> attempts[i].Full? && !attempts[i].abort
    ensures k < |attempts| ==> !attempts[k].Full? || attempts[k].abort
  {
    if attempts == [] || !attempts[0].Full? || attempts[0].abort then 0 else 1 + Decisive(attempts[1..])
  }

  class KafkaWriter {
    /** What `on_ack` reaches: the tracker of each file. */
    const trackers: map<Name, AckTracker>
    var counts: Counters
    var reconnects: nat
    var brokerDown: bool
    var fatal: bool
    var ledger: Ledger          // in librdkafka and in the log
    ghost var settled: set<Id>  // on_ack was called

    ghost predicate Valid()
      reads this, trackers.Values
    {
      Tally(ledger, counts) && settled == ledger.Settled() && Linked(ledger.Known(), settled)
    }

    /** Every message is a tracked line, and every settled one is acknowledged at its tracker. */
    ghost predicate Linked(known: set<Id>, told: set<Id>)
      reads trackers.Values
    {
      && (forall n :: n in trackers ==> trackers[n].Valid())
      && (forall m, n :: m in trackers && n in trackers && m != n ==> trackers[m] != trackers[n])
      && (forall id :: id in known ==> id.name in trackers && id.num < |trackers[id.name].tracked|)
      && (forall id :: id in told && id.name in trackers ==> id.num in trackers[id.name].acks)
    }

    constructor (trackers: map<Name, AckTracker>)
      requires forall n :: n in trackers ==> trackers[n].Valid()
      requires forall m, n :: m in trackers && n in trackers && m != n ==> trackers[m] != trackers[n]
      ensures Valid() && ledger.Known() == {} && this.trackers == trackers && counts == Counters(0, 0, 0)
    {
      this.trackers := trackers;
      counts, reconnects, brokerDown, fatal := Counters(0, 0, 0), 0, false, false;
      ledger, settled := Ledger({}, {}, {}, {}), {};
    }

    lemma ToldIsAcked(known: set<Id>)
      requires Linked(known, settled)
      ensures forall n, i: nat :: n in trackers && Id(n, i) in settled ==> i in trackers[n].acks
    {}

    lemma SettledAcked()
      requires Valid()
      ensures forall n, i: nat :: n in trackers && Id(n, i) in settled ==> i in trackers[n].acks
    {
      hide Linked, Tally, Ledger.Known, Ledger.Settled;
      ToldIsAcked(ledger.Known());
    }

    lemma LinkedMore(known: set<Id>, id: Id)
      requires Linked(known, settled) && id.name in trackers && id.num < |trackers[id.name].tracked|
      ensures Linked(known + {id}, settled)
    {
      hide AckTracker.Valid;
    }

    /** `on_ack` */
    method OnAck(id: Id, ghost known: set<Id>)
      requires Linked(known, settled) && id.name in trackers && id.num < |trackers[id.name].tracked|
      modifies trackers.Values, this`settled
      ensures Linked(known, settled) && settled == old(settled) + {id}
      ensures forall n :: n in trackers ==> trackers[n].tracked == old(trackers[n].tracked)
      ensures forall n, i: nat :: n in trackers ==>
                (i in trackers[n].acks <==> i in old(trackers[n].acks) || Id(n, i) == id)
    {
      hide AckTracker.Valid;
      trackers[id.name].Ack(id.num);
      settled := settled + {id};
    }

    /** `_on_delivery` */
    method OnDelivery(r: Report)
      requires Valid() && r.id in ledger.waiting
      modifies this, trackers.Values
      ensures Valid() && ledger == old(ledger).Serve(r) && counts == old(counts).Served(r.outcome.Stored?)
      ensures fatal <==> old(fatal) || (r.outcome.Rejected? && r.outcome.fatal)
      ensures reconnects == old(reconnects) + if r.outcome.Stored? && old(brokerDown) then 1 else 0
      ensures brokerDown <==> old(brokerDown) && r.outcome.Rejected?
      ensures settled == old(settled) + if r.outcome.Stored? then {r.id} else {}
      ensures forall n :: n in trackers ==> trackers[n].tracked == old(trackers[n].tracked)
      ensures forall n, i: nat :: n in trackers ==>
                (i in trackers[n].acks <==> i in old(trackers[n].acks) || Id(n, i) in settled)
    {
      hide Tally, AckTracker.Valid, Ledger.Known, Ledger.Settled, Ledger.Disjoint, Ledger.Serve, Linked;
      SettledAcked();
      WaitingTracked(r.id);
      TallyServe(ledger, r, counts);
      TallyDisjoint(ledger, counts);
      ServeKnown(ledger, r);
      ledger := ledger.Serve(r);
      match r.outcome
      case Rejected(f) =>
        counts := counts.(failed := counts.failed + 1);
        if f { fatal := true; }
      case Stored =>
        counts := counts.(acked := counts.acked + 1);
        if brokerDown {
          brokerDown := false;
          reconnects := reconnects + 1;
        }
        OnAck(r.id, ledger.Known());
    }

    lemma WaitingTracked(id: Id)
      requires Valid() && id in ledger.waiting
      ensures id.name in trackers && id.num < |trackers[id.name].tracked|
    {
      hide AckTracker.Valid, Tally;
      assert id in ledger.Known();
    }

    /** `poll`: serve callbacks. */
    method Serve(rs: seq<Report>)
      requires Valid() && Serveable(ledger.waiting, rs)
      modifies this, trackers.Values
      ensures Valid() && ledger == old(ledger).ServeAll(rs) && counts.produced == old(counts).produced
      ensures old(settled) <= settled
      ensures forall n :: n in trackers ==> trackers[n].tracked == old(trackers[n].tracked)
      ensures forall n, i: nat :: n in trackers ==>
                (i in trackers[n].acks <==> i in old(trackers[n].acks) || Id(n, i) in settled)
    {
      hide Ledger.Serve, Ledger.Settled, Linked, AckTracker.Valid, Tally, Ledger.Disjoint;
      SettledAcked();
      TallyDisjoint(ledger, counts);
      for i := 0 to |rs|
        invariant Valid() && ledger == old(ledger).ServeAll(rs[..i]) && counts.produced == old(counts).produced
        invariant old(settled) <= settled
        invariant forall n :: n in trackers ==> trackers[n].tracked == old(trackers[n].tracked)
        invariant forall n, i: nat :: n in trackers ==>
                    (i in trackers[n].acks <==> i in old(trackers[n].acks) || Id(n, i) in settled)
      {
        assert rs[..i + 1][..i] == rs[..i];
        ServeAllMoves(old(ledger), rs[..i]);
        NotYetServed(rs, i);
        OnDelivery(rs[i]);
      }
      assert rs[..|rs|] == rs;
    }

    /** The message is queued by the client, or refused for good: counted, and settled at once. */
    method Take(id: Id, queued: bool)
      requires Valid() && id !in ledger.Known() && id.name in trackers && id.num < |trackers[id.name].tracked|
      modifies this`ledger, this`settled, this`counts, trackers.Values
      ensures Valid() && ledger == if queued then old(ledger).Queue(id) else old(ledger).Refuse(id)
      ensures counts == if queued then old(counts).Queued() else old(counts).Refused()
      ensures settled == old(settled) + if queued then {} else {id}
      ensures forall n :: n in trackers ==> trackers[n].tracked == old(trackers[n].tracked)
      ensures forall n, i: nat :: n in trackers ==>
                (i in trackers[n].acks <==> i in old(trackers[n].acks) || Id(n, i) in settled)
    {
      hide Tally, Ledger.Known, Ledger.Disjoint, Ledger.Settled, Ledger.Queue, Ledger.Refuse, AckTracker.Valid,
           Linked;
      SettledAcked();
      TallySend(ledger, id, counts);
      SendKnown(ledger, id);
      LinkedMore(ledger.Known(), id);
      if queued {
        counts := counts.(produced := counts.produced + 1);
        ledger := ledger.Queue(id);
      } else {
        counts := counts.(failed := counts.failed + 1);
        ledger := ledger.Refuse(id);
        OnAck(id, ledger.Known());
      }
    }

    /** Queue one message. True: it is under way, or refused for good and settled. False: shutdown was
        requested while the queue was full, and the message is nowhere. None: still blocked when the
        attempts given run out. Only messages that were waiting have moved. */
    method Send(id: Id, attempts: seq<Attempt>) returns (sent: Option<bool>)
      requires Valid() && id !in ledger.Known() && AttemptsOk(ledger.waiting, attempts, 0)
      requires id.name in trackers && id.num < |trackers[id.name].tracked|
      modifies this, trackers.Values
      ensures Valid()
      ensures var k := Decisive(attempts);
              && sent == (if k == |attempts| then None else Some(!attempts[k].Full?))
              && (sent == Some(true) ==> (attempts[k].Queued? <==> id in ledger.waiting)
                                         && (attempts[k].Refused? <==> id in settled))
      ensures ledger.Known() == old(ledger.Known()) + if sent == Some(true) then {id} else {}
      ensures old(ledger.delivered) <= ledger.delivered && old(ledger.lost) <= ledger.lost && old(settled) <= settled
      ensures counts.produced
              == old(counts).produced + if sent == Some(true) && id in ledger.waiting then 1 else 0
      ensures forall n :: n in trackers ==> trackers[n].tracked == old(trackers[n].tracked)
      ensures forall n, i: nat :: n in trackers ==>
                (i in trackers[n].acks <==> i in old(trackers[n].acks) || Id(n, i) in settled)
    {
      hide Ledger.Serve, Ledger.ServeAll, Ledger.Known, Ledger.Settled, Ledger.Queue, Ledger.Refuse, Tally,
           Ledger.Disjoint, Serveable, Linked, AckTracker.Valid;
      SettledAcked();
      var i := 0;
      while i < |attempts|
        invariant 0 <= i <= |attempts| && Decisive(attempts) == i + Decisive(attempts[i..])
        invariant Valid() && ledger.Known() == old(ledger.Known()) && counts.produced == old(counts).produced
        invariant old(ledger.delivered) <= ledger.delivered && old(ledger.lost) <= ledger.lost
        invariant old(settled) <= settled && AttemptsOk(ledger.waiting, attempts, i)
        invariant forall n :: n in trackers ==> trackers[n].tracked == old(trackers[n].tracked)
        invariant forall n, i: nat :: n in trackers ==>
                    (i in trackers[n].acks <==> i in old(trackers[n].acks) || Id(n, i) in settled)
      {
        assert attempts[i..][1..] == attempts[i + 1..];
        match attempts[i] {
          case Full(abort, served) =>
            if abort { return Some(false); }
            TallyDisjoint(ledger, counts);
            ServeAllMoves(ledger, served);
            Serve(served);
          case Refused =>
            SendKnown(ledger, id);
            Take(id, false);
            return Some(true);
          case Queued =>
            SendKnown(ledger, id);
            Take(id, true);
            return Some(true);
        }
        i := i + 1;
      }
      sent := None;
    }

    /** `_on_error` */
    method OnError(isFatal: bool, allBrokersDown: bool)
      requires Valid()
      modifies this`fatal, this`brokerDown
      ensures Valid()
      ensures fatal <==> old(fatal) || isFatal
      ensures brokerDown <==> old(brokerDown) || (!isFatal && allBrokersDown)
    {
      hide Tally, Linked, Ledger.Known, Ledger.Settled;
      if isFatal {
        fatal := true;
      } else if allBrokersDown {
        brokerDown := true;
      }
    }
  }

  lemma TallyDisjoint(l: Ledger, c: Counters)
    requires Tally(l, c)
    ensures l.Disjoint()
  {}

  lemma NotYetServed(rs: seq<Report>, i: nat)
    requires i < |rs| && forall j, k :: 0 <= j < k < |rs| ==> rs[j].id != rs[k].id
    ensures rs[i].id !in Ids(rs[..i])
  {}

  lemma IdsSnoc(rs: seq<Report>, i: nat)
    requires i < |rs|
    ensures Ids(rs[..i + 1]) == Ids(rs[..i]) + {rs[i].id}
  {
    assert rs[..i + 1] == rs[..i] + [rs[i]];
    assert forall j :: 0 <= j < i ==> rs[..i + 1][j] == rs[..i][j];
    forall x | x in Ids(rs[..i + 1]) ensures x in Ids(rs[..i]) + {rs[i].id} {
      var j :| 0 <= j < i + 1 && rs[..i + 1][j].id == x;
      if j < i { assert rs[..i][j].id == x; }
    }
    forall x | x in Ids(rs[..i]) + {rs[i].id} ensures x in Ids(rs[..i + 1]) {
      if x == rs[i].id {
        assert rs[..i + 1][i].id == x;
      } else {
        var j :| 0 <= j < i && rs[..i][j].id == x;
        assert rs[..i + 1][j].id == x;
      }
    }
  }
}
