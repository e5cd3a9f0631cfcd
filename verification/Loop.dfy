/** The forwarder's main loop on the objects themselves: starting, polling and tracking a line each do what
    the corresponding step of `Forwarder` says, and the loop over all tails keeps what the steps rely on. */
module Loop {
  import opened Options
  import opened Lines
  import opened Watcher
  import opened Rotation
  import opened Acks
  import opened Checkpoints
  import opened Broker
  import opened Forwarder
  import P = Producer

  // ---------------------------------------------------------------------------------------------
  // Starting and polling
  // ---------------------------------------------------------------------------------------------

  /** What a poll step lets happen around it is what the tailer relies on. */
  lemma PollFileIsPollEnv(cfg: Config, log: Log, n: Name, f: File, acts: seq<Act>, dir: seq<Entry>, dir2: seq<Entry>,
                          max: int, statFails: bool, g: File)
    requires RunOk(cfg, log, n, f) && PollFile(f, acts, dir, dir2, max, statFails, g)
    ensures PollEnv(f.w, dir, DoAll(f.w, acts), dir2, f.run.tail, f.run.cur)
  {
    hide TailAt, Listed, LegalAll, Opened, Grows, RaceLoses, HandsOn;
    RunTail(cfg, log, n, f);
    LegalIsPollEnv(f.w, acts, dir, dir2, f.run.tail, f.run.cur);
  }

  /** The guards of a poll step. */
  ghost predicate MayPoll(f: File, acts: seq<Act>, dir: seq<Entry>, dir2: seq<Entry>, max: int, statFails: bool) {
    var v, o := DoAll(f.w, acts), Opened(f.w, dir, f.run.tail);
    && f.run.batch == [] && max > 0
    && LegalAll(f.w, acts, Some(o)) && Listed(f.w, dir, f.run.cur.gen) && Listed(v, dir2, f.run.cur.gen)
    && (Grows(f.w, v) && CursorOk(f.w, f.run.cur) && CursorOk(v, f.run.cur) && !statFails ==>
          !RaceLoses(f.w, v, o, f.run.cur, max))
  }

  /** Polling the tailer of a file is the poll step of the machine. */
  method PollTail(tail: FileTail, ghost cfg: Config, ghost log: Log, ghost n: Name, ghost f: File,
                  w: World, acts: seq<Act>, dir: seq<Entry>, dir2: seq<Entry>, max: int, statFails: bool)
      returns (lines: seq<Line>, ghost g: File)
    requires RunOk(cfg, log, n, f) && MayPoll(f, acts, dir, dir2, max, statFails)
    requires f.w == w && f.run.tail == tail.State() && f.run.cur == tail.cur
    modifies tail
    ensures PollFile(f, acts, dir, dir2, max, statFails, g)
    ensures g.run.tail == tail.State() && g.run.cur == tail.cur && g.run.batch == lines
  {
    hide TailAt, Listed, LegalAll, Opened, Grows, RaceLoses, HandsOn, RunOk, Before;
    var v := DoAll(w, acts);
    ghost var t, c := tail.State(), tail.cur;
    RunTail(cfg, log, n, f);
    LegalIsPollEnv(w, acts, dir, dir2, t, c);
    OpenedTail(w, dir, t, c);
    DoAllKeepsTail(w, acts, Opened(w, dir, t), c);
    StandsOk(w, t, c);
    StandsOk(v, Opened(w, dir, t), c);
    lines := tail.Poll(w, dir, v, dir2, max, statFails);
    g := f.(w := v, run := f.run.(tail := tail.State(), cur := tail.cur, batch := lines));
  }

  /** Constructing the tailer and its tracker is the start step of the machine. */
  method StartTail(ghost cfg: Config, ghost f: File, w: World, dir: seq<Entry>, fromEnd: bool, saved: Option<Position>)
      returns (tail: FileTail, tracker: AckTracker, ghost g: File)
    requires f.w == w && fromEnd == cfg.fromEnd && DistinctInodes(w)
    requires saved.Some? ==> StartEnv(w, dir, At(w, saved.value).gen)
    requires saved.None? && fromEnd && AtPathAny(w) ==> EndsLine(w.gens[|w.gens| - 1].bytes)
    ensures fresh(tail) && fresh(tracker) && tracker.Valid() && tracker.tracked == [] && tracker.acks == {}
    ensures StartFile(cfg, f, dir, saved, g)
    ensures g.run.tail == tail.State() && g.run.cur == tail.cur && g.run.start == tracker.initial
  {
    hide StartOf, StartCursor, StartEnv, DistinctInodes;
    tail := new FileTail(w, dir, fromEnd, saved);
    var start := if tail.open then Some(Position(tail.inode, tail.offset)) else None;
    tracker := new AckTracker(start);
    g := f.(base := if saved.None? then tail.cur else f.base,
            run := Run(tail.State(), tail.cur, tail.cur, start, [], [], []));
  }

  // ---------------------------------------------------------------------------------------------
  // The line loop
  // ---------------------------------------------------------------------------------------------

  /** How the loop over the lines of one poll ends: all are handled; `send` came back with false because the
      shutdown flag was seen on a full queue; or `send` was still blocked when its attempts ran out. */
  datatype LoopEnd = Finished | Aborted | Blocked

  /** What the client library does at each attempt to queue a message, given the messages waiting. */
  type Client = (nat, set<P.Id>) -> seq<P.Attempt>

  ghost predicate Serves(client: Client) {
    forall k, waiting :: P.AttemptsOk(waiting, client(k, waiting), 0)
  }

  /** The fate the loop gives to a line. */
  predicate FateFits(cfg: Config, l: Line, fate: Fate) {
    if IsBlank(l.raw) then fate == Blank
    else if !cfg.isJson(l.raw) then fate == Malformed
    else fate in {Undeliverable, Sent, Unsent}
  }

  /** In plain terms: blank is a line of white space only, malformed is any other that is no JSON. */
  lemma FateMeans(cfg: Config, l: Line, fate: Fate)
    requires FateFits(cfg, l, fate)
    ensures fate == Blank <==> forall i :: 0 <= i < |l.raw| ==> 9 <= l.raw[i] <= 13 || l.raw[i] == 32
    ensures fate == Malformed <==>
              (exists i :: 0 <= i < |l.raw| && !(9 <= l.raw[i] <= 13 || l.raw[i] == 32)) && !cfg.isJson(l.raw)
    ensures fate in {Blank, Malformed, Undeliverable, Sent, Unsent}
  {}

  /** The lines of this call that are in the writer's ledger. */
  ghost function HandedOver(n: Name, base: nat, fates: seq<Fate>): set<P.Id> {
    set i: nat | i < |fates| && fates[i] in {Sent, Undeliverable} :: P.Id(n, base + i)
  }

  /** The attempt that decided found the queue full with the shutdown flag set. */
  ghost predicate AbortSeen(attempts: seq<P.Attempt>) {
    var k := P.Decisive(attempts);
    k < |attempts| && attempts[k].Full?
  }

  method TrackLine(writer: P.KafkaWriter, n: Name, l: Line) returns (num: nat)
    requires writer.Valid() && n in writer.trackers
    modifies writer.trackers[n]
    ensures writer.Valid() && num == |old(writer.trackers[n].tracked)|
    ensures writer.trackers[n].tracked == old(writer.trackers[n].tracked) + [Position(l.inode, l.end)]
    ensures writer.trackers[n].acks == old(writer.trackers[n].acks) && num !in writer.trackers[n].acks
    ensures P.Id(n, num) !in writer.ledger.Known()
    ensures forall m :: m in writer.trackers && m != n ==> writer.trackers[m] != writer.trackers[n]
  {
    hide AckTracker.Valid, P.Tally, P.Ledger.Known, P.Ledger.Settled;
    num := writer.trackers[n].Track(l.inode, l.end);
  }

  method AckLine(writer: P.KafkaWriter, n: Name, num: nat)
    requires writer.Valid() && n in writer.trackers && num < |writer.trackers[n].tracked|
    modifies writer.trackers[n]
    ensures writer.Valid() && writer.trackers[n].tracked == old(writer.trackers[n].tracked)
    ensures writer.trackers[n].acks == old(writer.trackers[n].acks) + {num}
    ensures forall m :: m in writer.trackers && m != n ==> writer.trackers[m] != writer.trackers[n]
  {
    hide AckTracker.Valid, P.Tally, P.Ledger.Known, P.Ledger.Settled;
    writer.trackers[n].Ack(num);
  }

  /** The file as the tracking step of the machine leaves it. */
  ghost function Tracked(f: File, fate: Fate): File
    requires f.run.batch != []
  {
    var l, r := f.run.batch[0], f.run;
    f.(dropped := if fate == Undeliverable then f.dropped + {l} else f.dropped,
       handed := if fate == Sent then f.handed + {l} else f.handed,
       run := r.(tracked := r.tracked + [l], fates := r.fates + [fate], batch := r.batch[1..]))
  }

  /** One line: tracked, then settled on the spot, queued, refused, or left unsent. This is the tracking step
      of the machine. */
  method HandleLine(cfg: Config, n: Name, l: Line, writer: P.KafkaWriter, client: Client, k: nat, ghost f: File)
      returns (fate: Fate, aborted: bool, ghost g: File)
    requires writer.Valid() && n in writer.trackers && Serves(client)
    requires f.run.batch != [] && f.run.batch[0] == l
    modifies writer, writer.trackers.Values
    ensures writer.Valid() && FateFits(cfg, l, fate) && g == Tracked(f, fate) && TrackFile(cfg, f, fate, g)
    // settled unsent if and only if every byte of it is white space, or it is no JSON
    ensures fate == Blank <==> forall i :: 0 <= i < |l.raw| ==> 9 <= l.raw[i] <= 13 || l.raw[i] == 32
    ensures fate == Malformed <==>
              (exists i :: 0 <= i < |l.raw| && !(9 <= l.raw[i] <= 13 || l.raw[i] == 32)) && !cfg.isJson(l.raw)
    ensures fate in {Blank, Malformed, Undeliverable, Sent, Unsent}
    ensures writer.trackers[n].tracked == old(writer.trackers[n].tracked) + [Position(l.inode, l.end)]
    ensures aborted ==> fate == Unsent && AbortSeen(client(k, old(writer.ledger.waiting)))
    ensures old(writer.settled) <= writer.settled
    ensures var num := |old(writer.trackers[n].tracked)|;
            && writer.ledger.Known()
               == old(writer.ledger.Known()) + (if fate in {Sent, Undeliverable} then {P.Id(n, num)} else {})
            && forall i: nat :: i in writer.trackers[n].acks <==>
                 i in old(writer.trackers[n].acks) || (i == num && fate in {Blank, Malformed})
                 || P.Id(n, i) in writer.settled
    ensures forall m :: m in writer.trackers && m != n ==>
              writer.trackers[m].tracked == old(writer.trackers[m].tracked)
    ensures forall m, i: nat :: m in writer.trackers && m != n ==>
              (i in writer.trackers[m].acks <==> i in old(writer.trackers[m].acks) || P.Id(m, i) in writer.settled)
  {
    hide P.KafkaWriter.Valid, AckTracker.Valid, IsBlank, P.AttemptsOk, P.Ledger.Known;
    writer.SettledAcked();
    aborted := false;
    var attempts := client(k, writer.ledger.waiting);
    var num := TrackLine(writer, n, l);
    if IsBlank(l.raw) {
      AckLine(writer, n, num);
      fate := Blank;
    } else if !cfg.isJson(l.raw) {
      AckLine(writer, n, num);
      fate := Malformed;
    } else {
      var sent := writer.Send(P.Id(n, num), attempts);
      if sent == Some(true) {
        fate := if attempts[P.Decisive(attempts)].Queued? then Sent else Undeliverable;
      } else {
        fate, aborted := Unsent, sent.Some?;
      }
    }
    g := Tracked(f, fate);
    FateMeans(cfg, l, fate);
  }

  lemma HandedMore(n: Name, base: nat, fates: seq<Fate>, fate: Fate)
    ensures HandedOver(n, base, fates + [fate])
            == HandedOver(n, base, fates) + if fate in {Sent, Undeliverable} then {P.Id(n, base + |fates|)} else {}
  {
    var all := fates + [fate];
    forall id ensures id in HandedOver(n, base, all) <==>
                        id in HandedOver(n, base, fates)
                        || (fate in {Sent, Undeliverable} && id == P.Id(n, base + |fates|)) {
      if id in HandedOver(n, base, fates) {
        var i: nat :| i < |fates| && fates[i] in {Sent, Undeliverable} && id == P.Id(n, base + i);
        assert all[i] == fates[i];
      }
      if fate in {Sent, Undeliverable} && id == P.Id(n, base + |fates|) {
        assert all[|fates|] == fate;
      }
    }
  }

  lemma EndsMore(lines: seq<Line>, k: nat)
    requires k < |lines|
    ensures Ends(lines[..k + 1]) == Ends(lines[..k]) + [Position(lines[k].inode, lines[k].end)]
  {}

  /** One tracking step of the machine after the other takes `f`, with these lines polled, through `gs`. */
  ghost predicate InTurn(cfg: Config, f: File, lines: seq<Line>, fates: seq<Fate>, gs: seq<File>) {
    && |fates| <= |lines| && |gs| == |fates| + 1 && gs[0] == f && gs[|fates|].run.batch == lines[|fates|..]
    && forall i :: 0 <= i < |fates| ==> TrackFile(cfg, gs[i], fates[i], gs[i + 1])
  }

  lemma NextInTurn(cfg: Config, f: File, lines: seq<Line>, fates: seq<Fate>, gs: seq<File>, fate: Fate, g: File)
    requires InTurn(cfg, f, lines, fates, gs) && |fates| < |lines|
    requires TrackFile(cfg, gs[|fates|], fate, g)
    ensures InTurn(cfg, f, lines, fates + [fate], gs + [g])
  {
    hide IsBlank;
    assert g.run.batch == gs[|fates|].run.batch[1..];
    hide TrackFile;
  }

  /** Each line has the fate its content calls for; at most the last is unsent, and then the loop ended. */
  ghost predicate FatesFit(cfg: Config, lines: seq<Line>, fates: seq<Fate>, end: LoopEnd) {
    && |fates| <= |lines|
    && (forall i :: 0 <= i < |fates| ==> FateFits(cfg, lines[i], fates[i]))
    && (forall i :: 0 <= i < |fates| && fates[i] == Unsent ==> i == |fates| - 1 && end != Finished)
    && (end != Finished ==> fates != [] && fates[|fates| - 1] == Unsent)
  }

  lemma NextFits(cfg: Config, lines: seq<Line>, fates: seq<Fate>, fate: Fate, aborted: bool)
    requires FatesFit(cfg, lines, fates, Finished) && |fates| < |lines| && FateFits(cfg, lines[|fates|], fate)
    ensures FatesFit(cfg, lines, fates + [fate],
                     if fate != Unsent then Finished else if aborted then Aborted else Blocked)
  {
    hide FateFits;
  }

  /** The body of the main loop for the lines of one poll: one tracking step of the machine after another.
      Blank or malformed lines are acknowledged on the spot, the others are in the writer's ledger, and at
      most one line, the last, is left unsent, only when shutdown was seen or the queue stayed full. */
  method TrackLines(cfg: Config, n: Name, lines: seq<Line>, writer: P.KafkaWriter, client: Client, time: nat,
                    ghost f: File)
      returns (fates: seq<Fate>, end: LoopEnd, ghost gs: seq<File>, ghost waiting: set<P.Id>)
    requires writer.Valid() && n in writer.trackers && Serves(client) && f.run.batch == lines
    modifies writer, writer.trackers.Values
    ensures writer.Valid() && |fates| <= |lines|
    ensures writer.trackers[n].tracked == old(writer.trackers[n].tracked) + Ends(lines[..|fates|])
    ensures if end == Finished then |fates| == |lines| else fates != []
    ensures end == Aborted ==> AbortSeen(client(time + |fates| - 1, waiting))
    ensures writer.ledger.Known()
            == old(writer.ledger.Known()) + HandedOver(n, |old(writer.trackers[n].tracked)|, fates)
    ensures var base := |old(writer.trackers[n].tracked)|;
            forall num: nat :: base <= num < base + |fates| ==>
              (num in writer.trackers[n].acks <==>
                 fates[num - base] in {Blank, Malformed} || P.Id(n, num) in writer.settled)
    ensures old(writer.settled) <= writer.settled
    ensures forall m :: m in writer.trackers && m != n ==>
              writer.trackers[m].tracked == old(writer.trackers[m].tracked)
    ensures forall m, i: nat :: m in writer.trackers && i < |old(writer.trackers[m].tracked)| ==>
              (i in writer.trackers[m].acks <==> i in old(writer.trackers[m].acks) || P.Id(m, i) in writer.settled)
    ensures InTurn(cfg, f, lines, fates, gs) && FatesFit(cfg, lines, fates, end)
    ensures forall k :: 0 <= k < |fates| ==>
              (fates[k] == Blank <==>
                 forall i :: 0 <= i < |lines[k].raw| ==> 9 <= lines[k].raw[i] <= 13 || lines[k].raw[i] == 32)
  {
    hide P.KafkaWriter.Valid, AckTracker.Valid, FateFits, Serves, P.Ledger.Known, AbortSeen, HandedOver, Ends,
         TrackFile, InTurn, FatesFit;
    ghost var before := writer.trackers[n].tracked;
    ghost var base := |before|;
    fates, end, gs, waiting := [], Finished, [f], {};
    NothingHanded(n, base, lines);
    TrackedBelow(writer, n);
    writer.SettledAcked();
    NoLinesYet(cfg, f, lines);
    while |fates| < |lines| && end == Finished
      invariant |fates| <= |lines| && writer.Valid()
      invariant InTurn(cfg, f, lines, fates, gs) && FatesFit(cfg, lines, fates, end)
      invariant writer.trackers[n].tracked == before + Ends(lines[..|fates|])
      invariant end != Finished ==> fates != []
      invariant end == Aborted ==> AbortSeen(client(time + |fates| - 1, waiting))
      invariant writer.ledger.Known() == old(writer.ledger.Known()) + HandedOver(n, base, fates)
      invariant forall num: nat :: base <= num < base + |fates| ==>
                  (num in writer.trackers[n].acks <==>
                     fates[num - base] in {Blank, Malformed} || P.Id(n, num) in writer.settled)
      invariant old(writer.settled) <= writer.settled
      invariant forall m :: m in writer.trackers && m != n ==>
                  writer.trackers[m].tracked == old(writer.trackers[m].tracked)
      invariant forall m, i: nat :: m in writer.trackers && i < |old(writer.trackers[m].tracked)| ==>
                  (i in writer.trackers[m].acks <==>
                     i in old(writer.trackers[m].acks) || P.Id(m, i) in writer.settled)
      decreases |lines| - |fates|
    {
      var k := |fates|;
      EndsMore(lines, k);
      TrackedBelow(writer, n);
      EndsLength(lines[..k]);
      waiting := writer.ledger.waiting;
      NextToHandle(cfg, f, lines, fates, gs);
      ghost var g;
      var fate, aborted;
      fate, aborted, g := HandleLine(cfg, n, lines[k], writer, client, time + k, gs[k]);
      HandedMore(n, base, fates, fate);
      NextInTurn(cfg, f, lines, fates, gs, fate, g);
      NextFits(cfg, lines, fates, fate, aborted);
      fates, gs := fates + [fate], gs + [g];
      if fate == Unsent { end := if aborted then Aborted else Blocked; }
    }
    FatesMean(cfg, lines, fates, end);
  }

  lemma FatesMean(cfg: Config, lines: seq<Line>, fates: seq<Fate>, end: LoopEnd)
    requires FatesFit(cfg, lines, fates, end)
    ensures |fates| <= |lines|
    ensures forall k :: 0 <= k < |fates| ==>
              (fates[k] == Blank <==>
                 forall i :: 0 <= i < |lines[k].raw| ==> 9 <= lines[k].raw[i] <= 13 || lines[k].raw[i] == 32)
  {
    forall k | 0 <= k < |fates|
      ensures fates[k] == Blank <==>
                forall i :: 0 <= i < |lines[k].raw| ==> 9 <= lines[k].raw[i] <= 13 || lines[k].raw[i] == 32
    {
      assert FateFits(cfg, lines[k], fates[k]);
      FateMeans(cfg, lines[k], fates[k]);
    }
  }

  lemma NoLinesYet(cfg: Config, f: File, lines: seq<Line>)
    requires f.run.batch == lines
    ensures InTurn(cfg, f, lines, [], [f]) && FatesFit(cfg, lines, [], Finished)
  {}

  lemma NextToHandle(cfg: Config, f: File, lines: seq<Line>, fates: seq<Fate>, gs: seq<File>)
    requires InTurn(cfg, f, lines, fates, gs) && |fates| < |lines|
    ensures |gs| == |fates| + 1 && gs[|fates|].run.batch != [] && gs[|fates|].run.batch[0] == lines[|fates|]
  {}

  lemma EndsLength(lines: seq<Line>)
    ensures |Ends(lines)| == |lines|
  {}

  lemma NothingHanded(n: Name, base: nat, lines: seq<Line>)
    ensures HandedOver(n, base, []) == {} && Ends(lines[..0]) == []
  {}

  /** Only tracked lines have been acknowledged. */
  lemma TrackedBelow(writer: P.KafkaWriter, n: Name)
    requires writer.Valid() && n in writer.trackers
    ensures forall i: nat :: i in writer.trackers[n].acks ==> i < |writer.trackers[n].tracked|
    ensures forall i: nat :: P.Id(n, i) in writer.settled ==> i < |writer.trackers[n].tracked|
  {
    writer.SettledAcked();
    assert writer.trackers[n].Valid();
  }

  // ---------------------------------------------------------------------------------------------
  // The loop over all tails
  // ---------------------------------------------------------------------------------------------

  /** A line the loop has handled: its file and its fate. */
  datatype Handled = Handled(name: Name, line: Line, fate: Fate)

  /** What the loop has handled, in order. */
  type Record = seq<Handled>

  function Tagged(n: Name, lines: seq<Line>, fates: seq<Fate>): (r: Record)
    requires |fates| <= |lines|
    ensures |r| == |fates| && forall i :: 0 <= i < |r| ==> r[i] == Handled(n, lines[i], fates[i])
  {
    seq(|fates|, i requires 0 <= i < |fates| => Handled(n, lines[i], fates[i]))
  }

  /** The lines in the record, each with its file. */
  function LinesIn(record: Record): (r: seq<(Name, Line)>)
    ensures |r| == |record| && forall i :: 0 <= i < |r| ==> r[i] == (record[i].name, record[i].line)
  {
    seq(|record|, i requires 0 <= i < |record| => (record[i].name, record[i].line))
  }

  /** The fates of the lines of one file. */
  function FatesIn(record: Record, n: Name): seq<Fate> {
    if record == [] then [] else
      FatesIn(record[..|record| - 1], n)
      + if record[|record| - 1].name == n then [record[|record| - 1].fate] else []
  }

  lemma {:induction false} FatesMore(record: Record, n: Name, lines: seq<Line>, fates: seq<Fate>, m: Name)
    requires |fates| <= |lines|
    ensures FatesIn(record + Tagged(n, lines, fates), m) == FatesIn(record, m) + if m == n then fates else []
  {
    if fates == [] {
      assert record + Tagged(n, lines, fates) == record;
    } else {
      var k := |fates| - 1;
      var all := record + Tagged(n, lines, fates);
      assert all[..|all| - 1] == record + Tagged(n, lines, fates[..k]);
      FatesMore(record, n, lines, fates[..k], m);
      assert fates == fates[..k] + [fates[k]];
    }
  }

  /** The shutdown flag as the checks find it, by time. It is never cleared: a check after another check or an
      attempt that found it set finds it set. */
  ghost predicate StaysSet(client: Client, stop: nat -> bool) {
    && (forall k, waiting, m :: AbortSeen(client(k, waiting)) && k <= m ==> stop(m))
    && (forall k, m :: stop(k) && k <= m ==> stop(m))
  }

  /** Why the loop ended. */
  datatype Exit = Done | Shutdown | FatalError | QueueFull

  /** The lines that the polls of the first `j` tails in pass `p` hand on, behind those of all passes before. */
  function Polled(polled: (nat, Name) -> seq<Line>, tails: seq<Name>, p: nat, j: nat): seq<(Name, Line)>
    requires j <= |tails|
    decreases p, j
  {
    if j > 0 then Polled(polled, tails, p, j - 1) + Named(tails[j - 1], polled(p, tails[j - 1]))
    else if p > 0 then Polled(polled, tails, p - 1, |tails|)
    else []
  }

  function Named(n: Name, lines: seq<Line>): (r: seq<(Name, Line)>)
    ensures |r| == |lines| && forall i :: 0 <= i < |r| ==> r[i] == (n, lines[i])
  {
    seq(|lines|, i requires 0 <= i < |lines| => (n, lines[i]))
  }

  /** More tails and more passes only add lines. */
  lemma {:induction false} PolledGrows(polled: (nat, Name) -> seq<Line>, tails: seq<Name>, p: nat, j: nat, q: nat,
                                       k: nat)
    requires j <= |tails| && k <= |tails| && (p < q || (p == q && j <= k))
    ensures Polled(polled, tails, p, j) <= Polled(polled, tails, q, k)
    decreases q, k
  {
    if k > 0 {
      if p < q || j < k { PolledGrows(polled, tails, p, j, q, k - 1); }
    } else if p < q {
      PolledGrows(polled, tails, p, j, q - 1, |tails|);
    }
  }

  /** The share of one tail, handled in part or whole, continues the record. */
  lemma JoinPolled(polled: (nat, Name) -> seq<Line>, tails: seq<Name>, p: nat, j: nat, record: Record, fates: seq<Fate>)
    requires j < |tails| && LinesIn(record) == Polled(polled, tails, p, j) && |fates| <= |polled(p, tails[j])|
    ensures var all := record + Tagged(tails[j], polled(p, tails[j]), fates);
            && LinesIn(all) <= Polled(polled, tails, p, j + 1)
            && (|fates| == |polled(p, tails[j])| ==> LinesIn(all) == Polled(polled, tails, p, j + 1))
  {}

  /** Every line in the record has the fate its content calls for. */
  ghost predicate AllFit(cfg: Config, record: Record) {
    forall i :: 0 <= i < |record| ==> FateFits(cfg, record[i].line, record[i].fate)
  }

  lemma JoinFits(cfg: Config, record: Record, n: Name, lines: seq<Line>, fates: seq<Fate>, end: LoopEnd)
    requires AllFit(cfg, record) && FatesFit(cfg, lines, fates, end) && |fates| <= |lines|
    ensures AllFit(cfg, record + Tagged(n, lines, fates))
  {
    hide FateFits;
  }

  lemma AllMean(cfg: Config, record: Record)
    requires AllFit(cfg, record)
    ensures forall k :: 0 <= k < |record| ==>
              var raw := record[k].line.raw;
              record[k].fate == Blank <==> forall i :: 0 <= i < |raw| ==> 9 <= raw[i] <= 13 || raw[i] == 32
  {
    forall k | 0 <= k < |record|
      ensures var raw := record[k].line.raw;
              record[k].fate == Blank <==> forall i :: 0 <= i < |raw| ==> 9 <= raw[i] <= 13 || raw[i] == 32
    {
      FateMeans(cfg, record[k].line, record[k].fate);
    }
  }

  /** At most one line in the record is unsent, and it is the last. */
  ghost predicate LastUnsent(record: Record) {
    forall i :: 0 <= i < |record| && record[i].fate == Unsent ==> i == |record| - 1
  }

  /** What a tracker with `count` lines knows of those since it had `base`: their number, and that exactly those
      are acknowledged that are blank, malformed or settled. */
  ghost predicate InformedBy(count: nat, acks: set<nat>, settled: set<P.Id>, n: Name, base: nat, fates: seq<Fate>) {
    && count == base + |fates|
    && forall num: nat :: base <= num < base + |fates| ==>
         (num in acks <==> fates[num - base] in {Blank, Malformed} || P.Id(n, num) in settled)
  }

  ghost predicate Informed(writer: P.KafkaWriter, n: Name, base: nat, fates: seq<Fate>)
    requires n in writer.trackers
    reads writer`settled, writer.trackers[n]
  {
    InformedBy(|writer.trackers[n].tracked|, writer.trackers[n].acks, writer.settled, n, base, fates)
  }

  lemma MoreInformed(n: Name, base: nat, fates: seq<Fate>, more: seq<Fate>, a: set<nat>, s: set<P.Id>,
                     b: set<nat>, t: set<P.Id>)
    requires InformedBy(base + |fates|, a, s, n, base, fates) && s <= t
    requires forall i: nat :: i < base + |fates| ==> (i in b <==> i in a || P.Id(n, i) in t)
    requires forall num: nat :: base + |fates| <= num < base + |fates| + |more| ==>
               (num in b <==> more[num - base - |fates|] in {Blank, Malformed} || P.Id(n, num) in t)
    ensures InformedBy(base + |fates| + |more|, b, t, n, base, fates + more)
  {
    forall num: nat | base <= num < base + |fates + more|
      ensures num in b <==> (fates + more)[num - base] in {Blank, Malformed} || P.Id(n, num) in t
    {
      assert num < base + |fates| ==> (fates + more)[num - base] == fates[num - base];
    }
  }

  /** Callbacks that `poll` serves, by time. */
  type Callbacks = (nat, set<P.Id>) -> seq<P.Report>

  ghost predicate AllServeable(callbacks: Callbacks) {
    forall k, waiting :: P.Serveable(waiting, callbacks(k, waiting))
  }

  ghost predicate AllInformed(writer: P.KafkaWriter, base: map<Name, nat>, record: Record)
    reads writer`settled, writer.trackers.Values
  {
    base.Keys == writer.trackers.Keys
    && forall n :: n in writer.trackers ==> Informed(writer, n, base[n], FatesIn(record, n))
  }

  predicate EndsUnsent(record: Record) { record != [] && record[|record| - 1].fate == Unsent }

  lemma JoinUnsent(cfg: Config, record: Record, n: Name, lines: seq<Line>, fates: seq<Fate>, end: LoopEnd)
    requires LastUnsent(record) && !EndsUnsent(record) && FatesFit(cfg, lines, fates, end) && |fates| <= |lines|
    ensures LastUnsent(record + Tagged(n, lines, fates))
    ensures EndsUnsent(record + Tagged(n, lines, fates)) <==> end != Finished
  {
    hide FateFits;
  }

  /** One tail's share of a pass: its lines join the record. */
  method TailPass(cfg: Config, n: Name, lines: seq<Line>, writer: P.KafkaWriter, client: Client,
                  ghost stop: nat -> bool, time: nat, ghost base: map<Name, nat>, record: Record)
      returns (fates: seq<Fate>, end: LoopEnd)
    requires writer.Valid() && n in writer.trackers && Serves(client) && StaysSet(client, stop)
    requires AllInformed(writer, base, record) && LastUnsent(record) && !EndsUnsent(record) && AllFit(cfg, record)
    modifies writer, writer.trackers.Values
    ensures writer.Valid() && |fates| <= |lines| && AllInformed(writer, base, record + Tagged(n, lines, fates))
    ensures LastUnsent(record + Tagged(n, lines, fates)) && AllFit(cfg, record + Tagged(n, lines, fates))
    ensures end == Finished ==> |fates| == |lines|
    ensures end == Aborted ==> stop(time + |fates|)
    ensures EndsUnsent(record + Tagged(n, lines, fates)) <==> end != Finished
  {
    hide P.KafkaWriter.Valid, P.AttemptsOk, AbortSeen, InTurn, FatesFit, FatesIn, Ends, HandedOver, LastUnsent,
         EndsUnsent, Tagged, InformedBy, AllFit;
    ghost var f := File(World([], false), Cursor(0, 0), {}, {}, {},
                        Run(Tail(false, -1, 0, []), Cursor(0, 0), Cursor(0, 0), None, [], [], lines));
    ghost var acks := map m | m in writer.trackers :: writer.trackers[m].acks;
    ghost var counts := map m | m in writer.trackers :: |writer.trackers[m].tracked|;
    ghost var settled := writer.settled;
    ghost var gs, waiting;
    fates, end, gs, waiting := TrackLines(cfg, n, lines, writer, client, time, f);
    EndsLength(lines[..|fates|]);
    JoinUnsent(cfg, record, n, lines, fates, end);
    JoinFits(cfg, record, n, lines, fates, end);
    TailInformed(writer, base, record, n, lines, fates, acks, counts, settled);
  }

  lemma TailInformed(writer: P.KafkaWriter, base: map<Name, nat>, record: Record, n: Name, lines: seq<Line>,
                     fates: seq<Fate>, acks: map<Name, set<nat>>, counts: map<Name, nat>, settled: set<P.Id>)
    requires |fates| <= |lines| && n in writer.trackers && base.Keys == acks.Keys == counts.Keys == writer.trackers.Keys
    requires settled <= writer.settled
    requires forall m :: m in base ==> InformedBy(counts[m], acks[m], settled, m, base[m], FatesIn(record, m))
    requires forall m :: m in base ==>
               |writer.trackers[m].tracked| == counts[m] + if m == n then |fates| else 0
    requires forall m, i: nat :: m in base && i < counts[m] ==>
               (i in writer.trackers[m].acks <==> i in acks[m] || P.Id(m, i) in writer.settled)
    requires forall num: nat :: counts[n] <= num < counts[n] + |fates| ==>
               (num in writer.trackers[n].acks <==>
                  fates[num - counts[n]] in {Blank, Malformed} || P.Id(n, num) in writer.settled)
    ensures AllInformed(writer, base, record + Tagged(n, lines, fates))
  {
    hide InformedBy, FatesIn, Tagged;
    forall m | m in base ensures Informed(writer, m, base[m], FatesIn(record + Tagged(n, lines, fates), m)) {
      FatesMore(record, n, lines, fates, m);
      InformedCount(counts[m], acks[m], settled, m, base[m], FatesIn(record, m));
      MoreInformed(m, base[m], FatesIn(record, m), if m == n then fates else [],
                   acks[m], settled, writer.trackers[m].acks, writer.settled);
    }
  }

  lemma InformedCount(count: nat, acks: set<nat>, settled: set<P.Id>, n: Name, base: nat, fates: seq<Fate>)
    requires InformedBy(count, acks, settled, n, base, fates)
    ensures count == base + |fates|
  {}

  lemma NoFates(writer: P.KafkaWriter, base: map<Name, nat>)
    requires base.Keys == writer.trackers.Keys
    requires forall n :: n in writer.trackers ==> base[n] == |writer.trackers[n].tracked|
    ensures AllInformed(writer, base, [])
  {}

  lemma InformedAll(writer: P.KafkaWriter, base: map<Name, nat>, record: Record)
    requires AllInformed(writer, base, record)
    ensures base.Keys == writer.trackers.Keys
    ensures forall n :: n in writer.trackers ==> Informed(writer, n, base[n], FatesIn(record, n))
  {
    hide Informed;
  }

  /** Callbacks change nothing about what the trackers know. */
  method ServeAll(writer: P.KafkaWriter, rs: seq<P.Report>, ghost base: map<Name, nat>, ghost record: Record)
    requires writer.Valid() && P.Serveable(writer.ledger.waiting, rs) && AllInformed(writer, base, record)
    modifies writer, writer.trackers.Values
    ensures writer.Valid() && AllInformed(writer, base, record)
  {
    hide P.KafkaWriter.Valid, P.Serveable, FatesIn;
    writer.Serve(rs);
  }

  /** The record goes as far as the lines of the first `j` tails in pass `p`, all of them if `whole`. */
  ghost predicate RecordOk(cfg: Config, polled: (nat, Name) -> seq<Line>, tails: seq<Name>, p: nat, j: nat,
                           record: Record, whole: bool)
  {
    && j <= |tails| && LastUnsent(record) && AllFit(cfg, record)
    && LinesIn(record) <= Polled(polled, tails, p, j)
    && (whole ==> LinesIn(record) == Polled(polled, tails, p, j) && !EndsUnsent(record))
  }

  lemma RecordStarts(cfg: Config, polled: (nat, Name) -> seq<Line>, tails: seq<Name>)
    ensures RecordOk(cfg, polled, tails, 0, 0, [], true)
  {}

  lemma RecordOpen(cfg: Config, polled: (nat, Name) -> seq<Line>, tails: seq<Name>, p: nat, j: nat, record: Record)
    requires RecordOk(cfg, polled, tails, p, j, record, true)
    ensures LastUnsent(record) && !EndsUnsent(record) && AllFit(cfg, record)
  {}

  lemma RecordGoesOn(cfg: Config, polled: (nat, Name) -> seq<Line>, tails: seq<Name>, p: nat, j: nat, record: Record,
                     fates: seq<Fate>)
    requires RecordOk(cfg, polled, tails, p, j, record, true) && j < |tails| && |fates| <= |polled(p, tails[j])|
    ensures var all := record + Tagged(tails[j], polled(p, tails[j]), fates);
            LastUnsent(all) && AllFit(cfg, all) ==>
              RecordOk(cfg, polled, tails, p, j + 1, all, |fates| == |polled(p, tails[j])| && !EndsUnsent(all))
  {
    hide LastUnsent, AllFit, EndsUnsent, LinesIn, Polled, Tagged;
    JoinPolled(polled, tails, p, j, record, fates);
  }

  /** What counts as the whole counts as a part, and a part of a part as one of what follows. */
  lemma RecordLater(cfg: Config, polled: (nat, Name) -> seq<Line>, tails: seq<Name>, p: nat, j: nat, q: nat, k: nat,
                    record: Record, whole: bool)
    requires RecordOk(cfg, polled, tails, p, j, record, whole)
    requires k <= |tails| && (p < q || (p == q && j <= k))
    ensures RecordOk(cfg, polled, tails, q, k, record, false)
    ensures whole && ((p == q && j == k) || (j == |tails| && q == p + 1 && k == 0)) ==>
              RecordOk(cfg, polled, tails, q, k, record, true)
  {
    PolledGrows(polled, tails, p, j, q, k);
  }

  lemma RecordCut(cfg: Config, polled: (nat, Name) -> seq<Line>, tails: seq<Name>, p: nat, j: nat, record: Record)
    ensures RecordOk(cfg, polled, tails, p, j, record, true) ==> RecordOk(cfg, polled, tails, p, j, record, false)
  {}

  lemma RecordMeans(cfg: Config, polled: (nat, Name) -> seq<Line>, tails: seq<Name>, p: nat, j: nat, record: Record,
                    whole: bool)
    requires RecordOk(cfg, polled, tails, p, j, record, whole)
    ensures LastUnsent(record) && LinesIn(record) <= Polled(polled, tails, p, j)
    ensures whole ==> LinesIn(record) == Polled(polled, tails, p, j) && !EndsUnsent(record)
    ensures forall k :: 0 <= k < |record| ==>
              var raw := record[k].line.raw;
              record[k].fate == Blank <==> forall i :: 0 <= i < |raw| ==> 9 <= raw[i] <= 13 || raw[i] == 32
  {
    hide LastUnsent, EndsUnsent, LinesIn, Polled;
    AllMean(cfg, record);
  }

  /** One pass over all tails. It ends early when a check finds the shutdown flag set, or on a full queue. */
  method Pass(cfg: Config, tails: seq<Name>, polled: (nat, Name) -> seq<Line>, writer: P.KafkaWriter, client: Client,
              stop: nat -> bool, p: nat, start: nat, ghost base: map<Name, nat>, before: Record)
      returns (record: Record, exit: Exit, time: nat)
    requires writer.Valid() && Serves(client) && StaysSet(client, stop)
    requires forall j :: 0 <= j < |tails| ==> tails[j] in writer.trackers
    requires AllInformed(writer, base, before) && RecordOk(cfg, polled, tails, p, 0, before, true)
    modifies writer, writer.trackers.Values
    ensures writer.Valid() && AllInformed(writer, base, record)
    ensures RecordOk(cfg, polled, tails, p, |tails|, record, exit == Done)
    ensures exit == Done || (exit == Shutdown && stop(time)) || (exit == QueueFull && EndsUnsent(record))
  {
    hide P.KafkaWriter.Valid, FatesIn, Serves, AbortSeen, LastUnsent, EndsUnsent, Informed, AllInformed, Tagged, AllFit,
         RecordOk;
    record, time, exit := before, start, Done;
    var j := 0;
    while j < |tails| && exit == Done
      invariant j <= |tails| && writer.Valid() && AllInformed(writer, base, record)
      invariant RecordOk(cfg, polled, tails, p, j, record, exit == Done)
      invariant exit == Done || (exit == Shutdown && stop(time)) || (exit == QueueFull && EndsUnsent(record))
      decreases |tails| - j, if exit == Done then 1 else 0
    {
      RecordOpen(cfg, polled, tails, p, j, record);
      var fates, end := TailPass(cfg, tails[j], polled(p, tails[j]), writer, client, stop, time, base, record);
      RecordGoesOn(cfg, polled, tails, p, j, record, fates);
      record := record + Tagged(tails[j], polled(p, tails[j]), fates);
      time := time + |fates|;
      j := j + 1;
      if end == Blocked {
        exit := QueueFull;
      } else if stop(time) {
        exit := Shutdown;
      }
      RecordCut(cfg, polled, tails, p, j, record);
    }
    RecordLater(cfg, polled, tails, p, j, p, |tails|, record, exit == Done);
  }

  /** The main loop for `passes` passes over all tails, or until shutdown, a fatal producer error, or a queue
      that stays full. `polled` is what the polls hand on. Lines are handled in the order of the polls, and
      unless the loop ends early all are. A line is settled as blank if and only if every byte of it is white
      space. Of all lines of all files at most one is left unsent, the last one handled. */
  method Forward(cfg: Config, tails: seq<Name>, polled: (nat, Name) -> seq<Line>, writer: P.KafkaWriter,
                 client: Client, callbacks: Callbacks, stop: nat -> bool, passes: nat)
      returns (record: Record, exit: Exit, time: nat)
    requires writer.Valid() && Serves(client) && AllServeable(callbacks) && StaysSet(client, stop)
    requires forall j :: 0 <= j < |tails| ==> tails[j] in writer.trackers
    modifies writer, writer.trackers.Values
    ensures writer.Valid() && LastUnsent(record)
    ensures forall n :: n in writer.trackers ==>
              Informed(writer, n, |old(writer.trackers[n].tracked)|, FatesIn(record, n))
    ensures LinesIn(record) <= Polled(polled, tails, passes, 0)
    ensures exit == Done ==> LinesIn(record) == Polled(polled, tails, passes, 0) && !EndsUnsent(record)
    ensures forall k :: 0 <= k < |record| ==>
              var raw := record[k].line.raw;
              record[k].fate == Blank <==> forall i :: 0 <= i < |raw| ==> 9 <= raw[i] <= 13 || raw[i] == 32
    ensures exit == Shutdown ==> stop(time)
    ensures exit == FatalError ==> writer.fatal
    ensures exit == QueueFull ==> EndsUnsent(record)
  {
    hide P.KafkaWriter.Valid, P.Serveable, FatesIn, Serves, AbortSeen, LastUnsent, EndsUnsent, Informed,
         AllInformed, Tagged, AllFit, RecordOk;
    record, time, exit := [], 0, Done;
    ghost var base := map n | n in writer.trackers :: |writer.trackers[n].tracked|;
    NoFates(writer, base);
    RecordStarts(cfg, polled, tails);
    var p: nat := 0;
    while p < passes && exit == Done
      invariant p <= passes && writer.Valid() && AllInformed(writer, base, record)
      invariant RecordOk(cfg, polled, tails, p, 0, record, exit == Done)
      invariant exit == Shutdown ==> stop(time)
      invariant exit == FatalError ==> writer.fatal
      invariant exit == QueueFull ==> EndsUnsent(record)
      decreases passes - p, if exit == Done then 1 else 0
    {
      if stop(time) {
        exit := Shutdown;
        RecordCut(cfg, polled, tails, p, 0, record);
        break;
      }
      record, exit, time := Pass(cfg, tails, polled, writer, client, stop, p, time + 1, base, record);
      RecordLater(cfg, polled, tails, p, |tails|, p + 1, 0, record, exit == Done);
      p := p + 1;
      if exit == QueueFull { break; }
      ServeAll(writer, callbacks(time, writer.ledger.waiting), base, record);
      if writer.fatal { exit := FatalError; }
      RecordCut(cfg, polled, tails, p, 0, record);
    }
    InformedAll(writer, base, record);
    RecordLater(cfg, polled, tails, p, 0, passes, 0, record, exit == Done);
    RecordMeans(cfg, polled, tails, passes, 0, record, exit == Done);
  }
}
