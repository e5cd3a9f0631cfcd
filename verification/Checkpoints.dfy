/** The checkpoint file: loaded with a fallback, replaced in several durable steps. */
module Checkpoints {
  import opened Options
  import opened Watcher

  type Name = string
  type Offsets = map<Name, Position>

  /** A state file as a reader finds it. */
  datatype Slot = Missing | Torn | Good(files: Offsets)

  /** state.json, state.json.bak and the temporary file a save is writing. */
  datatype Disk = Disk(main: Slot, bak: Slot, tmp: Slot)

  /** What `_load` comes up with. */
  function LoadOf(d: Disk): Option<Offsets> {
    if d.main.Good? then Some(d.main.files) else if d.bak.Good? then Some(d.bak.files) else None
  }

  /** An unreadable file is moved out of the way by the `_read` that meets it. */
  function Quarantined(d: Disk): Disk {
    if d.main.Good? then d else
      Disk(Missing, if d.bak.Good? then d.bak else Missing, d.tmp)
  }

  /** How far a save has come: 0 nothing yet, 1 temporary file created, 2 written and synced,
      3 previous checkpoint moved to the backup, 4 temporary file moved into place. */
  function SaveStep(d: Disk, files: Offsets, stage: nat): Disk
    requires stage < 4
  {
    match stage
    case 0 => d.(tmp := Torn)
    case 1 => d.(tmp := Good(files))
    case 2 => if d.main.Missing? then d else d.(main := Missing, bak := d.main)
    case _ => d.(main := d.tmp, tmp := Missing)
  }

  function AfterSteps(d: Disk, files: Offsets, n: nat): Disk
    requires n <= 4
  {
    if n == 0 then d else SaveStep(AfterSteps(d, files, n - 1), files, n - 1)
  }

  /** The disk after each step: the temporary file is complete before the old checkpoint becomes the backup, and
      that is done before the new one takes its place. */
  lemma StepsAre(d: Disk, files: Offsets)
    ensures var bak := if d.main.Missing? then d.bak else d.main;
            && AfterSteps(d, files, 0) == d
            && AfterSteps(d, files, 1) == Disk(d.main, d.bak, Torn)
            && AfterSteps(d, files, 2) == Disk(d.main, d.bak, Good(files))
            && AfterSteps(d, files, 3) == Disk(Missing, bak, Good(files))
            && AfterSteps(d, files, 4) == Disk(Good(files), bak, Missing)
  {
    assert AfterSteps(d, files, 1) == SaveStep(d, files, 0);
    assert AfterSteps(d, files, 2) == SaveStep(AfterSteps(d, files, 1), files, 1);
    assert AfterSteps(d, files, 3) == SaveStep(AfterSteps(d, files, 2), files, 2);
  }

  /** A save cut short anywhere leaves the checkpoint that could be loaded before, a complete one the
      new checkpoint: this holds as long as the main file was not damaged when the save began. */
  lemma SaveIsAtomic(d: Disk, files: Offsets, n: nat)
    requires n <= 4 && !d.main.Torn?
    ensures LoadOf(AfterSteps(d, files, n)) == if n < 4 then LoadOf(d) else Some(files)
  {
    StepsAre(d, files);
  }

  /** Exactly then: if the main file has been damaged behind the running process, the save moves it over
      the good backup, and stopping there leaves nothing to load. */
  lemma SaveCanLoseBoth(d: Disk, files: Offsets)
    ensures (forall n :: 0 <= n <= 4 && LoadOf(d).Some? ==> LoadOf(AfterSteps(d, files, n)).Some?)
            <==> !(d.main.Torn? && d.bak.Good?)
  {
    if d.main.Torn? && d.bak.Good? {
      StepsAre(d, files);
      assert LoadOf(AfterSteps(d, files, 3)).None?;
    } else if !d.main.Torn? {
      forall n | 0 <= n <= 4 && LoadOf(d).Some? ensures LoadOf(AfterSteps(d, files, n)).Some? {
        SaveIsAtomic(d, files, n);
      }
    }
  }

  /** Damage to the main file after a completed save costs one checkpoint, not all of them. */
  lemma DamageCostsOneCheckpoint(d: Disk, files: Offsets)
    requires !d.main.Torn?
    ensures LoadOf(AfterSteps(d, files, 4).(main := Torn)) == LoadOf(d)
  {
    StepsAre(d, files);
  }

  class OffsetStore {
    var files: Offsets
    var dirty: bool
    var disk: Disk

    /** `_load` */
    constructor (d: Disk)
      ensures files == (match LoadOf(d) case Some(f) => f case None => map[])
      ensures disk == Quarantined(d)
      ensures dirty <==> !d.main.Good? && d.bak.Good?
    {
      disk, files, dirty := d, map[], false;
      new;
      var ok := Read(true);
      if !ok {
        ok := Read(false);
        if ok { dirty := true; }
      }
    }

    /** `_read`: take the offsets from the main file or the backup; move a damaged one out of the way. */
    method Read(main: bool) returns (ok: bool)
      modifies this
      ensures var slot := old(if main then disk.main else disk.bak);
              && ok == slot.Good?
              && files == (if ok then slot.files else old(files))
              && disk == (if slot.Torn? then (if main then old(disk).(main := Missing) else old(disk).(bak := Missing))
                          else old(disk))
      ensures dirty == old(dirty)
    {
      var slot := if main then disk.main else disk.bak;
      match slot
      case Missing => ok := false;
      case Torn =>
        disk := if main then disk.(main := Missing) else disk.(bak := Missing);
        ok := false;
      case Good(f) =>
        files := f;
        ok := true;
    }

    method Update(name: Name, pos: Position)
      modifies this
      ensures files == old(files)[name := pos] && disk == old(disk)
      ensures dirty == (old(dirty) || files != old(files))
    {
      if !(name in files && files[name] == pos) {
        files := files[name := pos];
        dirty := true;
      } else {
        assert files[name := pos] == files;
      }
    }

    /** `save`, in which step number `failAt` raises OSError (4: none does). Creating the temporary file
        happens outside the `try`, so that error leaves `save` and ends the process. */
    method Save(failAt: nat) returns (raised: bool)
      requires failAt <= 4
      modifies this
      ensures files == old(files) && (raised <==> old(dirty) && failAt == 0)
      ensures !old(dirty) ==> disk == old(disk) && !dirty
      ensures old(dirty) ==>
                && disk == AfterSteps(old(disk), files, failAt).(tmp := if failAt == 0 then old(disk).tmp else Missing)
                && (dirty <==> failAt < 4)
      // an error before the renames changes neither checkpoint; one between them leaves the old one as the backup
      ensures old(dirty) ==>
                var bak := if old(disk).main.Missing? then old(disk).bak else old(disk).main;
                disk == match failAt
                        case 0 => old(disk)
                        case 3 => Disk(Missing, bak, Missing)
                        case 4 => Disk(Good(files), bak, Missing)
                        case _ => Disk(old(disk).main, old(disk).bak, Missing)
    {
      StepsAre(disk, files);
      raised := false;
      if !dirty { return; }
      if failAt == 0 { return true; }
      var n := 0;
      while n < failAt
        invariant 0 <= n <= failAt
        invariant disk == AfterSteps(old(disk), files, n) && files == old(files) && dirty
      {
        disk := SaveStep(disk, files, n);
        n := n + 1;
      }
      if n < 4 {
        disk := disk.(tmp := Missing);
        return;
      }
      dirty := false;
    }
  }
}
