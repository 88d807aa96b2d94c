/**
 What the agent does without interruption, in terms of its single calls: handling one object, a
 pass over a directory and a list of bad blocks are each one of the runs of `CaptureRuns`.  And
 a run that loses a file.
 */
module CaptureSchedules {
  import opened Capture
  import opened CapturePasses
  import opened CaptureRuns
  import opened Decimal
  import opened FileNames
  import opened Locations
  import opened Wrappers

  function RemoveSteps(job: Job, f: Faults): seq<Step> {
    if job.file.Some? then [Remove(job.item.kind, f.remove)] else []
  }

  function CreateSteps(job: Job, f: Faults): seq<Step> {
    var kind := job.item.kind;
    if NeedsSpec(kind) && f.spec then [GiveUp(kind)]
    else [Create(kind, f.create)] + (if f.create == Done then RemoveSteps(job, f) else [])
  }

  function SaveSteps(job: Job, f: Faults): seq<Step> {
    var kind := job.item.kind;
    if f.fetch || f.compress then [GiveUp(kind)]
    else [Save(kind, f.save)] + (if f.save == Done then CreateSteps(job, f) else [])
  }

  /** The calls a worker makes for one object, in the order it makes them. */
  function Schedule(job: Job, w: World, f: Faults): seq<Step> {
    var kind := job.item.kind;
    if (f.prepare && NeedsPreparation(kind)) || !Readable(w, job) then []
    else [Begin(job)] + ([Lookup(kind, f.lookup)] + StepsAfterLookup(job, w, f))
  }

  function StepsAfterLookup(job: Job, w: World, f: Faults): seq<Step> {
    if !f.lookup && Found(w.index, job.item) then RemoveSteps(job, f)
    else if f.lookup && job.item.kind == ExecutionBadBlock then []
    else SaveSteps(job, f)
  }

  /** The same object handled by an agent that does one thing at a time. */
  function Handle(w: World, job: Job, f: Faults): World {
    match job.file
    case None => CaptureItem(w, job.item, f).0
    case Some(path) => SweepFile(w, path, job.item, f).0
  }

  lemma AfterCons(s: System, step: Step, rest: seq<Step>)
    ensures After(s, [step] + rest) == After(Next(s, step), rest)
  {
    assert ([step] + rest)[1..] == rest;
  }

  lemma BusyAndBack(s: System, kind: Kind, phase: Phase, next: Phase)
    requires kind !in s.busy
    ensures Leave(Enter(s, kind, phase), kind) == s
    ensures Enter(Enter(s, kind, phase), kind, next) == Enter(s, kind, next)
  {
    assert s.busy[kind := phase] - {kind} == s.busy;
    assert s.busy[kind := phase][kind := next] == s.busy[kind := next];
  }

  lemma RemoveRun(s: System, job: Job, f: Faults)
    requires job.item.kind !in s.busy
    ensures After(Settle(s, job.item.kind, job), RemoveSteps(job, f)) ==
            if f.remove then s else s.(world := s.world.(files := s.world.files - FilesOf(job)))
  {
    var kind := job.item.kind;
    BusyAndBack(s, kind, Settled(job), Settled(job));
    if job.file.Some? {
      AfterOne(Settle(s, kind, job), Remove(kind, f.remove));
    } else {
      assert s.busy - {kind} == s.busy && s.world.files - FilesOf(job) == s.world.files;
    }
  }

  function CreateOutcome(w: World, job: Job, f: Faults): World {
    if (NeedsSpec(job.item.kind) && f.spec) || f.create == Refused then w
    else if f.create == DoneButError || f.remove then Created(w, job.item)
    else Created(w, job.item).(files := w.files - FilesOf(job))
  }

  lemma CreateRun(s: System, job: Job, f: Faults)
    requires job.item.kind !in s.busy
    ensures After(Enter(s, job.item.kind, SavedAt(job)), CreateSteps(job, f)) ==
            s.(world := CreateOutcome(s.world, job, f))
  {
    var kind := job.item.kind;
    var t := Enter(s, kind, SavedAt(job));
    BusyAndBack(s, kind, SavedAt(job), Settled(job));
    if NeedsSpec(kind) && f.spec {
      AfterOne(t, GiveUp(kind));
    } else {
      var rest := if f.create == Done then RemoveSteps(job, f) else [];
      AfterCons(t, Create(kind, f.create), rest);
      var s' := s.(world := Created(s.world, job.item));
      BusyAndBack(s', kind, SavedAt(job), Settled(job));
      if f.create == Done {
        assert Next(t, Create(kind, Done)) == Settle(s', kind, job);
        RemoveRun(s', job, f);
      }
    }
  }

  function SaveOutcome(w: World, job: Job, f: Faults): World {
    if f.fetch || f.compress || f.save == Refused then w
    else if f.save == DoneButError then Stored(w, job.item)
    else
      var w' := Stored(w, job.item);
      CreateOutcome(w'.(saved := w'.saved + {(job.item, Location(job.item))}), job, f)
  }

  lemma SaveRun(s: System, job: Job, f: Faults)
    requires job.item.kind !in s.busy
    ensures After(Enter(s, job.item.kind, LookedUp(job)), SaveSteps(job, f)) ==
            s.(world := SaveOutcome(s.world, job, f))
  {
    var kind := job.item.kind;
    var t := Enter(s, kind, LookedUp(job));
    BusyAndBack(s, kind, LookedUp(job), SavedAt(job));
    if f.fetch || f.compress {
      AfterOne(t, GiveUp(kind));
    } else {
      var rest := if f.save == Done then CreateSteps(job, f) else [];
      AfterCons(t, Save(kind, f.save), rest);
      BusyAndBack(s.(world := Stored(s.world, job.item)), kind, LookedUp(job), SavedAt(job));
      if f.save == Done {
        var w := Stored(s.world, job.item);
        var s' := s.(world := w.(saved := w.saved + {(job.item, Location(job.item))}));
        BusyAndBack(s', kind, SavedAt(job), Settled(job));
        assert Next(t, Save(kind, Done)) == Enter(s', kind, SavedAt(job));
        CreateRun(s', job, f);
      }
    }
  }

  lemma OutcomesAgree(w: World, job: Job, f: Faults)
    requires !(f.prepare && NeedsPreparation(job.item.kind)) && Readable(w, job)
    requires !(!f.lookup && Found(w.index, job.item)) && !(f.lookup && job.item.kind == ExecutionBadBlock)
    requires job.file.Some? ==> IsFileKind(job.item.kind)
    ensures var w' := if f.lookup then w.(failedLookups := w.failedLookups + [KeyOf(job.item)]) else w;
            Handle(w, job, f) == SaveOutcome(w', job, f)
  {
    assert !f.prepare ==> f.(prepare := false) == f;
  }

  lemma LookupRun(s: System, job: Job, f: Faults)
    requires job.item.kind !in s.busy && !(f.prepare && NeedsPreparation(job.item.kind)) && Readable(s.world, job)
    requires job.file.Some? ==> IsFileKind(job.item.kind)
    ensures After(AfterLookup(Enter(s, job.item.kind, Prepared(job)), job.item.kind, job, f.lookup),
                  StepsAfterLookup(job, s.world, f)) == s.(world := Handle(s.world, job, f))
  {
    var kind, w := job.item.kind, s.world;
    if !f.lookup && Found(w.index, job.item) {
      BusyAndBack(s, kind, Prepared(job), Settled(job));
      assert AfterLookup(Enter(s, kind, Prepared(job)), kind, job, false) == Settle(s, kind, job);
      RemoveRun(s, job, f);
    } else {
      var s' := if f.lookup then s.(world := w.(failedLookups := w.failedLookups + [KeyOf(job.item)])) else s;
      BusyAndBack(s', kind, Prepared(job), LookedUp(job));
      if !(f.lookup && kind == ExecutionBadBlock) {
        SaveRun(s', job, f);
        OutcomesAgree(w, job, f);
      }
    }
  }

  /** Handling one object without interruption is one run of its worker's calls. */
  lemma HandlingIsARun(s: System, job: Job, f: Faults)
    requires job.item.kind !in s.busy && (job.file.Some? ==> IsFileKind(job.item.kind))
    ensures After(s, Schedule(job, s.world, f)) == s.(world := Handle(s.world, job, f))
  {
    var kind, w := job.item.kind, s.world;
    if !((f.prepare && NeedsPreparation(kind)) || !Readable(w, job)) {
      var rest := StepsAfterLookup(job, w, f);
      var begun := Enter(s, kind, Prepared(job));
      AfterCons(s, Begin(job), [Lookup(kind, f.lookup)] + rest);
      AfterCons(begun, Lookup(kind, f.lookup), rest);
      LookupRun(s, job, f);
    }
  }

  lemma ScheduleIsLegal(cfg: Config, job: Job, w: World, f: Faults)
    requires IsJob(cfg, job)
    ensures AllLegal(cfg, Schedule(job, w, f))
  {
  }

  lemma FileJob(cfg: Config, kind: Kind, path: FilePath)
    requires FileItem(cfg, kind, path.name).Some?
    ensures IsFileKind(kind)
    ensures var job := Job(FileItem(cfg, kind, path.name).value, Some(path)); IsJob(cfg, job) && job.item.kind == kind
  {
  }

  lemma LegalConcat(cfg: Config, a: seq<Step>, b: seq<Step>)
    requires AllLegal(cfg, a) && AllLegal(cfg, b)
    ensures AllLegal(cfg, a + b)
  {
  }

  /** The calls of a whole pass over a directory listing. */
  function PassSchedule(cfg: Config, w: World, kind: Kind, dir: string, names: seq<string>, fs: seq<Faults>): seq<Step>
    requires |fs| == |names|
    decreases names
  {
    if names == [] then []
    else
      match FileItem(cfg, kind, names[0])
      case None => PassSchedule(cfg, w, kind, dir, names[1..], fs[1..])
      case Some(item) =>
        var path := FilePath(dir, names[0]);
        var (w', outcome) := SweepFile(w, path, item, fs[0]);
        Schedule(Job(item, Some(path)), w, fs[0])
        + (if outcome == Aborted then [] else PassSchedule(cfg, w', kind, dir, names[1..], fs[1..]))
  }

  /** A pass without interruption is one legal run of the file worker's calls. */
  lemma {:induction false} PassIsARun(cfg: Config, s: System, kind: Kind, dir: string, names: seq<string>, fs: seq<Faults>)
    requires |fs| == |names| && kind !in s.busy
    ensures AllLegal(cfg, PassSchedule(cfg, s.world, kind, dir, names, fs))
    ensures After(s, PassSchedule(cfg, s.world, kind, dir, names, fs)) ==
            s.(world := Sweep(cfg, s.world, kind, dir, names, fs))
    decreases names
  {
    if names != [] {
      var found := FileItem(cfg, kind, names[0]);
      if found.None? {
        PassIsARun(cfg, s, kind, dir, names[1..], fs[1..]);
      } else {
        var path := FilePath(dir, names[0]);
        var job := Job(found.value, Some(path));
        var (w', outcome) := SweepFile(s.world, path, found.value, fs[0]);
        FileJob(cfg, kind, path);
        HandlingIsARun(s, job, fs[0]);
        ScheduleIsLegal(cfg, job, s.world, fs[0]);
        if outcome != Aborted {
          var s' := s.(world := w');
          PassIsARun(cfg, s', kind, dir, names[1..], fs[1..]);
          var rest := PassSchedule(cfg, w', kind, dir, names[1..], fs[1..]);
          AfterConcat(s, Schedule(job, s.world, fs[0]), rest);
          LegalConcat(cfg, Schedule(job, s.world, fs[0]), rest);
        } else {
          assert Schedule(job, s.world, fs[0]) + [] == Schedule(job, s.world, fs[0]);
        }
      }
    }
  }

  function ListSchedule(cfg: Config, w: World, hashes: seq<string>, fs: seq<Faults>): seq<Step>
    requires |fs| == |hashes|
    decreases hashes
  {
    if hashes == [] then []
    else
      var item := BadBlockItem(cfg, hashes[0]);
      Schedule(Job(item, None), w, fs[0]) + ListSchedule(cfg, CaptureItem(w, item, fs[0]).0, hashes[1..], fs[1..])
  }

  /** So is the handling of a list of execution bad blocks. */
  lemma {:induction false} ListIsARun(cfg: Config, s: System, hashes: seq<string>, fs: seq<Faults>)
    requires |fs| == |hashes| && ExecutionBadBlock !in s.busy
    ensures AllLegal(cfg, ListSchedule(cfg, s.world, hashes, fs))
    ensures After(s, ListSchedule(cfg, s.world, hashes, fs)) == s.(world := IndexAll(cfg, s.world, hashes, fs))
    decreases hashes
  {
    if hashes != [] {
      var item := BadBlockItem(cfg, hashes[0]);
      var job := Job(item, None);
      var s' := s.(world := CaptureItem(s.world, item, fs[0]).0);
      HandlingIsARun(s, job, fs[0]);
      ScheduleIsLegal(cfg, job, s.world, fs[0]);
      ListIsARun(cfg, s', hashes[1..], fs[1..]);
      var rest := ListSchedule(cfg, s'.world, hashes[1..], fs[1..]);
      AfterConcat(s, Schedule(job, s.world, fs[0]), rest);
      LegalConcat(cfg, Schedule(job, s.world, fs[0]), rest);
    }
  }

  // The files that can be lost

  /** The file of slot one that shares its root, and index, with a file of slot zero. */
  lemma SlotOneSibling(cfg: Config, kind: Kind, name: string, item: Item) returns (sibling: string)
    requires FileItem(cfg, kind, name) == Some(item) && item.number == 0
    ensures FileItem(cfg, kind, sibling) == Some(item.(number := 1))
  {
    if kind == BeaconBadBlock {
      sibling := "beacon_block_" + Print(1) + ".ssz";
      OnlyPrysmBlocksArePickedUp(cfg.client, name, BlockFile(item.root, 0));
      ParsePrint(1);
      OnlyPrysmBlocksArePickedUp(cfg.client, sibling, BlockFile(item.root, 1));
    } else {
      sibling := BlobName(item.root, Print(1), Print(item.index));
      ParseBlobFileDotFree(name);
      BlobFileRoundTrip(item.root, 1, item.index);
    }
  }

  /** From a fresh start: sweep the slot-one sibling, then the file of slot zero. */
  lemma SlotZeroIsLost(cfg: Config, path: FilePath, kind: Kind, item: Item) returns (s: System, steps: seq<Step>)
    requires FileItem(cfg, kind, path.name) == Some(item) && item.number == 0
    ensures Fresh(s) && AllLegal(cfg, steps) && !KeepsRecord(s.world, After(s, steps).world, path, item)
  {
    var sibling := SlotOneSibling(cfg, kind, path.name, item);
    var other := FilePath(path.dir, sibling);
    var first := item.(number := 1);
    s := System(World(map[], [], {path, other}, {}, []), map[]);
    FileJob(cfg, kind, path);
    FileJob(cfg, kind, other);
    var job, job' := Job(first, Some(other)), Job(item, Some(path));
    var s' := s.(world := Handle(s.world, job, NO_FAULTS));
    HandlingIsARun(s, job, NO_FAULTS);
    HandlingIsARun(s', job', NO_FAULTS);
    ScheduleIsLegal(cfg, job, s.world, NO_FAULTS);
    ScheduleIsLegal(cfg, job', s'.world, NO_FAULTS);
    steps := Schedule(job, s.world, NO_FAULTS) + Schedule(job', s'.world, NO_FAULTS);
    LegalConcat(cfg, Schedule(job, s.world, NO_FAULTS), Schedule(job', s'.world, NO_FAULTS));
    AfterConcat(s, Schedule(job, s.world, NO_FAULTS), Schedule(job', s'.world, NO_FAULTS));
    SiblingAnswers(s.world, path, other, item);
  }

  /** The sibling's record answers the lookup for slot zero, and is not of its key. */
  lemma SiblingAnswers(w: World, path: FilePath, other: FilePath, item: Item)
    requires w == World(map[], [], {path, other}, {}, []) && path != other
    requires item.number == 0 && IsFileKind(item.kind)
    ensures var w1 := SweepFile(w, other, item.(number := 1), NO_FAULTS).0;
            var w2 := SweepFile(w1, path, item, NO_FAULTS).0;
            path !in w2.files && !Recorded(w2.index, item)
  {
    var first := item.(number := 1);
    var w1 := SweepFile(w, other, first, NO_FAULTS).0;
    assert !Found(w.index, first);
    CleanFile(w, other, first);
    assert w1.index == [Record(first, Location(first))] && w1.files == {path};
    assert Matches(w1.index[0].item, item);
    CleanFile(w1, path, item);
  }

  /**
   Slot zero is the exact exception, for an agent with a name and a network, as every started
   agent has.  The lookup sends it as "no slot", so a record of the same root at another slot
   makes the agent delete the file.
   */
  lemma NoLossIff(cfg: Config, path: FilePath, kind: Kind, item: Item)
    requires FileItem(cfg, kind, path.name) == Some(item)
    requires cfg.node != "" && cfg.network != ""
    ensures item.number != 0 <==>
            forall s: System, steps: seq<Step> :: Fresh(s) && AllLegal(cfg, steps) ==>
              KeepsRecord(s.world, After(s, steps).world, path, item)
  {
    if item.number != 0 {
      forall s: System, steps: seq<Step> | Fresh(s) && AllLegal(cfg, steps)
        ensures KeepsRecord(s.world, After(s, steps).world, path, item)
      {
        NoLoss(cfg, s, steps, path, kind, item);
      }
    } else {
      var s, steps := SlotZeroIsLost(cfg, path, kind, item);
    }
  }
}
