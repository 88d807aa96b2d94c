/**
 The agent's six workers side by side.  Each handles one object of its kind at a time, call by
 call; the calls of different workers, new files and what other agents do interleave freely,
 and any call may fail.  What is never lost, what is never duplicated, and what every record
 points at.
 */
module CaptureRuns {
  import opened Capture
  import opened CapturePasses
  import opened FileNames
  import opened Locations
  import opened Paths
  import opened Wrappers

  /** One object to capture; bad blocks and blobs come from a file. */
  datatype Job = Job(item: Item, file: Option<FilePath>)

  /**
   How far a busy worker is: ready to look up; not indexed, so to be fetched and saved; saved,
   so to be recorded; indexed, with the file to be removed.
   */
  datatype Phase = Prepared(job: Job) | LookedUp(job: Job) | SavedAt(job: Job) | Settled(job: Job)

  /** There is one worker per kind; those that are busy with an object. */
  datatype System = System(world: World, busy: map<Kind, Phase>)

  datatype Step =
    | Begin(job: Job)
    | Lookup(kind: Kind, fails: bool)
    | Save(kind: Kind, effect: Effect)
    | Create(kind: Kind, effect: Effect)
    | Remove(kind: Kind, fails: bool)
    | GiveUp(kind: Kind)
    | Appear(path: FilePath)
    | ForeignSave(item: Item)
    | ForeignRecord(record: Record)

  /** What this agent's workers take on. */
  predicate IsJob(cfg: Config, job: Job) {
    && job.item.node == cfg.node && job.item.network == cfg.network
    && match job.file
       case Some(path) => FileItem(cfg, job.item.kind, path.name) == Some(job.item)
       case None => !IsFileKind(job.item.kind)
  }

  predicate IsFileKind(kind: Kind) {
    kind == BeaconBadBlock || kind == BeaconBadBlob
  }

  /** Steps of the agent on `node` take on its own objects only; other agents have other nodes. */
  predicate Owned(node: string, step: Step) {
    match step
    case Begin(job) => job.item.node == node
    case ForeignSave(item) => item.node != node
    case ForeignRecord(r) => r.item.node != node
    case _ => true
  }

  predicate Legal(cfg: Config, step: Step) {
    Owned(cfg.node, step) && (step.Begin? ==> IsJob(cfg, step.job))
  }

  predicate Readable(w: World, job: Job) {
    job.file.Some? ==> job.file.value in w.files
  }

  function Enter(s: System, kind: Kind, phase: Phase): System {
    s.(busy := s.busy[kind := phase])
  }

  function Leave(s: System, kind: Kind): System {
    s.(busy := s.busy - {kind})
  }

  /** Once an object is indexed, its file goes next; without a file the worker is done. */
  function Settle(s: System, kind: Kind, job: Job): System {
    if job.file.Some? then Enter(s, kind, Settled(job)) else Leave(s, kind)
  }

  /** A failed lookup counts as "not indexed", except for execution bad blocks, which are given up. */
  function AfterLookup(s: System, kind: Kind, job: Job, fails: bool): System {
    if fails then
      var s' := s.(world := s.world.(failedLookups := s.world.failedLookups + [KeyOf(job.item)]));
      if kind == ExecutionBadBlock then Leave(s', kind) else Enter(s', kind, LookedUp(job))
    else if Found(s.world.index, job.item) then Settle(s, kind, job)
    else Enter(s, kind, LookedUp(job))
  }

  function AfterSave(s: System, kind: Kind, job: Job, effect: Effect): System {
    match effect
    case Refused => Leave(s, kind)
    case DoneButError => Leave(s.(world := Stored(s.world, job.item)), kind)
    case Done =>
      var w := Stored(s.world, job.item);
      Enter(s.(world := w.(saved := w.saved + {(job.item, Location(job.item))})), kind, SavedAt(job))
  }

  function AfterCreate(s: System, kind: Kind, job: Job, effect: Effect): System {
    match effect
    case Refused => Leave(s, kind)
    case DoneButError => Leave(s.(world := Created(s.world, job.item)), kind)
    case Done => Settle(s.(world := Created(s.world, job.item)), kind, job)
  }

  function FilesOf(job: Job): set<FilePath> {
    match job.file
    case None => {}
    case Some(path) => {path}
  }

  function AfterRemove(s: System, kind: Kind, job: Job, fails: bool): System {
    if fails then Leave(s, kind)
    else Leave(s.(world := s.world.(files := s.world.files - FilesOf(job))), kind)
  }

  /** A step that is not enabled changes nothing. */
  function Next(s: System, step: Step): System {
    match step
    case Begin(job) =>
      if job.item.kind !in s.busy && Readable(s.world, job) then Enter(s, job.item.kind, Prepared(job)) else s
    case Lookup(kind, fails) =>
      if kind in s.busy && s.busy[kind].Prepared? then AfterLookup(s, kind, s.busy[kind].job, fails) else s
    case Save(kind, effect) =>
      if kind in s.busy && s.busy[kind].LookedUp? then AfterSave(s, kind, s.busy[kind].job, effect) else s
    case Create(kind, effect) =>
      if kind in s.busy && s.busy[kind].SavedAt? then AfterCreate(s, kind, s.busy[kind].job, effect) else s
    case Remove(kind, fails) =>
      if kind in s.busy && s.busy[kind].Settled? then AfterRemove(s, kind, s.busy[kind].job, fails) else s
    case GiveUp(kind) => Leave(s, kind)
    case Appear(path) => s.(world := s.world.(files := s.world.files + {path}))
    case ForeignSave(item) => s.(world := Stored(s.world, item))
    case ForeignRecord(r) => s.(world := s.world.(index := s.world.index + [r]))
  }

  /** Clients and other agents do get to act. */
  lemma OthersAct(s: System, path: FilePath, item: Item, r: Record)
    ensures path in Next(s, Appear(path)).world.files
    ensures Location(item) in Next(s, ForeignSave(item)).world.store
    ensures Next(s, ForeignSave(item)).world.store[Location(item)] == item
    ensures Next(s, ForeignRecord(r)).world.index == s.world.index + [r]
  {
  }

  /** The system after a run. */
  function After(s: System, steps: seq<Step>): System
    decreases steps
  {
    if steps == [] then s else After(Next(s, steps[0]), steps[1..])
  }

  lemma {:induction false} AfterConcat(s: System, a: seq<Step>, b: seq<Step>)
    ensures After(s, a + b) == After(After(s, a), b)
    decreases a
  {
    if a == [] {
      assert a + b == b;
    } else {
      AfterConcat(Next(s, a[0]), a[1..], b);
      assert (a + b)[1..] == a[1..] + b;
    }
  }

  lemma AfterOne(s: System, step: Step)
    ensures After(s, [step]) == Next(s, step)
  {
    assert [step][1..] == [];
  }

  lemma AfterLast(s: System, steps: seq<Step>)
    requires steps != []
    ensures var n := |steps| - 1; After(s, steps) == Next(After(s, steps[..n]), steps[n])
  {
    var n := |steps| - 1;
    AfterConcat(s, steps[..n], [steps[n]]);
    AfterOne(After(s, steps[..n]), steps[n]);
    assert steps == steps[..n] + [steps[n]];
  }

  ghost predicate AllOwned(node: string, steps: seq<Step>) {
    forall i :: 0 <= i < |steps| ==> Owned(node, steps[i])
  }

  ghost predicate AllLegal(cfg: Config, steps: seq<Step>) {
    forall i :: 0 <= i < |steps| ==> Legal(cfg, steps[i])
  }

  /** Every busy worker has one of the agent's own objects, of its own kind. */
  ghost predicate Tidy(node: string, s: System) {
    forall kind :: kind in s.busy ==> s.busy[kind].job.item.kind == kind && s.busy[kind].job.item.node == node
  }

  /** A busy worker has the object it had before, or the one it has just begun with. */
  lemma JobOrigin(s: System, step: Step, kind: Kind)
    requires kind in Next(s, step).busy
    ensures var job := Next(s, step).busy[kind].job;
            (kind in s.busy && s.busy[kind].job == job) || (step == Begin(job) && kind == job.item.kind)
  {
  }

  lemma NextTidy(node: string, s: System, step: Step)
    requires Tidy(node, s) && Owned(node, step)
    ensures Tidy(node, Next(s, step))
  {
    var s' := Next(s, step);
    forall kind | kind in s'.busy ensures s'.busy[kind].job.item.kind == kind && s'.busy[kind].job.item.node == node {
      JobOrigin(s, step, kind);
    }
  }

  // Duplicates

  /** Records of one key. */
  function Count(index: seq<Record>, key: Item): nat {
    if index == [] then 0
    else Count(index[..|index| - 1], key) + (if KeyOf(index[|index| - 1].item) == key then 1 else 0)
  }

  function Failures(failed: seq<Item>, key: Item): nat {
    if failed == [] then 0
    else Failures(failed[..|failed| - 1], key) + (if failed[|failed| - 1] == key then 1 else 0)
  }

  /** A lookup never misses a record of its own key. */
  lemma {:induction false} NotFoundMeansNone(index: seq<Record>, item: Item)
    requires !Found(index, item)
    ensures Count(index, KeyOf(item)) == 0
  {
    if index != [] {
      var init := index[..|index| - 1];
      forall i | 0 <= i < |init| ensures !Matches(init[i].item, item) {
        assert init[i] == index[i];
      }
      NotFoundMeansNone(init, item);
    }
  }

  lemma CountPush(index: seq<Record>, r: Record, key: Item)
    ensures Count(index + [r], key) == Count(index, key) + (if KeyOf(r.item) == key then 1 else 0)
  {
    assert (index + [r])[..|index|] == index;
  }

  lemma FailuresPush(failed: seq<Item>, item: Item, key: Item)
    ensures Failures(failed + [item], key) == Failures(failed, key) + (if item == key then 1 else 0)
  {
    assert (failed + [item])[..|failed|] == failed;
  }

  /** One if the worker is between a lookup that did not find the key and its create. */
  function InFlight(s: System, key: Item): nat {
    if key.kind in s.busy && (s.busy[key.kind].LookedUp? || s.busy[key.kind].SavedAt?) &&
       KeyOf(s.busy[key.kind].job.item) == key
    then 1 else 0
  }

  /** Records of the key and the one that may be on its way, against one more than the failed lookups. */
  ghost predicate Balanced(s: System, key: Item) {
    Count(s.world.index, key) + InFlight(s, key) <=
      1 + (if key.kind == ExecutionBadBlock then 0 else Failures(s.world.failedLookups, key))
  }

  lemma LookupBalanced(s: System, kind: Kind, fails: bool, key: Item)
    requires Balanced(s, key) && kind in s.busy && s.busy[kind].Prepared? && s.busy[kind].job.item.kind == kind
    ensures Balanced(AfterLookup(s, kind, s.busy[kind].job, fails), key)
  {
    var item := s.busy[kind].job.item;
    FailuresPush(s.world.failedLookups, KeyOf(item), key);
    if !Found(s.world.index, item) {
      NotFoundMeansNone(s.world.index, item);
    }
  }

  /** A worker that has recorded its object is not on the way to recording it any more. */
  lemma SettleFlight(s: System, kind: Kind, job: Job, key: Item)
    ensures InFlight(Settle(s, kind, job), key) == if key.kind == kind then 0 else InFlight(s, key)
    ensures InFlight(Leave(s, kind), key) == if key.kind == kind then 0 else InFlight(s, key)
  {
  }

  lemma RecordBalanced(s: System, kind: Kind, job: Job, r: Record, key: Item)
    requires Balanced(s, key) && kind in s.busy && s.busy[kind] == SavedAt(job)
    requires job.item.kind == kind && r.item == job.item
    ensures var s' := s.(world := s.world.(index := s.world.index + [r]));
            Balanced(Leave(s', kind), key) && Balanced(Settle(s', kind, job), key)
  {
    var s' := s.(world := s.world.(index := s.world.index + [r]));
    CountPush(s.world.index, r, key);
    SettleFlight(s', kind, job, key);
    assert InFlight(s', key) == InFlight(s, key);
  }

  lemma CreateBalanced(s: System, kind: Kind, effect: Effect, key: Item)
    requires Balanced(s, key) && kind in s.busy && s.busy[kind].SavedAt? && s.busy[kind].job.item.kind == kind
    ensures Balanced(AfterCreate(s, kind, s.busy[kind].job, effect), key)
  {
    var job := s.busy[kind].job;
    if effect == Refused {
      SettleFlight(s, kind, job, key);
    } else {
      RecordBalanced(s, kind, job, Record(job.item, Location(job.item)), key);
    }
  }

  /** No other step starts a capture, and none of them touches the index of this agent. */
  lemma OtherStepsBalanced(s: System, step: Step, key: Item)
    requires Balanced(s, key) && !step.Lookup? && !step.Create? && !step.ForeignRecord?
    ensures Balanced(Next(s, step), key)
  {
    var s' := Next(s, step);
    assert s'.world.index == s.world.index && s'.world.failedLookups == s.world.failedLookups;
    assert InFlight(s', key) <= InFlight(s, key) by {
      if key.kind in s'.busy {
        JobOrigin(s, step, key.kind);
      }
    }
  }

  lemma NextBalanced(node: string, s: System, step: Step, key: Item)
    requires Tidy(node, s) && Balanced(s, key) && Owned(node, step) && key.node == node
    ensures Balanced(Next(s, step), key)
  {
    match step
    case Lookup(kind, fails) =>
      if kind in s.busy && s.busy[kind].Prepared? {
        LookupBalanced(s, kind, fails, key);
      }
    case Create(kind, effect) =>
      if kind in s.busy && s.busy[kind].SavedAt? {
        CreateBalanced(s, kind, effect, key);
      }
    case ForeignRecord(r) => CountPush(s.world.index, r, key);
    case _ => OtherStepsBalanced(s, step, key);
  }

  /**
   At every step of every interleaving: an execution bad block has at most one record, counting
   one on its way, and any other object at most one more than the failed lookups for its key,
   whatever calls fail and whichever failed creates took effect.
   */
  lemma {:induction false} DuplicateBound(node: string, s: System, steps: seq<Step>, key: Item)
    requires Tidy(node, s) && Balanced(s, key) && AllOwned(node, steps) && key.node == node
    ensures var s' := After(s, steps);
            && (key.kind == ExecutionBadBlock ==> Count(s'.world.index, key) + InFlight(s', key) <= 1)
            && Count(s'.world.index, key) + InFlight(s', key) <= 1 + Failures(s'.world.failedLookups, key)
            && Balanced(s', key)
    decreases steps
  {
    if steps != [] {
      assert Owned(node, steps[0]);
      NextTidy(node, s, steps[0]);
      NextBalanced(node, s, steps[0], key);
      DuplicateBound(node, Next(s, steps[0]), steps[1..], key);
    }
  }

  // Store before index

  /** Everything saved is what the store holds at its location. */
  ghost predicate SavedIsStored(w: World) {
    forall x :: x in w.saved ==> WellFormed(x.0) && x.1 == Location(x.0) && x.1 in w.store && w.store[x.1] == x.0
  }

  /** Every record of this agent points at a location saved for that object. */
  ghost predicate RecordsAreSaved(node: string, w: World) {
    forall i :: 0 <= i < |w.index| && w.index[i].item.node == node ==> (w.index[i].item, w.index[i].location) in w.saved
  }

  /** So does every object that a worker is about to record. */
  ghost predicate PendingAreSaved(s: System) {
    forall kind :: kind in s.busy && s.busy[kind].SavedAt? ==>
      (s.busy[kind].job.item, Location(s.busy[kind].job.item)) in s.world.saved
  }

  ghost predicate StoredFirst(node: string, s: System) {
    SavedIsStored(s.world) && RecordsAreSaved(node, s.world) && PendingAreSaved(s)
  }

  /** Names that path.Join does not rewrite. */
  ghost predicate WellNamed(step: Step) {
    match step
    case Begin(job) => WellFormed(job.item)
    case ForeignSave(item) => WellFormed(item)
    case _ => true
  }

  ghost predicate AllWellNamed(steps: seq<Step>) {
    forall i :: 0 <= i < |steps| ==> WellNamed(steps[i])
  }

  ghost predicate AllWellFormed(s: System) {
    forall kind :: kind in s.busy ==> WellFormed(s.busy[kind].job.item)
  }

  lemma BlobRootIsClean(name: string)
    requires NoSlash(name) && ParseBlobFile(name).Some?
    ensures CleanSegment(ParseBlobFile(name).value.root)
  {
    var groups := BlobSubmatches(name);
    SubmatchesAreACut(name, groups);
    assert forall i :: 0 <= i < |groups[1]| ==> groups[1][i] == name[|"blob_sidecar_"| + i];
  }

  /** What is read out of a file name is fit for a location. */
  lemma FileItemWellFormed(cfg: Config, kind: Kind, name: string)
    requires CleanPath(cfg.node) && CleanSegment(cfg.network) && NoSlash(name)
    ensures var item := FileItem(cfg, kind, name);
            item.Some? ==> WellFormed(item.value) && item.value.kind == kind
  {
    if ParseBlobFile(name).Some? {
      BlobRootIsClean(name);
    }
  }

  /** An agent with clean names, and slash-free file names as directories list them, is well named. */
  lemma LegalIsWellNamed(cfg: Config, step: Step)
    requires Legal(cfg, step) && step.Begin? && step.job.file.Some?
    requires CleanPath(cfg.node) && CleanSegment(cfg.network) && NoSlash(step.job.file.value.name)
    ensures WellNamed(step)
  {
    FileItemWellFormed(cfg, step.job.item.kind, step.job.file.value.name);
  }

  lemma NextWellFormed(s: System, step: Step)
    requires WellNamed(step) && AllWellFormed(s)
    ensures AllWellFormed(Next(s, step))
  {
    var s' := Next(s, step);
    forall kind | kind in s'.busy ensures WellFormed(s'.busy[kind].job.item) {
      JobOrigin(s, step, kind);
    }
  }

  /** A save lands on no other object's location. */
  lemma StoredKeeps(w: World, item: Item)
    requires SavedIsStored(w) && WellFormed(item)
    ensures SavedIsStored(Stored(w, item))
    ensures SavedIsStored(Stored(w, item).(saved := w.saved + {(item, Location(item))}))
  {
    forall x | x in w.saved && x.1 == Location(item) ensures x.0 == item {
      LocationInjective(x.0, item);
    }
  }

  lemma SaveKeepsSaved(s: System, kind: Kind, job: Job, effect: Effect)
    requires SavedIsStored(s.world) && WellFormed(job.item)
    ensures SavedIsStored(AfterSave(s, kind, job, effect).world)
  {
    StoredKeeps(s.world, job.item);
  }

  lemma NextSaved(s: System, step: Step)
    requires AllWellFormed(s) && SavedIsStored(s.world) && WellNamed(step)
    ensures SavedIsStored(Next(s, step).world)
  {
    match step
    case Save(kind, effect) =>
      if kind in s.busy && s.busy[kind].LookedUp? {
        SaveKeepsSaved(s, kind, s.busy[kind].job, effect);
      }
    case ForeignSave(item) => StoredKeeps(s.world, item);
    case _ => assert Next(s, step).world.store == s.world.store && Next(s, step).world.saved == s.world.saved;
  }

  lemma NextPending(s: System, step: Step)
    requires PendingAreSaved(s)
    ensures PendingAreSaved(Next(s, step))
  {
  }

  lemma NextRecords(node: string, s: System, step: Step)
    requires RecordsAreSaved(node, s.world) && PendingAreSaved(s) && Owned(node, step)
    ensures RecordsAreSaved(node, Next(s, step).world)
  {
  }

  /**
   Every record of this agent points at a location saved for that object, and every object
   about to be recorded has been saved; the store still holds it there, so no save of any of
   the six kinds, by this or another agent, ever lands on it.
   */
  lemma {:induction false} StoreBeforeIndex(node: string, s: System, steps: seq<Step>)
    requires AllWellFormed(s) && StoredFirst(node, s)
    requires AllOwned(node, steps) && AllWellNamed(steps)
    ensures StoredFirst(node, After(s, steps))
    decreases steps
  {
    if steps != [] {
      assert Owned(node, steps[0]) && WellNamed(steps[0]);
      NextWellFormed(s, steps[0]);
      NextSaved(s, steps[0]);
      NextPending(s, steps[0]);
      NextRecords(node, s, steps[0]);
      StoreBeforeIndex(node, Next(s, steps[0]), steps[1..]);
    }
  }

  lemma SavedStep(s: System, step: Step, kind: Kind)
    requires kind in Next(s, step).busy && Next(s, step).busy[kind].SavedAt?
    ensures (kind in s.busy && s.busy[kind] == Next(s, step).busy[kind]) ||
            (step == Save(kind, Done) && kind in s.busy && s.busy[kind] == LookedUp(Next(s, step).busy[kind].job))
  {
  }

  /** A worker that is about to record has seen its save succeed, at an earlier step. */
  lemma {:induction false} SavedEarlier(s: System, steps: seq<Step>, kind: Kind) returns (i: nat)
    requires s.busy == map[]
    requires kind in After(s, steps).busy && After(s, steps).busy[kind].SavedAt?
    ensures i < |steps| && steps[i] == Save(kind, Done)
    ensures var t := After(s, steps[..i]);
            kind in t.busy && t.busy[kind] == LookedUp(After(s, steps).busy[kind].job)
    decreases |steps|
  {
    var n := |steps| - 1;
    var t := After(s, steps[..n]);
    AfterLast(s, steps);
    SavedStep(t, steps[n], kind);
    i := n;
    if kind in t.busy && t.busy[kind].SavedAt? {
      i := SavedEarlier(s, steps[..n], kind);
      assert steps[..n][..i] == steps[..i];
    }
  }

  lemma RecordStep(s: System, step: Step, r: Record)
    requires r in Next(s, step).world.index && r !in s.world.index
    ensures step != ForeignRecord(r) ==>
              && step.Create? && step.effect != Refused && step.kind in s.busy && s.busy[step.kind].SavedAt?
              && s.busy[step.kind].job.item == r.item && r.location == Location(r.item)
  {
  }

  /** Behind every record of this agent there are a successful save and, after it, a create. */
  lemma {:induction false} RecordHistory(node: string, s: System, steps: seq<Step>, r: Record) returns (i: nat, j: nat)
    requires s.busy == map[] && AllOwned(node, steps)
    requires r !in s.world.index && r.item.node == node && r in After(s, steps).world.index
    ensures i < j < |steps| && steps[j].Create? && steps[j].effect != Refused && steps[i] == Save(steps[j].kind, Done)
    ensures var t := After(s, steps[..i]);
            steps[j].kind in t.busy && t.busy[steps[j].kind].LookedUp? && t.busy[steps[j].kind].job.item == r.item
    ensures r.location == Location(r.item)
    decreases |steps|
  {
    var n := |steps| - 1;
    var t := After(s, steps[..n]);
    AfterLast(s, steps);
    if r in t.world.index {
      i, j := RecordHistory(node, s, steps[..n], r);
    } else {
      assert Owned(node, steps[n]);
      RecordStep(t, steps[n], r);
      j := n;
      i := SavedEarlier(s, steps[..n], steps[n].kind);
    }
    assert steps[..n][..i] == steps[..i];
  }

  // No loss of bad files

  lemma FileItemPrefix(cfg: Config, kind: Kind, name: string)
    requires FileItem(cfg, kind, name).Some?
    ensures kind == BeaconBadBlock ==> "be" <= name
    ensures kind == BeaconBadBlob ==> "bl" <= name
    ensures kind == BeaconBadBlock || kind == BeaconBadBlob
  {
  }

  /** A file is in the care of one kind of sweep at most. */
  lemma FileItemKind(cfg: Config, a: Kind, b: Kind, name: string)
    requires FileItem(cfg, a, name).Some? && FileItem(cfg, b, name).Some?
    ensures a == b
  {
    FileItemPrefix(cfg, a, name);
    FileItemPrefix(cfg, b, name);
    assert "be"[1] != "bl"[1];
  }

  /** A file is only up for removal once the index answers a lookup for it. */
  ghost predicate SettledFound(s: System) {
    forall kind :: kind in s.busy && s.busy[kind].Settled? ==> Found(s.world.index, s.busy[kind].job.item)
  }

  lemma PushFound(index: seq<Record>, r: Record, item: Item)
    ensures Found(index, item) ==> Found(index + [r], item)
    ensures Matches(r.item, item) ==> Found(index + [r], item)
  {
    assert (index + [r])[|index|] == r;
    if Found(index, item) {
      FoundStays(index, index + [r], item);
    }
  }

  lemma GrowthKeepsSettled(s: System, r: Record)
    requires SettledFound(s)
    ensures SettledFound(s.(world := s.world.(index := s.world.index + [r])))
  {
    forall kind | kind in s.busy && s.busy[kind].Settled?
      ensures Found(s.world.index + [r], s.busy[kind].job.item)
    {
      PushFound(s.world.index, r, s.busy[kind].job.item);
    }
  }

  lemma NextSettled(s: System, step: Step)
    requires SettledFound(s)
    ensures SettledFound(Next(s, step))
  {
    match step
    case Create(kind, effect) =>
      if kind in s.busy && s.busy[kind].SavedAt? && effect != Refused {
        var item := s.busy[kind].job.item;
        GrowthKeepsSettled(s, Record(item, Location(item)));
        PushFound(s.world.index, Record(item, Location(item)), item);
      }
    case ForeignRecord(r) => GrowthKeepsSettled(s, r);
    case _ =>
  }

  /** Whoever works on a file works on the object it stands for. */
  ghost predicate StandsFor(s: System, path: FilePath, item: Item) {
    forall kind :: kind in s.busy && s.busy[kind].job.file == Some(path) ==> s.busy[kind].job.item == item
  }

  ghost predicate BeginsFor(step: Step, path: FilePath, item: Item) {
    step.Begin? && step.job.file == Some(path) ==> step.job.item == item
  }

  lemma NextStandsFor(s: System, step: Step, path: FilePath, item: Item)
    requires StandsFor(s, path, item) && BeginsFor(step, path, item)
    ensures StandsFor(Next(s, step), path, item)
  {
    var s' := Next(s, step);
    forall kind | kind in s'.busy && s'.busy[kind].job.file == Some(path) ensures s'.busy[kind].job.item == item {
      JobOrigin(s, step, kind);
    }
  }

  /** One step removes a file only when the index answers a lookup for it. */
  lemma NextKeeps(s: System, step: Step, path: FilePath, item: Item)
    requires StandsFor(s, path, item) && SettledFound(s)
    ensures Keeps(s.world, Next(s, step).world, path, item)
  {
  }

  lemma KeepsTransitive(u: World, v: World, w: World, path: FilePath, item: Item)
    requires Keeps(u, v, path, item) && Keeps(v, w, path, item)
    ensures Keeps(u, w, path, item)
  {
    if path in u.files && path !in v.files {
      FoundStays(v.index, w.index, item);
    }
  }

  lemma {:induction false} RunKeeps(s: System, steps: seq<Step>, path: FilePath, item: Item)
    requires StandsFor(s, path, item) && SettledFound(s)
    requires forall i :: 0 <= i < |steps| ==> BeginsFor(steps[i], path, item)
    ensures Keeps(s.world, After(s, steps).world, path, item)
    decreases steps
  {
    if steps != [] {
      var s' := Next(s, steps[0]);
      NextStandsFor(s, steps[0], path, item);
      NextSettled(s, steps[0]);
      NextKeeps(s, steps[0], path, item);
      RunKeeps(s', steps[1..], path, item);
      KeepsTransitive(s.world, s'.world, After(s', steps[1..]).world, path, item);
    }
  }

  lemma LegalBegins(cfg: Config, step: Step, path: FilePath, own: Kind, item: Item)
    requires Legal(cfg, step) && FileItem(cfg, own, path.name) == Some(item)
    ensures BeginsFor(step, path, item)
  {
    if step.Begin? && step.job.file == Some(path) {
      FileItemKind(cfg, step.job.item.kind, own, path.name);
    }
  }

  /**
   Over any interleaving with any failures, a bad file is still on disk or the index answers
   a lookup for it.
   */
  lemma NoFileIsLost(cfg: Config, s: System, steps: seq<Step>, path: FilePath, own: Kind, item: Item)
    requires FileItem(cfg, own, path.name) == Some(item)
    requires StandsFor(s, path, item) && SettledFound(s) && AllLegal(cfg, steps)
    ensures Keeps(s.world, After(s, steps).world, path, item)
  {
    forall i | 0 <= i < |steps| ensures BeginsFor(steps[i], path, item) {
      LegalBegins(cfg, steps[i], path, own, item);
    }
    RunKeeps(s, steps, path, item);
  }

  ghost predicate KeepsRecord(w: World, w': World, path: FilePath, item: Item) {
    path in w.files ==> path in w'.files || Recorded(w'.index, item)
  }

  /** With a slot other than zero, that answer is a record of the file's own key. */
  lemma NoLoss(cfg: Config, s: System, steps: seq<Step>, path: FilePath, own: Kind, item: Item)
    requires FileItem(cfg, own, path.name) == Some(item)
    requires StandsFor(s, path, item) && SettledFound(s) && AllLegal(cfg, steps)
    requires cfg.node != "" && cfg.network != "" && item.number != 0
    ensures KeepsRecord(s.world, After(s, steps).world, path, item)
  {
    NoFileIsLost(cfg, s, steps, path, own, item);
    FileItemRoot(cfg, own, path.name);
    var index := After(s, steps).world.index;
    if Found(index, item) {
      FoundIsRecorded(index, item);
    }
  }

  /** A file whose name no sweep picks up is never touched. */
  lemma {:induction false} UnmatchedFilesStay(cfg: Config, s: System, steps: seq<Step>, path: FilePath)
    requires forall kind :: FileItem(cfg, kind, path.name).None?
    requires forall kind :: kind in s.busy ==> s.busy[kind].job.file != Some(path)
    requires AllLegal(cfg, steps)
    ensures path in s.world.files ==> path in After(s, steps).world.files
    decreases steps
  {
    if steps != [] {
      assert Legal(cfg, steps[0]);
      assert steps[0].Begin? ==> steps[0].job.file != Some(path);
      UntouchedByStep(s, steps[0], path);
      UnmatchedFilesStay(cfg, Next(s, steps[0]), steps[1..], path);
    }
  }

  lemma UntouchedByStep(s: System, step: Step, path: FilePath)
    requires forall kind :: kind in s.busy ==> s.busy[kind].job.file != Some(path)
    requires step.Begin? ==> step.job.file != Some(path)
    ensures var s' := Next(s, step);
            && (path in s.world.files ==> path in s'.world.files)
            && forall kind :: kind in s'.busy ==> s'.busy[kind].job.file != Some(path)
  {
    var s' := Next(s, step);
    forall kind | kind in s'.busy ensures s'.busy[kind].job.file != Some(path) {
      JobOrigin(s, step, kind);
    }
  }

  // Where runs start

  /** No worker is busy, as when an agent starts or starts again. */
  ghost predicate Idle(s: System) {
    s.busy == map[]
  }

  ghost predicate Fresh(s: System) {
    Idle(s) && s.world == World(map[], [], s.world.files, {}, [])
  }

  /** A fresh start meets what the theorems ask for. */
  lemma FreshIsSound(s: System, node: string, key: Item, path: FilePath, item: Item)
    requires Fresh(s)
    ensures Tidy(node, s) && Balanced(s, key) && AllWellFormed(s) && StoredFirst(node, s)
    ensures StandsFor(s, path, item) && SettledFound(s)
  {
  }

  /** A restart forgets what the workers were doing, and keeps all of it. */
  lemma RestartIsSound(s: System, node: string, key: Item, path: FilePath, item: Item)
    ensures var s' := s.(busy := map[]);
            && Tidy(node, s') && AllWellFormed(s') && StandsFor(s', path, item) && SettledFound(s')
            && (Balanced(s, key) ==> Balanced(s', key))
            && (StoredFirst(node, s) ==> StoredFirst(node, s'))
  {
  }
}
