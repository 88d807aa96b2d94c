/**
 Capturing one object, sweeping a directory of bad files, and indexing a list of execution
 bad blocks: look up, save to the store, create the index record, and for files remove the
 local copy.  Every call may fail; a save or a create may also take effect and still report
 an error.
 */
module Capture {
  import opened FileNames
  import opened Locations
  import opened Wrappers

  datatype Config = Config(node: string, network: string, client: Client)

  datatype Record = Record(item: Item, location: string)

  datatype Effect = Done | Refused | DoneButError

  /**
   What goes wrong while one object is handled.  `prepare` is the call for the root of a state
   or block, or reading the file; `spec` is the call for the slots per epoch.
   */
  datatype Faults = Faults(
    prepare: bool, lookup: bool, fetch: bool, compress: bool, save: Effect, spec: bool, create: Effect, remove: bool)

  const NO_FAULTS: Faults := Faults(false, false, false, false, Done, false, Done, false)

  datatype Outcome = AlreadyIndexed | Indexed | Failed | Aborted

  datatype FilePath = FilePath(dir: string, name: string)

  /**
   The store (which object lies at a location), the index in creation order and the local
   files; and two histories: the saves that were reported to succeed, and the keys of failed
   lookups.
   */
  datatype World = World(
    store: map<string, Item>, index: seq<Record>, files: set<FilePath>,
    saved: set<(Item, string)>, failedLookups: seq<Item>)

  predicate IsExecution(kind: Kind) {
    kind == ExecutionBlockTrace || kind == ExecutionBadBlock
  }

  /** What identifies an object in the index: execution objects go by hash alone, only blobs by index. */
  function KeyOf(item: Item): Item {
    item.(number := if IsExecution(item.kind) then 0 else item.number,
          index := if item.kind == BeaconBadBlob then item.index else 0)
  }

  /** The indexer's filter: a request field that is empty or zero does not restrict anything. */
  predicate Matches(stored: Item, request: Item) {
    && stored.kind == request.kind
    && (request.node != "" ==> stored.node == request.node)
    && (request.network != "" ==> stored.network == request.network)
    && (request.root != "" ==> stored.root == request.root)
    && (!IsExecution(request.kind) && request.number != 0 ==> stored.number == request.number)
    && (request.kind == BeaconBadBlob ==> stored.index == request.index)
  }

  predicate Found(index: seq<Record>, request: Item) {
    exists i :: 0 <= i < |index| && Matches(index[i].item, request)
  }

  /** Beacon objects need the spec for their epoch; execution objects do not. */
  predicate NeedsSpec(kind: Kind) {
    !IsExecution(kind)
  }

  /** Beacon objects have a root to ask for or a file to read before the lookup. */
  predicate NeedsPreparation(kind: Kind) {
    !IsExecution(kind)
  }

  function Stored(w: World, item: Item): World {
    w.(store := w.store[Location(item) := item])
  }

  function Created(w: World, item: Item): World {
    w.(index := w.index + [Record(item, Location(item))])
  }

  /** Save, spec and create, once the object is known not to be indexed. */
  function SaveAndIndex(w: World, item: Item, f: Faults): (World, Outcome) {
    if f.save == Refused then (w, Failed)
    else if f.save == DoneButError then (Stored(w, item), Failed)
    else
      var w' := Stored(w, item).(saved := w.saved + {(item, Location(item))});
      if (NeedsSpec(item.kind) && f.spec) || f.create == Refused then (w', Failed)
      else (Created(w', item), if f.create == Done then Indexed else Failed)
  }

  /**
   One object.  A failed lookup counts as "not indexed" for five kinds; execution bad blocks
   are given up instead.
   */
  function CaptureItem(w: World, item: Item, f: Faults): (World, Outcome) {
    if f.prepare && NeedsPreparation(item.kind) then (w, Failed)
    else if !f.lookup && Found(w.index, item) then (w, AlreadyIndexed)
    else
      var w' := if f.lookup then w.(failedLookups := w.failedLookups + [KeyOf(item)]) else w;
      if (f.lookup && item.kind == ExecutionBadBlock) || f.fetch then (w', Failed)
      else if f.compress then (w', Aborted)
      else SaveAndIndex(w', item, f)
  }

  /** The object a file stands for, if its name is one the sweep of that kind picks up. */
  function FileItem(cfg: Config, kind: Kind, name: string): Option<Item> {
    if kind == BeaconBadBlock then
      match ParseBlockFile(cfg.client, name)
      case None => None
      case Some(file) => Some(Item(BeaconBadBlock, cfg.node, cfg.network, file.slot, file.root, 0))
    else if kind == BeaconBadBlob && cfg.client == Prysm then
      match ParseBlobFile(name)
      case None => None
      case Some(file) => Some(Item(BeaconBadBlob, cfg.node, cfg.network, file.slot, file.root, file.index))
    else None
  }

  /** One file: handled, and removed if that went well.  A vanished file cannot be read. */
  function SweepFile(w: World, path: FilePath, item: Item, f: Faults): (World, Outcome) {
    var (w', outcome) := CaptureItem(w, item, f.(prepare := f.prepare || path !in w.files));
    if (outcome == AlreadyIndexed || outcome == Indexed) && !f.remove
    then (w'.(files := w'.files - {path}), outcome)
    else (w', outcome)
  }

  /** A pass over a directory listing.  Only a compression error ends it early. */
  function Sweep(cfg: Config, w: World, kind: Kind, dir: string, names: seq<string>, fs: seq<Faults>): World
    requires |fs| == |names|
    decreases names
  {
    if names == [] then w
    else
      match FileItem(cfg, kind, names[0])
      case None => Sweep(cfg, w, kind, dir, names[1..], fs[1..])
      case Some(item) =>
        var (w', outcome) := SweepFile(w, FilePath(dir, names[0]), item, fs[0]);
        if outcome == Aborted then w' else Sweep(cfg, w', kind, dir, names[1..], fs[1..])
  }

  function BadBlockItem(cfg: Config, hash: string): Item {
    Item(ExecutionBadBlock, cfg.node, cfg.network, 0, hash, 0)
  }

  /** The execution node's list of bad blocks; an error on one does not stop the others. */
  function IndexAll(cfg: Config, w: World, hashes: seq<string>, fs: seq<Faults>): World
    requires |fs| == |hashes|
    decreases hashes
  {
    if hashes == [] then w
    else IndexAll(cfg, CaptureItem(w, BadBlockItem(cfg, hashes[0]), fs[0]).0, hashes[1..], fs[1..])
  }

  /** The agent with its effects on store, index and directory, in the order of the source. */
  class Agent {
    const cfg: Config
    var store: map<string, Item>
    var index: seq<Record>
    var files: set<FilePath>
    ghost var saved: set<(Item, string)>
    ghost var failedLookups: seq<Item>

    ghost function Snapshot(): World
      reads this
    {
      World(store, index, files, saved, failedLookups)
    }

    constructor (cfg: Config, files: set<FilePath>)
      ensures this.cfg == cfg && Snapshot() == World(map[], [], files, {}, [])
    {
      this.cfg := cfg;
      this.store, this.index, this.files := map[], [], files;
      this.saved, this.failedLookups := {}, [];
    }

    method CaptureOne(item: Item, f: Faults) returns (outcome: Outcome)
      modifies this
      ensures Snapshot() == CaptureItem(old(Snapshot()), item, f).0
      ensures outcome == CaptureItem(old(Snapshot()), item, f).1
    {
      if f.prepare && NeedsPreparation(item.kind) {
        return Failed;
      }
      if f.lookup {
        failedLookups := failedLookups + [KeyOf(item)];
        if item.kind == ExecutionBadBlock {
          return Failed;
        }
      } else if Found(index, item) {
        return AlreadyIndexed;
      }
      if f.fetch {
        return Failed;
      }
      if f.compress {
        return Aborted;
      }
      if f.save != Refused {
        store := store[Location(item) := item];
      }
      if f.save != Done {
        return Failed;
      }
      saved := saved + {(item, Location(item))};
      if NeedsSpec(item.kind) && f.spec {
        return Failed;
      }
      if f.create != Refused {
        index := index + [Record(item, Location(item))];
      }
      return if f.create == Done then Indexed else Failed;
    }

    /** The loop body for a file whose name matched. */
    method HandleFile(path: FilePath, item: Item, f: Faults) returns (outcome: Outcome)
      modifies this
      ensures Snapshot() == SweepFile(old(Snapshot()), path, item, f).0
      ensures outcome == SweepFile(old(Snapshot()), path, item, f).1
    {
      outcome := CaptureOne(item, f.(prepare := f.prepare || path !in files));
      if outcome == Aborted || outcome == Failed || f.remove {
        return;
      }
      files := files - {path};
    }

    method SweepDirectory(kind: Kind, dir: string, names: seq<string>, fs: seq<Faults>)
      requires |fs| == |names|
      modifies this
      ensures Snapshot() == Sweep(cfg, old(Snapshot()), kind, dir, names, fs)
    {
      var i := 0;
      while i < |names|
        invariant 0 <= i <= |names|
        invariant Sweep(cfg, Snapshot(), kind, dir, names[i..], fs[i..]) ==
                  Sweep(cfg, old(Snapshot()), kind, dir, names, fs)
      {
        var name, f := names[i], fs[i];
        assert names[i..][1..] == names[i + 1..] && fs[i..][1..] == fs[i + 1..];
        i := i + 1;
        var item := FileItem(cfg, kind, name);
        if item.None? {
          continue;
        }
        var outcome := HandleFile(FilePath(dir, name), item.value, f);
        if outcome == Aborted {
          return;
        }
      }
    }

    method IndexExecutionBadBlocks(hashes: seq<string>, fs: seq<Faults>)
      requires |fs| == |hashes|
      modifies this
      ensures Snapshot() == IndexAll(cfg, old(Snapshot()), hashes, fs)
    {
      for i := 0 to |hashes|
        invariant IndexAll(cfg, Snapshot(), hashes[i..], fs[i..]) == IndexAll(cfg, old(Snapshot()), hashes, fs)
      {
        assert hashes[i..][1..] == hashes[i + 1..] && fs[i..][1..] == fs[i + 1..];
        var _ := CaptureOne(BadBlockItem(cfg, hashes[i]), fs[i]);
      }
    }
  }
}
