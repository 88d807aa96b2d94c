/**
 One capture, one pass over a directory and one list of bad blocks, each run on its own: what
 it may do to the index and to the files, and what it achieves when nothing fails.
 */
module CapturePasses {
  import opened Capture
  import opened Decimal
  import opened FileNames
  import opened Locations
  import opened Uint64
  import opened Wrappers

  // What file names stand for

  /** A file name is taken for an object just when the client is Prysm and the name is one of its two forms. */
  lemma FileItemIff(cfg: Config, kind: Kind, name: string, item: Item)
    ensures FileItem(cfg, kind, name) == Some(item) <==>
            && cfg.client == Prysm
            && item.kind == kind && item.node == cfg.node && item.network == cfg.network
            && ((kind == BeaconBadBlob && exists slot, index ::
                   ReadsAs(name, BlobFile(item.root, item.number, item.index), slot, index))
                || (kind == BeaconBadBlock && item.root == "unknown" && item.index == 0 && exists slot ::
                   name == "beacon_block_" + slot + ".ssz" && ParseUint(slot) == Some(item.number)))
  {
    if kind == BeaconBadBlob {
      ParseBlobFileIff(name, BlobFile(item.root, item.number, item.index));
    } else if kind == BeaconBadBlock {
      OnlyPrysmBlocksArePickedUp(cfg.client, name, BlockFile(item.root, item.number));
    }
  }

  /** Every blob file is handled as the root, slot and index its name is made of. */
  lemma BlobFilesAreRead(cfg: Config, root: string, slot: uint64, index: uint64)
    requires cfg.client == Prysm && DotFree(root)
    ensures FileItem(cfg, BeaconBadBlob, BlobName(root, Print(slot), Print(index))) ==
            Some(Item(BeaconBadBlob, cfg.node, cfg.network, slot, root, index))
  {
    BlobFileRoundTrip(root, slot, index);
  }

  /** Every block file is handled as the slot its name is made of, without a root. */
  lemma BlockFilesAreRead(cfg: Config, slot: uint64)
    requires cfg.client == Prysm
    ensures FileItem(cfg, BeaconBadBlock, "beacon_block_" + Print(slot) + ".ssz") ==
            Some(Item(BeaconBadBlock, cfg.node, cfg.network, slot, "unknown", 0))
  {
    ParsePrint(slot);
    OnlyPrysmBlocksArePickedUp(cfg.client, "beacon_block_" + Print(slot) + ".ssz", BlockFile("unknown", slot));
  }

  // Keys and lookups

  predicate IsBeacon(kind: Kind) {
    kind == BeaconState || kind == BeaconBlock || kind == BeaconBadBlock || kind == BeaconBadBlob
  }

  /** What makes two objects the same to the index. */
  lemma SameKeyIff(a: Item, b: Item)
    ensures KeyOf(a) == KeyOf(b) <==>
            && a.kind == b.kind && a.node == b.node && a.network == b.network && a.root == b.root
            && (IsBeacon(a.kind) ==> a.number == b.number)
            && (a.kind == BeaconBadBlob ==> a.index == b.index)
  {
  }

  /** No request field is zero or empty, so the indexer's filter restricts by all of them. */
  predicate FullySpecified(item: Item) {
    item.node != "" && item.network != "" && item.root != "" && (IsBeacon(item.kind) ==> item.number != 0)
  }

  /** A lookup with all fields set is answered by exactly the records of the same key. */
  lemma MatchesIffSameKey(stored: Item, request: Item)
    requires FullySpecified(request)
    ensures Matches(stored, request) <==> KeyOf(stored) == KeyOf(request)
  {
  }

  /** A beacon lookup for slot zero is answered by any slot. */
  lemma SlotZeroMatchesAll(stored: Item, request: Item, number: uint64)
    requires IsBeacon(request.kind) && request.number == 0
    ensures Matches(stored, request) <==> Matches(stored.(number := number), request)
  {
  }

  // Handling one object

  /** When a capture gets as far as its save, its create, and its end. */
  ghost predicate Reads(item: Item, f: Faults) {
    IsBeacon(item.kind) ==> !f.prepare
  }

  ghost predicate Answers(w: World, item: Item, f: Faults) {
    Reads(item, f) && !f.lookup && Found(w.index, item)
  }

  ghost predicate Fetches(w: World, item: Item, f: Faults) {
    Reads(item, f) && !Answers(w, item, f) && !(f.lookup && item.kind == ExecutionBadBlock) && !f.fetch
  }

  ghost predicate Saves(w: World, item: Item, f: Faults) {
    Fetches(w, item, f) && !f.compress && f.save != Refused
  }

  ghost predicate Creates(w: World, item: Item, f: Faults) {
    Saves(w, item, f) && f.save == Done && (IsBeacon(item.kind) ==> !f.spec) && f.create != Refused
  }

  /** Every effect of handling one object. */
  lemma CaptureEffect(w: World, item: Item, f: Faults)
    ensures var w' := CaptureItem(w, item, f).0;
            && w'.store == (if Saves(w, item, f) then w.store[Location(item) := item] else w.store)
            && w'.index == w.index + (if Creates(w, item, f) then [Record(item, Location(item))] else [])
            && w'.saved == w.saved +
               (if Saves(w, item, f) && f.save == Done then {(item, Location(item))} else {})
            && w'.failedLookups == w.failedLookups + (if Reads(item, f) && f.lookup then [KeyOf(item)] else [])
            && w'.files == w.files
  {
  }

  /** Which failures end in which outcome; only a compression error aborts. */
  lemma CaptureOutcome(w: World, item: Item, f: Faults)
    ensures var outcome := CaptureItem(w, item, f).1;
            && (outcome == AlreadyIndexed <==> Answers(w, item, f))
            && (outcome == Indexed <==> Creates(w, item, f) && f.create == Done)
            && (outcome == Aborted <==> Fetches(w, item, f) && f.compress)
  {
  }

  /** A file is removed just when its object was found or recorded and the removal does not fail. */
  lemma SweepFileEffect(w: World, path: FilePath, item: Item, f: Faults)
    requires IsBeacon(item.kind) && path in w.files
    ensures var (w', outcome) := SweepFile(w, path, item, f);
            && outcome == CaptureItem(w, item, f).1
            && (path !in w'.files <==>
                !f.remove && (Answers(w, item, f) || (Creates(w, item, f) && f.create == Done)))
  {
    assert f.(prepare := f.prepare || path !in w.files) == f;
    CaptureEffect(w, item, f);
    CaptureOutcome(w, item, f);
  }

  /** A record is only added after a lookup that failed or found nothing. */
  lemma CaptureIndex(w: World, item: Item, f: Faults)
    ensures var w' := CaptureItem(w, item, f).0;
            && w'.files == w.files
            && (w'.index == w.index || w'.index == w.index + [Record(item, Location(item))])
            && (w'.failedLookups == w.failedLookups || w'.failedLookups == w.failedLookups + [KeyOf(item)])
            && (w'.index != w.index && w'.failedLookups == w.failedLookups ==> !Found(w.index, item))
            && (w'.index != w.index && item.kind == ExecutionBadBlock ==> w'.failedLookups == w.failedLookups)
  {
  }

  // Files and records

  ghost predicate Recorded(index: seq<Record>, item: Item) {
    exists i :: 0 <= i < |index| && KeyOf(index[i].item) == KeyOf(item)
  }

  /** What handling may do to the index and to a file that stands for `item`. */
  ghost predicate Keeps(w: World, w': World, path: FilePath, item: Item) {
    && w.index <= w'.index
    && (path in w.files ==> path in w'.files || Found(w'.index, item))
  }

  lemma FoundIsRecorded(index: seq<Record>, item: Item)
    requires FullySpecified(item) && Found(index, item)
    ensures Recorded(index, item)
  {
    var i :| 0 <= i < |index| && Matches(index[i].item, item);
    MatchesIffSameKey(index[i].item, item);
  }

  lemma FoundStays(index: seq<Record>, index': seq<Record>, item: Item)
    requires index <= index' && Found(index, item)
    ensures Found(index', item)
  {
    var i :| 0 <= i < |index| && Matches(index[i].item, item);
    assert index'[i] == index[i];
  }

  /** Handling one file removes it only if the index then answers a lookup for it. */
  lemma SweepFileKeeps(w: World, path: FilePath, item: Item, f: Faults)
    ensures var w' := SweepFile(w, path, item, f).0;
            Keeps(w, w', path, item) && forall other :: other in w.files && other != path ==> other in w'.files
  {
    var f' := f.(prepare := f.prepare || path !in w.files);
    var (w', outcome) := CaptureItem(w, item, f');
    CaptureIndex(w, item, f');
    if outcome == Indexed {
      assert Matches(w'.index[|w.index|].item, item);
    }
  }

  lemma SweepFileFrame(w: World, path: FilePath, item: Item, f: Faults)
    ensures var w' := SweepFile(w, path, item, f).0;
            && w.index <= w'.index
            && (w'.files == w.files || w'.files == w.files - {path})
  {
    CaptureIndex(w, item, f.(prepare := f.prepare || path !in w.files));
  }

  lemma FileItemRoot(cfg: Config, kind: Kind, name: string)
    ensures FileItem(cfg, kind, name).Some? ==> FileItem(cfg, kind, name).value.root != ""
  {
    ParseBlobFileDotFree(name);
  }

  lemma {:induction false} IndexAllKeepsFiles(cfg: Config, w: World, hashes: seq<string>, fs: seq<Faults>)
    requires |fs| == |hashes|
    ensures w.index <= IndexAll(cfg, w, hashes, fs).index
    ensures w.files == IndexAll(cfg, w, hashes, fs).files
    decreases hashes
  {
    if hashes != [] {
      CaptureIndex(w, BadBlockItem(cfg, hashes[0]), fs[0]);
      IndexAllKeepsFiles(cfg, CaptureItem(w, BadBlockItem(cfg, hashes[0]), fs[0]).0, hashes[1..], fs[1..]);
    }
  }

  // When nothing fails

  lemma CleanFileGoes(w: World, path: FilePath, item: Item)
    ensures var (w', outcome) := SweepFile(w, path, item, NO_FAULTS);
            path !in w'.files && outcome != Aborted
  {
    CaptureIndex(w, item, NO_FAULTS.(prepare := path !in w.files));
  }

  lemma {:induction false} SweepAddsNoFiles(cfg: Config, w: World, kind: Kind, dir: string, names: seq<string>,
                                            fs: seq<Faults>, path: FilePath)
    requires |fs| == |names| && path !in w.files
    ensures path !in Sweep(cfg, w, kind, dir, names, fs).files
    decreases names
  {
    if names != [] {
      var found := FileItem(cfg, kind, names[0]);
      if found.None? {
        SweepAddsNoFiles(cfg, w, kind, dir, names[1..], fs[1..], path);
      } else {
        SweepFileFrame(w, FilePath(dir, names[0]), found.value, fs[0]);
        SweepAddsNoFiles(cfg, SweepFile(w, FilePath(dir, names[0]), found.value, fs[0]).0, kind, dir, names[1..], fs[1..], path);
      }
    }
  }

  /** No failure but a compression error keeps a pass from the files behind it. */
  lemma {:induction false} PassReachesFile(cfg: Config, w: World, kind: Kind, dir: string, names: seq<string>,
                                           fs: seq<Faults>, k: nat)
    requires |fs| == |names| && forall i :: 0 <= i < |fs| ==> !fs[i].compress
    requires k < |names| && FileItem(cfg, kind, names[k]).Some? && fs[k] == NO_FAULTS
    ensures FilePath(dir, names[k]) !in Sweep(cfg, w, kind, dir, names, fs).files
    decreases names
  {
    var found := FileItem(cfg, kind, names[0]);
    if found.None? {
      PassReachesFile(cfg, w, kind, dir, names[1..], fs[1..], k - 1);
    } else {
      var w' := SweepFile(w, FilePath(dir, names[0]), found.value, fs[0]).0;
      PassGoesOn(cfg, w, kind, dir, names, fs);
      if k == 0 {
        CleanFileGoes(w, FilePath(dir, names[0]), found.value);
        SweepAddsNoFiles(cfg, w', kind, dir, names[1..], fs[1..], FilePath(dir, names[0]));
      } else {
        PassReachesFile(cfg, w', kind, dir, names[1..], fs[1..], k - 1);
      }
    }
  }

  lemma PassGoesOn(cfg: Config, w: World, kind: Kind, dir: string, names: seq<string>, fs: seq<Faults>)
    requires 0 < |fs| == |names| && !fs[0].compress && FileItem(cfg, kind, names[0]).Some?
    ensures var path := FilePath(dir, names[0]);
            var w' := SweepFile(w, path, FileItem(cfg, kind, names[0]).value, fs[0]).0;
            Sweep(cfg, w, kind, dir, names, fs) == Sweep(cfg, w', kind, dir, names[1..], fs[1..])
  {
    OnlyCompressionAborts(w, FilePath(dir, names[0]), FileItem(cfg, kind, names[0]).value, fs[0]);
  }

  lemma OnlyCompressionAborts(w: World, path: FilePath, item: Item, f: Faults)
    requires !f.compress
    ensures SweepFile(w, path, item, f).1 != Aborted
  {
  }

  /** A compression error ends the pass: the files behind are not looked at. */
  lemma CompressionErrorEndsPass(cfg: Config, w: World, kind: Kind, dir: string, names: seq<string>, fs: seq<Faults>)
    requires 0 < |fs| == |names| && FileItem(cfg, kind, names[0]).Some? && FilePath(dir, names[0]) in w.files
    requires fs[0] == NO_FAULTS.(compress := true) && !Found(w.index, FileItem(cfg, kind, names[0]).value)
    ensures Sweep(cfg, w, kind, dir, names, fs) == w
  {
    var item := FileItem(cfg, kind, names[0]).value;
    assert fs[0].(prepare := fs[0].prepare || FilePath(dir, names[0]) !in w.files) == fs[0];
    CaptureEffect(w, item, fs[0]);
    CaptureOutcome(w, item, fs[0]);
    assert SweepFile(w, FilePath(dir, names[0]), item, fs[0]).0 == w;
  }

  /** A pass in which nothing fails takes every listed file that has a matching name. */
  lemma CleanPassDrains(cfg: Config, w: World, kind: Kind, dir: string, names: seq<string>, fs: seq<Faults>, k: nat)
    requires |fs| == |names| && forall i :: 0 <= i < |fs| ==> fs[i] == NO_FAULTS
    requires k < |names| && FileItem(cfg, kind, names[k]).Some?
    ensures FilePath(dir, names[k]) !in Sweep(cfg, w, kind, dir, names, fs).files
  {
    PassReachesFile(cfg, w, kind, dir, names, fs, k);
  }

  /** With no failures an object ends up in the index, newly saved unless it was found there. */
  lemma CleanCapture(w: World, item: Item)
    ensures var (w', outcome) := CaptureItem(w, item, NO_FAULTS);
            && Found(w'.index, item)
            && outcome == (if Found(w.index, item) then AlreadyIndexed else Indexed)
            && (!Found(w.index, item) ==> w' == Created(Stored(w, item), item).(saved := w.saved + {(item, Location(item))}))
  {
    var w' := CaptureItem(w, item, NO_FAULTS).0;
    if !Found(w.index, item) {
      assert Matches(w'.index[|w.index|].item, item);
    }
  }

  /** So is a file's object, and the file is gone. */
  lemma CleanFile(w: World, path: FilePath, item: Item)
    requires path in w.files
    ensures var w' := SweepFile(w, path, item, NO_FAULTS).0;
            && w'.files == w.files - {path}
            && w'.index == w.index + (if Found(w.index, item) then [] else [Record(item, Location(item))])
  {
    assert NO_FAULTS.(prepare := NO_FAULTS.prepare || path !in w.files) == NO_FAULTS;
    CleanCapture(w, item);
  }

  ghost predicate HasExecutionBadBlock(index: seq<Record>, node: string, network: string, hash: string) {
    exists i :: 0 <= i < |index| &&
      var item := index[i].item;
      item.kind == ExecutionBadBlock && item.node == node && item.network == network && item.root == hash
  }

  /** A bad block handled without failures is in the index, under its hash, whatever happens to the rest of the list. */
  lemma CleanListIsRecorded(cfg: Config, w: World, hashes: seq<string>, fs: seq<Faults>, k: nat)
    requires k < |fs| == |hashes| && fs[k] == NO_FAULTS
    requires cfg.node != "" && cfg.network != "" && hashes[k] != ""
    ensures HasExecutionBadBlock(IndexAll(cfg, w, hashes, fs).index, cfg.node, cfg.network, hashes[k])
  {
    var index := IndexAll(cfg, w, hashes, fs).index;
    var item := BadBlockItem(cfg, hashes[k]);
    CleanListIsIndexed(cfg, w, hashes, fs, k);
    FoundIsRecorded(index, item);
    var i :| 0 <= i < |index| && KeyOf(index[i].item) == KeyOf(item);
    SameKeyIff(index[i].item, item);
    assert item.root == hashes[k];
  }

  lemma {:induction false} CleanListIsIndexed(cfg: Config, w: World, hashes: seq<string>, fs: seq<Faults>, k: nat)
    requires k < |fs| == |hashes| && fs[k] == NO_FAULTS
    ensures Found(IndexAll(cfg, w, hashes, fs).index, BadBlockItem(cfg, hashes[k]))
    decreases hashes
  {
    var w' := CaptureItem(w, BadBlockItem(cfg, hashes[0]), fs[0]).0;
    if k > 0 {
      CleanListIsIndexed(cfg, w', hashes[1..], fs[1..], k - 1);
    } else {
      CleanCapture(w, BadBlockItem(cfg, hashes[0]));
      IndexAllKeepsFiles(cfg, w', hashes[1..], fs[1..]);
      FoundStays(w'.index, IndexAll(cfg, w', hashes[1..], fs[1..]).index, BadBlockItem(cfg, hashes[0]));
    }
  }
}
