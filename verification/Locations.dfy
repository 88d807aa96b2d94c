/**
 Where the agent stores what it captures.  The six printers of pkg/agent/path.go, the
 extension the callers append, and a parser that shows nothing is lost in printing.
 */
module Locations {
  import opened Decimal
  import opened Paths
  import opened Uint64
  import opened Wrappers

  datatype Kind = BeaconState | BeaconBlock | BeaconBadBlock | BeaconBadBlob | ExecutionBlockTrace | ExecutionBadBlock

  /**
   A captured object.  `number` is a slot, or a block number for traces; `root` is a root or a
   block hash.  Only blobs have an index, and execution bad blocks have no number.
   */
  datatype Item = Item(kind: Kind, node: string, network: string, number: uint64, root: string, index: uint64)

  function Folder(kind: Kind): string {
    match kind
    case BeaconState => "beacon_states"
    case BeaconBlock => "beacon_blocks"
    case BeaconBadBlock => "beacon_bad_blocks"
    case BeaconBadBlob => "beacon_bad_blobs"
    case ExecutionBlockTrace => "execution_block_traces"
    case ExecutionBadBlock => "execution_bad_blocks"
  }

  function Middle(kind: Kind): string {
    if kind == ExecutionBlockTrace then "blocks" else "slots"
  }

  function Extension(kind: Kind): string {
    if kind == ExecutionBlockTrace || kind == ExecutionBadBlock then ".json" else ".ssz"
  }

  /** The elements each printer hands to path.Join. */
  function Elements(item: Item): seq<string> {
    match item.kind
    case ExecutionBadBlock => [Folder(item.kind), item.network, item.node, item.root]
    case BeaconBadBlob =>
      [Folder(item.kind), item.network, Middle(item.kind), Print(item.number), item.node, item.root, Print(item.index)]
    case _ => [Folder(item.kind), item.network, Middle(item.kind), Print(item.number), item.node, item.root]
  }

  function FileName(item: Item): string {
    PathJoin(Elements(item))
  }

  function Location(item: Item): string {
    FileName(item) + Extension(item.kind)
  }

  /** Names that path.Join does not rewrite; the node may span several segments. */
  predicate WellFormed(item: Item) {
    && CleanPath(item.node) && CleanSegment(item.network) && CleanSegment(item.root)
    && (item.kind != BeaconBadBlob ==> item.index == 0)
    && (item.kind == ExecutionBadBlock ==> item.number == 0)
  }

  // The segments of a location: some in front of the node, some behind it.

  function Front(item: Item): seq<string> {
    if item.kind == ExecutionBadBlock then [Folder(item.kind), item.network]
    else [Folder(item.kind), item.network, Middle(item.kind), Print(item.number)]
  }

  /** Behind the node, before the extension is appended to the last segment. */
  function Back(item: Item): seq<string> {
    if item.kind == BeaconBadBlob then [item.root, Print(item.index)] else [item.root]
  }

  function Append(segs: seq<string>, extension: string): seq<string>
    requires segs != []
  {
    segs[..|segs| - 1] + [segs[|segs| - 1] + extension]
  }

  function Segments(item: Item): seq<string> {
    Front(item) + Split(item.node) + Append(Back(item), Extension(item.kind))
  }

  lemma DigitsAreClean(n: nat)
    ensures CleanSegment(Print(n))
  {
    var s := Print(n);
    assert !IsDigit('.') && !IsDigit('/');
    assert s[0] != '.';
  }

  lemma FrontIsClean(item: Item)
    requires WellFormed(item)
    ensures CleanSegments(Front(item))
  {
    DigitsAreClean(item.number);
  }

  lemma BackIsClean(item: Item)
    requires WellFormed(item)
    ensures CleanSegments(Back(item)) && CleanSegments(Append(Back(item), Extension(item.kind)))
  {
    DigitsAreClean(item.index);
  }

  lemma JoinAppend(segs: seq<string>, ext: string)
    requires segs != []
    ensures Join(segs) + ext == Join(Append(segs, ext))
  {
    var init, last := segs[..|segs| - 1], segs[|segs| - 1];
    assert segs == init + [last];
    if init != [] {
      JoinConcat(init, [last]);
      JoinConcat(init, [last + ext]);
      assert Join(init) + "/" + last + ext == Join(init) + "/" + (last + ext);
    }
  }

  lemma ElementsOf(item: Item)
    ensures Elements(item) == Front(item) + [item.node] + Back(item)
    ensures Append(Front(item) + Split(item.node) + Back(item), Extension(item.kind)) == Segments(item)
  {
  }

  /** Splitting a printed location gives back its segments. */
  lemma SplitLocation(item: Item)
    requires WellFormed(item)
    ensures Split(Location(item)) == Segments(item)
    ensures CleanSegments(Segments(item))
  {
    var stems := Front(item) + Split(item.node) + Back(item);
    FrontIsClean(item);
    BackIsClean(item);
    ElementsOf(item);
    PathJoinAround(Front(item), item.node, Back(item));
    JoinAppend(stems, Extension(item.kind));
    SplitJoin(Segments(item));
  }

  lemma FileNameIsJoined(item: Item)
    requires WellFormed(item)
    ensures FileName(item) == Join(Elements(item))
  {
    FrontIsClean(item);
    BackIsClean(item);
    ElementsOf(item);
    PathJoinAround(Front(item), item.node, Back(item));
    JoinAround(Front(item), item.node, Back(item));
  }

  /** The locations written out, kind by kind: nothing is rewritten, and slashes go in between. */
  lemma LocationSpelled(item: Item)
    requires WellFormed(item)
    ensures var number := Print(item.number);
            Location(item) ==
            match item.kind
            case BeaconState =>
              Join(["beacon_states", item.network, "slots", number, item.node, item.root]) + ".ssz"
            case BeaconBlock =>
              Join(["beacon_blocks", item.network, "slots", number, item.node, item.root]) + ".ssz"
            case BeaconBadBlock =>
              Join(["beacon_bad_blocks", item.network, "slots", number, item.node, item.root]) + ".ssz"
            case BeaconBadBlob =>
              Join(["beacon_bad_blobs", item.network, "slots", number, item.node, item.root, Print(item.index)]) + ".ssz"
            case ExecutionBlockTrace =>
              Join(["execution_block_traces", item.network, "blocks", number, item.node, item.root]) + ".json"
            case ExecutionBadBlock =>
              Join(["execution_bad_blocks", item.network, item.node, item.root]) + ".json"
  {
    FileNameIsJoined(item);
  }

  // Reading a location back.

  function KindOf(folder: string): Option<Kind> {
    if folder == "beacon_states" then Some(BeaconState)
    else if folder == "beacon_blocks" then Some(BeaconBlock)
    else if folder == "beacon_bad_blocks" then Some(BeaconBadBlock)
    else if folder == "beacon_bad_blobs" then Some(BeaconBadBlob)
    else if folder == "execution_block_traces" then Some(ExecutionBlockTrace)
    else if folder == "execution_bad_blocks" then Some(ExecutionBadBlock)
    else None
  }

  function DropLast(s: string, n: nat): string {
    if n <= |s| then s[..|s| - n] else ""
  }

  function ParseLocation(location: string): Option<Item> {
    var segs := Split(location);
    match KindOf(segs[0])
    case None => None
    case Some(kind) => ParseSegments(kind, segs)
  }

  function ParseSegments(kind: Kind, segs: seq<string>): Option<Item> {
    var front := if kind == ExecutionBadBlock then 2 else 4;
    var back := if kind == BeaconBadBlob then 2 else 1;
    if |segs| <= front + back then None else
    var last := DropLast(segs[|segs| - 1], |Extension(kind)|);
    var number := if kind == ExecutionBadBlock then Some(0) else ParseUint(segs[3]);
    var index := if kind == BeaconBadBlob then ParseUint(last) else Some(0);
    if number.None? || index.None? then None else
    var root := if kind == BeaconBadBlob then segs[|segs| - 2] else last;
    Some(Item(kind, Join(segs[front..|segs| - back]), segs[1], number.value, root, index.value))
  }

  lemma ParseSegmentsRoundTrip(item: Item)
    requires WellFormed(item)
    ensures ParseSegments(item.kind, Segments(item)) == Some(item)
  {
    var segs := Segments(item);
    JoinSplit(item.node);
    ParsePrint(item.number);
    ParsePrint(item.index);
    var stem := if item.kind == BeaconBadBlob then Print(item.index) else item.root;
    assert DropLast(stem + Extension(item.kind), |Extension(item.kind)|) == stem;
    assert segs[|Front(item)|..|segs| - |Back(item)|] == Split(item.node);
  }

  /** Every location reads back as the object it was printed for, whatever its kind. */
  lemma ParseLocationRoundTrip(item: Item)
    requires WellFormed(item)
    ensures ParseLocation(Location(item)) == Some(item)
  {
    SplitLocation(item);
    KindOfSegments(item);
    ParseSegmentsRoundTrip(item);
  }

  /** So two different objects never share a location, across all six kinds. */
  lemma LocationInjective(a: Item, b: Item)
    requires WellFormed(a) && WellFormed(b) && Location(a) == Location(b)
    ensures a == b
  {
    ParseLocationRoundTrip(a);
    ParseLocationRoundTrip(b);
  }

  lemma KindOfSegments(item: Item)
    ensures KindOf(Segments(item)[0]) == Some(item.kind)
    ensures |Segments(item)| == |Split(item.node)| +
            (if item.kind == ExecutionBadBlock then 3 else if item.kind == BeaconBadBlob then 6 else 5)
  {
  }

  /** What comes behind the node. */
  function Tail(item: Item): (tail: seq<string>)
    ensures |tail| == if item.kind == BeaconBadBlob then 2 else 1
  {
    Append(Back(item), Extension(item.kind))
  }

  lemma SegmentsOf(item: Item)
    ensures Segments(item) == Front(item) + (Split(item.node) + Tail(item))
    ensures |Front(item)| == if item.kind == ExecutionBadBlock then 2 else 4
  {
    assert Front(item) + Split(item.node) + Tail(item) == Front(item) + (Split(item.node) + Tail(item));
  }

  lemma PrefixOfParts(front: seq<string>, x: seq<string>, front': seq<string>, y: seq<string>)
    requires |front| == |front'|
    ensures front + x <= front' + y <==> front == front' && x <= y
  {
    if front + x <= front' + y {
      assert (front + x)[..|front|] == front && (front' + y)[..|front'|] == front';
      forall i | 0 <= i < |x| ensures x[i] == y[i] {
        assert (front + x)[|front| + i] == (front' + y)[|front'| + i];
      }
    }
  }

  /** A location is at or above another just when the two agree up to the node, and from there on. */
  lemma AboveFromTheNode(a: Item, b: Item)
    requires WellFormed(a) && WellFormed(b)
    ensures Split(Location(a)) <= Split(Location(b)) <==>
            a.kind == b.kind && Front(a) == Front(b) && Split(a.node) + Tail(a) <= Split(b.node) + Tail(b)
  {
    SplitLocation(a);
    SplitLocation(b);
    SegmentsOf(a);
    SegmentsOf(b);
    KindOfSegments(a);
    KindOfSegments(b);
    if a.kind == b.kind {
      PrefixOfParts(Front(a), Split(a.node) + Tail(a), Front(b), Split(b.node) + Tail(b));
    } else {
      assert Segments(a)[0] != Segments(b)[0];
    }
  }

  lemma ComparablePrefixes(x: seq<string>, y: seq<string>, z: seq<string>, w: seq<string>)
    requires x + z <= y + w
    ensures x <= y || y < x
  {
    forall i | 0 <= i < |x| && i < |y| ensures x[i] == y[i] {
      assert (x + z)[i] == (y + w)[i];
    }
  }

  /** If neither node name lies above the other, no location is a directory above another one. */
  lemma NoLocationIsADirectory(a: Item, b: Item)
    requires WellFormed(a) && WellFormed(b)
    requires !(Split(a.node) < Split(b.node)) && !(Split(b.node) < Split(a.node))
    requires Split(Location(a)) <= Split(Location(b))
    ensures a == b
  {
    AboveFromTheNode(a, b);
    ComparablePrefixes(Split(a.node), Split(b.node), Tail(a), Tail(b));
    SplitLocation(a);
    SplitLocation(b);
    KindOfSegments(a);
    KindOfSegments(b);
    assert Segments(a) == Segments(b);
    JoinSplit(Location(a));
    JoinSplit(Location(b));
    LocationInjective(a, b);
  }

  /** Blob roots are read from names in which they contain no dot. */
  ghost predicate DotFreeBlob(item: Item) {
    item.kind == BeaconBadBlob ==> '.' !in item.root
  }

  lemma TailOfBlob(item: Item)
    requires item.kind == BeaconBadBlob
    ensures Tail(item) == [item.root, Print(item.index) + ".ssz"] && '.' in Tail(item)[1]
  {
    assert Tail(item)[1][|Print(item.index)|] == '.';
  }

  /** A blob's index, with its extension, cannot be another blob's root. */
  lemma BlobsDoNotOverlap(x: Item, y: Item)
    requires x.kind == BeaconBadBlob && y.kind == BeaconBadBlob && DotFreeBlob(y)
    requires |Split(y.node)| == |Split(x.node)| + 1
    ensures !(Split(x.node) + Tail(x) < Split(y.node) + Tail(y))
  {
    TailOfBlob(x);
    TailOfBlob(y);
    var k := |Split(y.node)|;
    assert (Split(x.node) + Tail(x))[k] == Tail(x)[1] && (Split(y.node) + Tail(y))[k] == y.root;
  }

  lemma NestedTails(x: Item, y: Item)
    requires WellFormed(x) && WellFormed(y) && DotFreeBlob(y) && x.kind == y.kind
    requires Split(x.node) + Tail(x) < Split(y.node) + Tail(y)
    ensures Split(x.node) + Tail(x) <= Split(y.node)
  {
    var n, m := Split(x.node), Split(y.node);
    assert |m| == |n| + 1 ==> x.kind != BeaconBadBlob by {
      if |m| == |n| + 1 && x.kind == BeaconBadBlob {
        BlobsDoNotOverlap(x, y);
      }
    }
    forall i | 0 <= i < |n| + |Tail(x)| ensures (n + Tail(x))[i] == m[i] {
      assert (n + Tail(x))[i] == (m + Tail(y))[i];
    }
  }

  /**
   Exactly when an object's location is a directory that node `b` needs: the name of `b` goes
   on where the object's location, from its node on, stops.
   */
  lemma LocationIsADirectoryIff(x: Item, b: string)
    requires WellFormed(x) && DotFreeBlob(x) && CleanPath(b)
    ensures (exists y :: WellFormed(y) && DotFreeBlob(y) && y.node == b && Split(Location(x)) < Split(Location(y)))
            <==> Split(x.node) + Tail(x) <= Split(b)
  {
    if y :| WellFormed(y) && DotFreeBlob(y) && y.node == b && Split(Location(x)) < Split(Location(y)) {
      AboveFromTheNode(x, y);
      SplitLocation(x);
      SplitLocation(y);
      SegmentsOf(x);
      SegmentsOf(y);
      NestedTails(x, y);
    }
    if Split(x.node) + Tail(x) <= Split(b) {
      var y := x.(node := b);
      AboveFromTheNode(x, y);
      SplitLocation(x);
      SplitLocation(y);
      KindOfSegments(x);
      KindOfSegments(y);
      assert WellFormed(y) && DotFreeBlob(y) && y.node == b && Split(Location(x)) < Split(Location(y));
    }
  }

  /** With longer nodes one can be: one agent's object is the directory another one needs. */
  lemma LocationCanBeADirectory(item: Item)
    requires WellFormed(item) && item.kind == BeaconState
    ensures var other := item.(node := item.node + "/" + (item.root + ".ssz"));
            WellFormed(other) && Split(Location(item)) < Split(Location(other))
  {
    var tail := item.root + ".ssz";
    LongerNode(item.node, tail);
    SplitLocation(item);
    SplitLocation(item.(node := item.node + "/" + tail));
  }

  lemma LongerNode(node: string, tail: string)
    requires CleanPath(node) && CleanSegment(tail)
    ensures Split(node + "/" + tail) == Split(node) + [tail]
    ensures CleanPath(node + "/" + tail)
  {
    JoinSplit(node);
    JoinConcat(Split(node), [tail]);
    SplitJoin(Split(node) + [tail]);
  }
}
