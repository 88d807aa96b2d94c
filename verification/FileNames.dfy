/**
 The file names clients give to bad blocks and bad blobs, and what the agent reads out of
 them.  Submatches are modelled as regexp.FindStringSubmatch returns them: nothing, or the
 whole name followed by the groups.
 */
module FileNames {
  import opened Decimal
  import opened Uint64
  import opened Wrappers

  datatype Client = Lighthouse | Nimbus | Prysm | OtherClient

  predicate Digits(s: string) {
    s != "" && AllDigits(s)
  }

  /** One or more characters other than a dot. */
  predicate DotFree(s: string) {
    s != "" && '.' !in s
  }

  // ^blob_sidecar_([^.]+)_(\d+)_(\d+)\.ssz$

  function BlobName(root: string, slot: string, index: string): string {
    "blob_sidecar_" + root + "_" + slot + "_" + index + ".ssz"
  }

  /** The pattern read as a specification: how a name may be cut into groups. */
  ghost predicate BlobMatch(name: string, root: string, slot: string, index: string) {
    name == BlobName(root, slot, index) && DotFree(root) && Digits(slot) && Digits(index)
  }

  /** Position of the last occurrence of a character, -1 if there is none. */
  function LastIndexOf(s: string, c: char): (i: int)
    ensures -1 <= i < |s|
    ensures 0 <= i ==> s[i] == c
    ensures forall j :: i < j < |s| ==> s[j] != c
  {
    if s == "" then -1
    else if s[|s| - 1] == c then |s| - 1
    else LastIndexOf(s[..|s| - 1], c)
  }

  /** What lies between a prefix and a suffix. */
  function Middle(name: string, prefix: string, suffix: string): (r: Option<string>)
    ensures r.Some? ==> name == prefix + r.value + suffix
    ensures forall s: string :: name == prefix + s + suffix ==> r == Some(s)
  {
    if |prefix| + |suffix| <= |name| && name[..|prefix|] == prefix && name[|name| - |suffix|..] == suffix then
      var s := name[|prefix|..|name| - |suffix|];
      assert name == prefix + s + suffix;
      Some(s)
    else
      None
  }

  lemma MiddleFound(prefix: string, s: string, suffix: string)
    ensures Middle(prefix + s + suffix, prefix, suffix) == Some(s)
  {
  }

  /** Cutting at the last two underscores. */
  function BlobSubmatches(name: string): seq<string> {
    match Middle(name, "blob_sidecar_", ".ssz")
    case None => []
    case Some(s) =>
      var i := LastIndexOf(s, '_');
      if i < 0 then [] else
      var j := LastIndexOf(s[..i], '_');
      if j < 0 then [] else
      var root, slot, index := s[..j], s[j + 1..i], s[i + 1..];
      if DotFree(root) && Digits(slot) && Digits(index) then [name, root, slot, index] else []
  }

  lemma LastIndexIs(s: string, c: char, i: nat)
    requires i < |s| && s[i] == c && forall j :: i < j < |s| ==> s[j] != c
    ensures LastIndexOf(s, c) == i
  {
  }

  lemma NoUnderscoreAfter(a: string, digits: string, s: string)
    requires AllDigits(digits) && s == a + "_" + digits
    ensures |a| < |s| && s[|a|] == '_' && forall j :: |a| < j < |s| ==> s[j] != '_'
  {
    forall j | |a| < j < |s| ensures s[j] != '_' {
      assert s[j] == digits[j - |a| - 1];
    }
  }

  lemma LastUnderscore(a: string, digits: string)
    requires AllDigits(digits)
    ensures LastIndexOf(a + "_" + digits, '_') == |a|
  {
    NoUnderscoreAfter(a, digits, a + "_" + digits);
    LastIndexIs(a + "_" + digits, '_', |a|);
  }

  lemma CutAtUnderscores(root: string, slot: string, index: string)
    requires AllDigits(slot) && AllDigits(index)
    ensures var s := root + "_" + slot + "_" + index;
            var i := LastIndexOf(s, '_');
            && 0 <= i && s[..i] == root + "_" + slot && s[i + 1..] == index
            && LastIndexOf(s[..i], '_') == |root|
  {
    var s := root + "_" + slot + "_" + index;
    LastUnderscore(root + "_" + slot, index);
    LastUnderscore(root, slot);
    assert s[..|root| + 1 + |slot|] == root + "_" + slot;
  }

  lemma CutRejoins(s: string, i: nat, j: nat)
    requires j < i < |s| && s[i] == '_' && s[j] == '_'
    ensures s == s[..j] + "_" + s[j + 1..i] + "_" + s[i + 1..]
  {
  }

  lemma BlobNameMiddle(root: string, slot: string, index: string)
    ensures BlobName(root, slot, index) == "blob_sidecar_" + (root + "_" + slot + "_" + index) + ".ssz"
  {
  }

  lemma CutIsFound(root: string, slot: string, index: string)
    requires DotFree(root) && Digits(slot) && Digits(index)
    ensures var name := BlobName(root, slot, index); BlobSubmatches(name) == [name, root, slot, index]
  {
    BlobNameMiddle(root, slot, index);
    CutAtUnderscores(root, slot, index);
    var s := root + "_" + slot + "_" + index;
    assert s[|root| + 1..|root| + 1 + |slot|] == slot;
    assert s[..|root|] == root;
  }

  lemma SubmatchesAreACut(name: string, groups: seq<string>)
    requires groups == BlobSubmatches(name) && groups != []
    ensures |groups| == 4 && groups[0] == name && BlobMatch(name, groups[1], groups[2], groups[3])
  {
    var s := Middle(name, "blob_sidecar_", ".ssz").value;
    var i := LastIndexOf(s, '_');
    var j := LastIndexOf(s[..i], '_');
    CutRejoins(s, i, j);
    BlobNameMiddle(s[..j], s[j + 1..i], s[i + 1..]);
  }

  /**
   The match is unambiguous: a name can be cut in at most one way, however the engine
   searches, and cutting at the last two underscores finds it whenever there is one.
   */
  lemma BlobSubmatchesIff(name: string, groups: seq<string>)
    requires groups != []
    ensures groups == BlobSubmatches(name) <==>
            |groups| == 4 && groups[0] == name && BlobMatch(name, groups[1], groups[2], groups[3])
  {
    if groups == BlobSubmatches(name) {
      SubmatchesAreACut(name, groups);
    }
    if |groups| == 4 && groups[0] == name && BlobMatch(name, groups[1], groups[2], groups[3]) {
      assert groups == [name, groups[1], groups[2], groups[3]];
      CutIsFound(groups[1], groups[2], groups[3]);
    }
  }

  datatype BlobFile = BlobFile(root: string, slot: uint64, index: uint64)

  function ParseBlobFile(name: string): Option<BlobFile> {
    var matches := BlobSubmatches(name);
    if |matches| != 4 then None else
    var slot, index := ParseUint(matches[2]), ParseUint(matches[3]);
    if slot.None? || index.None? then None else Some(BlobFile(matches[1], slot.value, index.value))
  }

  /** Every blob file name reads back as what it was printed from, roots with underscores included. */
  lemma BlobFileRoundTrip(root: string, slot: uint64, index: uint64)
    requires DotFree(root)
    ensures ParseBlobFile(BlobName(root, Print(slot), Print(index))) == Some(BlobFile(root, slot, index))
  {
    CutIsFound(root, Print(slot), Print(index));
    ParsePrint(slot);
    ParsePrint(index);
  }

  ghost predicate ReadsAs(name: string, file: BlobFile, slot: string, index: string) {
    BlobMatch(name, file.root, slot, index) && ParseUint(slot) == Some(file.slot) && ParseUint(index) == Some(file.index)
  }

  lemma ParsedGroups(name: string, file: BlobFile)
    requires ParseBlobFile(name) == Some(file)
    ensures exists slot, index :: ReadsAs(name, file, slot, index)
  {
    var groups := BlobSubmatches(name);
    SubmatchesAreACut(name, groups);
    assert ReadsAs(name, file, groups[2], groups[3]);
  }

  lemma CutIsParsed(name: string, file: BlobFile, slot: string, index: string)
    requires ReadsAs(name, file, slot, index)
    ensures ParseBlobFile(name) == Some(file)
  {
    CutIsFound(file.root, slot, index);
  }

  /** What is read out of a blob name, exactly. */
  lemma ParseBlobFileIff(name: string, file: BlobFile)
    ensures ParseBlobFile(name) == Some(file) <==> exists slot, index :: ReadsAs(name, file, slot, index)
  {
    if ParseBlobFile(name) == Some(file) {
      ParsedGroups(name, file);
    }
    if slot, index :| ReadsAs(name, file, slot, index) {
      CutIsParsed(name, file, slot, index);
    }
  }

  lemma ParseBlobFileDotFree(name: string)
    ensures ParseBlobFile(name).Some? ==> DotFree(ParseBlobFile(name).value.root)
  {
  }

  // Bad blocks: ^(\d+)_([^.]+)\.ssz$, ^block-(\d+)-([^.]+)\.ssz$ and ^beacon_block_(\d+)\.ssz$

  function FirstIndexOf(s: string, c: char): (i: nat)
    ensures i <= |s| && (i < |s| ==> s[i] == c)
    ensures forall j :: 0 <= j < i ==> s[j] != c
  {
    if s == "" || s[0] == c then 0 else 1 + FirstIndexOf(s[1..], c)
  }

  /** Two groups around the first separator. */
  function TwoGroups(name: string, middle: Option<string>, separator: char): seq<string> {
    match middle
    case None => []
    case Some(s) =>
      var i := FirstIndexOf(s, separator);
      if i < |s| && Digits(s[..i]) && DotFree(s[i + 1..]) then [name, s[..i], s[i + 1..]] else []
  }

  function BlockSubmatches(client: Client, name: string): seq<string> {
    match client
    case Lighthouse => TwoGroups(name, Middle(name, "", ".ssz"), '_')
    case Nimbus => TwoGroups(name, Middle(name, "block-", ".ssz"), '-')
    case Prysm =>
      var s := Middle(name, "beacon_block_", ".ssz");
      if s.Some? && Digits(s.value) then [name, s.value] else []
    case OtherClient => []
  }

  datatype BlockFile = BlockFile(root: string, slot: uint64)

  /**
   The guard asks for exactly one group.  The source goes on to test for a second one inside
   it, which therefore never holds: the root stays "unknown".
   */
  function ParseBlockFile(client: Client, name: string): Option<BlockFile> {
    var matches := BlockSubmatches(client, name);
    if |matches| == 2 then
      match ParseUint(matches[1])
      case None => None
      case Some(slot) => Some(BlockFile("unknown", slot))
    else None
  }

  /** Only Prysm's files are ever picked up, and never with a root. */
  lemma OnlyPrysmBlocksArePickedUp(client: Client, name: string, file: BlockFile)
    ensures ParseBlockFile(client, name) == Some(file) <==>
            client == Prysm && file.root == "unknown" &&
            exists digits :: name == "beacon_block_" + digits + ".ssz" && ParseUint(digits) == Some(file.slot)
  {
  }

  lemma TwoGroupsFound(name: string, digits: string, separator: char, root: string)
    requires Digits(digits) && !IsDigit(separator) && DotFree(root)
    ensures TwoGroups(name, Some(digits + [separator] + root), separator) == [name, digits, root]
  {
    var s := digits + [separator] + root;
    FirstSeparator(digits, separator, root);
    assert s[..|digits|] == digits && s[|digits| + 1..] == root;
  }

  /** A well-named Lighthouse file matches its own pattern and is still passed over. */
  lemma LighthouseFilesFallThrough(slot: uint64, root: string)
    requires DotFree(root)
    ensures var name := Print(slot) + "_" + root + ".ssz";
            BlockSubmatches(Lighthouse, name) == [name, Print(slot), root] && ParseBlockFile(Lighthouse, name) == None
  {
    var digits := Print(slot);
    var middle := digits + ['_'] + root;
    MiddleFound("", middle, ".ssz");
    assert digits + "_" + root + ".ssz" == "" + middle + ".ssz";
    TwoGroupsFound("" + middle + ".ssz", digits, '_', root);
  }

  /** So is a well-named Nimbus file. */
  lemma NimbusFilesFallThrough(slot: uint64, root: string)
    requires DotFree(root)
    ensures var name := "block-" + Print(slot) + "-" + root + ".ssz";
            BlockSubmatches(Nimbus, name) == [name, Print(slot), root] && ParseBlockFile(Nimbus, name) == None
  {
    var digits := Print(slot);
    var middle := digits + ['-'] + root;
    MiddleFound("block-", middle, ".ssz");
    assert "block-" + digits + "-" + root + ".ssz" == "block-" + middle + ".ssz";
    TwoGroupsFound("block-" + middle + ".ssz", digits, '-', root);
  }

  lemma FirstSeparator(digits: string, separator: char, rest: string)
    requires AllDigits(digits) && !IsDigit(separator)
    ensures FirstIndexOf(digits + [separator] + rest, separator) == |digits|
  {
    var s := digits + [separator] + rest;
    assert s[|digits|] == separator;
    forall j | 0 <= j < |digits| ensures s[j] != separator {
      assert s[j] == digits[j];
    }
  }
}
