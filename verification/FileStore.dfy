/**
 The file-system store: a tree of directories and files below its base path, and when that
 tree is as good as a map from locations to contents.
 */
module FileStore {
  import opened Locations
  import opened Paths

  type Bytes = seq<bv8>

  /** Paths below the base directory, which is the empty path. */
  type Path = seq<string>

  datatype Tree = Tree(files: map<Path, Bytes>, dirs: set<Path>)

  const EMPTY_TREE: Tree := Tree(map[], {[]})

  datatype Result = Ok | Error | Content(data: Bytes) | Answer(yes: bool)

  datatype Op =
    | Save(location: string, data: Bytes)
    | Get(location: string)
    | Delete(location: string)
    | Exists(location: string)
    | Copy(source: string, destination: string)
    | SaveToken(node: string, data: Bytes)
    | GetToken(node: string)
    | TokenExists(node: string)

  /** filepath.Join below the base path. */
  function Resolve(location: string): Path {
    Clean([], Split(location))
  }

  function TokenLocation(node: string): string {
    PathJoin(["handshake_tokens", node])
  }

  /** Saving and reading a token join base path, folder and node in one go. */
  function TokenPath(node: string): Path {
    Clean([], ["handshake_tokens"] + Split(node))
  }

  /** The existence check joins folder and node first; for every node it ends up at the same path. */
  lemma TokenPathsAgree(node: string)
    ensures Resolve(TokenLocation(node)) == TokenPath(node)
  {
    PathJoinResolves("handshake_tokens", node);
  }

  function Parents(p: Path): set<Path> {
    set i | 0 <= i < |p| :: p[..i]
  }

  /** Some component on the way is a file, so nothing can exist or be created below it. */
  predicate Blocked(t: Tree, p: Path) {
    exists q :: q in Parents(p) && q in t.files
  }

  /**
   ensureDir.  It only creates directories if the parent is found not to exist; a file on the
   way is a different error, which it swallows.
   */
  function EnsureDir(t: Tree, p: Path): Tree {
    if Blocked(t, p) then t else t.(dirs := t.dirs + Parents(p))
  }

  function WriteFile(t: Tree, p: Path, data: Bytes): (Tree, Result) {
    if p in t.dirs || !(Parents(p) <= t.dirs) then (t, Error) else (t.(files := t.files[p := data]), Ok)
  }

  function SavePath(t: Tree, p: Path, data: Bytes): (Tree, Result) {
    WriteFile(EnsureDir(t, p), p, data)
  }

  function GetPath(t: Tree, p: Path): Result {
    if p in t.files then Content(t.files[p]) else Error
  }

  /** os.Remove also takes empty directories. */
  function DeletePath(t: Tree, p: Path): (Tree, Result) {
    if p in t.files then (t.(files := t.files - {p}), Ok)
    else if p in t.dirs && !HasChildren(t, p) then (t.(dirs := t.dirs - {p}), Ok)
    else (t, Error)
  }

  predicate HasChildren(t: Tree, p: Path) {
    || (exists q :: q in t.files && p < q)
    || (exists q :: q in t.dirs && p < q)
  }

  /** os.Stat: directories exist too, and a path through a file is an error. */
  function ExistsPath(t: Tree, p: Path): Result {
    if p in t.files || p in t.dirs then Answer(true)
    else if Blocked(t, p) then Error
    else Answer(false)
  }

  /** The destination's directories are created before the source is read. */
  function CopyPath(t: Tree, source: string, destination: string): (Tree, Result) {
    if source == "" || destination == "" then (t, Error) else
    var t' := EnsureDir(t, Resolve(destination));
    match GetPath(t', Resolve(source))
    case Content(data) => WriteFile(t', Resolve(destination), data)
    case _ => (t', Error)
  }

  function Step(t: Tree, op: Op): (Tree, Result) {
    match op
    case Save(l, data) => SavePath(t, Resolve(l), data)
    case Get(l) => (t, GetPath(t, Resolve(l)))
    case Delete(l) => DeletePath(t, Resolve(l))
    case Exists(l) => (t, ExistsPath(t, Resolve(l)))
    case Copy(s, d) => CopyPath(t, s, d)
    case SaveToken(node, data) => SavePath(t, TokenPath(node), data)
    case GetToken(node) => (t, GetPath(t, TokenPath(node)))
    case TokenExists(node) => (t, ExistsPath(t, Resolve(TokenLocation(node))))
  }

  // The map the store is meant to be.

  type Contents = map<string, Bytes>

  function Lookup(m: Contents, l: string): Result {
    if l in m then Content(m[l]) else Error
  }

  function MapStep(m: Contents, op: Op): (Contents, Result) {
    match op
    case Save(l, data) => (m[l := data], Ok)
    case Get(l) => (m, Lookup(m, l))
    case Delete(l) => if l in m then (m - {l}, Ok) else (m, Error)
    case Exists(l) => (m, Answer(l in m))
    case Copy(s, d) => if s in m then (m[d := m[s]], Ok) else (m, Error)
    case SaveToken(node, data) => (m[TokenLocation(node) := data], Ok)
    case GetToken(node) => (m, Lookup(m, TokenLocation(node)))
    case TokenExists(node) => (m, Answer(TokenLocation(node) in m))
  }

  function Run(t: Tree, ops: seq<Op>): seq<Result>
    decreases ops
  {
    if ops == [] then [] else [Step(t, ops[0]).1] + Run(Step(t, ops[0]).0, ops[1..])
  }

  function MapRun(m: Contents, ops: seq<Op>): seq<Result>
    decreases ops
  {
    if ops == [] then [] else [MapStep(m, ops[0]).1] + MapRun(MapStep(m, ops[0]).0, ops[1..])
  }

  /** The locations an operation names. */
  function Names(op: Op): set<string> {
    match op
    case Save(l, _) => {l}
    case Get(l) => {l}
    case Delete(l) => {l}
    case Exists(l) => {l}
    case Copy(s, d) => {s, d}
    case SaveToken(node, _) => {TokenLocation(node)}
    case GetToken(node) => {TokenLocation(node)}
    case TokenExists(node) => {TokenLocation(node)}
  }

  ghost predicate OpsWithin(ops: seq<Op>, ls: set<string>) {
    forall i :: 0 <= i < |ops| ==> Names(ops[i]) <= ls
  }

  /** Clean locations, none of which is a directory above another. */
  ghost predicate PrefixFree(ls: set<string>) {
    forall a, b :: a in ls && b in ls ==> !(Split(a) < Split(b))
  }

  ghost predicate AllClean(ls: set<string>) {
    forall l :: l in ls ==> CleanPath(l)
  }

  /** The tree holds the map's contents, and its directories are only ever above locations. */
  ghost predicate Represents(t: Tree, m: Contents, ls: set<string>) {
    && m.Keys <= ls
    && (forall p :: p in t.files ==> exists l :: l in m && p == Split(l))
    && (forall l :: l in m ==> Split(l) in t.files && t.files[Split(l)] == m[l])
    && (forall p :: p in t.dirs ==> p == [] || exists l :: l in ls && p < Split(l))
  }

  lemma ResolveClean(l: string)
    requires CleanPath(l)
    ensures Resolve(l) == Split(l)
  {
    CleanKeeps([], Split(l));
    assert [] + Split(l) == Split(l);
  }

  lemma SplitInjective(a: string, b: string)
    requires Split(a) == Split(b)
    ensures a == b
  {
    JoinSplit(a);
    JoinSplit(b);
  }

  lemma ParentsAreProper(p: Path, q: Path)
    ensures q in Parents(p) <==> q < p
  {
    if q < p {
      assert q == p[..|q|];
    }
  }

  lemma NoFileAbove(t: Tree, m: Contents, ls: set<string>, l: string, q: Path)
    requires PrefixFree(ls) && Represents(t, m, ls) && l in ls && q in t.files
    ensures !(q < Split(l))
  {
    var above :| above in m && q == Split(above);
  }

  /** A location is never a directory, and no file lies above it. */
  lemma LocationIsFree(t: Tree, m: Contents, ls: set<string>, l: string)
    requires AllClean(ls) && PrefixFree(ls) && Represents(t, m, ls) && l in ls
    ensures Split(l) !in t.dirs && !Blocked(t, Split(l))
    ensures Split(l) in t.files <==> l in m
  {
    var p := Split(l);
    forall q | q in Parents(p) ensures q !in t.files {
      ParentsAreProper(p, q);
      if q in t.files {
        NoFileAbove(t, m, ls, l, q);
      }
    }
    if p in t.files {
      var k :| k in m && p == Split(k);
      SplitInjective(k, l);
    }
  }

  lemma EnsureDirRepresents(t: Tree, m: Contents, ls: set<string>, l: string)
    requires Represents(t, m, ls) && l in ls
    ensures Represents(EnsureDir(t, Split(l)), m, ls)
  {
    var t' := EnsureDir(t, Split(l));
    forall p | p in t'.dirs ensures p == [] || exists k :: k in ls && p < Split(k) {
      ParentsAreProper(Split(l), p);
    }
  }

  lemma SaveRepresents(t: Tree, m: Contents, ls: set<string>, l: string, data: Bytes)
    requires AllClean(ls) && PrefixFree(ls) && Represents(t, m, ls) && l in ls
    ensures SavePath(t, Split(l), data).1 == Ok
    ensures Represents(SavePath(t, Split(l), data).0, m[l := data], ls)
  {
    LocationIsFree(t, m, ls, l);
    EnsureDirRepresents(t, m, ls, l);
    var t' := EnsureDir(t, Split(l));
    LocationIsFree(t', m, ls, l);
    WriteRepresents(t', m, ls, l, data);
  }

  lemma WriteRepresents(t: Tree, m: Contents, ls: set<string>, l: string, data: Bytes)
    requires Represents(t, m, ls) && l in ls
    ensures Represents(t.(files := t.files[Split(l) := data]), m[l := data], ls)
  {
    var files' := t.files[Split(l) := data];
    var m' := m[l := data];
    forall p | p in files' ensures exists k :: k in m' && p == Split(k) {
      if p == Split(l) {
        assert l in m';
      } else {
        var k :| k in m && p == Split(k);
        assert k in m';
      }
    }
    forall k | k in m' ensures Split(k) in files' && files'[Split(k)] == m'[k] {
      if Split(k) == Split(l) {
        SplitInjective(k, l);
      }
    }
  }

  lemma DeleteRepresents(t: Tree, m: Contents, ls: set<string>, l: string)
    requires Represents(t, m, ls) && l in m
    ensures Represents(t.(files := t.files - {Split(l)}), m - {l}, ls)
  {
    var files' := t.files - {Split(l)};
    forall p | p in files' ensures exists k :: k in m - {l} && p == Split(k) {
      var k :| k in m && p == Split(k);
      assert k in m - {l};
    }
    forall k | k in m - {l} ensures Split(k) in files' {
      if Split(k) == Split(l) {
        SplitInjective(k, l);
      }
    }
  }

  lemma CopyRepresents(t: Tree, m: Contents, ls: set<string>, s: string, d: string)
    requires AllClean(ls) && PrefixFree(ls) && Represents(t, m, ls) && s in ls && d in ls
    ensures var (t', result) := CopyPath(t, s, d);
            Represents(t', MapStep(m, Copy(s, d)).0, ls) && result == MapStep(m, Copy(s, d)).1
  {
    EmptyIsNotClean(s);
    EmptyIsNotClean(d);
    ResolveClean(s);
    ResolveClean(d);
    LocationIsFree(t, m, ls, s);
    var t' := EnsureDir(t, Split(d));
    assert t'.files == t.files;
    if s in m {
      CopyIsSave(t, s, d, m[s]);
      SaveRepresents(t, m, ls, d, m[s]);
    } else {
      assert CopyPath(t, s, d) == (t', Error);
      EnsureDirRepresents(t, m, ls, d);
    }
  }

  lemma CopyIsSave(t: Tree, s: string, d: string, data: Bytes)
    requires s != "" && d != "" && Resolve(s) in t.files && t.files[Resolve(s)] == data
    ensures CopyPath(t, s, d) == SavePath(t, Resolve(d), data)
  {
  }

  lemma SaveRefines(t: Tree, m: Contents, ls: set<string>, l: string, data: Bytes)
    requires AllClean(ls) && PrefixFree(ls) && Represents(t, m, ls) && l in ls
    ensures SavePath(t, Resolve(l), data).1 == Ok
    ensures Represents(SavePath(t, Resolve(l), data).0, m[l := data], ls)
  {
    ResolveClean(l);
    SaveRepresents(t, m, ls, l, data);
  }

  lemma ReadRefines(t: Tree, m: Contents, ls: set<string>, l: string)
    requires AllClean(ls) && PrefixFree(ls) && Represents(t, m, ls) && l in ls
    ensures GetPath(t, Resolve(l)) == Lookup(m, l)
    ensures ExistsPath(t, Resolve(l)) == Answer(l in m)
  {
    ResolveClean(l);
    LocationIsFree(t, m, ls, l);
  }

  lemma DeleteRefines(t: Tree, m: Contents, ls: set<string>, l: string)
    requires AllClean(ls) && PrefixFree(ls) && Represents(t, m, ls) && l in ls
    ensures Step(t, Delete(l)).1 == MapStep(m, Delete(l)).1
    ensures Represents(Step(t, Delete(l)).0, MapStep(m, Delete(l)).0, ls)
  {
    ResolveClean(l);
    LocationIsFree(t, m, ls, l);
    if l in m {
      DeleteRepresents(t, m, ls, l);
    }
  }

  /** One operation on the tree is the same operation on the map. */
  lemma StepRefines(t: Tree, m: Contents, ls: set<string>, op: Op)
    requires AllClean(ls) && PrefixFree(ls) && Represents(t, m, ls) && Names(op) <= ls
    ensures Step(t, op).1 == MapStep(m, op).1
    ensures Represents(Step(t, op).0, MapStep(m, op).0, ls)
  {
    match op
    case Save(l, data) => SaveRefines(t, m, ls, l, data);
    case Get(l) => ReadRefines(t, m, ls, l);
    case Delete(l) => DeleteRefines(t, m, ls, l);
    case Exists(l) => ReadRefines(t, m, ls, l);
    case Copy(s, d) => CopyRepresents(t, m, ls, s, d);
    case SaveToken(node, data) =>
      TokenPathsAgree(node);
      SaveRefines(t, m, ls, TokenLocation(node), data);
    case GetToken(node) =>
      TokenPathsAgree(node);
      ReadRefines(t, m, ls, TokenLocation(node));
    case TokenExists(node) => ReadRefines(t, m, ls, TokenLocation(node));
  }

  lemma AccountedFor(t: Tree, m: Contents, ls: set<string>, op: Op)
    ensures AllClean(ls) && PrefixFree(ls) && Represents(t, m, ls) && Names(op) <= ls ==>
              Represents(Step(t, op).0, MapStep(m, op).0, ls) && Step(t, op).1 == MapStep(m, op).1
  {
    if AllClean(ls) && PrefixFree(ls) && Represents(t, m, ls) && Names(op) <= ls {
      StepRefines(t, m, ls, op);
    }
  }

  lemma {:induction false} RunRefines(t: Tree, m: Contents, ls: set<string>, ops: seq<Op>)
    requires AllClean(ls) && PrefixFree(ls) && Represents(t, m, ls) && OpsWithin(ops, ls)
    ensures Run(t, ops) == MapRun(m, ops)
    decreases ops
  {
    if ops != [] {
      assert Names(ops[0]) <= ls;
      StepRefines(t, m, ls, ops[0]);
      RunRefines(Step(t, ops[0]).0, MapStep(m, ops[0]).0, ls, ops[1..]);
    }
  }

  /** If one location lies below another, saving both fails where the map would not. */
  lemma NestedSavesFail(a: string, b: string)
    requires CleanPath(a) && CleanPath(b) && Split(a) < Split(b)
    ensures Run(EMPTY_TREE, [Save(a, []), Save(b, [])]) == [Ok, Error]
    ensures MapRun(map[], [Save(a, []), Save(b, [])]) == [Ok, Ok]
  {
    ResolveClean(a);
    ResolveClean(b);
    var t := Tree(map[Split(a) := []], {[]} + Parents(Split(a)));
    ParentsAreProper(Split(a), Split(a));
    assert Step(EMPTY_TREE, Save(a, [])) == (t, Ok);
    ParentsAreProper(Split(b), Split(a));
    assert Split(a) in Parents(Split(b)) && Split(a) in t.files;
    assert Step(t, Save(b, [])).1 == Error;
    RunTwo(EMPTY_TREE, Save(a, []), Save(b, []));
    MapRunTwo(map[], Save(a, []), Save(b, []));
  }

  lemma RunTwo(t: Tree, x: Op, y: Op)
    ensures Run(t, [x, y]) == [Step(t, x).1, Step(Step(t, x).0, y).1]
  {
    assert [x, y][1..] == [y] && [y][1..] == [];
    assert Run(Step(t, x).0, [y]) == [Step(Step(t, x).0, y).1] + Run(Step(Step(t, x).0, y).0, []);
  }

  lemma MapRunTwo(m: Contents, x: Op, y: Op)
    ensures MapRun(m, [x, y]) == [MapStep(m, x).1, MapStep(MapStep(m, x).0, y).1]
  {
    assert [x, y][1..] == [y] && [y][1..] == [];
    assert MapRun(MapStep(m, x).0, [y]) == [MapStep(MapStep(m, x).0, y).1] + MapRun(MapStep(MapStep(m, x).0, y).0, []);
  }

  /**
   The store refines the map, for every sequence of operations on a set of clean locations,
   exactly when none of the locations is a directory above another.
   */
  lemma StoreIsAMapIff(ls: set<string>)
    requires AllClean(ls)
    ensures PrefixFree(ls) <==> forall ops :: OpsWithin(ops, ls) ==> Run(EMPTY_TREE, ops) == MapRun(map[], ops)
  {
    if PrefixFree(ls) {
      forall ops | OpsWithin(ops, ls) ensures Run(EMPTY_TREE, ops) == MapRun(map[], ops) {
        RunRefines(EMPTY_TREE, map[], ls, ops);
      }
    } else {
      var a, b :| a in ls && b in ls && Split(a) < Split(b);
      NestedSavesFail(a, b);
      var ops := [Save(a, []), Save(b, [])];
      assert OpsWithin(ops, ls);
      assert Run(EMPTY_TREE, ops)[1] != MapRun(map[], ops)[1];
    }
  }

  /** What agents of these names put into a store: objects, and handshake tokens. */
  ghost predicate AgentLocation(nodes: set<string>, l: string) {
    || (exists item :: WellFormed(item) && item.node in nodes && l == Location(item))
    || (exists node :: node in nodes && l == TokenLocation(node))
  }

  ghost predicate AgentLocations(nodes: set<string>, ls: set<string>) {
    forall l :: l in ls ==> AgentLocation(nodes, l)
  }

  lemma JoinTwo(first: string, path: string)
    ensures Join([first, path]) == Join([first] + Split(path))
  {
    JoinCons(first, [path]);
    JoinCons(first, Split(path));
    JoinSplit(path);
    assert [first] + [path] == [first, path];
  }

  lemma TokenSegments(node: string)
    requires CleanPath(node)
    ensures CleanPath(TokenLocation(node)) && Split(TokenLocation(node)) == ["handshake_tokens"] + Split(node)
  {
    var folder := "handshake_tokens";
    var segs := [folder] + Split(node);
    EmptyIsNotClean(node);
    JoinTwo(folder, node);
    PathJoinOfSegments([folder, node], segs);
    SplitJoin(segs);
  }

  lemma TokenIsNoObject(item: Item, node: string)
    requires WellFormed(item) && CleanPath(node)
    ensures Split(Location(item))[0] != Split(TokenLocation(node))[0]
  {
    SplitLocation(item);
    KindOfSegments(item);
    TokenSegments(node);
  }

  /** Names none of which lies above another keep the locations apart. */
  lemma AgentLocationsArePrefixFree(nodes: set<string>, ls: set<string>)
    requires AllClean(nodes) && PrefixFree(nodes) && AgentLocations(nodes, ls)
    ensures AllClean(ls) && PrefixFree(ls)
  {
    forall l | l in ls ensures CleanPath(l) {
      AgentLocationIsClean(nodes, l);
    }
    forall a, b | a in ls && b in ls ensures !(Split(a) < Split(b)) {
      AgentLocationsDoNotNest(nodes, a, b);
    }
  }

  lemma AgentLocationIsClean(nodes: set<string>, l: string)
    requires AllClean(nodes) && AgentLocation(nodes, l)
    ensures CleanPath(l)
  {
    if item :| WellFormed(item) && item.node in nodes && l == Location(item) {
      SplitLocation(item);
    } else {
      var node :| node in nodes && l == TokenLocation(node);
      TokenSegments(node);
    }
  }

  lemma ObjectIsNotAbove(nodes: set<string>, x: Item, b: string)
    requires AllClean(nodes) && PrefixFree(nodes) && AgentLocation(nodes, b)
    requires WellFormed(x) && x.node in nodes
    ensures !(Split(Location(x)) < Split(b))
  {
    if Split(Location(x)) < Split(b) {
      SplitLocation(x);
      assert Split(Location(x))[0] == Split(b)[0];
      if y :| WellFormed(y) && y.node in nodes && b == Location(y) {
        NoLocationIsADirectory(x, y);
      } else {
        var n :| n in nodes && b == TokenLocation(n);
        TokenIsNoObject(x, n);
      }
    }
  }

  lemma TokenIsNotAbove(nodes: set<string>, m: string, b: string)
    requires AllClean(nodes) && PrefixFree(nodes) && AgentLocation(nodes, b) && m in nodes
    ensures !(Split(TokenLocation(m)) < Split(b))
  {
    if Split(TokenLocation(m)) < Split(b) {
      TokenSegments(m);
      assert Split(TokenLocation(m))[0] == Split(b)[0];
      if y :| WellFormed(y) && y.node in nodes && b == Location(y) {
        TokenIsNoObject(y, m);
      } else {
        var n :| n in nodes && b == TokenLocation(n);
        NestedTokens(m, n);
      }
    }
  }

  lemma AgentLocationsDoNotNest(nodes: set<string>, a: string, b: string)
    requires AllClean(nodes) && PrefixFree(nodes) && AgentLocation(nodes, a) && AgentLocation(nodes, b)
    ensures !(Split(a) < Split(b))
  {
    if x :| WellFormed(x) && x.node in nodes && a == Location(x) {
      ObjectIsNotAbove(nodes, x, b);
    } else {
      var m :| m in nodes && a == TokenLocation(m);
      TokenIsNotAbove(nodes, m, b);
    }
  }

  lemma NestedTokens(m: string, n: string)
    requires CleanPath(m) && CleanPath(n)
    ensures Split(TokenLocation(m)) < Split(TokenLocation(n)) <==> Split(m) < Split(n)
  {
    TokenSegments(m);
    TokenSegments(n);
    PrefixOfParts(["handshake_tokens"], Split(m), ["handshake_tokens"], Split(n));
  }

  /** If one name lies above another, so do their tokens, and saving the second one fails. */
  lemma NestedNamesFail(nodes: set<string>, m: string, n: string) returns (ls: set<string>, ops: seq<Op>)
    requires CleanPath(m) && CleanPath(n) && m in nodes && n in nodes && Split(m) < Split(n)
    ensures AgentLocations(nodes, ls) && OpsWithin(ops, ls) && Run(EMPTY_TREE, ops) != MapRun(map[], ops)
  {
    var a, b := TokenLocation(m), TokenLocation(n);
    NestedTokens(m, n);
    TokenSegments(m);
    TokenSegments(n);
    NestedSavesFail(a, b);
    ls, ops := {a, b}, [Save(a, []), Save(b, [])];
    assert [Ok, Error][1] != [Ok, Ok][1];
  }

  /**
   For agents of these names the store behaves as the map, on everything they store and for
   every sequence of operations, exactly when no name lies above another.
   */
  lemma AgentStoreIsAMapIff(nodes: set<string>)
    requires AllClean(nodes)
    ensures PrefixFree(nodes) <==>
            forall ls: set<string>, ops: seq<Op> :: AgentLocations(nodes, ls) && OpsWithin(ops, ls) ==>
              Run(EMPTY_TREE, ops) == MapRun(map[], ops)
  {
    if PrefixFree(nodes) {
      forall ls: set<string>, ops: seq<Op> | AgentLocations(nodes, ls) && OpsWithin(ops, ls)
        ensures Run(EMPTY_TREE, ops) == MapRun(map[], ops)
      {
        AgentLocationsArePrefixFree(nodes, ls);
        StoreIsAMapIff(ls);
      }
    } else {
      var m, n :| m in nodes && n in nodes && Split(m) < Split(n);
      var ls, ops := NestedNamesFail(nodes, m, n);
    }
  }

  /** So with one-segment names it always does. */
  lemma AgentStoreIsAMap(nodes: set<string>, ls: set<string>, ops: seq<Op>)
    requires forall node :: node in nodes ==> CleanSegment(node)
    requires AgentLocations(nodes, ls) && OpsWithin(ops, ls)
    ensures Run(EMPTY_TREE, ops) == MapRun(map[], ops)
  {
    forall node | node in nodes ensures Split(node) == [node] {
      SplitSegment(node);
    }
    AgentStoreIsAMapIff(nodes);
  }

  /**
   The store object.  The tree is what it has on disk; `contents` is the map it stands for on
   the locations it is used with.
   */
  class FSStore {
    var tree: Tree
    ghost var contents: Contents
    ghost const locations: set<string>

    ghost predicate Valid()
      reads this
    {
      AllClean(locations) && PrefixFree(locations) && Represents(tree, contents, locations)
    }

    constructor (ghost locations: set<string>)
      ensures tree == EMPTY_TREE && contents == map[] && this.locations == locations
      ensures AllClean(locations) && PrefixFree(locations) ==> Valid()
    {
      tree := EMPTY_TREE;
      contents := map[];
      this.locations := locations;
    }

    method EnsureParents(p: Path)
      modifies this`tree
      ensures tree == EnsureDir(old(tree), p)
    {
      if !Blocked(tree, p) {
        tree := tree.(dirs := tree.dirs + Parents(p));
      }
    }

    method SaveFile(p: Path, data: Bytes) returns (result: Result)
      modifies this`tree
      ensures tree == SavePath(old(tree), p, data).0 && result == SavePath(old(tree), p, data).1
    {
      EnsureParents(p);
      if p in tree.dirs || !(Parents(p) <= tree.dirs) {
        return Error;
      }
      tree := tree.(files := tree.files[p := data]);
      return Ok;
    }

    /** Ghost bookkeeping: what a step on the tree has done to the map. */
    ghost method Account(before: Tree, op: Op)
      requires tree == Step(before, op).0
      modifies this`contents
      ensures contents == MapStep(old(contents), op).0
      ensures AllClean(locations) && PrefixFree(locations) && Represents(before, old(contents), locations) &&
              Names(op) <= locations ==>
                Valid() && Step(before, op).1 == MapStep(old(contents), op).1
    {
      AccountedFor(before, contents, locations, op);
      contents := MapStep(contents, op).0;
    }

    method SaveObject(location: string, data: Bytes) returns (result: Result)
      modifies this
      ensures tree == Step(old(tree), Save(location, data)).0 && result == Step(old(tree), Save(location, data)).1
      ensures old(Valid()) && location in locations ==>
                Valid() && result == Ok && contents == old(contents)[location := data]
    {
      ghost var before := tree;
      result := SaveFile(Resolve(location), data);
      Account(before, Save(location, data));
    }

    method GetObject(location: string) returns (result: Result)
      ensures result == Step(tree, Get(location)).1
      ensures Valid() && location in locations ==> result == Lookup(contents, location)
    {
      result := GetPath(tree, Resolve(location));
      if Valid() && location in locations {
        StepRefines(tree, contents, locations, Get(location));
      }
    }

    method ObjectExists(location: string) returns (result: Result)
      ensures result == Step(tree, Exists(location)).1
      ensures Valid() && location in locations ==> result == Answer(location in contents)
    {
      result := ExistsPath(tree, Resolve(location));
      if Valid() && location in locations {
        StepRefines(tree, contents, locations, Exists(location));
      }
    }

    method RemoveFile(p: Path) returns (result: Result)
      modifies this`tree
      ensures tree == DeletePath(old(tree), p).0 && result == DeletePath(old(tree), p).1
    {
      if p in tree.files {
        tree := tree.(files := tree.files - {p});
        return Ok;
      }
      if p in tree.dirs && !HasChildren(tree, p) {
        tree := tree.(dirs := tree.dirs - {p});
        return Ok;
      }
      return Error;
    }

    method DeleteObject(location: string) returns (result: Result)
      modifies this
      ensures tree == Step(old(tree), Delete(location)).0 && result == Step(old(tree), Delete(location)).1
      ensures old(Valid()) && location in locations ==>
                && Valid()
                && (location in old(contents) ==> result == Ok && contents == old(contents) - {location})
                && (location !in old(contents) ==> result == Error && contents == old(contents))
    {
      ghost var before := tree;
      result := RemoveFile(Resolve(location));
      Account(before, Delete(location));
    }

    method CopyObject(source: string, destination: string) returns (result: Result)
      modifies this
      ensures tree == Step(old(tree), Copy(source, destination)).0
      ensures result == Step(old(tree), Copy(source, destination)).1
      ensures old(Valid()) && source in locations && destination in locations ==>
                && Valid() && contents == MapStep(old(contents), Copy(source, destination)).0
                && result == MapStep(old(contents), Copy(source, destination)).1
    {
      ghost var before := tree;
      result := CopyPaths(source, destination);
      Account(before, Copy(source, destination));
    }

    method CopyPaths(source: string, destination: string) returns (result: Result)
      modifies this`tree
      ensures tree == CopyPath(old(tree), source, destination).0
      ensures result == CopyPath(old(tree), source, destination).1
    {
      if source == "" || destination == "" {
        return Error;
      }
      EnsureParents(Resolve(destination));
      var read := GetPath(tree, Resolve(source));
      if !read.Content? {
        return Error;
      }
      var (after, written) := WriteFile(tree, Resolve(destination), read.data);
      tree := after;
      return written;
    }

    method SaveStorageHandshakeToken(node: string, data: Bytes) returns (result: Result)
      modifies this
      ensures tree == Step(old(tree), SaveToken(node, data)).0 && result == Step(old(tree), SaveToken(node, data)).1
      ensures old(Valid()) && TokenLocation(node) in locations ==>
                Valid() && result == Ok && contents == old(contents)[TokenLocation(node) := data]
    {
      ghost var before := tree;
      result := SaveFile(TokenPath(node), data);
      Account(before, SaveToken(node, data));
    }

    method GetStorageHandshakeToken(node: string) returns (result: Result)
      ensures result == Step(tree, GetToken(node)).1
      ensures Valid() && TokenLocation(node) in locations ==> result == Lookup(contents, TokenLocation(node))
    {
      result := GetPath(tree, TokenPath(node));
      if Valid() && TokenLocation(node) in locations {
        StepRefines(tree, contents, locations, GetToken(node));
      }
    }

    method StorageHandshakeTokenExists(node: string) returns (result: Result)
      ensures result == Step(tree, TokenExists(node)).1
      ensures Valid() && TokenLocation(node) in locations ==> result == Answer(TokenLocation(node) in contents)
    {
      result := ExistsPath(tree, Resolve(TokenLocation(node)));
      if Valid() && TokenLocation(node) in locations {
        StepRefines(tree, contents, locations, TokenExists(node));
      }
    }
  }
}
