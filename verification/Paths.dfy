/** Slash-separated relative paths: strings.Split, and the joining and cleaning of path.Join. */
module Paths {

  predicate NoSlash(s: string) {
    '/' !in s
  }

  predicate NoSlashes(segs: seq<string>) {
    forall i :: 0 <= i < |segs| ==> NoSlash(segs[i])
  }

  /** The segments between slashes; an empty text is one empty segment. */
  function Split(s: string): (segs: seq<string>)
    ensures segs != [] && NoSlashes(segs)
  {
    if s == "" then [""]
    else
      var rest := Split(s[1..]);
      if s[0] == '/' then [""] + rest else [[s[0]] + rest[0]] + rest[1..]
  }

  function Join(segs: seq<string>): string {
    if segs == [] then "" else if |segs| == 1 then segs[0] else segs[0] + "/" + Join(segs[1..])
  }

  lemma JoinCons(first: string, rest: seq<string>)
    requires rest != []
    ensures Join([first] + rest) == first + "/" + Join(rest)
  {
    assert ([first] + rest)[1..] == rest;
  }

  lemma JoinPrepend(c: char, segs: seq<string>)
    requires segs != []
    ensures Join([[c] + segs[0]] + segs[1..]) == [c] + Join(segs)
  {
    if |segs| == 1 {
      assert segs[1..] == [];
    } else {
      JoinCons([c] + segs[0], segs[1..]);
      Regroup([c], segs[0], "/", Join(segs[1..]));
    }
  }

  lemma Regroup(a: string, b: string, c: string, d: string)
    ensures a + b + c + d == a + (b + c + d)
  {
  }

  lemma {:induction false} JoinSplit(s: string)
    ensures Join(Split(s)) == s
  {
    if s != "" {
      var rest := Split(s[1..]);
      JoinSplit(s[1..]);
      JoinCons("", rest);
      JoinPrepend(s[0], rest);
      assert s == [s[0]] + s[1..];
    }
  }

  lemma {:induction false} SplitSegment(s: string)
    requires NoSlash(s)
    ensures Split(s) == [s]
  {
    if s != "" {
      assert s[0] in s;
      SplitSegment(s[1..]);
      assert s == [s[0]] + s[1..];
    }
  }

  lemma {:induction false} SplitAtSlash(s: string, t: string)
    requires NoSlash(s)
    ensures Split(s + "/" + t) == [s] + Split(t)
  {
    var all := s + "/" + t;
    if s == "" {
      assert all[1..] == t;
    } else {
      SplitAtSlash(s[1..], t);
      assert all[1..] == s[1..] + "/" + t;
      assert all[0] == s[0] && s[0] in s;
      assert s == [s[0]] + s[1..];
    }
  }

  lemma {:induction false} SplitJoin(segs: seq<string>)
    requires segs != [] && NoSlashes(segs)
    ensures Split(Join(segs)) == segs
  {
    if |segs| == 1 {
      SplitSegment(segs[0]);
    } else {
      SplitJoin(segs[1..]);
      SplitAtSlash(segs[0], Join(segs[1..]));
    }
  }

  lemma {:induction false} JoinConcat(a: seq<string>, b: seq<string>)
    requires a != [] && b != []
    ensures Join(a + b) == Join(a) + "/" + Join(b)
  {
    if |a| == 1 {
      assert (a + b)[1..] == b;
    } else {
      assert (a + b)[1..] == a[1..] + b;
      JoinConcat(a[1..], b);
    }
  }

  // path.Join: drop empty elements, join by slashes, clean.

  function NonEmpty(elems: seq<string>): seq<string> {
    if elems == [] then []
    else (if elems[0] == "" then [] else [elems[0]]) + NonEmpty(elems[1..])
  }

  /** Cleaning of a relative path: empty and `.` segments vanish, `..` takes back what it can. */
  function Clean(done: seq<string>, segs: seq<string>): seq<string>
    decreases segs
  {
    if segs == [] then done
    else
      var s := segs[0];
      var done' :=
        if s == "" || s == "." then done
        else if s == ".." && done != [] && done[|done| - 1] != ".." then done[..|done| - 1]
        else done + [s];
      Clean(done', segs[1..])
  }

  /** path.Join of elements that do not start with a slash. */
  function PathJoin(elems: seq<string>): string {
    var kept := NonEmpty(elems);
    if kept == [] then ""
    else
      var cleaned := Clean([], Split(Join(kept)));
      if cleaned == [] then "." else Join(cleaned)
  }

  /** A segment that cleaning leaves alone. */
  predicate CleanSegment(s: string) {
    s != "" && s != "." && s != ".." && NoSlash(s)
  }

  predicate CleanSegments(segs: seq<string>) {
    segs != [] && forall i :: 0 <= i < |segs| ==> CleanSegment(segs[i])
  }

  /** One or more clean segments with single slashes between them. */
  predicate CleanPath(s: string) {
    CleanSegments(Split(s))
  }

  lemma {:induction false} CleanKeeps(done: seq<string>, segs: seq<string>)
    requires forall i :: 0 <= i < |segs| ==> CleanSegment(segs[i])
    ensures Clean(done, segs) == done + segs
    decreases segs
  {
    if segs != [] {
      CleanKeeps(done + [segs[0]], segs[1..]);
      assert done + [segs[0]] + segs[1..] == done + segs;
    }
  }

  /** A parent step takes back the segment before it. */
  lemma ParentTakesBack(done: seq<string>, s: string, rest: seq<string>)
    requires CleanSegment(s)
    ensures Clean(done, [s, ".."] + rest) == Clean(done, rest)
  {
    assert ([s, ".."] + rest)[1..] == [".."] + rest && ([".."] + rest)[1..] == rest;
    assert (done + [s])[..|done|] == done;
  }

  lemma {:induction false} NonEmptyKeeps(elems: seq<string>)
    requires forall i :: 0 <= i < |elems| ==> elems[i] != ""
    ensures NonEmpty(elems) == elems
  {
    if elems != [] {
      NonEmptyKeeps(elems[1..]);
    }
  }

  lemma JoinAround(front: seq<string>, path: string, back: seq<string>)
    requires front != [] && back != []
    ensures Join(front + [path] + back) == Join(front + Split(path) + back)
  {
    JoinSplit(path);
    JoinConcat(front, [path]);
    JoinConcat(front, Split(path));
    JoinConcat(front + [path], back);
    JoinConcat(front + Split(path), back);
  }

  lemma EmptyIsNotClean(s: string)
    requires CleanPath(s)
    ensures s != ""
  {
    assert Split("")[0] == "";
  }

  lemma PathJoinOfSegments(elems: seq<string>, segs: seq<string>)
    requires elems != [] && forall i :: 0 <= i < |elems| ==> elems[i] != ""
    requires CleanSegments(segs) && Join(elems) == Join(segs)
    ensures PathJoin(elems) == Join(segs)
  {
    NonEmptyKeeps(elems);
    SplitJoin(segs);
    CleanKeeps([], segs);
    assert [] + segs == segs;
  }

  /** A clean path between clean segments comes out of path.Join segment by segment, in order. */
  lemma PathJoinAround(front: seq<string>, path: string, back: seq<string>)
    requires CleanSegments(front) && CleanPath(path) && CleanSegments(back)
    ensures PathJoin(front + [path] + back) == Join(front + Split(path) + back)
  {
    EmptyIsNotClean(path);
    JoinAround(front, path, back);
    PathJoinOfSegments(front + [path] + back, front + Split(path) + back);
  }

  // Cleaning is idempotent, on every path.

  /** The results of cleaning: no empty or `.` segment, and `..` only in front. */
  predicate Normal(segs: seq<string>) {
    forall i :: 0 <= i < |segs| ==>
      && segs[i] != "" && segs[i] != "."
      && (segs[i] == ".." ==> forall j :: 0 <= j < i ==> segs[j] == "..")
  }

  lemma {:induction false} CleanIsNormal(done: seq<string>, segs: seq<string>)
    requires Normal(done) && NoSlashes(done) && NoSlashes(segs)
    ensures Normal(Clean(done, segs)) && NoSlashes(Clean(done, segs))
    decreases segs
  {
    if segs != [] {
      var s := segs[0];
      var done' :=
        if s == "" || s == "." then done
        else if s == ".." && done != [] && done[|done| - 1] != ".." then done[..|done| - 1]
        else done + [s];
      assert Normal(done');
      CleanIsNormal(done', segs[1..]);
    }
  }

  lemma {:induction false} CleanOfNormal(done: seq<string>, segs: seq<string>)
    requires Normal(done + segs)
    ensures Clean(done, segs) == done + segs
    decreases segs
  {
    if segs != [] {
      assert (done + segs)[|done|] == segs[0];
      if done != [] {
        assert (done + segs)[|done| - 1] == done[|done| - 1];
      }
      assert done + [segs[0]] + segs[1..] == done + segs;
      CleanOfNormal(done + [segs[0]], segs[1..]);
    }
  }

  /** Joining first and cleaning once, or joining and cleaning in two rounds, is the same. */
  lemma PathJoinResolves(first: string, path: string)
    requires CleanSegment(first)
    ensures Clean([], Split(PathJoin([first, path]))) == Clean([], [first] + Split(path))
  {
    var kept := NonEmpty([first, path]);
    assert [first, path][1..] == [path];
    var cleaned := Clean([], [first] + Split(path));
    if path == "" {
      assert NonEmpty([path]) == NonEmpty([path][1..]) == [];
      SplitSegment(first);
      assert Split(path) == [""];
      CleanOfEmptyLast([first]);
    } else {
      assert NonEmpty([path]) == [path] + NonEmpty([path][1..]) == [path];
      assert kept == [first, path];
      assert Join(kept) == first + "/" + path by { assert [first, path][1..] == [path]; }
      SplitAtSlash(first, path);
    }
    CleanIsNormal([], [first] + Split(path));
    CleanOfNormal([], cleaned);
    assert [] + cleaned == cleaned;
    if cleaned != [] {
      SplitJoin(cleaned);
    } else {
      SplitSegment(".");
      assert Clean([], ["."]) == Clean([], ["."][1..]) == [];
    }
  }

  lemma CleanOfEmptyLast(segs: seq<string>)
    requires |segs| == 1
    ensures Clean([], segs + [""]) == Clean([], segs)
  {
    assert (segs + [""])[1..] == [""] && [""][1..] == [] && segs[1..] == [];
  }
}
