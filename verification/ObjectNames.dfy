/**
 What a presigned download URL says about an object: content type, file name and encoding,
 for locations with and without the compression extension.
 */
module ObjectNames {
  import opened FileNames
  import opened Locations
  import opened Paths
  import opened Wrappers

  const GZIP_EXTENSION: string := ".gz"
  const GZIP_ENCODING: string := "gzip"

  datatype ContentType = Json | OctetStream | UnknownType

  datatype Headers = Headers(contentType: ContentType, fileName: string, encoding: Option<string>)

  predicate HasSuffix(s: string, suffix: string) {
    |suffix| <= |s| && s[|s| - |suffix|..] == suffix
  }

  function TrimSuffix(s: string, suffix: string): string {
    if HasSuffix(s, suffix) then s[..|s| - |suffix|] else s
  }

  /** The "none" algorithm has an empty extension, so only gzip's can go. */
  function RemoveExtension(name: string): string {
    TrimSuffix(TrimSuffix(name, GZIP_EXTENSION), "")
  }

  function AddExtension(name: string): string {
    if HasSuffix(name, GZIP_EXTENSION) then name else name + GZIP_EXTENSION
  }

  /** What follows the last slash. */
  function Tail(path: string): string {
    var segs := Split(path);
    segs[|segs| - 1]
  }

  function StripSlashes(path: string): string {
    if path != "" && path[|path| - 1] == '/' then StripSlashes(path[..|path| - 1]) else path
  }

  /** filepath.Base. */
  function Base(path: string): string {
    if path == "" then "."
    else if StripSlashes(path) == "" then "/"
    else Tail(StripSlashes(path))
  }

  /** filepath.Ext: from the last dot of the last element. */
  function Ext(path: string): string {
    var tail := Tail(path);
    var i := LastIndexOf(tail, '.');
    if i < 0 then "" else tail[i..]
  }

  function TypeOfExtension(extension: string): ContentType {
    var name := if extension != "" && extension[0] == '.' then extension[1..] else extension;
    if name == "json" then Json else if name == "ssz" then OctetStream else UnknownType
  }

  /** getPresignedURL's input: with no encoding given, an old location's own extension decides. */
  function PresignedHeaders(location: string, contentEncoding: string): Headers {
    var extension := Ext(RemoveExtension(location));
    var plain := Headers(TypeOfExtension(extension), RemoveExtension(Base(location)), None);
    if contentEncoding != "" then plain.(encoding := Some(contentEncoding))
    else if HasSuffix(location, GZIP_EXTENSION) then
      Headers(TypeOfExtension(RemoveExtension(extension)), RemoveExtension(Base(location)), Some(GZIP_ENCODING))
    else plain
  }

  /** Removing undoes adding, except for a name that already had the extension. */
  lemma RemoveUndoesAdd(name: string)
    ensures RemoveExtension(AddExtension(name)) == name <==> !HasSuffix(name, GZIP_EXTENSION)
  {
    var added := name + GZIP_EXTENSION;
    assert added[..|name|] == name;
  }

  lemma TailAppend(path: string, suffix: string)
    requires NoSlash(suffix)
    ensures Tail(path + suffix) == Tail(path) + suffix
  {
    var segs := Split(path);
    JoinSplit(path);
    JoinAppend(segs, suffix);
    SplitJoin(Append(segs, suffix));
  }

  /** The tail is a suffix of the path, and a slash-free ending of the path is one of the tail. */
  lemma TailSuffix(path: string, suffix: string)
    requires NoSlash(suffix)
    ensures HasSuffix(path, suffix) <==> HasSuffix(Tail(path), suffix)
  {
    if HasSuffix(path, suffix) {
      var init := path[..|path| - |suffix|];
      assert path == init + suffix;
      TailAppend(init, suffix);
    }
    TailIsSuffix(path);
    if HasSuffix(Tail(path), suffix) {
      SuffixTransitive(path, Tail(path), suffix);
    }
  }

  lemma SuffixTransitive(a: string, b: string, c: string)
    requires HasSuffix(a, b) && HasSuffix(b, c)
    ensures HasSuffix(a, c)
  {
    assert a[|a| - |c|..] == a[|a| - |b|..][|b| - |c|..];
  }

  lemma TailIsSuffix(path: string)
    ensures HasSuffix(path, Tail(path))
  {
    var segs := Split(path);
    JoinSplit(path);
    if |segs| > 1 {
      var init := segs[..|segs| - 1];
      JoinConcat(init, [Tail(path)]);
      assert segs == init + [Tail(path)];
      assert path == Join(init) + "/" + Tail(path);
    }
  }

  predicate EndsInSlash(path: string) {
    path != "" && path[|path| - 1] == '/'
  }

  lemma TailOfSlash(path: string)
    requires EndsInSlash(path)
    ensures Tail(path) == ""
  {
    var init := path[..|path| - 1];
    assert path == init + "/";
    JoinSplit(init);
    JoinConcat(Split(init), [""]);
    assert path == Join(Split(init)) + "/" + Join([""]);
    SplitJoin(Split(init) + [""]);
  }

  lemma BaseWithoutSlash(path: string)
    requires path != "" && !EndsInSlash(path)
    ensures Base(path) == Tail(path)
  {
  }

  function Gzipped(extension: string, fileName: string): Headers {
    Headers(TypeOfExtension(extension), fileName, Some(GZIP_ENCODING))
  }

  lemma RemoveAdded(name: string)
    ensures HasSuffix(name + GZIP_EXTENSION, GZIP_EXTENSION)
    ensures RemoveExtension(name + GZIP_EXTENSION) == name
  {
    assert (name + GZIP_EXTENSION)[..|name|] == name;
  }

  lemma BaseAdded(location: string)
    ensures Base(location + GZIP_EXTENSION) == Tail(location) + GZIP_EXTENSION
  {
    var longer := location + GZIP_EXTENSION;
    assert longer[|longer| - 1] == GZIP_EXTENSION[2];
    TailAppend(location, GZIP_EXTENSION);
    BaseWithoutSlash(longer);
  }

  lemma OldHeaders(location: string)
    ensures PresignedHeaders(location + GZIP_EXTENSION, "") == Gzipped(RemoveExtension(Ext(location)), Tail(location))
  {
    RemoveAdded(location);
    BaseAdded(location);
    RemoveAdded(Tail(location));
  }

  lemma NewHeaders(location: string)
    ensures PresignedHeaders(location, GZIP_ENCODING) ==
            Gzipped(Ext(RemoveExtension(location)), RemoveExtension(Base(location)))
  {
  }

  lemma RemoveNothing(name: string)
    ensures !HasSuffix(name, GZIP_EXTENSION) ==> RemoveExtension(name) == name
  {
  }

  lemma RemoveShortens(name: string)
    ensures HasSuffix(name, GZIP_EXTENSION) ==> |RemoveExtension(name)| == |name| - 3
  {
  }

  lemma ExtIsSuffix(location: string)
    ensures HasSuffix(Tail(location), Ext(location))
    ensures !HasSuffix(location, GZIP_EXTENSION) ==> !HasSuffix(Ext(location), GZIP_EXTENSION)
  {
    var tail := Tail(location);
    var i := LastIndexOf(tail, '.');
    assert 0 <= i ==> Ext(location) == tail[|tail| - (|tail| - i)..];
    TailSuffix(location, GZIP_EXTENSION);
    if HasSuffix(Ext(location), GZIP_EXTENSION) {
      SuffixTransitive(tail, Ext(location), GZIP_EXTENSION);
    }
  }

  lemma OrdinaryLocationsAgree(location: string)
    requires location != "" && !EndsInSlash(location)
    ensures PresignedHeaders(location + GZIP_EXTENSION, "") == PresignedHeaders(location, GZIP_ENCODING)
            <==> !HasSuffix(location, GZIP_EXTENSION)
  {
    OldHeaders(location);
    NewHeaders(location);
    BaseWithoutSlash(location);
    TailSuffix(location, GZIP_EXTENSION);
    RemoveNothing(location);
    RemoveNothing(Tail(location));
    RemoveShortens(Tail(location));
    ExtIsSuffix(location);
    RemoveNothing(Ext(location));
  }

  lemma DirectoryLocations(location: string)
    requires EndsInSlash(location)
    ensures PresignedHeaders(location + GZIP_EXTENSION, "") == PresignedHeaders(location, GZIP_ENCODING)
            <==> Base(location) == GZIP_EXTENSION
    ensures !HasSuffix(location, GZIP_EXTENSION)
  {
    OldHeaders(location);
    NewHeaders(location);
    TailOfSlash(location);
    TailSuffix(location, GZIP_EXTENSION);
    RemoveNothing(location);
    RemoveNothing(Base(location));
    RemoveShortens(Base(location));
    BaseIsNotEmpty(location);
    if HasSuffix(Base(location), GZIP_EXTENSION) && |Base(location)| == 3 {
      assert Base(location) == GZIP_EXTENSION;
    }
  }

  lemma BaseIsNotEmpty(path: string)
    ensures Base(path) != ""
  {
    var stripped := StripSlashes(path);
    StripSlashesEnds(path);
    TailSuffix(stripped, "");
    if path != "" && stripped != "" && Tail(stripped) == "" {
      EmptyTail(stripped);
    }
  }

  lemma {:induction false} StripSlashesEnds(path: string)
    ensures !EndsInSlash(StripSlashes(path))
  {
    if EndsInSlash(path) {
      StripSlashesEnds(path[..|path| - 1]);
    }
  }

  lemma EmptyTail(path: string)
    requires Tail(path) == "" && path != ""
    ensures EndsInSlash(path)
  {
    var segs := Split(path);
    JoinSplit(path);
    assert segs == segs[..|segs| - 1] + [""];
    if |segs| > 1 {
      JoinConcat(segs[..|segs| - 1], [""]);
      assert path == Join(segs[..|segs| - 1]) + "/" + "";
    }
  }

  /** Where old and new style agree, for every location. */
  lemma OldAndNewAgreeIff(location: string)
    ensures PresignedHeaders(location + GZIP_EXTENSION, "") == PresignedHeaders(location, GZIP_ENCODING)
            <==>
            && location != ""
            && !HasSuffix(location, GZIP_EXTENSION)
            && (EndsInSlash(location) ==> Base(location) == GZIP_EXTENSION)
  {
    if location == "" {
      OldHeaders(location);
      NewHeaders(location);
      assert Tail("") == "" && RemoveExtension(".") == ".";
    } else if EndsInSlash(location) {
      DirectoryLocations(location);
    } else {
      OrdinaryLocationsAgree(location);
    }
  }

  /** In particular they agree, and say the right thing, for every location ending in .json or .ssz. */
  lemma StoredLocationsAgree(location: string, extension: string)
    requires extension == ".json" || extension == ".ssz"
    requires HasSuffix(location, extension)
    ensures PresignedHeaders(location + GZIP_EXTENSION, "") == PresignedHeaders(location, GZIP_ENCODING)
    ensures PresignedHeaders(location, GZIP_ENCODING) ==
            Headers(if extension == ".json" then Json else OctetStream, Tail(location), Some(GZIP_ENCODING))
  {
    TailSuffix(location, extension);
    ExtOfSuffix(Tail(location), extension);
    assert Ext(location) == extension;
    NotGzipped(location, extension);
    NotGzipped(extension, extension);
    OrdinaryLocationsAgree(location);
    OldHeaders(location);
    RemoveNothing(extension);
    TypeOfKnown(extension);
  }

  /** The content types, for every extension with or without its dot. */
  lemma TypeOfExtensionIff(extension: string)
    ensures TypeOfExtension(extension) == Json <==> extension == ".json" || extension == "json"
    ensures TypeOfExtension(extension) == OctetStream <==> extension == ".ssz" || extension == "ssz"
  {
    if extension != "" && extension[0] == '.' {
      assert extension == "." + extension[1..];
    }
  }

  /** A location without the compression extension: its own type and name, and the encoding that was given, if any. */
  lemma PlainLocationHeaders(location: string, extension: string, contentEncoding: string)
    requires extension == ".json" || extension == ".ssz"
    requires HasSuffix(location, extension)
    ensures PresignedHeaders(location, contentEncoding) ==
            Headers(if extension == ".json" then Json else OctetStream, Tail(location),
                    if contentEncoding == "" then None else Some(contentEncoding))
  {
    TailSuffix(location, extension);
    ExtOfSuffix(Tail(location), extension);
    NotGzipped(location, extension);
    NotGzipped(Tail(location), extension);
    BaseWithoutSlash(location);
    RemoveNothing(location);
    RemoveNothing(Tail(location));
    TypeOfKnown(extension);
  }

  lemma TypeOfKnown(extension: string)
    requires extension == ".json" || extension == ".ssz"
    ensures TypeOfExtension(extension) == if extension == ".json" then Json else OctetStream
  {
    assert extension[1..] == "json" || extension[1..] == "ssz";
  }

  lemma NotGzipped(s: string, extension: string)
    requires extension == ".json" || extension == ".ssz"
    requires HasSuffix(s, extension)
    ensures !HasSuffix(s, GZIP_EXTENSION) && s != "" && !EndsInSlash(s)
  {
    var n := |s|;
    assert s[n - |extension|..][|extension| - 1] == s[n - 1] && s[n - |extension|..][|extension| - 2] == s[n - 2];
  }

  lemma ExtOfSuffix(tail: string, extension: string)
    requires extension == ".json" || extension == ".ssz"
    requires HasSuffix(tail, extension)
    ensures var i := LastIndexOf(tail, '.'); 0 <= i && tail[i..] == extension
  {
    var i := |tail| - |extension|;
    forall j | i <= j < |tail| ensures tail[j] == extension[j - i] {
      assert tail[i..][j - i] == tail[j];
    }
    LastIndexIs(tail, '.', i);
  }
}
