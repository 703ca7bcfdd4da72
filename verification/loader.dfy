/**
 * `Loader`: picking the root glTF file of a dropped file map, and the URL
 * modifier that sends the relative URLs a glTF file refers to back into the
 * same file map. The loading itself (GLTFLoader, promises) is not part of
 * this model.
 */
module Loader {
  import opened Wrappers
  import opened JsString
  import opened Errors

  /** A dropped `File`: its name and the blob it holds. */
  datatype File = File(name: string, blob: nat)

  /**
   * The `Map` from relative paths to files, in insertion order. A `Map`
   * holds one entry per key; `DistinctKeys` states that, and `Lookup`
   * reads the first entry, which under it is the only one.
   */
  type FileMap = seq<(string, File)>

  /** No two entries share a key, as in a JS `Map`. */
  predicate DistinctKeys(fileMap: FileMap) {
    forall i, j :: 0 <= i < j < |fileMap| ==> fileMap[i].0 != fileMap[j].0
  }

  /** Where a request goes: an object URL made for a blob, or a URL string. */
  datatype Location = BlobURL(blob: nat) | Address(url: string)

  /** The file to load first and the directory the others are relative to. */
  datatype Root = Root(fileURL: Location, rootPath: string)

  /** `/\.(gltf|glb)$/` */
  predicate IsRootName(name: string) {
    EndsWith(name, ".gltf") || EndsWith(name, ".glb")
  }

  /** The position of the last entry whose file is a `.gltf` or `.glb`. */
  function LastRoot(fileMap: FileMap): (r: Option<nat>)
    ensures r.Some? ==> r.value < |fileMap| && IsRootName(fileMap[r.value].1.name)
  {
    if fileMap == [] then None
    else if IsRootName(fileMap[|fileMap| - 1].1.name) then Some(|fileMap| - 1)
    else LastRoot(fileMap[..|fileMap| - 1])
  }

  /** No entry after the chosen one is a root, and nothing is chosen only when no entry is. */
  lemma {:induction false} LastRootIsLast(fileMap: FileMap)
    ensures LastRoot(fileMap).Some? ==> forall j :: LastRoot(fileMap).value < j < |fileMap| ==> !IsRootName(fileMap[j].1.name)
    ensures LastRoot(fileMap).None? <==> forall j :: 0 <= j < |fileMap| ==> !IsRootName(fileMap[j].1.name)
  {
    if fileMap != [] && !IsRootName(fileMap[|fileMap| - 1].1.name) {
      var front := fileMap[..|fileMap| - 1];
      assert LastRoot(fileMap) == LastRoot(front);
      LastRootIsLast(front);
      forall j | 0 <= j < |front|
        ensures front[j] == fileMap[j]
      {
      }
    }
  }

  /** `path.replace(file.name, '')` as written: the first occurrence of the name goes. */
  function RootPathAsWritten(path: string, name: string): (r: string)
    ensures !Contains(path, name) ==> r == path
  {
    RemoveFirst(path, name)
  }

  /** A directory whose own name contains the file name loses the wrong part. */
  lemma EarlierNameMisplacesRoot(dir: string, name: string)
    requires dir == "scene.gltf-files/" && name == "scene.gltf"
    ensures RootPathAsWritten(dir + name, name) == "-files/scene.gltf" != dir
  {
    assert MatchAt(dir + name, name, 0);
    ContainsAt(dir + name, name, 0);
    ContainsIndexOf(dir + name, name);
    assert (dir + name)[|name|..] == "-files/scene.gltf";
  }

  /** The directory of an entry: its path without the file name at the end. */
  function RootPath(path: string, name: string): (r: string)
    ensures EndsWith(path, name) ==> r + name == path
    ensures !EndsWith(path, name) ==> r == RootPathAsWritten(path, name)
  {
    if EndsWith(path, name) then path[..|path| - |name|] else RemoveFirst(path, name)
  }

  /** An entry stored under its directory and its name yields that directory. */
  lemma RootPathIsDirectory(dir: string, name: string)
    ensures RootPath(dir + name, name) == dir
  {
    assert (dir + name)[|dir|..] == name;
    assert (dir + name)[..|dir|] == dir;
  }

  /** Both agree when the name occurs in the path only at its end. */
  lemma RootPathAgrees(dir: string, name: string)
    requires forall i :: 0 <= i < |dir| ==> !MatchAt(dir + name, name, i)
    ensures RootPathAsWritten(dir + name, name) == RootPath(dir + name, name)
  {
    assert MatchAt(dir + name, name, |dir|);
    ContainsAt(dir + name, name, |dir|);
    ContainsIndexOf(dir + name, name);
    assert (dir + name)[..|dir|] == dir;
    RootPathIsDirectory(dir, name);
  }

  /**
   * `importGLTF` up to the call of `loadLocalGLTF`: the last `.gltf` or
   * `.glb` entry is the root. Without one, the error is logged and
   * `URL.createObjectURL(undefined)` throws.
   */
  method ImportGLTF(fileMap: FileMap) returns (logged: bool, r: Result<Root, Error>)
    ensures LastRoot(fileMap).None? ==> logged && r == Failure(NoRootFile)
    ensures LastRoot(fileMap).Some? ==>
      var (path, file) := fileMap[LastRoot(fileMap).value];
      !logged && r == Success(Root(BlobURL(file.blob), RootPath(path, file.name)))
  {
    var rootFile: Option<File> := None;
    var rootPath: Option<string> := None;
    var i := 0;
    while i < |fileMap|
      invariant 0 <= i <= |fileMap|
      invariant LastRoot(fileMap[..i]).None? ==> rootFile.None?
      invariant LastRoot(fileMap[..i]).Some? ==>
        var (path, file) := fileMap[LastRoot(fileMap[..i]).value];
        rootFile == Some(file) && rootPath == Some(RootPath(path, file.name))
    {
      var (path, file) := fileMap[i];
      if IsRootName(file.name) {
        rootFile := Some(file);
        rootPath := Some(RootPath(path, file.name));
      }
      assert fileMap[..i + 1][..i] == fileMap[..i];
      i := i + 1;
    }
    assert fileMap[..i] == fileMap;
    if rootFile.None? {
      return true, Failure(NoRootFile);
    }
    return false, Success(Root(BlobURL(rootFile.value.blob), rootPath.value));
  }

  /** `replace(/^(\.?\/)/, '')`: one leading `./` or `/` goes. */
  function StripLeadingSlash(s: string): (r: string)
    ensures StartsWith(s, "./") ==> s == "./" + r
    ensures !StartsWith(s, "./") && StartsWith(s, "/") ==> s == "/" + r
    ensures !StartsWith(s, "./") && !StartsWith(s, "/") ==> r == s
  {
    if StartsWith(s, "./") then s[2..]
    else if StartsWith(s, "/") then s[1..]
    else s
  }

  /** `assetMap.get(key)`: the file stored under `key`, if any. */
  function Lookup(assetMap: FileMap, key: string): (r: Option<File>)
    ensures r.None? <==> forall j :: 0 <= j < |assetMap| ==> assetMap[j].0 != key
    ensures r.Some? ==> exists j :: 0 <= j < |assetMap| && assetMap[j] == (key, r.value)
  {
    if assetMap == [] then None
    else if assetMap[0].0 == key then Some(assetMap[0].1)
    else
      var r := Lookup(assetMap[1..], key);
      assert forall j :: 1 <= j < |assetMap| ==> assetMap[1..][j - 1] == assetMap[j];
      r
  }

  /** With distinct keys, `get` of a stored key returns the file stored under it. */
  lemma LookupStored(assetMap: FileMap, i: nat)
    requires DistinctKeys(assetMap) && i < |assetMap|
    ensures Lookup(assetMap, assetMap[i].0) == Some(assetMap[i].1)
  {
    var r := Lookup(assetMap, assetMap[i].0);
    var j :| 0 <= j < |assetMap| && assetMap[j] == (assetMap[i].0, r.value);
    assert j == i;
  }

  /** The path the modifier looks up: the root directory plus the URL relative to the base. */
  function NormalizedURL(rootPath: string, baseURL: string, url: string): string {
    rootPath + StripLeadingSlash(RemoveFirst(url, baseURL))
  }

  /**
   * The URL modifier: a file of the map under the normalised path is served
   * from its blob; any other URL is prefixed with `path`, or left alone.
   */
  function ModifyURL(rootPath: string, baseURL: string, assetMap: FileMap, url: string, path: Option<string>): (r: Location)
    ensures r.BlobURL? <==> Lookup(assetMap, NormalizedURL(rootPath, baseURL, url)).Some?
    ensures r.BlobURL? ==> exists j :: 0 <= j < |assetMap| && assetMap[j].0 == NormalizedURL(rootPath, baseURL, url) && assetMap[j].1.blob == r.blob
    ensures r.Address? ==> r.url == path.GetOr("") + url
  {
    match Lookup(assetMap, NormalizedURL(rootPath, baseURL, url))
    case Some(file) => BlobURL(file.blob)
    case None => Address(path.GetOr("") + url)
  }

  /**
   * A URL relative to the base, written plainly or with `./` in front,
   * reaches the file stored under the root directory plus that relative path.
   */
  lemma SiblingServedFromMap(rootPath: string, baseURL: string, assetMap: FileMap, rel: string, path: Option<string>)
    requires !StartsWith(rel, "./") && !StartsWith(rel, "/")
    requires Lookup(assetMap, rootPath + rel).Some?
    ensures ModifyURL(rootPath, baseURL, assetMap, baseURL + rel, path) == BlobURL(Lookup(assetMap, rootPath + rel).value.blob)
    ensures ModifyURL(rootPath, baseURL, assetMap, baseURL + "./" + rel, path) == BlobURL(Lookup(assetMap, rootPath + rel).value.blob)
  {
    PlainRelative(baseURL, rel);
    DottedRelative(baseURL, rel);
  }

  lemma PlainRelative(baseURL: string, rel: string)
    requires !StartsWith(rel, "./") && !StartsWith(rel, "/")
    ensures StripLeadingSlash(RemoveFirst(baseURL + rel, baseURL)) == rel
  {
    RemovePrefix(baseURL, rel);
  }

  lemma DottedRelative(baseURL: string, rel: string)
    ensures StripLeadingSlash(RemoveFirst(baseURL + "./" + rel, baseURL)) == rel
  {
    assert baseURL + "./" + rel == baseURL + ("./" + rel);
    RemovePrefix(baseURL, "./" + rel);
    assert ("./" + rel)[2..] == rel;
  }

  /** A root found by `importGLTF` resolves its own neighbours through the modifier. */
  lemma ImportedRootServesNeighbours(fileMap: FileMap, baseURL: string, dir: string, name: string, blob: nat, rel: string)
    requires LastRoot(fileMap).Some? && fileMap[LastRoot(fileMap).value] == (dir + name, File(name, blob))
    requires !StartsWith(rel, "./") && !StartsWith(rel, "/")
    requires Lookup(fileMap, dir + rel).Some?
    ensures ModifyURL(RootPath(dir + name, name), baseURL, fileMap, baseURL + rel, None) == BlobURL(Lookup(fileMap, dir + rel).value.blob)
  {
    RootPathIsDirectory(dir, name);
    SiblingServedFromMap(dir, baseURL, fileMap, rel, None);
  }

  /**
   * The modifier installed on the loading manager, with the object URLs it
   * has created so far (`blobURLs`, which nothing reads).
   */
  class URLModifier {
    const rootPath: string
    const baseURL: string
    const assetMap: FileMap
    var blobURLs: seq<nat>

    constructor (rootPath: string, baseURL: string, assetMap: FileMap)
      ensures this.rootPath == rootPath && this.baseURL == baseURL && this.assetMap == assetMap
      ensures blobURLs == []
    {
      this.rootPath := rootPath;
      this.baseURL := baseURL;
      this.assetMap := assetMap;
      blobURLs := [];
    }

    /** One call of the modifier; an object URL it creates is also recorded. */
    method Modify(url: string, path: Option<string>) returns (r: Location)
      modifies this
      ensures r == ModifyURL(rootPath, baseURL, assetMap, url, path)
      ensures blobURLs == old(blobURLs) + (if r.BlobURL? then [r.blob] else [])
    {
      var normalizedURL := rootPath + StripLeadingSlash(RemoveFirst(url, baseURL));
      var file := Lookup(assetMap, normalizedURL);
      if file.Some? {
        blobURLs := blobURLs + [file.value.blob];
        return BlobURL(file.value.blob);
      }
      return Address(path.GetOr("") + url);
    }
  }
}
