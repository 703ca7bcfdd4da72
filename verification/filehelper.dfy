/**
 * `fileHelper`: URL predicates, file extensions, the extension-to-mimetype
 * table, and the choice of loader for a resource or for data already in hand.
 * The loaders themselves (XHR, Image, FileReader, JSON.parse) are not part of
 * this model; the choice is returned as a value naming the loader.
 */
module FileHelper {
  import opened Wrappers
  import opened Errors
  import opened JsString

  /** A value handed to `resolveData` or `isURL`. */
  datatype Data = Text(value: string) | Blob(id: nat) | Other(id: nat)

  /** `isString`: a primitive string or a String object. */
  predicate IsString(d: Data) {
    d.Text?
  }

  /** `isBlobURL`: the first nine characters are `blob:http`. */
  function IsBlobURL(s: string): (r: bool)
    ensures r <==> StartsWith(s, "blob:http")
  {
    SubstrPrefix(s, "blob:http");
    Substr(s, 0, 9) == "blob:http"
  }

  /** `isHttpURL`: starts with `http://` or `https://`. */
  function IsHttpURL(s: string): (r: bool)
    ensures r <==> StartsWith(s, "http://") || StartsWith(s, "https://")
  {
    SubstrPrefix(s, "http://");
    SubstrPrefix(s, "https://");
    Substr(s, 0, 7) == "http://" || Substr(s, 0, 8) == "https://"
  }

  /** `isURL`: a string that is a blob or an http(s) URL; never a non-string. */
  function IsURL(d: Data): (r: bool)
    ensures !IsString(d) ==> !r
    ensures IsString(d) ==> (r <==> StartsWith(d.value, "blob:http") || StartsWith(d.value, "http://") || StartsWith(d.value, "https://"))
  {
    if !IsString(d) then false else IsBlobURL(d.value) || IsHttpURL(d.value)
  }

  /** `getExtension`: what follows the last `.`, or the whole string when there is none. */
  function GetExtension(url: string): (r: string)
    ensures '.' !in r
    ensures '.' !in url ==> r == url
    ensures '.' in url ==> |r| < |url| && url == url[..|url| - |r| - 1] + "." + r
  {
    var dot := LastIndexOf(url, '.');
    var r := Substr(url, dot + 1, |url|);
    assert r == url[dot + 1..];
    if dot >= 0 then
      assert url == url[..dot] + "." + r;
      r
    else r
  }

  /** An extension is taken after the last dot: adding a name in front changes nothing. */
  lemma ExtensionOfSuffix(name: string, ext: string)
    requires '.' !in ext
    ensures GetExtension(name + "." + ext) == ext
  {
    var url := name + "." + ext;
    assert url[|name| + 1..] == ext;
    LastIndexOfAt(url, '.', |name|);
  }

  /** The table the module starts with. */
  const DefaultMimeTypes: map<string, string> := map[
    "bin" := "application/octet-binary",
    "b3dm" := "application/octet-binary",
    "glb" := "application/octet-binary",
    "zip" := "application/octet-binary",
    "gz" := "application/octet-binary",
    "png" := "image/png",
    "jpg" := "image/jpeg",
    "jpeg" := "image/jpeg",
    "gif" := "image/gif",
    "json" := "application/json",
    "gltf" := "application/json",
    "osgjs" := "application/json",
    "txt" := "text/plain",
    "glsl" := "text/plain"
  ]

  /** The loader `requestResource` goes to. */
  datatype Request =
    | RequestWith(uri: string, responseType: string)
    | ImageFromURL(uri: string)
    | ArrayBufferFromURL(uri: string)
    | JSONFromURL(uri: string)
    | PlainRequest(uri: string)

  /**
   * What `resolveData` does: return a promise of a loader applied to the
   * data or of the data itself, or throw before returning.
   */
  datatype Resolution =
    | ImageFromData(url: string)
    | ImageFromBlob(blob: nat)
    | JSONFromData(url: string)
    | JSONFromString(data: Data)
    | ArrayBufferFromData(url: string)
    | ArrayBufferFromBlob(blob: nat)
    | PassThrough(data: Data)
    /** `createJSONFromString` of a blob: `JSON.parse` throws at once, out of `resolveData`. */
    | BlobParseError(blob: nat)

  /** The kind a mimetype names, tried in the order `requestResource` tries the words. */
  datatype Kind = Image | Binary | Json | TextKind | Unknown

  /** `mimetype.match(word)` for the four words, first match wins. */
  function RequestKind(mimetype: string): (k: Kind)
    ensures k == Image <==> Contains(mimetype, "image")
    ensures k == Binary <==> !Contains(mimetype, "image") && Contains(mimetype, "binary")
    ensures k == Json <==> !Contains(mimetype, "image") && !Contains(mimetype, "binary") && Contains(mimetype, "json")
    ensures k == TextKind ==> Contains(mimetype, "text")
    ensures k == Unknown <==> !Contains(mimetype, "image") && !Contains(mimetype, "binary") && !Contains(mimetype, "json") && !Contains(mimetype, "text")
  {
    if Contains(mimetype, "image") then Image
    else if Contains(mimetype, "binary") then Binary
    else if Contains(mimetype, "json") then Json
    else if Contains(mimetype, "text") then TextKind
    else Unknown
  }

  /** `resolveData` tests the same words, but json before binary and never text. */
  function ResolveKind(mimetype: string): (k: Kind)
    ensures k == Image <==> Contains(mimetype, "image")
    ensures k == Json <==> !Contains(mimetype, "image") && Contains(mimetype, "json")
    ensures k == Binary <==> !Contains(mimetype, "image") && !Contains(mimetype, "json") && Contains(mimetype, "binary")
  {
    if Contains(mimetype, "image") then Image
    else if Contains(mimetype, "json") then Json
    else if Contains(mimetype, "binary") then Binary
    else Unknown
  }

  /**
   * `addMimeTypeForExtension` as written: the new table and the warning it
   * logs. `mimeTypes.has(extension)` is a boolean, so comparing it with
   * `undefined` is always true; `mimeTypes.get` of a missing extension
   * prints as `undefined`.
   */
  function AddMimeTypeAsWritten(types: map<string, string>, extension: string, mimeType: string): (r: (map<string, string>, Option<string>))
    ensures r.0 == types[extension := mimeType]
    ensures r.1.Some?
    ensures extension in types ==> r.1 == OverwriteWarning(types, extension)
  {
    var has: Option<bool> := Some(extension in types);
    var known := if extension in types then types[extension] else "undefined";
    var warning := if has != None then Some("the '" + extension + "' already has a mimetype: " + known) else None;
    (types[extension := mimeType], warning)
  }

  /**
   * As written, the warning fires for every extension: it agrees with the
   * intended warning exactly when the extension already has a mimetype,
   * while the table written is the same.
   */
  lemma WarnsUnconditionally(types: map<string, string>, extension: string, mimeType: string)
    ensures AddMimeTypeAsWritten(types, extension, mimeType).1 == OverwriteWarning(types, extension) <==> extension in types
    ensures extension !in types ==> AddMimeTypeAsWritten(types, extension, mimeType).1.Some? && OverwriteWarning(types, extension).None?
  {
    var r := AddMimeTypeAsWritten(types, extension, mimeType);
    if extension !in types {
      assert r.1.Some? && OverwriteWarning(types, extension).None?;
    }
  }

  /** The warning message of `addMimeTypeForExtension`, when the extension already has a mimetype. */
  function OverwriteWarning(types: map<string, string>, extension: string): (w: Option<string>)
    ensures w.Some? <==> extension in types
  {
    if extension in types then
      Some("the '" + extension + "' already has a mimetype: " + types[extension])
    else None
  }

  /** The module's mimetype `Map`, updated in place by `addMimeTypeForExtension`. */
  class MimeRegistry {
    var types: map<string, string>

    constructor ()
      ensures types == DefaultMimeTypes
    {
      types := DefaultMimeTypes;
    }

    /** `getMimeType` */
    function GetMimeType(extension: string): (r: Option<string>)
      reads this
      ensures r.Some? <==> extension in types
      ensures r.Some? ==> r.value == types[extension]
    {
      if extension in types then Some(types[extension]) else None
    }

    /**
     * `addMimeTypeForExtension`: always overwrites. The warning is returned
     * only when an entry was there before.
     */
    method AddMimeTypeForExtension(extension: string, mimeType: string) returns (warning: Option<string>)
      modifies this
      ensures types == old(types)[extension := mimeType]
      ensures warning == OverwriteWarning(old(types), extension)
      ensures GetMimeType(extension) == Some(mimeType)
    {
      warning := OverwriteWarning(types, extension);
      types := types[extension := mimeType];
    }

    /**
     * `requestResource`: a non-empty `responseType` (its lower-cased form is
     * truthy exactly then) goes straight to the request; otherwise the
     * mimetype of the extension decides, with a plain request as fallback.
     */
    function RequestResource(uri: string, responseType: Option<string>): (r: Request)
      reads this
      ensures responseType.Some? && responseType.value != [] ==> r == RequestWith(uri, responseType.value)
      ensures (responseType.None? || responseType.value == []) && GetExtension(uri) !in types ==> r == PlainRequest(uri)
      ensures (responseType.None? || responseType.value == []) && GetExtension(uri) in types ==>
        match RequestKind(types[GetExtension(uri)])
        case Image => r == ImageFromURL(uri)
        case Binary => r == ArrayBufferFromURL(uri)
        case Json => r == JSONFromURL(uri)
        case _ => r == PlainRequest(uri)
    {
      var mimetype := GetMimeType(GetExtension(uri));
      if responseType.Some? && responseType.value != [] then RequestWith(uri, responseType.value)
      else if mimetype.None? then PlainRequest(uri)
      else match RequestKind(mimetype.value)
        case Image => ImageFromURL(uri)
        case Binary => ArrayBufferFromURL(uri)
        case Json => JSONFromURL(uri)
        case TextKind => PlainRequest(uri)
        case Unknown => PlainRequest(uri)
    }

    /**
     * `resolveData`: an image from a URL string or a blob, JSON fetched from
     * a URL or parsed from anything else, a buffer from a URL string or a
     * blob; every other case passes the data through unchanged.
     */
    function ResolveData(uri: string, data: Data): (r: Resolution)
      reads this
      ensures r.PassThrough? ==> r.data == data
      ensures GetExtension(uri) !in types ==> r == PassThrough(data)
      ensures GetExtension(uri) in types && ResolveKind(types[GetExtension(uri)]) == Image ==>
        (data.Text? ==> r == ImageFromData(data.value)) &&
        (data.Blob? ==> r == ImageFromBlob(data.id)) &&
        (data.Other? ==> r == PassThrough(data))
      ensures GetExtension(uri) in types && ResolveKind(types[GetExtension(uri)]) == Json ==>
        (IsURL(data) ==> r == JSONFromData(data.value)) &&
        (data.Blob? ==> r == BlobParseError(data.id)) &&
        (!IsURL(data) && !data.Blob? ==> r == JSONFromString(data))
      ensures GetExtension(uri) in types && ResolveKind(types[GetExtension(uri)]) == Binary ==>
        (data.Text? ==> r == ArrayBufferFromData(data.value)) &&
        (data.Blob? ==> r == ArrayBufferFromBlob(data.id)) &&
        (data.Other? ==> r == PassThrough(data))
      ensures GetExtension(uri) in types && ResolveKind(types[GetExtension(uri)]) == Unknown ==> r == PassThrough(data)
      ensures r.JSONFromData? ==> IsURL(data)
      ensures r.JSONFromString? ==> !IsURL(data) && !data.Blob? && r.data == data
      ensures r.BlobParseError? ==> data == Blob(r.blob)
      ensures data.Other? ==> r.PassThrough? || r.JSONFromString?
    {
      var mimetype := GetMimeType(GetExtension(uri));
      if mimetype.None? then PassThrough(data)
      else match ResolveKind(mimetype.value)
        case Image =>
          if IsString(data) then ImageFromData(data.value)
          else if data.Blob? then ImageFromBlob(data.id)
          else PassThrough(data)
        case Json =>
          if IsURL(data) then JSONFromData(data.value)
          else if data.Blob? then BlobParseError(data.id)
          else JSONFromString(data)
        case Binary =>
          if IsString(data) then ArrayBufferFromData(data.value)
          else if data.Blob? then ArrayBufferFromBlob(data.id)
          else PassThrough(data)
        case _ => PassThrough(data)
    }
  }

  // ----- the default table -----

  lemma ImageMime(m: string)
    requires m == "image/png" || m == "image/jpeg" || m == "image/gif"
    ensures RequestKind(m) == Image && ResolveKind(m) == Image
  {
    assert m[..5] == "image";
    ContainsAt(m, "image", 0);
  }

  /** The letters the binary mimetype lacks. */
  lemma OctetBinaryLacks(m: string)
    requires m == "application/octet-binary"
    ensures 'm' !in m && 'j' !in m
  {
    assert m == "application/" + "octet-binary";
  }

  lemma BinaryMime(m: string)
    requires m == "application/octet-binary"
    ensures RequestKind(m) == Binary && ResolveKind(m) == Binary
  {
    OctetBinaryLacks(m);
    MissingElement(m, "image", 'm');
    MissingElement(m, "json", 'j');
    assert m[18..24] == "binary";
    ContainsAt(m, "binary", 18);
  }

  /** The letters the JSON mimetype lacks. */
  lemma JsonLacks(m: string)
    requires m == "application/json"
    ensures 'm' !in m && 'b' !in m
  {
    assert m == "application/" + "json";
  }

  lemma JsonMime(m: string)
    requires m == "application/json"
    ensures RequestKind(m) == Json && ResolveKind(m) == Json
  {
    JsonLacks(m);
    MissingElement(m, "image", 'm');
    MissingElement(m, "binary", 'b');
    assert m[12..16] == "json";
    ContainsAt(m, "json", 12);
  }

  /** The letters the text mimetype lacks. */
  lemma TextLacks(m: string)
    requires m == "text/plain"
    ensures 'm' !in m && 'b' !in m && 'j' !in m
  {
    assert m == "text/" + "plain";
  }

  lemma TextMime(m: string)
    requires m == "text/plain"
    ensures RequestKind(m) == TextKind && ResolveKind(m) == Unknown
  {
    TextLacks(m);
    MissingElement(m, "image", 'm');
    MissingElement(m, "binary", 'b');
    MissingElement(m, "json", 'j');
    assert m[..4] == "text";
    ContainsAt(m, "text", 0);
  }

  /** With the default table and no `responseType`, pictures load as images. */
  lemma DefaultImages(reg: MimeRegistry, name: string, ext: string)
    requires reg.types == DefaultMimeTypes && '.' !in ext && ext in {"png", "jpg", "jpeg", "gif"}
    ensures reg.RequestResource(name + "." + ext, None) == ImageFromURL(name + "." + ext)
  {
    var m := DefaultMimeTypes[ext];
    assert m == "image/png" || m == "image/jpeg" || m == "image/gif";
    ImageMime(m);
    ExtensionOfSuffix(name, ext);
  }

  /** With the default table and no `responseType`, binary formats load as buffers. */
  lemma DefaultBuffers(reg: MimeRegistry, name: string, ext: string)
    requires reg.types == DefaultMimeTypes && '.' !in ext && ext in {"bin", "b3dm", "glb", "zip", "gz"}
    ensures reg.RequestResource(name + "." + ext, None) == ArrayBufferFromURL(name + "." + ext)
  {
    var m := DefaultMimeTypes[ext];
    assert m == "application/octet-binary";
    BinaryMime(m);
    ExtensionOfSuffix(name, ext);
  }

  /** With the default table and no `responseType`, JSON formats load through JSON. */
  lemma DefaultJson(reg: MimeRegistry, name: string, ext: string)
    requires reg.types == DefaultMimeTypes && '.' !in ext && ext in {"json", "gltf", "osgjs"}
    ensures reg.RequestResource(name + "." + ext, None) == JSONFromURL(name + "." + ext)
  {
    var m := DefaultMimeTypes[ext];
    assert m == "application/json";
    JsonMime(m);
    ExtensionOfSuffix(name, ext);
  }

  /** With the default table and no `responseType`, text and unknown extensions load as plain requests. */
  lemma DefaultPlain(reg: MimeRegistry, name: string, ext: string)
    requires reg.types == DefaultMimeTypes && '.' !in ext && (ext in {"txt", "glsl"} || ext !in DefaultMimeTypes)
    ensures reg.RequestResource(name + "." + ext, None) == PlainRequest(name + "." + ext)
  {
    ExtensionOfSuffix(name, ext);
    if ext in DefaultMimeTypes {
      var m := DefaultMimeTypes[ext];
      assert m == "text/plain";
      TextMime(m);
    }
  }

  /** With the default table, picture data becomes an image from a URL string or a blob; anything else passes through. */
  lemma DefaultResolveImages(reg: MimeRegistry, name: string, ext: string, data: Data)
    requires reg.types == DefaultMimeTypes && '.' !in ext && ext in {"png", "jpg", "jpeg", "gif"}
    ensures data.Text? ==> reg.ResolveData(name + "." + ext, data) == ImageFromData(data.value)
    ensures data.Blob? ==> reg.ResolveData(name + "." + ext, data) == ImageFromBlob(data.id)
    ensures data.Other? ==> reg.ResolveData(name + "." + ext, data) == PassThrough(data)
  {
    var m := DefaultMimeTypes[ext];
    assert m == "image/png" || m == "image/jpeg" || m == "image/gif";
    ImageMime(m);
    ExtensionOfSuffix(name, ext);
  }

  /** With the default table, binary data becomes a buffer from a URL string or a blob; a buffer already in hand passes through. */
  lemma DefaultResolveBuffers(reg: MimeRegistry, name: string, ext: string, data: Data)
    requires reg.types == DefaultMimeTypes && '.' !in ext && ext in {"bin", "b3dm", "glb", "zip", "gz"}
    ensures data.Text? ==> reg.ResolveData(name + "." + ext, data) == ArrayBufferFromData(data.value)
    ensures data.Blob? ==> reg.ResolveData(name + "." + ext, data) == ArrayBufferFromBlob(data.id)
    ensures data.Other? ==> reg.ResolveData(name + "." + ext, data) == PassThrough(data)
  {
    var m := DefaultMimeTypes[ext];
    assert m == "application/octet-binary";
    BinaryMime(m);
    ExtensionOfSuffix(name, ext);
  }

  /** With the default table, JSON is fetched from a URL, a blob makes `JSON.parse` throw, and anything else is parsed. */
  lemma DefaultResolveJson(reg: MimeRegistry, name: string, ext: string, data: Data)
    requires reg.types == DefaultMimeTypes && '.' !in ext && ext in {"json", "gltf", "osgjs"}
    ensures IsURL(data) ==> reg.ResolveData(name + "." + ext, data) == JSONFromData(data.value)
    ensures data.Blob? ==> reg.ResolveData(name + "." + ext, data) == BlobParseError(data.id)
    ensures !IsURL(data) && !data.Blob? ==> reg.ResolveData(name + "." + ext, data) == JSONFromString(data)
  {
    var m := DefaultMimeTypes[ext];
    assert m == "application/json";
    JsonMime(m);
    ExtensionOfSuffix(name, ext);
  }

  /** With the default table, text and unknown extensions pass every kind of data through, a blob included. */
  lemma DefaultResolvePlain(reg: MimeRegistry, name: string, ext: string, data: Data)
    requires reg.types == DefaultMimeTypes && '.' !in ext && (ext in {"txt", "glsl"} || ext !in DefaultMimeTypes)
    ensures reg.ResolveData(name + "." + ext, data) == PassThrough(data)
  {
    ExtensionOfSuffix(name, ext);
    if ext in DefaultMimeTypes {
      var m := DefaultMimeTypes[ext];
      assert m == "text/plain";
      TextMime(m);
    }
  }

  /** A file-name-to-data object whose values `resolveFilesMap` replaces in place. */
  class FilesMap {
    var entries: map<string, Data>

    constructor (entries: map<string, Data>)
      ensures this.entries == entries
    {
      this.entries := entries;
    }

    /**
     * `resolveFilesMap`: starts `resolveData` for every file name and, once
     * all have settled, returns the same object with each value replaced by
     * what its resolution produced. `settle` stands for what each loader
     * eventually delivers; the order the promises settle in does not matter,
     * as each writes its own key. A `resolveData` that throws ends the loop
     * with that error; the files started before it, in the object's key
     * order, still receive their values.
     */
    method ResolveFilesMap(reg: MimeRegistry, settle: Resolution -> Data) returns (r: Result<FilesMap, Error>)
      modifies this
      ensures entries.Keys == old(entries).Keys
      ensures r.Failure? <==> exists k :: k in old(entries) && reg.ResolveData(k, old(entries)[k]).BlobParseError?
      ensures r.Failure? ==> r.error == BlobNotJSON
      ensures r.Failure? ==>
        forall k :: k in entries ==> entries[k] == old(entries)[k] || entries[k] == settle(reg.ResolveData(k, old(entries)[k]))
      ensures r.Success? ==> r.value == this
      ensures r.Success? ==> forall k :: k in entries ==> entries[k] == settle(reg.ResolveData(k, old(entries)[k]))
    {
      var pending := entries.Keys;
      ghost var original := entries;
      while pending != {}
        invariant pending <= original.Keys == entries.Keys
        invariant forall k :: k in entries ==> entries[k] == if k in pending then original[k] else settle(reg.ResolveData(k, original[k]))
        invariant forall k :: k in original && k !in pending ==> !reg.ResolveData(k, original[k]).BlobParseError?
        decreases |pending|
      {
        var filename :| filename in pending;
        var data := entries[filename];
        var promise := reg.ResolveData(filename, data);
        if promise.BlobParseError? {
          assert filename in original && reg.ResolveData(filename, original[filename]).BlobParseError?;
          return Failure(BlobNotJSON);
        }
        entries := entries[filename := settle(promise)];
        pending := pending - {filename};
      }
      assert forall k :: k in original ==> !reg.ResolveData(k, original[k]).BlobParseError?;
      return Success(this);
    }
  }
}
