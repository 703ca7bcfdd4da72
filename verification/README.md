# three-viewer core, modelled in Dafny

This project models the logic at the core of three-viewer, a browser glTF viewer
that renders models with a physically based material lit by prefiltered
environment packages. Everything here is a Dafny model of that logic, with
proofs about it:

- **Environment packages**:
  - the planar-to-interleaved RGBA8 gather (`deinterleaveImage4`);
  - the cube map decoder's walk over mip levels and faces, and the arrangement of level 0 as the faces and of later levels as mipmaps;
  - the panorama decoder and the BRDF lookup table decoder;
  - the gzip magic test in front of all three;
  - the manifest lookup (`getTextures`, `getImage`) and the steps of `Environment.init`: format choice, LOD range, size uniforms, lookup table cache, background and sunlight.
- **An encoder for the packed cube map layout** (`CubeMapPacking`), with the proof that the decoder returns every face of every level as packed.
- **The shader preprocessor**: `#preImport <name>` expansion over a chunk registry, and `getPBRShader`.
- **The define-table composer** of the viewer: `setDefinesFromGUI` and `reCompileShader`.
- **The material**: the define seeding and uniform copying of `PBRMaterial`.
- **The asset utilities**:
  - `fileHelper`: URL predicates, extensions, the mimetype table and loader dispatch;
  - `Loader`: root file selection and URL rewriting;
  - `Signal`: the listener list;
  - `AssetLibrary`: the load queue.

The modules follow the source files, one module per file:

| module | source |
|---|---|
| `PlanarImage` | `deinterleaveImage4` |
| `EnvironmentCubeMap` | `EnvironmentCubeMap.js` |
| `EnvironmentPanorama` | `EnvironmentPanorama.js` |
| `IntegrateBRDFMap` | `IntegrateBRDFMap.js` |
| `Zlib` | `zlib.js` |
| `Environment` | `Environment.js` |
| `ShaderProgram` | `Program.js` |
| `ModelViewer` | `ModelViewer.js` |
| `PBR` | `PBRMaterial.js` |
| `FileHelper` | `fileHelper.js` |
| `Loader` | `Loader.js` |
| `Signals` | `Signal.js` |
| `Assets` | `AssetLibrary.js` |

Shared helper modules:

- `Wrappers`: Option, Result and Outcome.
- `Errors`: the exceptions the code throws.
- `JsString`: `substr`, `indexOf`, `lastIndexOf`, `replace` with a string pattern, unanchored matching and `toUpperCase`.
- `PowerOfTwo`: 2^k and integer log2.
- `Textures`: records of the THREE texture fields the code sets.
- `ShaderDefines`: the define table object.

How the model is written:

- **Imperative code is modelled imperatively.** Each method is proved against a specification function, and the properties are proved about that function. This covers:
  - the gather loop over an `array`;
  - the level and face loop;
  - the classes whose fields the code updates: the decoders, `Environment`, `PBRMaterial`, the define table, `Signal`, `AssetLibrary`, the mimetype registry, the files map and the URL modifier;
  - the viewer's composer.
- **Pure code is modelled as functions and lemmas**: the preprocessor, the lookup table decoder, the gzip test, the URL predicates and the dispatch choice.
- **Exceptions** the code would throw are `Failure` results naming the JavaScript error.

Where the written description of the viewer and its code disagree, the model follows the code:

- The BRDF lookup table is cached per `Environment` instance, not once per process. The viewer creates a new `Environment` for every package it loads, so the table is read again on every switch.
- The table is loaded on mobile devices too. Only the material leaves it unused there.
- A manifest texture carries its file, width and limit size in `images[0]`, not on the texture itself (`getImage`).
- The composer rewrites the material's define table in place and returns the same object. It is not a pure function from an old table to a new one.
- The comment above `resolveData` (fileHelper.js:104-115) says a `.txt` blob is read into a string through `FileReader`. The code has no text branch, so every value for a text extension, a blob included, passes through unchanged (`DefaultResolvePlain`).
- The same comment says a `.json` blob is read through `FileReader` and then parsed. The code hands the blob straight to `createJSONFromString`, whose `JSON.parse` of the text `[object Blob]` throws a SyntaxError out of `resolveData` (`BlobParseError`), and so out of `resolveFilesMap`.

## Model

| member | source | states |
|---|---|---|
| PowerOfTwo.Pow2 | src/modules/environment/EnvironmentCubeMap.js:36 | `Math.pow(2, k)` on the sizes used is a positive integer |
| PowerOfTwo.Log2Pow2 | src/modules/environment/EnvironmentCubeMap.js:30 | `Math.log(size) / Math.LN2` of a power of two 2^k is k |
| PlanarImage.Gathered | src/modules/environment/EnvironmentCubeMap.js:17-22 | the first `count` pixels occupy exactly four bytes each |
| PlanarImage.GatheredAt | src/modules/environment/EnvironmentCubeMap.js:17-22 | channel c of pixel i is written at position 4i + c |
| PlanarImage.DeinterleavedAt | src/modules/environment/EnvironmentCubeMap.js:12-23 | after the gather dst[4i + c] is src[i + c·n] (0 past the end of src) and every position from 4n on keeps its old byte |
| PlanarImage.Zeros | src/modules/environment/EnvironmentCubeMap.js:50 | a new Uint8Array of n bytes holds n zeros |
| PlanarImage.PlanarAt | src/modules/environment/EnvironmentCubeMap.js:17-22 | in the planar layout channel c of pixel i sits at i + c·n |
| PlanarImage.UnpackPlanar | src/modules/environment/EnvironmentCubeMap.js:12-23 | de-interleaving a planar block recovers the interleaved RGBA image it was packed from |
| PlanarImage.PackUnpacked | src/modules/environment/EnvironmentCubeMap.js:12-23 | packing the de-interleaved bytes gives back the planar block: the gather is a bijection on 4n bytes |
| PlanarImage.DeinterleaveImage4 | src/modules/environment/EnvironmentCubeMap.js:12-23 | the in-place loop leaves dst equal to the gathered pixels laid over its old content, writes past its end dropped |
| EnvironmentCubeMap.NumLevelsFrom | src/modules/environment/EnvironmentCubeMap.js:35-38 | the level loop runs on while the next level starts inside the buffer, and stops after level L at the latest |
| EnvironmentCubeMap.NumLevels | src/modules/environment/EnvironmentCubeMap.js:30-38 | at most L + 1 levels (`i <= maxLevel`) are started |
| EnvironmentCubeMap.Levels | src/modules/environment/EnvironmentCubeMap.js:39-58 | after k levels every one of the six faces holds exactly k images; before the first level no face entry exists |
| EnvironmentCubeMap.DecodedFaces | src/modules/environment/EnvironmentCubeMap.js:26-59 | the collected chains are six, or none when no level starts inside the buffer |
| EnvironmentCubeMap.LevelOffsetClosedForm | src/modules/environment/EnvironmentCubeMap.js:35-58 | level k starts at byte 8·(4^(L+1) − 4^(L+1−k)): six faces of side²·4 bytes per earlier level |
| EnvironmentCubeMap.LevelOffsetIncreasing | src/modules/environment/EnvironmentCubeMap.js:46-57 | the cursor only moves forward: later levels start strictly later |
| EnvironmentCubeMap.TruncatedIff | src/modules/environment/EnvironmentCubeMap.js:38-48 | a face view runs past the buffer (RangeError) exactly when the buffer ends strictly inside the full chain and not on a level boundary |
| EnvironmentCubeMap.ExactLevels | src/modules/environment/EnvironmentCubeMap.js:35-58 | a buffer holding exactly the first k levels yields k levels and no error |
| EnvironmentCubeMap.AssembledLayout | src/modules/environment/EnvironmentCubeMap.js:100-113 | the integrated texture takes chain f's level 0 as face f at full size and level m as face f of mipmap m − 1 at size 2^(L−m) |
| EnvironmentCubeMap.DecodedChains | src/modules/environment/EnvironmentCubeMap.js:35-58 | the chains are six of equal length, one image per level read, each the de-interleaved block of that face |
| EnvironmentCubeMap.DecodedLayout | src/modules/environment/EnvironmentCubeMap.js:25-115 | a successful decode has 1 to L + 1 levels, six full-size level-0 faces, the halving further levels as mipmaps, the option filters or the defaults, and LogLuv encoding |
| EnvironmentCubeMap.DecodeInflated | src/modules/environment/EnvironmentCubeMap.js:26-28 | plain bytes are decoded as they are, gzip bytes after decompression, and gzip bytes without the library fail on the undefined buffer |
| EnvironmentCubeMap.ReadFace | src/modules/environment/EnvironmentCubeMap.js:46-55 | one face view gathered into a fresh zeroed array is that face's de-interleaved block |
| EnvironmentCubeMap.ReadLevel | src/modules/environment/EnvironmentCubeMap.js:39-58 | the face loop fails with a RangeError exactly when the level ends past the buffer; otherwise each face chain gains that level's image |
| EnvironmentCubeMap.LevelsStep | src/modules/environment/EnvironmentCubeMap.js:39-58 | reading one more level extends each chain by that level's face and changes nothing before it |
| EnvironmentCubeMap.ReadPackedLevels | src/modules/environment/EnvironmentCubeMap.js:30-59 | the level loop fails exactly on a truncated buffer and otherwise collects exactly the decoded chains |
| EnvironmentCubeMap.LevelFaces | src/modules/environment/EnvironmentCubeMap.js:87-95 | one data texture per face holding that level's image at the level's side |
| EnvironmentCubeMap.Integrate | src/modules/environment/EnvironmentCubeMap.js:107-113 | the nested loop leaves level 0's faces as the images and every further level, once, as the mipmaps |
| EnvironmentCubeMap.CreateRGBA8Packed | src/modules/environment/EnvironmentCubeMap.js:67-115 | no level gives the TypeError of `packedImages[0].length`; otherwise one cube texture per level and the integrated texture built from them |
| EnvironmentCubeMap.CubeMapEnv.constructor | src/modules/environment/EnvironmentCubeMap.js:5-9 | keeps data, size and options; nothing decoded yet |
| EnvironmentCubeMap.CubeMapEnv.LoadPacked | src/modules/environment/EnvironmentCubeMap.js:25-65 | succeeds exactly when the decode does, leaving its texture; a failure leaves the texture as it was |
| EnvironmentPanorama.DecodedPixels | src/modules/environment/EnvironmentPanorama.js:17-44 | the gathered buffer is as long as the input; channel c of pixel i holds input byte i + c·size² (0 past the end); bytes beyond the size² pixels stay 0 |
| EnvironmentPanorama.DecodePlanar | src/modules/environment/EnvironmentPanorama.js:30-51 | an image stored as four planar blocks of exactly size² bytes decodes to the interleaved image, LogLuv, flipped, linear filters |
| EnvironmentPanorama.DecodeInflated | src/modules/environment/EnvironmentPanorama.js:31-33 | gzip-framed data without the library fails on the undefined buffer; with it, the result is the decode of the decompressed bytes, when those do not start with the magic again |
| EnvironmentPanorama.PanoramaEnv.constructor | src/modules/environment/EnvironmentPanorama.js:5-10 | keeps data, size and options; the texture starts null |
| EnvironmentPanorama.PanoramaEnv.LoadPacked | src/modules/environment/EnvironmentPanorama.js:30-54 | succeeds exactly when the decode does and then holds its texture; a failure leaves the texture as it was |
| IntegrateBRDFMap.LoadPacked | src/modules/environment/IntegrateBRDFMap.js:10-23 | the texture is size×size; the only error is the RangeError of a view past the buffer |
| IntegrateBRDFMap.LoadPackedPrefix | src/modules/environment/IntegrateBRDFMap.js:15-18 | the error happens exactly when the bytes are fewer than 4·size²; otherwise the table is their first 4·size² bytes in stored order |
| IntegrateBRDFMap.LoadPackedStored | src/modules/environment/IntegrateBRDFMap.js:10-23 | an uncompressed table followed by anything decodes to the table itself |
| IntegrateBRDFMap.LoadPackedWithoutLibrary | src/modules/environment/IntegrateBRDFMap.js:13-17 | without the library a gzip-framed table gives an empty texture, not an error |
| Zlib.IsGunzipBufferMeans | src/modules/environment/zlib.js:3-6 | the magic test holds exactly when the first two bytes are 0x1F and 0x8B; a shorter buffer never passes |
| Zlib.Gunzip | src/modules/environment/zlib.js:8-19 | without the library the result is undefined; with it, the library's output |
| Zlib.Inflate | src/modules/environment/EnvironmentCubeMap.js:27-28 | a buffer without the magic is kept; one with it is handed to gunzip |
| Zlib.InflateUndefinedOnlyForGzip | src/modules/environment/zlib.js:3-19 | only a gzip-framed buffer is lost to a missing library, and a plain one is never changed |
| Environment.GetTextures | src/modules/environment/Environment.js:39-45 | exactly the manifest textures whose type, encoding and format all match, none added |
| Environment.GetTexturesAppend | src/modules/environment/Environment.js:41-43 | the filter keeps manifest order: it distributes over concatenation |
| Environment.FirstMatchFrom | src/modules/environment/Environment.js:41-43 | the first matching position at or after `from`, with no match before it; none when nothing matches |
| Environment.FirstMatch | src/modules/environment/Environment.js:31-35 | the position `results[0]` comes from: a match with no earlier match |
| Environment.FirstResult | src/modules/environment/Environment.js:31-35 | `results` is empty exactly when nothing matches, and otherwise `results[0]` is the texture at the first matching position |
| Environment.FirstMatchUnique | src/modules/environment/Environment.js:41-43 | a matching position with no match before it is the first match |
| Environment.ImageOf | src/modules/environment/Environment.js:30-36 | undefined exactly when nothing matches or the first match has no images and a falsy `limitSize`; a first match with images always gives `images[0]`, carrying the texture's truthy `limitSize`; the error happens exactly when a truthy `limitSize` is written into an empty `images` |
| Environment.CopiedLimit | src/modules/environment/Environment.js:34 | the write changes no texture's type, encoding, format, limit size or image count |
| Environment.ImageOfAfterCopy | src/modules/environment/Environment.js:34 | the write `getImage` makes is invisible to every later `getImage`, whatever it asks for |
| Environment.CopiedLimitSizes | src/modules/environment/Environment.js:34 | the write keeps every size a power of two |
| Environment.BackgroundAfterCopies | src/modules/environment/Environment.js:59-85 | the background lookup sees the manifest as read, after the specular and the lookup-table writes |
| Environment.ReflectionFormat | src/modules/environment/Environment.js:56-57 | 'cubemap' exactly with texture-LOD support, 'panorama' exactly without |
| Environment.LodRange | src/modules/environment/Environment.js:69-72 | nbLod is log2 of the map size; maxLod is NaN for an absent limit, Infinity for 0, the number of halvings from the map size down to a limit no larger than the map, and minus the number of doublings up to a larger limit |
| Environment.LodRangeHalvings | src/modules/environment/Environment.js:70-71 | for a limit no larger than the map, limit · 2^maxLod is the map size |
| Environment.LodRangeDoublings | src/modules/environment/Environment.js:70-71 | for a limit larger than the map, map size · 2^(−maxLod) is the limit, with maxLod negative |
| Environment.LodRangeExample | src/modules/environment/Environment.js:69-72 | a 256 map prefiltered down to 8 gives the range [8, 5] |
| Environment.LodRangeMatchesMipChain | src/modules/environment/Environment.js:64-72 | a cube map file holding exactly the levels from the map size down to the limit decodes with maxLod mipmaps |
| Environment.EnvironmentSize | src/modules/environment/Environment.js:73 | [mapSize, mapSize] for a cube map, [mapSize, mapSize / 2] for a panorama |
| Environment.SunlightOf | src/modules/environment/Environment.js:101-107 | the sunlight keeps the light's colour and luminosity and sits opposite its direction |
| Environment.ImageOfSizes | src/modules/environment/Environment.js:30-36 | an entry taken from a manifest of power-of-two sizes has a power-of-two width and limit |
| Environment.DecodeMap | src/modules/environment/Environment.js:63-68 | a cube map decoder exactly with LOD support, a panorama otherwise, succeeding exactly when that decoder does |
| Environment.LoadedTexture | src/modules/environment/Environment.js:68 | the texture of whichever decoder is installed, of that decoder's kind |
| Environment.Manifest.constructor | src/modules/environment/Environment.js:26 | the parsed manifest's textures, lights, harmonics and options |
| Environment.Environment.constructor | src/modules/environment/Environment.js:12-21 | no manifest, no decoders and no lookup table yet |
| Environment.Environment.GetImage | src/modules/environment/Environment.js:30-36 | returns what `ImageOf` says on the manifest as it was and leaves it as `CopiedLimit` says |
| Environment.Environment.LoadReflection | src/modules/environment/Environment.js:56-73 | succeeds exactly when the reflection step does, installing its decoder and uniforms; a missing entry is a TypeError |
| Environment.Environment.LoadLUT | src/modules/environment/Environment.js:75-82 | the table is loaded, from the fixed path, only while none is cached |
| Environment.Environment.LoadBackground | src/modules/environment/Environment.js:84-94 | the ('background', 'luv', 'cubemap') entry decoded with linear filters, its size twice as the uniform |
| Environment.Environment.Init | src/modules/environment/Environment.js:52-110 | the steps run in program order and the first error ends `init`; on success every decoder, uniform and the sunlight are those the steps compute |
| Environment.Environment.InitRest | src/modules/environment/Environment.js:75-108 | the lookup table, then the background, harmonics and sunlight, each as its step computes |
| Environment.Environment.InitTail | src/modules/environment/Environment.js:84-108 | the background, harmonics and the first light's sunlight; an empty `Lights` array is a TypeError |
| Environment.Environment.LoadPackage | src/modules/environment/Environment.js:23-28 | keeps the URL, reads `<url>config.json` and runs `init` on it: fails exactly as `init` does, and on success installs the decoded reflection map and its uniforms, the lookup table, the background, the harmonics and the first light's sunlight |
| ShaderProgram.RunEnd | src/js/Program.js:7 | a greedy repetition ends inside the text, at or after where it starts |
| ShaderProgram.RunEndMaximal | src/js/Program.js:7 | the greedy run covers only characters of its class and stops before one outside it, or at the end |
| ShaderProgram.NameAt | src/js/Program.js:7 | a `[\w\d./]+>` match ends after its start and inside the text |
| ShaderProgram.ImportAt | src/js/Program.js:7 | a ` +<[\w\d./]+>` match ends after its start and inside the text |
| ShaderProgram.DirectiveAt | src/js/Program.js:7 | the pattern matches only at a line start (`^` with the `m` flag) and ends inside the text |
| ShaderProgram.DirectiveSound | src/js/Program.js:7 | every match is the text of a well-formed directive (blanks, keyword, one or more spaces, a non-empty name in angle brackets) at a line start |
| ShaderProgram.MatchedPieces | src/js/Program.js:7 | the pattern matches wherever its pieces lie in order at a line start, capturing the name and ending after `>` |
| ShaderProgram.TextAt | src/js/Program.js:7 | a directive's text placed at a position puts every piece where the pattern looks for it |
| ShaderProgram.DirectiveComplete | src/js/Program.js:7 | every well-formed directive at a line start is matched, with its name and end |
| ShaderProgram.GetPBRShader | src/js/Program.js:10-17 | both sources expanded, the vertex source first; the first error thrown is the result |
| ShaderProgram.ExpandPlain | src/js/Program.js:19-28 | a stretch without directives is copied unchanged in front of the rest's expansion |
| ShaderProgram.Unchanged | src/js/Program.js:19-28 | text containing no directive comes back unchanged |
| ShaderProgram.UnknownChunk | src/js/Program.js:21-24 | the first directive, in text order, naming an unknown chunk throws "Can not resolve #preImport <name>" |
| ShaderProgram.SelfInclusionOverflows | src/js/Program.js:20-27 | a chunk that begins by including itself exhausts every depth budget (the engine's stack limit) |
| ShaderProgram.FuelMonotone | src/js/Program.js:19-28 | a larger depth budget changes nothing for an expansion that did not run out of it |
| ShaderProgram.RankedNoOverflow | src/js/Program.js:19-28 | over a registry without include cycles, a budget above the ranks of the includes never runs out |
| ShaderProgram.DirectiveShift | src/js/Program.js:7 | past its first character a text is matched alike on its own and after any prefix |
| ShaderProgram.RestPlain | src/js/Program.js:7 | after a directive's `>`, a text without directives past its first character adds none |
| ShaderProgram.SingleInclude | src/js/Program.js:19-28 | a directive line is replaced by its chunk, leading blanks included, the text after `>` is kept, and the include costs one level of depth |
| Signals.ListenerFor | src/js/Signal.js:9 | the pushed listener is made from `event`, bound to `self` when it is truthy |
| Signals.SpliceOne | src/js/Signal.js:16 | `splice(pos, 1)` removes exactly the element at `pos` (the rest keep their multiset) and nothing when `pos` is past the end |
| Signals.BindConsistent | src/js/Signal.js:7-11 | binding keeps every recorded position pointing at a listener made from its key, and records `event` at the new last position |
| Signals.BindTwice | src/js/Signal.js:7-11 | binding the same function twice pushes two equal listeners and the lookup keeps only the second position |
| Signals.BoundHasListeners | src/js/Signal.js:7-11 | after a bind `hasListeners` holds |
| Signals.BindUnbindAsWritten | src/js/Signal.js:7-18 | unbinding the function bound last, with nothing in between, restores the listeners and drops the key |
| Signals.UnknownKeyRemovesFirst | src/js/Signal.js:14-16 | as written, unbinding a key never bound splices at `undefined`, i.e. removes the first listener |
| Signals.StaleIndexKeepsListener | src/js/Signal.js:13-18 | as written, bind f, bind g, unbind f leaves g recorded at a stale position, and unbind g then removes nothing |
| Signals.SpliceIndex | src/js/Signal.js:16 | after a splice the elements past the removed one move down by one position |
| Signals.UnbindConsistent | src/js/Signal.js:13-18 | the renumbering unbind keeps every recorded position pointing at a listener of its own key |
| Signals.UnbindRemovesOwn | src/js/Signal.js:13-18 | on a consistent signal, unbinding a bound key removes exactly one listener made from it and drops only that key; an unknown key changes nothing |
| Signals.BindUnbind | src/js/Signal.js:7-18 | the renumbering unbind also undoes the bind just made |
| Signals.RenumberedScenario | src/js/Signal.js:13-18 | with renumbering, bind f, bind g, unbind f, unbind g leaves the signal empty |
| Signals.Signal.constructor | src/js/Signal.js:2-5 | no listeners and an empty lookup |
| Signals.Signal.Bind | src/js/Signal.js:7-11 | the new state is the bind step: lookup `event` to the old length, listener pushed |
| Signals.Signal.Unbind | src/js/Signal.js:13-18 | the new state is the renumbering unbind step |
| Signals.Signal.Dispatch | src/js/Signal.js:20-22 | every listener present at the start is called once, in order, with `key`; no call when there are none |
| Assets.NormalizeBase | src/js/AssetLibrary.js:7-9 | the base path always ends with `/`, and is unchanged exactly when it already did |
| Assets.NormalizeIdempotent | src/js/AssetLibrary.js:8 | normalising a normalised base path changes nothing |
| Assets.LoadStep | src/js/AssetLibrary.js:37-66 | an empty queue only completes; otherwise the entry at the counter is started when it is a Texture or a Model and reported otherwise, a texture is stored at once, and the counter and queue are unchanged |
| Assets.OnLoaded | src/js/AssetLibrary.js:68-76 | the corrected callback keeps the counter inside the queue and the queue unchanged |
| Assets.AfterAsWritten | src/js/AssetLibrary.js:68-76 | any number of as-written callbacks keeps the counter inside the queue |
| Assets.After | src/js/AssetLibrary.js:68-76 | any number of corrected callbacks keeps the counter inside the queue |
| Assets.RestartsFirst | src/js/AssetLibrary.js:68-76 | as written, a callback on a queue of two or more entries reports progress 0 and starts the first entry again |
| Assets.CounterStuck | src/js/AssetLibrary.js:68-76 | as written, the counter stays 0 after any number of callbacks |
| Assets.StuckOnFirst | src/js/AssetLibrary.js:68-76 | as written, every callback restarts the first entry and none reports completion |
| Assets.NextStarted | src/js/AssetLibrary.js:68-76 | corrected: a callback before the last entry moves the counter on and starts the next entry |
| Assets.CounterAdvances | src/js/AssetLibrary.js:68-76 | corrected: k callbacks advance the counter by k while entries remain |
| Assets.CompletesAtLast | src/js/AssetLibrary.js:69-71 | the callback of the last entry reports progress and then completion |
| Assets.LoadsInOrder | src/js/AssetLibrary.js:37-76 | corrected: from a fresh counter, `load` starts entry 0 and callback j starts entry j + 1, or reports it when its type is unsupported, without completing. A callback only follows a started entry, so past an unsupported entry no callback comes and the queue stalls there; the lemma speaks of the callbacks that do come |
| Assets.LoadsAll | src/js/AssetLibrary.js:37-76 | corrected: the callback after the last entry's load reports completion. That callback comes only when every entry is a Texture or a Model, since an unsupported entry starts no loader |
| Assets.AssetLibrary.constructor | src/js/AssetLibrary.js:7-15 | the base path defaults to `./` and is normalised; counter 0, empty queue and no assets |
| Assets.AssetLibrary.Get | src/js/AssetLibrary.js:25-27 | the stored value exactly when the key is present, `undefined` otherwise |
| Assets.AssetLibrary.Set | src/js/AssetLibrary.js:29-31 | only the asset under `key` changes, and `get(key)` returns it afterwards |
| Assets.AssetLibrary.AddLoadQueue | src/js/AssetLibrary.js:33-35 | one entry appended, its path prefixed with the base path; nothing else changes |
| Assets.AssetLibrary.Load | src/js/AssetLibrary.js:37-66 | the new state and the notices are those of the load step |
| Assets.AssetLibrary.ModelLoaded | src/js/AssetLibrary.js:62-65 | the model is stored under its key, then the corrected callback runs |
| Assets.AssetLibrary.OnAssetLoaded | src/js/AssetLibrary.js:68-76 | the new state and the notices are those of the corrected callback |
| Loader.LastRoot | src/js/Loader.js:28-33 | the chosen entry exists and its file name ends in `.gltf` or `.glb` |
| Loader.LastRootIsLast | src/js/Loader.js:28-33 | no later entry is a root (the last one wins), and nothing is chosen exactly when no entry is a root |
| Loader.RootPathAsWritten | src/js/Loader.js:31 | a path that does not contain the file name is returned unchanged |
| Loader.EarlierNameMisplacesRoot | src/js/Loader.js:31 | as written, `scene.gltf-files/scene.gltf` yields `-files/scene.gltf`, not the directory |
| Loader.RootPath | src/js/Loader.js:31 | corrected: a path ending in the name loses exactly that suffix; any other path is treated as written |
| Loader.RootPathIsDirectory | src/js/Loader.js:31 | corrected: an entry stored under directory + name yields that directory |
| Loader.RootPathAgrees | src/js/Loader.js:31 | both agree when the name occurs in the path only at its end |
| Loader.ImportGLTF | src/js/Loader.js:26-38 | no root logs the error and fails on `createObjectURL(undefined)`; otherwise the last root's blob and directory, with nothing logged; the directory is the corrected root path `RootPath` (see Findings), not the first-occurrence `replace` of line 31 |
| Loader.StripLeadingSlash | src/js/Loader.js:47 | exactly one leading `./`, or else one leading `/`, is removed; any other string is kept |
| Loader.Lookup | src/js/Loader.js:48-49 | `has` is false exactly when no entry has the key; `get` returns the file of an entry with that key |
| Loader.LookupStored | src/js/Loader.js:48-49 | with one entry per key, as in a `Map`, `get` of a stored key returns the file stored under it |
| Loader.ModifyURL | src/js/Loader.js:46-55 | a blob URL exactly when the normalised URL is a key of the map, for that entry's blob; otherwise `(path || '') + url` |
| Loader.SiblingServedFromMap | src/js/Loader.js:47-53 | a URL relative to the base, plain or with `./`, is served from the entry under root directory + relative path |
| Loader.PlainRelative | src/js/Loader.js:47 | removing the base and the leading slash from base + relative path gives the relative path |
| Loader.DottedRelative | src/js/Loader.js:47 | the same for base + `./` + relative path |
| Loader.ImportedRootServesNeighbours | src/js/Loader.js:26-55 | the root found by `importGLTF` serves its neighbours from the file map through the modifier |
| Loader.URLModifier.constructor | src/js/Loader.js:42-58 | keeps the root path, base URL and file map; no object URLs yet |
| Loader.URLModifier.Modify | src/js/Loader.js:46-55 | returns what `ModifyURL` says and records the object URL exactly when it makes one |
| CubeMapPacking.FlattenSplit | src/modules/environment/EnvironmentCubeMap.js:35-58 | the concatenated blocks split at any block boundary |
| CubeMapPacking.FlattenBlock | src/modules/environment/EnvironmentCubeMap.js:46-48 | block i lies right after the blocks before it |
| CubeMapPacking.FlattenUniform | src/modules/environment/EnvironmentCubeMap.js:46-48 | i blocks of size n take i·n bytes |
| CubeMapPacking.PackLevelFace | src/modules/environment/EnvironmentCubeMap.js:43-55 | a packed level is six face blocks, face f at f·faceBytes holding that face's planar block |
| CubeMapPacking.PackPrefix | src/modules/environment/EnvironmentCubeMap.js:56-57 | the first m packed levels take exactly the decoder's offset of level m |
| CubeMapPacking.FaceWithinLevel | src/modules/environment/EnvironmentCubeMap.js:46-48 | face f of six ends inside its level |
| CubeMapPacking.PackLevelAt | src/modules/environment/EnvironmentCubeMap.js:39-58 | level m of the packed file starts where the decoder looks for it |
| CubeMapPacking.PackFace | src/modules/environment/EnvironmentCubeMap.js:46-55 | face f of level m lies at the decoder's face offset and is that face's planar block |
| CubeMapPacking.PackLength | src/modules/environment/EnvironmentCubeMap.js:35-38 | the packed file of k levels is exactly as long as the decoder's offset of level k |
| CubeMapPacking.DecodePack | src/modules/environment/EnvironmentCubeMap.js:25-115 | decoding a packed file returns every face of every level as packed: level 0 as the faces, each further level as a mipmap |
| CubeMapPacking.LoadPack | src/modules/environment/EnvironmentCubeMap.js:25-65 | the same through the gzip check: a compressed file that decompresses to the packed levels, or a plain one without the magic, restores them |
| ShaderDefines.Defines.constructor | src/js/PBRMaterial.js:13 | a fresh define table holding a copy of the given entries |
| PBR.SetUniformValue | src/js/PBRMaterial.js:82 | `uniforms[k].value = v` succeeds exactly when slot k exists and otherwise throws the missing-uniform TypeError |
| PBR.EnvSetting | src/js/PBRMaterial.js:58-75 | corrected: the harmonics always; with texture LOD the LOD range, size and reflection texture (as uniform and as `envMap`); `MOBILE` on mobile, the BRDF table otherwise; no slot lost |
| PBR.SGWorkflow | src/js/PBRMaterial.js:95-109 | `SPECULAR_GLOSSINESS` is set, and the map defines exactly when their maps are present; no other define changes |
| PBR.CopiedStep | src/js/PBRMaterial.js:79-90 | one more present key updates its slot from the source |
| PBR.CopiedSkip | src/js/PBRMaterial.js:80 | a key whose source value is undefined or null changes nothing |
| PBR.PickedStep | src/js/PBRMaterial.js:81 | one more present map key is copied onto the material |
| PBR.CopiedOutside | src/js/PBRMaterial.js:79-90 | a slot not on the list keeps its value |
| PBR.SyncKeysState | src/js/PBRMaterial.js:79-90 | a sync list that goes through fills exactly the listed slots with present source values, copies maps onto the material, and leaves the defines |
| PBR.SyncKeysOutcome | src/js/PBRMaterial.js:79-90 | a sync list throws exactly when a listed key with a present value has no slot, and only the missing-uniform error |
| PBR.DisplacementMapIgnored | src/const/defaultParams.js:3-13 | as written, the misspelt `displacementmap` key leaves the displacement map slot as it was |
| PBR.DisplacementMapSynced | src/js/PBRMaterial.js:79-84 | corrected: a present displacement map lands in its slot and on the material |
| PBR.ColorlessSourceThrows | src/js/PBRMaterial.js:92 | as written, a source without a color reaches `new Color`, never imported, and throws a ReferenceError |
| PBR.EmptySourceThrows | src/js/PBRMaterial.js:77-93 | as written, a source material with no properties at all always throws |
| PBR.DiffuseDefaultsToWhite | src/js/PBRMaterial.js:92 | corrected: with all slots present the sync succeeds and the diffuse slot holds the source color, or white without one |
| PBR.LodBranchThrows | src/js/PBRMaterial.js:60-66 | as written, the texture-LOD branch reads `cubeMapEnv`, which no environment has, and always throws |
| PBR.EnvSettingAgrees | src/js/PBRMaterial.js:58-75 | without texture LOD the as-written and corrected steps agree |
| PBR.ConstructDefines | src/js/PBRMaterial.js:7-56 | a built material's defines are the defaults, `MOBILE` on mobile, and the specular-glossiness keys for such sources, nothing else |
| PBR.ConstructSetup | src/js/PBRMaterial.js:17-45 | corrected: a built material has the source's `normalMapType`, the expanded shader pair passed in the options, and `lights` on |
| PBR.RawShaderKeepsDirective | src/js/PBRMaterial.js:43-44 | as written: when the raw vertex source opens with a `#preImport` line, `getPBRShader` replaces it by the chunk, but the material's vertex shader still starts with the directive |
| PBR.PBRMaterial.constructor | src/js/PBRMaterial.js:13-37 | a fresh copy of the default defines, the source's `normalMapType`, the merged uniforms plus the two extra slots, and no shaders or lights assigned yet |
| PBR.Mesh.constructor | src/js/PBRMaterial.js:7-8 | a mesh holding the glTF material the constructor reads, with no render hook yet |
| PBR.PBRMaterial.SyncEnvSetting | src/js/PBRMaterial.js:58-75 | the new state is the corrected environment step, with `needsUpdate` unchanged |
| PBR.PBRMaterial.SyncList | src/js/PBRMaterial.js:79-90 | the `forEach` loop ends with the sync list's state, or its first error, with `needsUpdate` unchanged |
| PBR.PBRMaterial.SyncParam | src/js/PBRMaterial.js:77-93 | the new state, or the error, is that of the corrected parameter sync, with `needsUpdate` unchanged |
| PBR.PBRMaterial.InitSGWorkflow | src/js/PBRMaterial.js:95-109 | the new state is the specular-glossiness step, with `needsUpdate` unchanged |
| PBR.SyncFailureStays | src/js/PBRMaterial.js:79-90 | a sync list that failed on a prefix fails with the same error on the whole list |
| PBR.Create | src/js/PBRMaterial.js:7-56 | the constructor's steps in order: succeeds exactly when they do, with their whole state (uniforms, properties, defines, the source's `normalMapType`, the expanded shader pair from the options as corrected in Findings, `lights` on), `needsUpdate` set and a fresh define table; the mesh's `onBeforeRender` normal-matrix hook is installed exactly when construction succeeds |
| FileHelper.IsBlobURL | src/modules/environment/fileHelper.js:9-11 | true exactly when the string starts with `blob:http` |
| FileHelper.IsHttpURL | src/modules/environment/fileHelper.js:13-15 | true exactly when the string starts with `http://` or `https://` |
| FileHelper.IsURL | src/modules/environment/fileHelper.js:17-21 | never for a non-string; for a string, exactly a blob or http(s) URL |
| FileHelper.GetExtension | src/modules/environment/fileHelper.js:165-167 | the result holds no dot; it is the whole string when there is no dot, and otherwise what follows the last dot |
| FileHelper.ExtensionOfSuffix | src/modules/environment/fileHelper.js:165-167 | the extension of name + `.` + ext is ext, whatever dots the name holds |
| FileHelper.RequestKind | src/modules/environment/fileHelper.js:94-99 | image, then binary, then json, then text, each exactly when its word is the first of the four the mimetype contains |
| FileHelper.ResolveKind | src/modules/environment/fileHelper.js:121-131 | image, then json, then binary (json tried before binary), each exactly when it is the first of those words contained |
| FileHelper.AddMimeTypeAsWritten | src/modules/environment/fileHelper.js:169-174 | as written: the entry is always overwritten and a warning is always logged, which agrees with the intended warning whenever the extension was already present |
| FileHelper.WarnsUnconditionally | src/modules/environment/fileHelper.js:170-172 | as written, the warning agrees with the intended one exactly when the extension is present; for an absent extension the code warns and the intended version does not |
| FileHelper.OverwriteWarning | src/modules/environment/fileHelper.js:170-172 | corrected: a warning exactly when the extension already has a mimetype |
| FileHelper.MimeRegistry.constructor | src/modules/environment/fileHelper.js:177-192 | the registry starts with the fourteen default entries |
| FileHelper.MimeRegistry.GetMimeType | src/modules/environment/fileHelper.js:161-163 | the stored mimetype exactly when the extension is present, `undefined` otherwise |
| FileHelper.MimeRegistry.AddMimeTypeForExtension | src/modules/environment/fileHelper.js:169-174 | always overwrites the entry, changing no other, and warns (corrected) exactly when one was there |
| FileHelper.MimeRegistry.RequestResource | src/modules/environment/fileHelper.js:87-102 | a non-empty responseType goes straight to the request; otherwise the kind of the extension's mimetype picks image, buffer or JSON loading, with a plain request for text, unknown kinds and unknown extensions |
| FileHelper.MimeRegistry.ResolveData | src/modules/environment/fileHelper.js:116-141 | an unknown extension passes the data through. An image mimetype loads an image from a string or a blob. A JSON mimetype fetches from a URL, throws on a blob (`JSON.parse` of `[object Blob]`), and parses anything else. A binary mimetype loads a buffer from a string or a blob. Every other case passes the data through unchanged |
| FileHelper.ImageMime | src/modules/environment/fileHelper.js:183-186 | the default image mimetypes are of the image kind for both dispatchers |
| FileHelper.BinaryMime | src/modules/environment/fileHelper.js:177-181 | `application/octet-binary` is of the binary kind for both dispatchers |
| FileHelper.JsonMime | src/modules/environment/fileHelper.js:188-190 | `application/json` is of the json kind for both dispatchers |
| FileHelper.TextMime | src/modules/environment/fileHelper.js:191-192 | `text/plain` is text for `requestResource` and unknown for `resolveData` |
| FileHelper.DefaultImages | src/modules/environment/fileHelper.js:87-102 | with the default table, `.png`, `.jpg`, `.jpeg` and `.gif` files load as images |
| FileHelper.DefaultBuffers | src/modules/environment/fileHelper.js:87-102 | with the default table, `.bin`, `.b3dm`, `.glb`, `.zip` and `.gz` files load as array buffers |
| FileHelper.DefaultJson | src/modules/environment/fileHelper.js:87-102 | with the default table, `.json`, `.gltf` and `.osgjs` files load as JSON |
| FileHelper.DefaultPlain | src/modules/environment/fileHelper.js:87-102 | with the default table, text and unknown extensions are plain requests |
| FileHelper.DefaultResolveImages | src/modules/environment/fileHelper.js:116-141 | with the default table, picture data becomes an image from a URL string or a blob, and an image in hand passes through |
| FileHelper.DefaultResolveBuffers | src/modules/environment/fileHelper.js:116-141 | with the default table, binary data becomes a buffer from a URL string or a blob, and a buffer in hand passes through |
| FileHelper.DefaultResolveJson | src/modules/environment/fileHelper.js:116-141 | with the default table, JSON is fetched from a URL, a blob makes `JSON.parse` throw, and anything else is parsed |
| FileHelper.DefaultResolvePlain | src/modules/environment/fileHelper.js:116-141 | with the default table, text and unknown extensions pass every value through, a blob included |
| FileHelper.FilesMap.constructor | src/modules/environment/fileHelper.js:143 | holds the given file-name-to-data entries |
| FileHelper.FilesMap.ResolveFilesMap | src/modules/environment/fileHelper.js:143-159 | throws exactly when resolving some file throws, and then each value is either its old one or its settled one; otherwise returns the same object, with the same keys, each value replaced by what resolving that file delivered |
| ModelViewer.CleanedBy | src/js/ModelViewer.js:323-325 | the unanchored pattern matches every key containing one of its words |
| ModelViewer.NotCleaned | src/js/ModelViewer.js:323-325 | a key containing none of the words is not matched |
| ModelViewer.SelfCleaned | src/js/ModelViewer.js:323 | each word of the pattern matches itself |
| ModelViewer.PrefixCleaned | src/js/ModelViewer.js:323 | every key starting with an axis prefix is matched, so cleanup removes every old equation key |
| ModelViewer.InsertedCleaned | src/js/ModelViewer.js:323-337 | every key the reset writes is one the cleanup deletes |
| ModelViewer.AxisWrites | src/js/ModelViewer.js:333-337 | the five equation writes, one after the other, add one key per axis to the table |
| ModelViewer.ComposeKeys | src/js/ModelViewer.js:320-339 | the new table holds exactly the unmatched old keys, with their old values, and the reset keys with value 1 |
| ModelViewer.MatchedDropped | src/js/ModelViewer.js:324-328 | a matched old key is gone unless the reset writes it again |
| ModelViewer.Toggles | src/js/ModelViewer.js:330-332 | each toggle's define is present exactly when the toggle is on, with value 1 |
| ModelViewer.OneKeyPerAxis | src/js/ModelViewer.js:323-337 | after a composition each equation axis has exactly one key with its prefix: the prefix and the upper-cased selected option |
| ModelViewer.ComposeIdempotent | src/js/ModelViewer.js:320-339 | composing a table twice with the same GUI state gives what composing once gives |
| ModelViewer.DefaultLacksSpecularAO | src/const/defaultParams.js:52-59 | the default table has no ambient-occlusion key, so the first composition changes it although the GUI shows the first option of every list |
| ModelViewer.InitialSpecularAOKey | src/js/ModelViewer.js:225 | the first composition adds `SPECULAR_AO_SEBLAGARDE` |
| ModelViewer.MaterialKeysKept | src/js/ModelViewer.js:323-328 | `MOBILE` and the specular-glossiness keys a material sets are never deleted by a composition |
| ModelViewer.MaterialKeyUnmatched | src/js/ModelViewer.js:323 | none of those keys is matched by the pattern |
| ModelViewer.UnmatchedKept | src/js/ModelViewer.js:324-328 | a key the pattern does not match keeps its value |
| ModelViewer.LetterKeyDropped | src/js/ModelViewer.js:323-328 | the `F_*` and `V_*` alternatives delete any key with an F or a V that the reset does not write back |
| ModelViewer.NotInsertedByHead | src/js/ModelViewer.js:330-337 | no key starting with `U` is ever written back |
| ModelViewer.SceneNode.constructor | src/js/ModelViewer.js:342-343 | a node with its mesh flag and its material |
| ModelViewer.ModelViewer.constructor | src/js/ModelViewer.js:210-228 | the GUI state starts from the default toggles and the first option of each list |
| ModelViewer.ModelViewer.SetDefinesFromGUI | src/js/ModelViewer.js:320-339 | rewrites the table in place to the composed table and returns the same object |
| ModelViewer.ModelViewer.DeleteMatched | src/js/ModelViewer.js:324-328 | the delete loop leaves exactly the unmatched keys with their values |
| ModelViewer.ModelViewer.Reset | src/js/ModelViewer.js:330-337 | the toggles that are on and one key per axis are written over the table |
| ModelViewer.ModelViewer.RecompileMaterial | src/js/ModelViewer.js:343-346 | one material's table is composed and the material marked for update; its uniforms, properties, shaders and every other field stay as they were |
| ModelViewer.ModelViewer.ReCompileShader | src/js/ModelViewer.js:341-349 | every mesh material gets the composed table of its old table and is marked for update, even when shared, with its uniforms, properties and shaders kept; the background only when asked |
| JsString.Substr | src/modules/environment/fileHelper.js:10 | `substr(start, length)` is the slice from `start`, clipped to the end of the string |
| JsString.SubstrPrefix | src/modules/environment/fileHelper.js:14 | comparing the leading substr of a pattern's length with the pattern tests exactly for that prefix |
| JsString.IndexOfFrom | src/js/Loader.js:31 | the first position at or after `from` where the pattern occurs, none before it; -1 exactly when it does not occur there |
| JsString.IndexOf | src/js/Loader.js:47 | the first occurrence of the pattern, -1 exactly when there is none |
| JsString.ContainsIff | src/js/ModelViewer.js:325 | an unanchored match succeeds exactly when the pattern occurs at some position |
| JsString.ContainsIndexOf | src/modules/environment/fileHelper.js:95 | `match` with a literal finds the pattern exactly when `indexOf` does |
| JsString.MissingElement | src/modules/environment/fileHelper.js:95-98 | a pattern with a character the string lacks never matches |
| JsString.RemoveFirst | src/js/Loader.js:31 | `replace(p, '')` removes the first occurrence of `p`, keeping what precedes and follows it, and changes nothing when `p` does not occur |
| JsString.RemovePrefix | src/js/Loader.js:47 | replacing a leading pattern removes exactly that prefix |
| JsString.LastIndexOf | src/modules/environment/fileHelper.js:166 | the position of the last occurrence, -1 exactly when there is none |
| JsString.LastIndexOfAt | src/modules/environment/fileHelper.js:166 | an occurrence with none after it is the one `lastIndexOf` returns |
| JsString.ToUpper | src/js/ModelViewer.js:333-337 | `toUpperCase` keeps the length and upper-cases each ASCII letter |

## Left out

- Decompression itself is a given function `Backend`. Only the magic test and the missing-library branch of `gunzip` are modelled, and its console error is not.
- Fetching and I/O are given functions from a URL to bytes, or to the parsed manifest. This covers `loadDataFromFile`, `requestFile`, `FileReader`, `Image` and the THREE and GLTF loaders. Promises are modelled as follows:
  - `init`'s awaits run in program order;
  - `resolveFilesMap`'s promises settle through a given function `settle`, and the `promises` array is not returned;
  - loads that a newer load supersedes are not modelled.
- `Loader.loadTexture` and `Loader.loadGLTF` (`Loader.js:7-24`) are I/O wrappers around the THREE loaders and are not modelled.
- Object URLs are blob identities. Their creation and revocation are not modelled, and `extractUrlBase` is not modelled either: the base URL is a parameter of the URL modifier.
- Loader.ImportGLTF: the `typeof rootFile === 'string'` branch is not modelled, because entries of the dropped file map are `File` objects, so that branch cannot be reached from the viewer.
- The spherical-harmonics normalisation (`EnvironmentSphericalHarmonics.js`) is floating point and is a given function. The sunlight's vectors are reals, with no rounding.
- `Math.log(x) / Math.LN2` is modelled only for power-of-two sizes, where it is the integer log2. An absent limit size gives NaN and a limit of 0 gives Infinity, both as symbolic numbers.
- The shader preprocessor's recursion is bounded by a depth budget (`fuel`) that stands for the engine's stack limit. The actual stack depth at which a JavaScript engine throws is not modelled.
- Chunk names such as `constructor` that a plain object inherits from its prototype are not modelled. The registry is a map holding only its own entries.
- `toUpperCase` is modelled on ASCII letters only. The option names are ASCII.
- The state an `Environment` is left in after a failed `init` is not modelled beyond the error that ends it.
- Uniform slot objects that several materials share (`envRotationMat`, `envBrightness`) are not modelled as aliases. A slot holds a value.
- JavaScript object key order (`Object.keys`) does not matter to the composer, and is not modelled. The delete loop runs over a snapshot of the keys in any order.
- The scene graph is the sequence of nodes `traverse` visits. GUI handlers, camera, shadow and geometry work (`initGUI`, `initEvent`, `adjustFactorFromBox`, `updateEnvironmentRotation`, `ThreeUtils.js`) are left out as UI and floating point.
- Listener calls made by `dispatch` are returned as the list of calls; a listener that binds or unbinds during dispatch is not modelled. `AssetLibrary` reports its dispatches and console errors as `Notice` values instead of calling `Signal`.
- The two copies of `deinterleaveImage4` (`EnvironmentCubeMap.js:12-23` and `EnvironmentPanorama.js:17-28`) are identical and are modelled once, in `PlanarImage`.
- THREE internals (`DataTexture`, `CubeTexture`, `ShaderMaterial.copy`, the `UniformsLib` merge) are records of the fields the code sets. The merged uniform library is a parameter of the material.
- PBR.Create: the fields `copy` takes from the glTF material are not modelled, and the `onBeforeRender` closure is a flag on the mesh; the matrix it computes each frame is floating point. A shader that has not been assigned is an empty placeholder for three.js's default program.
- FileHelper.MimeRegistry.ResolveData: the creators are not run. `JSON.parse` of a string or of a non-blob object is not modelled, so the SyntaxError that `createJSONFromString` throws synchronously for text that is not JSON is not captured; only the blob case, which always throws, is.

## Findings

| source | as written | input that shows it | evidently intended | confidence | as-written member | corrected member |
|---|---|---|---|---|---|---|
| src/js/PBRMaterial.js:60-66 | with texture-LOD support `syncEnvSetting` reads `environment.cubeMapEnv`, which `Environment.init` never assigns (it assigns `mapEnv`), so `cubeMapEnv.cubeTexture` throws a TypeError | any environment with `textureLODSupport` true | take the reflection texture from `environment.mapEnv` | high, not executed | `PBR.LodBranchThrows` | `PBR.EnvSetting` |
| src/js/PBRMaterial.js:92 | `new Color(0xffffff)` uses the bare identifier `Color`, which the module never imports (only `THREE`), so a source material without a color throws a ReferenceError | a source THREE material whose `color` is undefined or null; the viewer's glTF path does not reach it, since GLTFLoader's materials always carry a color | default the diffuse color to white (`THREE.Color`) | medium, not executed | `PBR.ColorlessSourceThrows` | `PBR.DiffuseDefaultsToWhite` |
| src/js/PBRMaterial.js:43-44 | the constructor assigns the module's raw `pbrVS` and `pbrFS` imports, although the viewer expands those same sources with `getPBRShader` and passes the result in the options (ModelViewer.js:131-144), where the constructor never reads it | a raw vertex source holding a `#preImport` line: the material keeps the directive that the preprocessor replaces | take the shaders from `uniformsOpt.pbrVS` and `uniformsOpt.pbrFS` | low, not executed: the shader sources are not part of this model, so whether they hold directives is not known | `PBR.RawShaderKeepsDirective` | `PBR.ConstructSetup` |
| src/const/defaultParams.js:12 | the map sync list spells `displacementmap`, a property no three.js material has, so a displacement map is never copied | a source material with `displacementMap` set | sync `displacementMap` like the other maps | high, not executed | `PBR.DisplacementMapIgnored` | `PBR.DisplacementMapSynced` |
| src/modules/environment/fileHelper.js:170 | `mimeTypes.has(extension) !== undefined` is always true, since `has` returns a boolean, so the overwrite warning fires for every extension | any extension not in the table, e.g. `ktx` | warn only when the extension already has a mimetype | high, not executed | `FileHelper.WarnsUnconditionally` | `FileHelper.MimeRegistry.AddMimeTypeForExtension` |
| src/js/Signal.js:13-18 | `unbind` splices at the recorded position but renumbers no later listener, and an unknown key splices at `undefined`, that is 0 | bind f, bind g, unbind f, unbind g: g stays bound; unbind of a never-bound key removes the first listener | remove the listener of `key` and keep the recorded positions of the others correct; ignore unknown keys | high, not executed | `Signals.StaleIndexKeepsListener` | `Signals.UnbindConsistent` |
| src/js/AssetLibrary.js:68-76 | nothing increments `loadedNumber`, so each asset callback reloads `queue[0]`, and a queue of two or more entries never completes | a queue with two entries | move the counter to the next entry before loading it | high, not executed | `Assets.StuckOnFirst` | `Assets.LoadsAll` |
| src/js/Loader.js:31 | `path.replace(file.name, '')` removes the first occurrence of the file name, which may lie in a directory name | the entry `scene.gltf-files/scene.gltf` gives root path `-files/scene.gltf` | strip the file name from the end of the path | medium, not executed | `Loader.EarlierNameMisplacesRoot` | `Loader.RootPathIsDirectory` |
