/**
 * The environment package (`Environment`): a manifest (`config.json`) lists
 * the package's textures by (type, encoding, format); `init` picks the
 * specular map in the format the GPU can sample, the BRDF lookup table, the
 * background cube map and the sunlight, and derives the shader uniforms.
 *
 * Fetching is a function from URL to bytes (or to the parsed manifest),
 * the gzip library and the spherical-harmonics normalisation are given
 * functions too; `init`'s awaits run in program order. Sizes are powers of
 * two, where `Math.log(x) / Math.LN2` is the integer `Log2(x)`.
 */
module Environment {
  import opened Wrappers
  import opened Errors
  import opened Zlib
  import opened PowerOfTwo
  import opened Textures
  import Cube = EnvironmentCubeMap
  import Pano = EnvironmentPanorama
  import Brdf = IntegrateBRDFMap

  /** Where the BRDF lookup table is always read from, whatever the manifest says. */
  const BrdfLUTPath: string := "./assets/envMap/brdf_ue4.bin.gz"

  datatype Vec3 = Vec3(x: real, y: real, z: real)

  /** An entry of a manifest texture's `images`; `limitSize` is None when absent. */
  datatype ImageEntry = ImageEntry(file: string, width: nat, limitSize: Option<nat>)

  /** A manifest texture; a `limitSize` of 0 stands for an absent (falsy) one. */
  datatype ManifestTexture = ManifestTexture(
    textureType: string, encoding: string, format: string, limitSize: nat, images: seq<ImageEntry>)

  datatype Light = Light(color: Vec3, direction: Vec3, luminosity: real)

  datatype Sunlight = Sunlight(color: Vec3, position: Vec3, intensity: real)

  /** The (type, encoding, format) triple a texture is looked up by. */
  datatype Query = Query(textureType: string, encoding: string, format: string)

  /** A JavaScript number as the LOD arithmetic can produce it. */
  datatype JsNumber = Finite(value: int) | NaN | Infinity

  /** The parsed `config.json`; `options` are its `minFilter`/`magFilter` entries, handed to the map decoder. */
  datatype Config = Config(
    textures: seq<ManifestTexture>, lights: Option<seq<Light>>, diffuseSPH: seq<real>, options: TextureOptions)

  /** What `init` reaches outside the model through. */
  datatype Host = Host(
    fetchBytes: string -> seq<byte>,
    fetchConfig: string -> Config,
    backend: Backend,
    sphericalHarmonics: seq<real> -> seq<real>)

  predicate Matches(t: ManifestTexture, q: Query) {
    t.encoding == q.encoding && t.format == q.format && t.textureType == q.textureType
  }

  /** `getTextures`: the manifest textures that match the query. */
  function GetTextures(textures: seq<ManifestTexture>, q: Query): (r: seq<ManifestTexture>)
    ensures forall t :: t in r <==> t in textures && Matches(t, q)
    ensures |r| <= |textures|
  {
    if |textures| == 0 then []
    else (if Matches(textures[0], q) then [textures[0]] else []) + GetTextures(textures[1..], q)
  }

  /** The filter keeps manifest order: it distributes over concatenation. */
  lemma {:induction false} GetTexturesAppend(a: seq<ManifestTexture>, b: seq<ManifestTexture>, q: Query)
    ensures GetTextures(a + b, q) == GetTextures(a, q) + GetTextures(b, q)
  {
    if |a| > 0 {
      assert (a + b)[0] == a[0];
      assert (a + b)[1..] == a[1..] + b;
      GetTexturesAppend(a[1..], b, q);
    } else {
      assert a + b == b;
    }
  }

  /** Position of the first match at or after `from`. */
  function FirstMatchFrom(textures: seq<ManifestTexture>, q: Query, from: nat): (r: Option<nat>)
    ensures r.Some? ==>
      from <= r.value < |textures| && Matches(textures[r.value], q) &&
      forall i :: from <= i < r.value ==> !Matches(textures[i], q)
    ensures r.None? ==> forall i :: from <= i < |textures| ==> !Matches(textures[i], q)
    decreases |textures| - from
  {
    if from >= |textures| then None
    else if Matches(textures[from], q) then Some(from)
    else FirstMatchFrom(textures, q, from + 1)
  }

  /** Position of the texture `results[0]` refers to. */
  function FirstMatch(textures: seq<ManifestTexture>, q: Query): (r: Option<nat>)
    ensures r.Some? ==>
      r.value < |textures| && Matches(textures[r.value], q) &&
      forall i :: 0 <= i < r.value ==> !Matches(textures[i], q)
    ensures r.None? ==> forall i :: 0 <= i < |textures| ==> !Matches(textures[i], q)
  {
    FirstMatchFrom(textures, q, 0)
  }

  /** `results[0]` of `getTextures` is the manifest texture at the first matching position. */
  lemma {:induction false} FirstResult(textures: seq<ManifestTexture>, q: Query)
    ensures FirstMatch(textures, q).None? <==> |GetTextures(textures, q)| == 0
    ensures FirstMatch(textures, q).Some? ==>
      |GetTextures(textures, q)| > 0 && GetTextures(textures, q)[0] == textures[FirstMatch(textures, q).value]
  {
    if |textures| > 0 && !Matches(textures[0], q) {
      FirstResult(textures[1..], q);
      var r := FirstMatch(textures[1..], q);
      if r.Some? {
        assert FirstMatch(textures, q) == Some(r.value + 1) by {
          assert forall i :: 0 <= i <= r.value ==> !Matches(textures[i], q) by {
            forall i | 0 <= i <= r.value
              ensures !Matches(textures[i], q)
            {
              if i > 0 {
                assert textures[i] == textures[1..][i - 1];
              }
            }
          }
          FirstMatchUnique(textures, q, r.value + 1);
        }
      } else {
        forall i | 0 <= i < |textures|
          ensures !Matches(textures[i], q)
        {
          if i > 0 {
            assert textures[i] == textures[1..][i - 1];
          }
        }
      }
    }
  }

  /** The first match is determined by the matching positions alone. */
  lemma FirstMatchUnique(textures: seq<ManifestTexture>, q: Query, j: nat)
    requires j < |textures| && Matches(textures[j], q)
    requires forall i :: 0 <= i < j ==> !Matches(textures[i], q)
    ensures FirstMatch(textures, q) == Some(j)
  {
  }

  /**
   * `getImage`: undefined when nothing matches, else `images[0]` of the
   * first match, which carries the texture's `limitSize` when that is
   * truthy (writing it into an empty `images` is a TypeError).
   */
  function ImageOf(textures: seq<ManifestTexture>, q: Query): (r: Result<Option<ImageEntry>, Error>)
    ensures r.Failure? ==> r.error == MissingImage(q.textureType, q.encoding, q.format)
    ensures r == Success(None) ==> FirstMatch(textures, q).None? || |textures[FirstMatch(textures, q).value].images| == 0
    ensures r.Success? && r.value.Some? ==>
      FirstMatch(textures, q).Some? &&
      var t := textures[FirstMatch(textures, q).value];
      |t.images| > 0 && r.value.value.file == t.images[0].file &&
      r.value.value.width == t.images[0].width &&
      r.value.value.limitSize == (if t.limitSize != 0 then Some(t.limitSize) else t.images[0].limitSize)
    ensures FirstMatch(textures, q).None? ==> r == Success(None)
    ensures FirstMatch(textures, q).Some? && |textures[FirstMatch(textures, q).value].images| > 0 ==>
      r.Success? && r.value.Some?
    ensures r.Failure? <==>
      FirstMatch(textures, q).Some? && textures[FirstMatch(textures, q).value].limitSize != 0 &&
      |textures[FirstMatch(textures, q).value].images| == 0
  {
    match FirstMatch(textures, q)
    case None => Success(None)
    case Some(j) =>
      var t := textures[j];
      if t.limitSize != 0 then
        if |t.images| == 0 then Failure(MissingImage(q.textureType, q.encoding, q.format))
        else Success(Some(t.images[0].(limitSize := Some(t.limitSize))))
      else if |t.images| == 0 then Success(None)
      else Success(Some(t.images[0]))
  }

  /** The manifest after `getImage`: the first match's truthy `limitSize` copied onto its `images[0]`. */
  function CopiedLimit(textures: seq<ManifestTexture>, q: Query): (r: seq<ManifestTexture>)
    ensures |r| == |textures|
    ensures forall i :: 0 <= i < |r| ==>
      r[i].textureType == textures[i].textureType && r[i].encoding == textures[i].encoding &&
      r[i].format == textures[i].format && r[i].limitSize == textures[i].limitSize &&
      |r[i].images| == |textures[i].images|
  {
    match FirstMatch(textures, q)
    case None => textures
    case Some(j) =>
      var t := textures[j];
      if t.limitSize != 0 && |t.images| > 0 then
        textures[j := t.(images := t.images[0 := t.images[0].(limitSize := Some(t.limitSize))])]
      else textures
  }

  /** The write `getImage` makes is invisible to every later `getImage`, whatever it asks for. */
  lemma ImageOfAfterCopy(textures: seq<ManifestTexture>, q: Query, q': Query)
    ensures FirstMatch(CopiedLimit(textures, q), q') == FirstMatch(textures, q')
    ensures ImageOf(CopiedLimit(textures, q), q') == ImageOf(textures, q')
  {
    var copied := CopiedLimit(textures, q);
    assert forall i :: 0 <= i < |textures| ==> (Matches(copied[i], q') <==> Matches(textures[i], q'));
    match FirstMatch(textures, q')
    case None =>
    case Some(j) =>
      FirstMatchUnique(copied, q', j);
  }

  /** The reflection map format the GPU can sample: 'cubemap' with texture-LOD support, else 'panorama'. */
  function ReflectionFormat(textureLODSupport: bool): (r: string)
    ensures r == "cubemap" <==> textureLODSupport
    ensures r == "panorama" <==> !textureLODSupport
  {
    if textureLODSupport then "cubemap" else "panorama"
  }

  /** A limit size the integer logarithm covers: absent, 0 or a power of two. */
  predicate LimitSizeOk(limit: Option<nat>) {
    limit.None? || limit.value == 0 || IsPow2(limit.value)
  }

  /**
   * `uEnvironmentLodRange = [nbLod, maxLod]` with nbLod = log2(mapSize) and
   * maxLod = nbLod − log2(limitSize): NaN when the limit is absent,
   * Infinity when it is 0.
   */
  function LodRange(mapSize: nat, limit: Option<nat>): (r: (nat, JsNumber))
    requires IsPow2(mapSize) && LimitSizeOk(limit)
    ensures Pow2(r.0) == mapSize
    ensures limit.None? <==> r.1 == NaN
    ensures limit == Some(0) <==> r.1 == Infinity
    ensures forall x :: limit == Some(x) && 0 < x <= mapSize ==>
      r.1.Finite? && 0 <= r.1.value <= r.0 && x * Pow2(r.1.value) == mapSize
    ensures forall x :: limit == Some(x) && x > mapSize ==>
      r.1.Finite? && r.1.value < 0 && mapSize * Pow2(-r.1.value) == x
  {
    var nbLod := Log2(mapSize);
    var maxLod := match limit
      case None => NaN
      case Some(x) => if x == 0 then Infinity else Finite(nbLod - Log2(x));
    LodRangeHalvings(mapSize, limit);
    LodRangeDoublings(mapSize, limit);
    (nbLod, maxLod)
  }

  /** maxLod counts the halvings from the map size down to the limit size. */
  lemma LodRangeHalvings(mapSize: nat, limit: Option<nat>)
    requires IsPow2(mapSize) && LimitSizeOk(limit)
    ensures forall x :: limit == Some(x) && 0 < x <= mapSize ==>
      Log2(x) <= Log2(mapSize) && x * Pow2(Log2(mapSize) - Log2(x)) == mapSize
  {
    if limit.Some? && 0 < limit.value <= mapSize {
      var x := limit.value;
      var a, b := Log2(x), Log2(mapSize);
      if a > b {
        Pow2Increasing(b, a);
      }
      Pow2Add(a, b - a);
    }
  }

  /** For a limit larger than the map, −maxLod counts the doublings from the map size up to the limit. */
  lemma LodRangeDoublings(mapSize: nat, limit: Option<nat>)
    requires IsPow2(mapSize) && LimitSizeOk(limit)
    ensures forall x :: limit == Some(x) && x > mapSize ==>
      Log2(mapSize) < Log2(x) && mapSize * Pow2(Log2(x) - Log2(mapSize)) == x
  {
    if limit.Some? && limit.value > mapSize {
      var x := limit.value;
      var a, b := Log2(x), Log2(mapSize);
      if a <= b {
        if a < b {
          Pow2Increasing(a, b);
        }
      }
      Pow2Add(b, a - b);
    }
  }

  /** `uEnvironmentSize`: [mapSize, mapSize] for a cube map, [mapSize, mapSize / 2] for a panorama. */
  function EnvironmentSize(mapSize: nat, format: string): (r: seq<real>)
    ensures |r| == 2 && r[0] == mapSize as real
    ensures format == "cubemap" ==> r[1] == r[0]
    ensures format != "cubemap" ==> 2.0 * r[1] == r[0]
  {
    [mapSize as real, if format == "cubemap" then mapSize as real else mapSize as real / 2.0]
  }

  function Negate(v: Vec3): Vec3 {
    Vec3(-v.x, -v.y, -v.z)
  }

  /** The sunlight record of the first light: the light shines from the opposite of its direction. */
  function SunlightOf(light: Light): (r: Sunlight)
    ensures r.position.x + light.direction.x == 0.0 && r.position.y + light.direction.y == 0.0
    ensures r.position.z + light.direction.z == 0.0
    ensures r.color == light.color && r.intensity == light.luminosity
  {
    Sunlight(light.color, Negate(light.direction), light.luminosity)
  }

  /** The example package: a 256 specular map prefiltered down to 8 gives the LOD range [8, 5]. */
  lemma LodRangeExample()
    ensures LodRange(256, Some(8)) == (8, Finite(5))
  {
    Log2Pow2(8);
    Log2Pow2(3);
    assert Pow2(8) == 256;
    assert Pow2(3) == 8;
  }

  /**
   * A cube map file that holds exactly the levels from the map size down to
   * the limit size decodes to a texture with maxLod mipmaps: the LOD range
   * names the last level present.
   */
  lemma LodRangeMatchesMipChain(bytes: seq<byte>, mapSize: nat, limit: nat, options: TextureOptions)
    requires IsPow2(mapSize) && IsPow2(limit) && Log2(limit) <= Log2(mapSize)
    requires |bytes| == Cube.LevelOffset(Log2(mapSize), Log2(mapSize) - Log2(limit) + 1)
    ensures var r := Cube.DecodeBytes(bytes, Log2(mapSize), options);
      r.Success? && LodRange(mapSize, Some(limit)).1 == Finite(|r.value.mipmaps|)
  {
    var L := Log2(mapSize);
    var k := L - Log2(limit) + 1;
    Cube.ExactLevels(L, k);
    Cube.DecodedLayout(bytes, L, options);
    assert LodRange(mapSize, Some(limit)).1 == Finite(k - 1);
  }

  /** Every size the manifest gives is a power of two, and so is every truthy limit size. */
  predicate PowerOfTwoSizes(textures: seq<ManifestTexture>) {
    forall i :: 0 <= i < |textures| ==>
      (textures[i].limitSize == 0 || IsPow2(textures[i].limitSize)) &&
      forall k :: 0 <= k < |textures[i].images| ==>
        IsPow2(textures[i].images[k].width) && LimitSizeOk(textures[i].images[k].limitSize)
  }

  lemma ImageOfSizes(textures: seq<ManifestTexture>, q: Query)
    requires PowerOfTwoSizes(textures)
    ensures var r := ImageOf(textures, q);
      r.Success? && r.value.Some? ==> IsPow2(r.value.value.width) && LimitSizeOk(r.value.value.limitSize)
  {
  }

  const SpecularQuery := Query("specular_ue4", "luv", "")
  const LUTQuery := Query("brdf_ue4", "rg16", "lut")
  const BackgroundQuery := Query("background", "luv", "cubemap")
  const BackgroundOptions := TextureOptions(Some(LinearFilter), Some(LinearFilter))

  /** The specular map query for the chosen format. */
  function SpecularFor(format: string): Query {
    SpecularQuery.(format := format)
  }

  /** The reflection map as the material sees it: a cube map or a panorama decoder. */
  datatype MapEnv = CubeMap(cube: Cube.CubeMapEnv) | Panorama(panorama: Pano.PanoramaEnv)

  /** The manifest object; `getImage` writes into its texture entries. */
  class Manifest {
    var textures: seq<ManifestTexture>
    const lights: Option<seq<Light>>
    const diffuseSPH: seq<real>
    const options: TextureOptions

    constructor (config: Config)
      ensures textures == config.textures && lights == config.lights
      ensures diffuseSPH == config.diffuseSPH && options == config.options
    {
      textures := config.textures;
      lights := config.lights;
      diffuseSPH := config.diffuseSPH;
      options := config.options;
    }
  }

  /** The texture a reflection map decoder holds. */
  datatype MapTexture = CubeMapTexture(cube: CubeTexture) | PanoramaTexture(panorama: DataTexture)

  /** What the reflection step of `init` produces: the decoded map, the LOD range and the size uniform. */
  datatype Reflection = Reflection(texture: MapTexture, lodRange: (nat, JsNumber), environmentSize: seq<real>)

  /** What the background step produces: the decoded cube map and its size. */
  datatype Background = Background(texture: CubeTexture, size: nat)

  /** Everything a successful `init` derives; `sunlight` is None when the manifest has no `Lights`. */
  datatype Loaded = Loaded(reflection: Reflection, lut: DataTexture, background: Background, sunlight: Option<Sunlight>)

  /** The reflection map decoder of the chosen format (`mapEnv.loadPacked`), run on the fetched bytes. */
  function DecodeMap(data: seq<byte>, size: nat, lodSupport: bool, options: TextureOptions, backend: Backend)
    : (r: Result<MapTexture, Error>)
    ensures r.Success? ==> (r.value.CubeMapTexture? <==> lodSupport)
    ensures lodSupport ==> (r.Success? <==> Cube.Decode(data, Log2(size), options, backend).Success?)
    ensures !lodSupport ==> (r.Success? <==> Pano.Decode(data, size, backend).Success?)
  {
    if lodSupport then
      match Cube.Decode(data, Log2(size), options, backend)
      case Success(t) => Success(CubeMapTexture(t))
      case Failure(e) => Failure(e)
    else
      match Pano.Decode(data, size, backend)
      case Success(t) => Success(PanoramaTexture(t))
      case Failure(e) => Failure(e)
  }

  /**
   * The first step of `init`: look up the specular map in the format the GPU
   * can sample, fetch and decode it, and derive the LOD range and size
   * uniforms from the entry's width and limit size.
   */
  function ReflectionStep(textures: seq<ManifestTexture>, options: TextureOptions, lodSupport: bool, url: string,
                          host: Host): (r: Result<Reflection, Error>)
    requires PowerOfTwoSizes(textures)
  {
    var format := ReflectionFormat(lodSupport);
    var spec := ImageOf(textures, SpecularFor(format));
    ImageOfSizes(textures, SpecularFor(format));
    if spec.Failure? then Failure(spec.error)
    else if spec.value.None? then Failure(MissingTexture("specular_ue4", "luv", format))
    else
      var s := spec.value.value;
      var decoded := DecodeMap(host.fetchBytes(url + s.file), s.width, lodSupport, options, host.backend);
      if decoded.Failure? then Failure(decoded.error)
      else Success(Reflection(decoded.value, LodRange(s.width, s.limitSize), EnvironmentSize(s.width, format)))
  }

  /** The lookup table step: the cached table, or the one decoded from `BrdfLUTPath` at the manifest's size. */
  function LUTStep(textures: seq<ManifestTexture>, cached: Option<DataTexture>, host: Host): (r: Result<DataTexture, Error>)
  {
    if cached.Some? then Success(cached.value)
    else
      var lut := ImageOf(textures, LUTQuery);
      if lut.Failure? then Failure(lut.error)
      else if lut.value.None? then Failure(MissingTexture("brdf_ue4", "rg16", "lut"))
      else Brdf.LoadPacked(host.fetchBytes(BrdfLUTPath), lut.value.value.width, host.backend)
  }

  /** The background step: the ('background', 'luv', 'cubemap') entry, fetched and decoded with linear filtering. */
  function BackgroundStep(textures: seq<ManifestTexture>, url: string, host: Host): (r: Result<Background, Error>)
  {
    var bg := ImageOf(textures, BackgroundQuery);
    if bg.Failure? then Failure(bg.error)
    else if bg.value.None? then Failure(MissingTexture("background", "luv", "cubemap"))
    else
      var b := bg.value.value;
      match Cube.Decode(host.fetchBytes(url + b.file), Log2(b.width), BackgroundOptions, host.backend)
      case Failure(e) => Failure(e)
      case Success(t) => Success(Background(t, b.width))
  }

  /** What the end of `init` produces: the background and, when the manifest has `Lights`, the sunlight. */
  datatype Tail = Tail(background: Background, sunlight: Option<Sunlight>)

  /** The end of `init`: the background step, then the first light of a `Lights` array, which must hold one. */
  function TailStep(textures: seq<ManifestTexture>, lights: Option<seq<Light>>, url: string, host: Host)
    : (r: Result<Tail, Error>)
  {
    var background := BackgroundStep(textures, url, host);
    if background.Failure? then Failure(background.error)
    else if lights.Some? && |lights.value| == 0 then Failure(MissingLight)
    else Success(Tail(background.value, if lights.Some? then Some(SunlightOf(lights.value[0])) else None))
  }

  /** What `init` produces after the reflection map: the lookup table and the end. */
  datatype Rest = Rest(lut: DataTexture, tail: Tail)

  /** `init` after the reflection map: the lookup table step, then `TailStep`. */
  function RestStep(textures: seq<ManifestTexture>, lights: Option<seq<Light>>, url: string,
                    cached: Option<DataTexture>, host: Host): (r: Result<Rest, Error>)
  {
    var lut := LUTStep(textures, cached, host);
    if lut.Failure? then Failure(lut.error)
    else
      var tail := TailStep(textures, lights, url, host);
      if tail.Failure? then Failure(tail.error) else Success(Rest(lut.value, tail.value))
  }

  /**
   * `init` as one computation over the manifest as it was read: the steps in
   * program order, the first that throws ends it. Every lookup sees the
   * manifest as it was read, since a `getImage` write is invisible to every
   * later `getImage` (`ImageOfAfterCopy`).
   */
  function InitStep(textures: seq<ManifestTexture>, lights: Option<seq<Light>>, options: TextureOptions,
                    lodSupport: bool, url: string, cached: Option<DataTexture>, host: Host): (r: Result<Loaded, Error>)
    requires PowerOfTwoSizes(textures)
  {
    var reflection := ReflectionStep(textures, options, lodSupport, url, host);
    if reflection.Failure? then Failure(reflection.error)
    else
      var rest := RestStep(textures, lights, url, cached, host);
      if rest.Failure? then Failure(rest.error)
      else Success(Loaded(reflection.value, rest.value.lut, rest.value.tail.background, rest.value.tail.sunlight))
  }

  /** The `texture` field of the decoder behind `env`, None until it is loaded. */
  ghost function LoadedTexture(env: MapEnv): (r: Option<MapTexture>)
    reads if env.CubeMap? then {env.cube} else {env.panorama}
    ensures r.Some? ==> (r.value.CubeMapTexture? <==> env.CubeMap?)
    ensures env.CubeMap? ==> (r.Some? <==> env.cube.texture.Some?)
    ensures env.Panorama? ==> (r.Some? <==> env.panorama.texture.Some?)
  {
    if env.CubeMap? then
      (if env.cube.texture.Some? then Some(CubeMapTexture(env.cube.texture.value)) else None)
    else
      (if env.panorama.texture.Some? then Some(PanoramaTexture(env.panorama.texture.value)) else None)
  }

  class Environment {
    const isMobile: bool
    /** Whether the GPU offers EXT_shader_texture_lod. */
    const textureLODSupport: bool
    var url: string
    var config: Manifest?
    var mapEnv: Option<MapEnv>
    var backgroundEnv: Option<Cube.CubeMapEnv>
    var uEnvironmentLodRange: (nat, JsNumber)
    var uEnvironmentSize: seq<real>
    var uBGEnvironmentSize: seq<nat>
    var uEnvironmentSphericalHarmonics: seq<real>
    /** The BRDF lookup table; None (null) until the first `init` loads it. */
    var uIntegrateBRDF: Option<DataTexture>
    var sunlightInfo: Option<Sunlight>

    constructor (isMobile: bool, textureLODSupport: bool)
      ensures this.isMobile == isMobile && this.textureLODSupport == textureLODSupport
      ensures config == null && mapEnv == None && backgroundEnv == None
      ensures uIntegrateBRDF == None && sunlightInfo == None
    {
      this.isMobile := isMobile;
      this.textureLODSupport := textureLODSupport;
      url := "";
      config := null;
      mapEnv := None;
      backgroundEnv := None;
      uEnvironmentLodRange := (0, NaN);
      uEnvironmentSize := [];
      uBGEnvironmentSize := [];
      uEnvironmentSphericalHarmonics := [];
      uIntegrateBRDF := None;
      sunlightInfo := None;
    }

    /** `getImage` over a manifest, which it updates as `CopiedLimit` says. */
    static method GetImage(manifest: Manifest, q: Query) returns (r: Result<Option<ImageEntry>, Error>)
      modifies manifest`textures
      ensures r == ImageOf(old(manifest.textures), q)
      ensures manifest.textures == CopiedLimit(old(manifest.textures), q)
    {
      var results := GetTextures(manifest.textures, q);
      FirstResult(manifest.textures, q);
      if |results| == 0 {
        return Success(None);
      }
      var j := FirstMatch(manifest.textures, q).value;
      if results[0].limitSize != 0 {
        if |results[0].images| == 0 {
          return Failure(MissingImage(q.textureType, q.encoding, q.format));
        }
        var t := manifest.textures[j];
        manifest.textures := manifest.textures[j := t.(images := t.images[0 := t.images[0].(limitSize := Some(t.limitSize))])];
      }
      if |results[0].images| == 0 {
        return Success(None);
      }
      r := Success(Some(manifest.textures[j].images[0]));
    }

    /** The reflection map decoder `env` is installed and holds `m`'s texture; the uniforms are `m`'s. */
    ghost predicate ReflectionHolds(m: Reflection, env: MapEnv)
      reads this`mapEnv, this`uEnvironmentLodRange, this`uEnvironmentSize
      reads if env.CubeMap? then {env.cube} else {env.panorama}
    {
      mapEnv == Some(env) && LoadedTexture(env) == Some(m.texture) &&
      uEnvironmentLodRange == m.lodRange && uEnvironmentSize == m.environmentSize
    }

    /** The background decoder holds `b`'s texture and the size uniform is `b`'s size twice. */
    ghost predicate BackgroundHolds(b: Background)
      reads this`backgroundEnv, this`uBGEnvironmentSize
      reads if backgroundEnv.Some? then {backgroundEnv.value} else {}
    {
      backgroundEnv.Some? && backgroundEnv.value.texture == Some(b.texture) && uBGEnvironmentSize == [b.size, b.size]
    }

    /** The specular map step: decode the map in the chosen format and derive the LOD range and size uniforms. */
    method LoadReflection(manifest: Manifest, host: Host) returns (r: Outcome<Error>)
      requires PowerOfTwoSizes(manifest.textures)
      modifies this`mapEnv, this`uEnvironmentLodRange, this`uEnvironmentSize, manifest`textures
      ensures manifest.textures == CopiedLimit(old(manifest.textures), SpecularFor(ReflectionFormat(textureLODSupport)))
      ensures var step := ReflectionStep(old(manifest.textures), manifest.options, textureLODSupport, url, host);
        (r.Pass? <==> step.Success?) && (r.Fail? ==> r.error == step.error) &&
        (r.Pass? ==> mapEnv.Some? && ReflectionHolds(step.value, mapEnv.value))
    {
      var format := ReflectionFormat(textureLODSupport);
      ImageOfSizes(manifest.textures, SpecularFor(format));
      var textureData := GetImage(manifest, SpecularFor(format));
      if textureData.Failure? {
        return Fail(textureData.error);
      }
      if textureData.value.None? {
        return Fail(MissingTexture("specular_ue4", "luv", format));
      }
      var mapFile := textureData.value.value.file;
      var mapSize := textureData.value.value.width;
      var mapData := host.fetchBytes(url + mapFile);
      if format == "cubemap" {
        var env := new Cube.CubeMapEnv(mapData, mapSize, manifest.options);
        mapEnv := Some(CubeMap(env));
        var loaded := env.LoadPacked(host.backend);
        if loaded.Fail? {
          return Fail(loaded.error);
        }
      } else {
        var env := new Pano.PanoramaEnv(mapData, mapSize, manifest.options);
        mapEnv := Some(Panorama(env));
        var loaded := env.LoadPacked(host.backend);
        if loaded.Fail? {
          return Fail(loaded.error);
        }
      }
      var minTextureSize := textureData.value.value.limitSize;
      uEnvironmentLodRange := LodRange(mapSize, minTextureSize);
      uEnvironmentSize := EnvironmentSize(mapSize, format);
      return Pass;
    }

    /** The lookup table step: load it only while `uIntegrateBRDF` is null, always from `BrdfLUTPath`. */
    method LoadLUT(manifest: Manifest, ghost textures: seq<ManifestTexture>, host: Host) returns (r: Outcome<Error>)
      requires ImageOf(manifest.textures, LUTQuery) == ImageOf(textures, LUTQuery)
      modifies this`uIntegrateBRDF, manifest`textures
      ensures old(uIntegrateBRDF).Some? ==> manifest.textures == old(manifest.textures)
      ensures old(uIntegrateBRDF).None? ==> manifest.textures == CopiedLimit(old(manifest.textures), LUTQuery)
      ensures var step := LUTStep(textures, old(uIntegrateBRDF), host);
        (r.Pass? <==> step.Success?) && (r.Fail? ==> r.error == step.error) &&
        (r.Pass? ==> uIntegrateBRDF == Some(step.value))
    {
      if uIntegrateBRDF.Some? {
        return Pass;
      }
      var lutTextureData := GetImage(manifest, LUTQuery);
      if lutTextureData.Failure? {
        return Fail(lutTextureData.error);
      }
      if lutTextureData.value.None? {
        return Fail(MissingTexture("brdf_ue4", "rg16", "lut"));
      }
      var lutSize := lutTextureData.value.value.width;
      var lutData := host.fetchBytes(BrdfLUTPath);
      var lut := Brdf.LoadPacked(lutData, lutSize, host.backend);
      if lut.Failure? {
        return Fail(lut.error);
      }
      uIntegrateBRDF := Some(lut.value);
      return Pass;
    }

    /** The background step: always the ('background', 'luv', 'cubemap') entry, filtered linearly. */
    method LoadBackground(manifest: Manifest, ghost textures: seq<ManifestTexture>, host: Host) returns (r: Outcome<Error>)
      requires PowerOfTwoSizes(manifest.textures)
      requires ImageOf(manifest.textures, BackgroundQuery) == ImageOf(textures, BackgroundQuery)
      modifies this`backgroundEnv, this`uBGEnvironmentSize, manifest`textures
      ensures var step := BackgroundStep(textures, url, host);
        (r.Pass? <==> step.Success?) && (r.Fail? ==> r.error == step.error) &&
        (r.Pass? ==> BackgroundHolds(step.value))
    {
      ImageOfSizes(manifest.textures, BackgroundQuery);
      var bgTextureData := GetImage(manifest, BackgroundQuery);
      if bgTextureData.Failure? {
        return Fail(bgTextureData.error);
      }
      if bgTextureData.value.None? {
        return Fail(MissingTexture("background", "luv", "cubemap"));
      }
      var bgFile := bgTextureData.value.value.file;
      var bgSize := bgTextureData.value.value.width;
      var bgData := host.fetchBytes(url + bgFile);
      var bg := new Cube.CubeMapEnv(bgData, bgSize, BackgroundOptions);
      backgroundEnv := Some(bg);
      var bgLoaded := bg.LoadPacked(host.backend);
      if bgLoaded.Fail? {
        return Fail(bgLoaded.error);
      }
      uBGEnvironmentSize := [bgSize, bgSize];
      return Pass;
    }

    /**
     * `init`: select, fetch and decode the package's textures and derive the
     * uniforms, as `InitStep` computes them; it throws the first error
     * `InitStep` meets.
     */
    method Init(manifest: Manifest, host: Host) returns (r: Outcome<Error>)
      requires PowerOfTwoSizes(manifest.textures)
      modifies this`config, this`mapEnv, this`uEnvironmentLodRange, this`uEnvironmentSize, this`uIntegrateBRDF
      modifies this`backgroundEnv, this`uBGEnvironmentSize, this`uEnvironmentSphericalHarmonics, this`sunlightInfo
      modifies manifest`textures
      ensures config == manifest
      ensures var out := InitStep(old(manifest.textures), manifest.lights, manifest.options,
                                  textureLODSupport, url, old(uIntegrateBRDF), host);
        (r.Pass? <==> out.Success?) && (r.Fail? ==> r.error == out.error) &&
        (r.Pass? ==>
          mapEnv.Some? && ReflectionHolds(out.value.reflection, mapEnv.value) &&
          uIntegrateBRDF == Some(out.value.lut) && BackgroundHolds(out.value.background) &&
          uEnvironmentSphericalHarmonics == host.sphericalHarmonics(manifest.diffuseSPH) &&
          sunlightInfo == (if out.value.sunlight.Some? then out.value.sunlight else old(sunlightInfo)))
    {
      ghost var textures0 := manifest.textures;
      config := manifest;
      r := LoadReflection(manifest, host);
      if r.Fail? {
        return;
      }
      ghost var env := mapEnv.value;
      ghost var cubeTexture := if env.CubeMap? then env.cube.texture else None;
      ghost var panoramaTexture := if env.Panorama? then env.panorama.texture else None;
      r := InitRest(manifest, textures0, host);
      assert env.CubeMap? ==> env.cube.texture == cubeTexture;
      assert env.Panorama? ==> env.panorama.texture == panoramaTexture;
    }

    /** The rest of `init` once the reflection map is decoded: the lookup table, then `InitTail`. */
    method InitRest(manifest: Manifest, ghost textures0: seq<ManifestTexture>, host: Host) returns (r: Outcome<Error>)
      requires PowerOfTwoSizes(textures0)
      requires manifest.textures == CopiedLimit(textures0, SpecularFor(ReflectionFormat(textureLODSupport)))
      modifies this`uIntegrateBRDF, this`backgroundEnv, this`uBGEnvironmentSize, this`uEnvironmentSphericalHarmonics
      modifies this`sunlightInfo, manifest`textures
      ensures var step := RestStep(textures0, manifest.lights, url, old(uIntegrateBRDF), host);
        (r.Pass? <==> step.Success?) && (r.Fail? ==> r.error == step.error) &&
        (r.Pass? ==>
          uIntegrateBRDF == Some(step.value.lut) && BackgroundHolds(step.value.tail.background) &&
          uEnvironmentSphericalHarmonics == host.sphericalHarmonics(manifest.diffuseSPH) &&
          sunlightInfo == (if step.value.tail.sunlight.Some? then step.value.tail.sunlight else old(sunlightInfo)))
    {
      ghost var format := ReflectionFormat(textureLODSupport);
      ImageOfAfterCopy(textures0, SpecularFor(format), LUTQuery);
      r := LoadLUT(manifest, textures0, host);
      if r.Fail? {
        return;
      }
      BackgroundAfterCopies(textures0, format);
      CopiedLimitSizes(textures0, SpecularFor(format));
      CopiedLimitSizes(CopiedLimit(textures0, SpecularFor(format)), LUTQuery);
      r := InitTail(manifest, textures0, host);
    }

    /** The end of `init`: the background, the spherical harmonics, and the sunlight of the first light. */
    method InitTail(manifest: Manifest, ghost textures0: seq<ManifestTexture>, host: Host) returns (r: Outcome<Error>)
      requires PowerOfTwoSizes(manifest.textures)
      requires ImageOf(manifest.textures, BackgroundQuery) == ImageOf(textures0, BackgroundQuery)
      modifies this`backgroundEnv, this`uBGEnvironmentSize, this`uEnvironmentSphericalHarmonics
      modifies this`sunlightInfo, manifest`textures
      ensures var step := TailStep(textures0, manifest.lights, url, host);
        (r.Pass? <==> step.Success?) && (r.Fail? ==> r.error == step.error) &&
        (r.Pass? ==>
          BackgroundHolds(step.value.background) &&
          uEnvironmentSphericalHarmonics == host.sphericalHarmonics(manifest.diffuseSPH) &&
          sunlightInfo == (if step.value.sunlight.Some? then step.value.sunlight else old(sunlightInfo)))
    {
      r := LoadBackground(manifest, textures0, host);
      if r.Fail? {
        return;
      }
      uEnvironmentSphericalHarmonics := host.sphericalHarmonics(manifest.diffuseSPH);
      if manifest.lights.Some? {
        if |manifest.lights.value| == 0 {
          return Fail(MissingLight);
        }
        sunlightInfo := Some(SunlightOf(manifest.lights.value[0]));
      }
    }

    /** `loadPackage`: read `<url>config.json` and run `init` on it. */
    method LoadPackage(url: string, host: Host) returns (r: Outcome<Error>)
      requires PowerOfTwoSizes(host.fetchConfig(url + "config.json").textures)
      modifies this
      ensures this.url == url && config != null && fresh(config)
      ensures var c := host.fetchConfig(url + "config.json");
        var out := InitStep(c.textures, c.lights, c.options, textureLODSupport, url, old(uIntegrateBRDF), host);
        (r.Pass? <==> out.Success?) && (r.Fail? ==> r.error == out.error) &&
        (r.Pass? ==>
          mapEnv.Some? && ReflectionHolds(out.value.reflection, mapEnv.value) &&
          uIntegrateBRDF == Some(out.value.lut) && BackgroundHolds(out.value.background) &&
          uEnvironmentSphericalHarmonics == host.sphericalHarmonics(c.diffuseSPH) &&
          sunlightInfo == (if out.value.sunlight.Some? then out.value.sunlight else old(sunlightInfo)))
    {
      this.url := url;
      var configSrc := url + "config.json";
      var manifest := new Manifest(host.fetchConfig(configSrc));
      r := Init(manifest, host);
    }
  }

  /** `getImage`'s write keeps the sizes a power of two. */
  lemma CopiedLimitSizes(textures: seq<ManifestTexture>, q: Query)
    requires PowerOfTwoSizes(textures)
    ensures PowerOfTwoSizes(CopiedLimit(textures, q))
  {
  }

  /** The background lookup sees the manifest as it was, after one or two earlier `getImage` writes. */
  lemma BackgroundAfterCopies(textures: seq<ManifestTexture>, format: string)
    ensures ImageOf(CopiedLimit(textures, SpecularFor(format)), BackgroundQuery) == ImageOf(textures, BackgroundQuery)
    ensures ImageOf(CopiedLimit(CopiedLimit(textures, SpecularFor(format)), LUTQuery), BackgroundQuery) ==
      ImageOf(textures, BackgroundQuery)
  {
    ImageOfAfterCopy(textures, SpecularFor(format), BackgroundQuery);
    ImageOfAfterCopy(CopiedLimit(textures, SpecularFor(format)), LUTQuery, BackgroundQuery);
  }
}
