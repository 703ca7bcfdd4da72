/**
 * The physically based material (`PBRMaterial`): a shader material that
 * starts from a fresh copy of the default define table, takes its
 * environment uniforms from the loaded environment and copies the maps and
 * factors of the glTF material it replaces.
 *
 * Uniform slots hold values: `uniforms[k] = { value: v }` and
 * `uniforms[k].value = v` both leave `v` in slot `k`; the second throws a
 * TypeError when there is no slot `k`.
 */
module PBR {
  import opened Wrappers
  import opened Errors
  import opened ShaderDefines
  import ShaderProgram

  /**
   * A JavaScript value as the material code sees it: `undefined`, `null`,
   * a color, or any other object (a texture, a matrix, an array).
   */
  datatype Value = Undefined | Null | Color(hex: nat) | Item(id: nat)

  /** `v != undefined`, which is also false for null. */
  predicate Present(v: Value) {
    !v.Undefined? && !v.Null?
  }

  /** A property read: `undefined` for a missing key. */
  function Lookup(m: map<string, Value>, key: string): Value {
    if key in m then m[key] else Undefined
  }

  /** `syncMapArr` as written, with its last entry spelled `displacementmap`. */
  const MapKeysAsWritten: seq<string> :=
    ["map", "normalMap", "lightMap", "bumpMap", "roughnessMap", "metalnessMap", "aoMap", "emissiveMap", "displacementmap"]

  /** `syncMapArr` with the property name three.js materials use for the displacement map. */
  const MapKeys: seq<string> :=
    ["map", "normalMap", "lightMap", "bumpMap", "roughnessMap", "metalnessMap", "aoMap", "emissiveMap", "displacementMap"]

  /** `syncUniformArr` */
  const UniformKeys: seq<string> := ["color", "roughness", "metalness", "emissive"]

  /** `new THREE.Color(0xffffff)` */
  const White: Value := Color(0xFFFFFF)

  /** What the material reads from the environment it is built with. */
  datatype EnvironmentView = EnvironmentView(
    textureLODSupport: bool,
    isMobile: bool,
    sphericalHarmonics: Value,
    lodRange: Value,
    environmentSize: Value,
    integrateBRDF: Value,
    /** The `texture` of the environment's reflection map decoder (`mapEnv`). */
    mapTexture: Value)

  /** The `_extraUniforms` of a specular-glossiness glTF material: the values of its four uniforms. */
  datatype GlossinessUniforms = GlossinessUniforms(specular: Value, glossiness: Value, specularMap: Value, glossinessMap: Value)

  /** The glTF material a `PBRMaterial` replaces. */
  datatype SourceMaterial = SourceMaterial(props: map<string, Value>, isSpecularGlossiness: bool, extra: GlossinessUniforms)

  /**
   * The parts of a material the modelled code writes: uniform slots, own
   * properties, defines, the normal map type, the shader pair and the
   * `lights` flag.
   */
  datatype MaterialState = MaterialState(uniforms: map<string, Value>, props: map<string, Value>, defines: map<string, int>,
                                         normalMapType: Value, vertexShader: string, fragmentShader: string, lights: bool)

  /** The `uniformsOpt` argument: the shader pair `getPBRShader` expanded and the shadow camera's depth range. */
  datatype MaterialOptions = MaterialOptions(pbrVS: string, pbrFS: string, shadowDepthRange: Value)

  /** The shader text a `ShaderMaterial` has before one is assigned (three.js's default program, here a placeholder). */
  const DefaultShader: string := ""

  /** `uniforms[k] = { value: v }` */
  function SetUniform(st: MaterialState, k: string, v: Value): MaterialState {
    st.(uniforms := st.uniforms[k := v])
  }

  /** `uniforms[k].value = v`: a TypeError when slot `k` does not exist. */
  function SetUniformValue(st: MaterialState, k: string, v: Value): (r: Result<MaterialState, Error>)
    ensures r.Success? <==> k in st.uniforms
    ensures r.Failure? ==> r.error == MissingUniform(k)
  {
    if k in st.uniforms then Success(st.(uniforms := st.uniforms[k := v])) else Failure(MissingUniform(k))
  }

  /** The end of `syncEnvSetting`: `MOBILE` on mobile, the lookup table uniform otherwise. */
  function MobileStep(st: MaterialState, env: EnvironmentView): MaterialState {
    if env.isMobile then st.(defines := st.defines["MOBILE" := 1])
    else SetUniform(st, "uIntegrateBRDF", env.integrateBRDF)
  }

  /**
   * `syncEnvSetting` as written: with texture LOD support it reads
   * `environment.cubeMapEnv`, a field no environment has, and throws.
   */
  function EnvSettingAsWritten(st: MaterialState, env: EnvironmentView): Result<MaterialState, Error> {
    var st1 := SetUniform(st, "uEnvironmentSphericalHarmonics", env.sphericalHarmonics);
    if env.textureLODSupport then Failure(UndefinedCubeMapEnv)
    else Success(MobileStep(st1, env))
  }

  /** `syncEnvSetting` with the environment's reflection map texture taken from `mapEnv`. */
  function EnvSetting(st: MaterialState, env: EnvironmentView): (r: MaterialState)
    ensures Lookup(r.uniforms, "uEnvironmentSphericalHarmonics") == env.sphericalHarmonics
    ensures env.textureLODSupport ==>
      Lookup(r.uniforms, "uEnvironmentLodRange") == env.lodRange && Lookup(r.uniforms, "uEnvironmentSize") == env.environmentSize &&
      Lookup(r.uniforms, "envMap") == env.mapTexture && Lookup(r.props, "envMap") == env.mapTexture
    ensures !env.textureLODSupport ==> r.props == st.props
    ensures env.isMobile ==> r.defines == st.defines["MOBILE" := 1]
    ensures !env.isMobile ==> r.defines == st.defines && Lookup(r.uniforms, "uIntegrateBRDF") == env.integrateBRDF
    ensures forall k :: k in st.uniforms ==> k in r.uniforms
  {
    var st1 := SetUniform(st, "uEnvironmentSphericalHarmonics", env.sphericalHarmonics);
    var st2 :=
      if env.textureLODSupport then
        var lod := SetUniform(SetUniform(st1, "uEnvironmentLodRange", env.lodRange), "uEnvironmentSize", env.environmentSize);
        SetUniform(lod.(props := lod.props["envMap" := env.mapTexture]), "envMap", env.mapTexture)
      else st1;
    MobileStep(st2, env)
  }

  /**
   * One entry of a sync list: a present source value is copied into the
   * uniform slot of that name (and, for maps, onto the material itself).
   */
  function SyncKey(st: MaterialState, source: map<string, Value>, k: string, copyProp: bool): Result<MaterialState, Error> {
    var v := Lookup(source, k);
    if !Present(v) then Success(st)
    else SetUniformValue(if copyProp then st.(props := st.props[k := v]) else st, k, v)
  }

  /** A sync list, entry by entry in list order; the first missing slot throws. */
  function SyncKeys(st: MaterialState, source: map<string, Value>, keys: seq<string>, copyProp: bool)
    : Result<MaterialState, Error>
  {
    if |keys| == 0 then Success(st)
    else
      match SyncKeys(st, source, keys[..|keys| - 1], copyProp)
      case Failure(e) => Failure(e)
      case Success(s) => SyncKey(s, source, keys[|keys| - 1], copyProp)
  }

  /** The slots a sync list fills: each listed key with a present source value, from the source. */
  function Copied(m: map<string, Value>, source: map<string, Value>, keys: seq<string>): map<string, Value> {
    map k | k in m :: if k in keys && Present(Lookup(source, k)) then Lookup(source, k) else m[k]
  }

  /** `syncParam` as written: the misspelt map key, and `new Color(...)`, an identifier the module never imports. */
  function ParamSyncAsWritten(st: MaterialState, source: map<string, Value>): Result<MaterialState, Error> {
    var maps :- SyncKeys(st, source, MapKeysAsWritten, true);
    var factors :- SyncKeys(maps, source, UniformKeys, false);
    var color := Lookup(source, "color");
    if !Present(color) then Failure(ColorNotDefined)
    else SetUniformValue(factors, "diffuse", color)
  }

  /** `syncParam` with the displacement map's real name and a white default color. */
  function ParamSync(st: MaterialState, source: map<string, Value>): Result<MaterialState, Error> {
    var maps :- SyncKeys(st, source, MapKeys, true);
    var factors :- SyncKeys(maps, source, UniformKeys, false);
    var color := Lookup(source, "color");
    SetUniformValue(factors, "diffuse", if Present(color) then color else White)
  }

  /** `initSGWorkflow` */
  function SGWorkflow(st: MaterialState, extra: GlossinessUniforms): (r: MaterialState)
    ensures "SPECULAR_GLOSSINESS" in r.defines
    ensures forall k :: k in r.defines <==>
      k in st.defines || k == "SPECULAR_GLOSSINESS" ||
      (k == "USE_SPECULARMAP" && Present(extra.specularMap)) || (k == "USE_GLOSSINESSMAP" && Present(extra.glossinessMap))
  {
    var st1 := st.(defines := st.defines["SPECULAR_GLOSSINESS" := 1]);
    var st2 :=
      if Present(extra.specularMap) then
        SetUniform(st1.(defines := st1.defines["USE_SPECULARMAP" := 1]), "specularMap", extra.specularMap)
      else st1;
    var st3 :=
      if Present(extra.glossinessMap) then
        SetUniform(st2.(defines := st2.defines["USE_GLOSSINESSMAP" := 1]), "glossinessMap", extra.glossinessMap)
      else st2;
    SetUniform(SetUniform(st3, "specularFactor", extra.specular), "glossinessFactor", extra.glossiness)
  }

  /** The uniform slots the constructor starts from: the merged library plus two of its own. */
  function InitialUniforms(library: map<string, Value>, shadowDepthRange: Value, normalMatrix: Value): map<string, Value> {
    library["uShadowDepthRange" := shadowDepthRange]["uModelNormalMatrix" := normalMatrix]
  }

  /** The state the constructor has built before `syncEnvSetting`. */
  function InitialState(source: SourceMaterial, options: MaterialOptions, library: map<string, Value>, normalMatrix: Value)
    : MaterialState
  {
    MaterialState(InitialUniforms(library, options.shadowDepthRange, normalMatrix), map[], DefaultDefines,
                  Lookup(source.props, "normalMapType"), DefaultShader, DefaultShader, false)
  }

  /**
   * The whole constructor, over the material's state. The shaders are the
   * expanded pair passed in `options` (see `ShadersAsWritten` for the raw
   * sources the code assigns).
   */
  function Construct(source: SourceMaterial, env: EnvironmentView, options: MaterialOptions, library: map<string, Value>,
                     normalMatrix: Value): Result<MaterialState, Error>
  {
    var st1 := EnvSetting(InitialState(source, options, library, normalMatrix), env);
    var st2 :- ParamSync(st1, source.props);
    var st3 := st2.(vertexShader := options.pbrVS, fragmentShader := options.pbrFS, lights := true);
    Success(if source.isSpecularGlossiness then SGWorkflow(st3, source.extra) else st3)
  }

  /**
   * `this.vertexShader = pbrVS; this.fragmentShader = pbrFS` as written: the
   * module's own imports of the raw shader sources, whatever `options` holds.
   */
  function ShadersAsWritten(rawVS: string, rawFS: string, options: MaterialOptions): (string, string) {
    (rawVS, rawFS)
  }

  // ----- properties -----

  /** The own properties a map sync list adds: each listed key with a present source value. */
  function Picked(source: map<string, Value>, keys: seq<string>): map<string, Value> {
    map k | k in keys && Present(Lookup(source, k)) :: Lookup(source, k)
  }

  /** Every listed key with a present source value has a uniform slot. */
  predicate AllSlots(slots: map<string, Value>, source: map<string, Value>, keys: seq<string>) {
    forall i :: 0 <= i < |keys| && Present(Lookup(source, keys[i])) ==> keys[i] in slots
  }

  lemma CopiedStep(m: map<string, Value>, source: map<string, Value>, keys: seq<string>)
    requires |keys| > 0 && Present(Lookup(source, keys[|keys| - 1])) && keys[|keys| - 1] in m
    ensures Copied(m, source, keys) ==
      Copied(m, source, keys[..|keys| - 1])[keys[|keys| - 1] := Lookup(source, keys[|keys| - 1])]
  {
    var init := keys[..|keys| - 1];
    assert forall x :: x in keys <==> x in init || x == keys[|keys| - 1];
  }

  lemma CopiedSkip(m: map<string, Value>, source: map<string, Value>, keys: seq<string>)
    requires |keys| > 0 && !Present(Lookup(source, keys[|keys| - 1]))
    ensures Copied(m, source, keys) == Copied(m, source, keys[..|keys| - 1])
    ensures Picked(source, keys) == Picked(source, keys[..|keys| - 1])
  {
    var init := keys[..|keys| - 1];
    assert forall x :: x in keys <==> x in init || x == keys[|keys| - 1];
  }

  lemma PickedStep(source: map<string, Value>, keys: seq<string>)
    requires |keys| > 0 && Present(Lookup(source, keys[|keys| - 1]))
    ensures Picked(source, keys) == Picked(source, keys[..|keys| - 1])[keys[|keys| - 1] := Lookup(source, keys[|keys| - 1])]
  {
    var init := keys[..|keys| - 1];
    assert forall x :: x in keys <==> x in init || x == keys[|keys| - 1];
  }

  /** A slot that is not on the list keeps its value. */
  lemma CopiedOutside(m: map<string, Value>, source: map<string, Value>, keys: seq<string>, k: string)
    requires k in m && k !in keys
    ensures k in Copied(m, source, keys) && Copied(m, source, keys)[k] == m[k]
  {
  }

  /**
   * A sync list that goes through fills the listed slots whose source value
   * is present from the source, copies maps onto the material, and leaves the
   * defines alone.
   */
  lemma {:induction false} SyncKeysState(st: MaterialState, source: map<string, Value>, keys: seq<string>, copyProp: bool)
    requires SyncKeys(st, source, keys, copyProp).Success?
    ensures SyncKeys(st, source, keys, copyProp).value ==
      st.(uniforms := Copied(st.uniforms, source, keys), props := if copyProp then st.props + Picked(source, keys) else st.props)
  {
    if |keys| == 0 {
      assert Copied(st.uniforms, source, keys) == st.uniforms;
      assert Picked(source, keys) == map[];
    } else {
      var init := keys[..|keys| - 1];
      var k := keys[|keys| - 1];
      SyncKeysState(st, source, init, copyProp);
      if Present(Lookup(source, k)) {
        assert k in Copied(st.uniforms, source, init);
        CopiedStep(st.uniforms, source, keys);
        PickedStep(source, keys);
      } else {
        CopiedSkip(st.uniforms, source, keys);
      }
    }
  }

  /** A sync list fails exactly when a listed key with a present source value has no slot. */
  lemma {:induction false} SyncKeysOutcome(st: MaterialState, source: map<string, Value>, keys: seq<string>, copyProp: bool)
    ensures SyncKeys(st, source, keys, copyProp).Success? <==> AllSlots(st.uniforms, source, keys)
    ensures SyncKeys(st, source, keys, copyProp).Failure? ==> SyncKeys(st, source, keys, copyProp).error.MissingUniform?
  {
    if |keys| > 0 {
      var init := keys[..|keys| - 1];
      var k := keys[|keys| - 1];
      SyncKeysOutcome(st, source, init, copyProp);
      assert AllSlots(st.uniforms, source, keys) <==>
        AllSlots(st.uniforms, source, init) && (Present(Lookup(source, k)) ==> k in st.uniforms);
      if SyncKeys(st, source, init, copyProp).Success? {
        SyncKeysState(st, source, init, copyProp);
      }
    }
  }

  /** As written, a displacement map is never copied: no uniform slot ends up holding it. */
  lemma DisplacementMapIgnored(st: MaterialState, source: map<string, Value>)
    requires "displacementMap" in st.uniforms && ParamSyncAsWritten(st, source).Success?
    ensures Lookup(ParamSyncAsWritten(st, source).value.uniforms, "displacementMap") == st.uniforms["displacementMap"]
  {
    var k := "displacementMap";
    assert k !in MapKeysAsWritten && k !in UniformKeys;
    SyncKeysState(st, source, MapKeysAsWritten, true);
    var maps := SyncKeys(st, source, MapKeysAsWritten, true).value;
    CopiedOutside(st.uniforms, source, MapKeysAsWritten, k);
    SyncKeysState(maps, source, UniformKeys, false);
    CopiedOutside(maps.uniforms, source, UniformKeys, k);
  }

  /** With the real name, a present displacement map lands in its slot and on the material. */
  lemma DisplacementMapSynced(st: MaterialState, source: map<string, Value>)
    requires ParamSync(st, source).Success? && Present(Lookup(source, "displacementMap"))
    ensures Lookup(ParamSync(st, source).value.uniforms, "displacementMap") == Lookup(source, "displacementMap")
    ensures Lookup(ParamSync(st, source).value.props, "displacementMap") == Lookup(source, "displacementMap")
  {
    SyncKeysState(st, source, MapKeys, true);
    SyncKeysOutcome(st, source, MapKeys, true);
    var maps := SyncKeys(st, source, MapKeys, true).value;
    assert MapKeys[8] == "displacementMap";
    SyncKeysState(maps, source, UniformKeys, false);
  }

  /** As written, a source material without a color throws a ReferenceError, once the sync lists have gone through. */
  lemma ColorlessSourceThrows(st: MaterialState, source: map<string, Value>)
    requires !Present(Lookup(source, "color"))
    ensures ParamSyncAsWritten(st, source).Failure?
    ensures var maps := SyncKeys(st, source, MapKeysAsWritten, true);
      maps.Success? && SyncKeys(maps.value, source, UniformKeys, false).Success? ==>
        ParamSyncAsWritten(st, source) == Failure(ColorNotDefined)
  {
  }

  /** The smallest instance: any material built from a glTF material with no properties at all throws. */
  lemma EmptySourceThrows(st: MaterialState)
    ensures ParamSyncAsWritten(st, map[]) == Failure(ColorNotDefined)
  {
    SyncKeysOutcome(st, map[], MapKeysAsWritten, true);
    var maps := SyncKeys(st, map[], MapKeysAsWritten, true).value;
    SyncKeysOutcome(maps, map[], UniformKeys, false);
  }

  /**
   * With the default color, the sync fails only for a missing slot, and the
   * diffuse slot holds the source color or white.
   */
  lemma DiffuseDefaultsToWhite(st: MaterialState, source: map<string, Value>)
    requires "diffuse" in st.uniforms
    requires AllSlots(st.uniforms, source, MapKeys) && AllSlots(st.uniforms, source, UniformKeys)
    ensures ParamSync(st, source).Success?
    ensures Lookup(ParamSync(st, source).value.uniforms, "diffuse") ==
      if Present(Lookup(source, "color")) then Lookup(source, "color") else White
  {
    SyncKeysOutcome(st, source, MapKeys, true);
    SyncKeysState(st, source, MapKeys, true);
    var maps := SyncKeys(st, source, MapKeys, true).value;
    assert forall k :: k in maps.uniforms <==> k in st.uniforms;
    assert AllSlots(maps.uniforms, source, UniformKeys);
    SyncKeysOutcome(maps, source, UniformKeys, false);
    SyncKeysState(maps, source, UniformKeys, false);
  }

  /** As written, the texture LOD branch always throws. */
  lemma LodBranchThrows(st: MaterialState, env: EnvironmentView)
    requires env.textureLODSupport
    ensures EnvSettingAsWritten(st, env) == Failure(UndefinedCubeMapEnv)
  {
  }

  /** Without texture LOD support the written and the corrected step agree. */
  lemma EnvSettingAgrees(st: MaterialState, env: EnvironmentView)
    requires !env.textureLODSupport
    ensures EnvSettingAsWritten(st, env) == Success(EnvSetting(st, env))
  {
  }

  /**
   * A constructed material's defines: the default table, `MOBILE` on mobile,
   * and the specular-glossiness keys for such source materials.
   */
  lemma ConstructDefines(source: SourceMaterial, env: EnvironmentView, options: MaterialOptions, library: map<string, Value>,
                         normalMatrix: Value)
    requires Construct(source, env, options, library, normalMatrix).Success?
    ensures var d := Construct(source, env, options, library, normalMatrix).value.defines;
      forall k :: k in d <==>
        k in DefaultDefines || (k == "MOBILE" && env.isMobile) ||
        (source.isSpecularGlossiness &&
          (k == "SPECULAR_GLOSSINESS" ||
           (k == "USE_SPECULARMAP" && Present(source.extra.specularMap)) ||
           (k == "USE_GLOSSINESSMAP" && Present(source.extra.glossinessMap))))
  {
    var st1 := EnvSetting(InitialState(source, options, library, normalMatrix), env);
    SyncKeysState(st1, source.props, MapKeys, true);
    var maps := SyncKeys(st1, source.props, MapKeys, true).value;
    SyncKeysState(maps, source.props, UniformKeys, false);
  }

  /**
   * A constructed material has the source's normal map type (which `copy`
   * leaves out), the expanded shader pair passed in `options`, and `lights`
   * on.
   */
  lemma ConstructSetup(source: SourceMaterial, env: EnvironmentView, options: MaterialOptions, library: map<string, Value>,
                       normalMatrix: Value)
    requires Construct(source, env, options, library, normalMatrix).Success?
    ensures var st := Construct(source, env, options, library, normalMatrix).value;
      st.normalMapType == Lookup(source.props, "normalMapType") &&
      st.vertexShader == options.pbrVS && st.fragmentShader == options.pbrFS && st.lights
  {
    var st1 := EnvSetting(InitialState(source, options, library, normalMatrix), env);
    SyncKeysState(st1, source.props, MapKeys, true);
    var maps := SyncKeys(st1, source.props, MapKeys, true).value;
    SyncKeysState(maps, source.props, UniformKeys, false);
  }

  /**
   * As written, a material keeps the raw shader text. When the raw vertex
   * source opens with a `#preImport` line, `getPBRShader` replaces that line
   * by the chunk, yet the material's vertex shader still starts with the
   * directive, which is not shader-language text.
   */
  lemma RawShaderKeepsDirective(blanks: string, spaces: string, name: string, rest: string, rawFS: string,
                                chunks: map<string, string>, fuel: nat, options: MaterialOptions)
    requires ShaderProgram.WellFormed(blanks, spaces, name) && name in chunks && ShaderProgram.NoDirective(chunks[name])
    requires forall j :: 0 < j <= |rest| ==> ShaderProgram.DirectiveAt(rest, j).None?
    requires fuel > 0
    ensures var rawVS := ShaderProgram.DirectiveText(blanks, spaces, name) + rest;
      ShaderProgram.PreParse(rawVS, chunks, fuel) == Success(chunks[name] + rest) &&
      ShaderProgram.DirectiveAt(ShadersAsWritten(rawVS, rawFS, options).0, 0).Some? &&
      ShadersAsWritten(rawVS, rawFS, options).0 != chunks[name] + rest
  {
    var text := ShaderProgram.DirectiveText(blanks, spaces, name);
    var rawVS := text + rest;
    ShaderProgram.SingleInclude(blanks, spaces, name, rest, chunks, fuel);
    assert rawVS[0..|text|] == text;
    ShaderProgram.DirectiveComplete(rawVS, 0, blanks, spaces, name);
    assert text[0..|text|] == text;
    ShaderProgram.DirectiveComplete(text, 0, blanks, spaces, name);
    assert ShaderProgram.DirectiveAt(chunks[name], 0).None?;
    assert chunks[name] != text;
    assert rawVS[..|text|] == text;
    assert |chunks[name]| == |text| ==> (chunks[name] + rest)[..|text|] == chunks[name];
  }

  class PBRMaterial {
    /** Fresh per material, so later edits never reach `DefaultDefines`. */
    const defines: Defines
    var uniforms: map<string, Value>
    var props: map<string, Value>
    var normalMapType: Value
    var vertexShader: string
    var fragmentShader: string
    var lights: bool
    var needsUpdate: bool

    ghost function State(): MaterialState
      reads this, defines
    {
      MaterialState(uniforms, props, defines.entries, normalMapType, vertexShader, fragmentShader, lights)
    }

    /** Everything but the define table: the part a define recomposition leaves alone. */
    ghost function Settings(): MaterialState
      reads this
    {
      MaterialState(uniforms, props, map[], normalMapType, vertexShader, fragmentShader, lights)
    }

    /** The constructor up to the uniform merge: the define copy, the normal map type and the two extra slots. */
    constructor (source: SourceMaterial, options: MaterialOptions, library: map<string, Value>, normalMatrix: Value)
      ensures fresh(defines)
      ensures State() == InitialState(source, options, library, normalMatrix) && !needsUpdate
    {
      defines := new Defines(DefaultDefines);
      normalMapType := Lookup(source.props, "normalMapType");
      uniforms := InitialUniforms(library, options.shadowDepthRange, normalMatrix);
      props := map[];
      vertexShader := DefaultShader;
      fragmentShader := DefaultShader;
      lights := false;
      needsUpdate := false;
    }

    method SyncEnvSetting(env: EnvironmentView)
      modifies this, defines
      ensures State() == EnvSetting(old(State()), env)
      ensures needsUpdate == old(needsUpdate)
    {
      uniforms := uniforms["uEnvironmentSphericalHarmonics" := env.sphericalHarmonics];
      if env.textureLODSupport {
        uniforms := uniforms["uEnvironmentLodRange" := env.lodRange];
        uniforms := uniforms["uEnvironmentSize" := env.environmentSize];
        props := props["envMap" := env.mapTexture];
        uniforms := uniforms["envMap" := env.mapTexture];
      }
      if env.isMobile {
        defines.entries := defines.entries["MOBILE" := 1];
      } else {
        uniforms := uniforms["uIntegrateBRDF" := env.integrateBRDF];
      }
    }

    /** One `forEach` over a sync list. */
    method SyncList(source: map<string, Value>, keys: seq<string>, copyProp: bool) returns (r: Outcome<Error>)
      modifies this
      ensures var s := SyncKeys(old(State()), source, keys, copyProp);
        (r.Pass? <==> s.Success?) && (r.Fail? ==> r.error == s.error) && (r.Pass? ==> State() == s.value)
      ensures needsUpdate == old(needsUpdate)
    {
      var i := 0;
      while i < |keys|
        invariant 0 <= i <= |keys|
        invariant SyncKeys(old(State()), source, keys[..i], copyProp) == Success(State())
        invariant needsUpdate == old(needsUpdate)
      {
        assert keys[..i + 1][..i] == keys[..i];
        var k := keys[i];
        if k in source && Present(source[k]) {
          if copyProp {
            props := props[k := source[k]];
          }
          if k !in uniforms {
            assert keys[..i + 1] + keys[i + 1..] == keys;
            SyncFailureStays(old(State()), source, keys, copyProp, i + 1);
            return Fail(MissingUniform(k));
          }
          uniforms := uniforms[k := source[k]];
        }
        i := i + 1;
      }
      assert keys[..i] == keys;
      return Pass;
    }

    method SyncParam(source: map<string, Value>) returns (r: Outcome<Error>)
      modifies this
      ensures var s := ParamSync(old(State()), source);
        (r.Pass? <==> s.Success?) && (r.Fail? ==> r.error == s.error) && (r.Pass? ==> State() == s.value)
      ensures needsUpdate == old(needsUpdate)
    {
      r := SyncList(source, MapKeys, true);
      if r.Fail? {
        return;
      }
      r := SyncList(source, UniformKeys, false);
      if r.Fail? {
        return;
      }
      var color := if "color" in source && Present(source["color"]) then source["color"] else White;
      if "diffuse" !in uniforms {
        return Fail(MissingUniform("diffuse"));
      }
      uniforms := uniforms["diffuse" := color];
    }

    method InitSGWorkflow(extra: GlossinessUniforms)
      modifies this, defines
      ensures State() == SGWorkflow(old(State()), extra)
      ensures needsUpdate == old(needsUpdate)
    {
      defines.entries := defines.entries["SPECULAR_GLOSSINESS" := 1];
      if Present(extra.specularMap) {
        defines.entries := defines.entries["USE_SPECULARMAP" := 1];
        uniforms := uniforms["specularMap" := extra.specularMap];
      }
      if Present(extra.glossinessMap) {
        defines.entries := defines.entries["USE_GLOSSINESSMAP" := 1];
        uniforms := uniforms["glossinessMap" := extra.glossinessMap];
      }
      uniforms := uniforms["specularFactor" := extra.specular];
      uniforms := uniforms["glossinessFactor" := extra.glossiness];
    }
  }

  /** A sync list that has failed on a prefix fails with the same error on the whole list. */
  lemma {:induction false} SyncFailureStays(st: MaterialState, source: map<string, Value>, keys: seq<string>, copyProp: bool,
                                            n: nat)
    requires n <= |keys| && SyncKeys(st, source, keys[..n], copyProp).Failure?
    ensures SyncKeys(st, source, keys, copyProp) == SyncKeys(st, source, keys[..n], copyProp)
    decreases |keys| - n
  {
    if n < |keys| {
      assert keys[..n + 1][..n] == keys[..n];
      SyncFailureStays(st, source, keys, copyProp, n + 1);
    } else {
      assert keys[..n] == keys;
    }
  }

  /** The mesh whose glTF material a `PBRMaterial` replaces. */
  class Mesh {
    const material: SourceMaterial
    /** `onBeforeRender` is installed: before each draw it writes the mesh's normal matrix into `uModelNormalMatrix`. */
    var syncsNormalMatrix: bool

    constructor (material: SourceMaterial)
      ensures this.material == material && !syncsNormalMatrix
    {
      this.material := material;
      syncsNormalMatrix := false;
    }
  }

  /**
   * `new PBRMaterial(mesh, environment, options)`: the constructor's steps in
   * order; a throw leaves no material and no render hook on the mesh.
   */
  method Create(mesh: Mesh, env: EnvironmentView, options: MaterialOptions, library: map<string, Value>, normalMatrix: Value)
    returns (r: Result<PBRMaterial, Error>)
    modifies mesh
    ensures var c := Construct(mesh.material, env, options, library, normalMatrix);
      (r.Success? <==> c.Success?) && (r.Failure? ==> r.error == c.error) &&
      (r.Success? ==> fresh(r.value) && fresh(r.value.defines) && r.value.State() == c.value && r.value.needsUpdate)
    ensures mesh.syncsNormalMatrix <==> r.Success? || old(mesh.syncsNormalMatrix)
  {
    var source := mesh.material;
    var m := new PBRMaterial(source, options, library, normalMatrix);
    m.SyncEnvSetting(env);
    var synced := m.SyncParam(source.props);
    if synced.Fail? {
      return Failure(synced.error);
    }
    m.vertexShader := options.pbrVS;
    m.fragmentShader := options.pbrFS;
    m.lights := true;
    if source.isSpecularGlossiness {
      m.InitSGWorkflow(source.extra);
    }
    mesh.syncsNormalMatrix := true;
    m.needsUpdate := true;
    return Success(m);
  }
}
