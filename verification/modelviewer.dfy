/**
 * The viewer's define-table composer: the GUI state decides which shader
 * defines a material compiles with. `setDefinesFromGUI` deletes every key its
 * cleanup pattern matches and re-inserts the toggles and one key per
 * equation axis; `reCompileShader` runs it on every mesh material.
 */
module ModelViewer {
  import opened JsString
  import opened ShaderDefines
  import opened PBR

  /** The option lists of the equation and ambient-occlusion menus. */
  const DiffuseEquations: seq<string> := ["Lambert", "Burley", "OrenNayar", "Gotanda", "None"]
  const FresnelEquations: seq<string> := ["Schlick", "CookTorrance", "None"]
  const NDFEquations: seq<string> := ["GGX", "BlinnPhong", "Beckmann"]
  const VisEquations: seq<string> := ["SmithJointApprox", "Implicit", "Neumann", "Kelemen", "Schlick", "Smith", "HammonApprox"]
  const SpecularAOOptions: seq<string> := ["Seblagarde", "Marmosetco", "None"]

  /** The GUI parameters the composer reads. */
  datatype GuiParams = GuiParams(
    enableIBL: bool,
    enableLight: bool,
    enableCompensation: bool,
    diffuseEquation: string,
    specularFresnelEquation: string,
    specularNDFEquation: string,
    specularVisEquation: string,
    specularAO: string)

  /**
   * The parameters `initGUI` starts from: the toggles read off the default
   * table (which has no `ENERGY_COMPENSATION`) and the first entry of each list.
   */
  const InitialParams: GuiParams :=
    GuiParams(
      "ENABLE_IBL" in DefaultDefines && DefaultDefines["ENABLE_IBL"] != 0,
      "ENABLE_LIGHT" in DefaultDefines && DefaultDefines["ENABLE_LIGHT"] != 0,
      "ENERGY_COMPENSATION" in DefaultDefines && DefaultDefines["ENERGY_COMPENSATION"] != 0,
      DiffuseEquations[0], FresnelEquations[0], NDFEquations[0], VisEquations[0], SpecularAOOptions[0])

  /**
   * The words of the cleanup pattern. It is unanchored and each `X_*`
   * alternative means `X` followed by any number of underscores, so a key is
   * matched when it contains one of these words; `F_*` and `V_*` match any key
   * with an F or a V.
   */
  const CleanupWords: seq<string> :=
    ["ENABLE_IBL", "ENABLE_LIGHT", "ENERGY_COMPENSATION", "DIFFUSE", "F", "NDF", "V", "SPECULAR_AO"]

  /** `key` contains one of `words`. */
  predicate ContainsAny(key: string, words: seq<string>)
    decreases |words|
  {
    |words| > 0 && (Contains(key, words[0]) || ContainsAny(key, words[1..]))
  }

  /** `reg.test(key)` */
  predicate Cleaned(key: string) {
    ContainsAny(key, CleanupWords)
  }

  lemma {:induction false} ContainsAnyIndex(key: string, words: seq<string>)
    ensures ContainsAny(key, words) <==> exists i :: 0 <= i < |words| && Contains(key, words[i])
    decreases |words|
  {
    if |words| > 0 {
      ContainsAnyIndex(key, words[1..]);
      if exists i :: 0 <= i < |words| && Contains(key, words[i]) {
        var i :| 0 <= i < |words| && Contains(key, words[i]);
        if i > 0 {
          assert words[1..][i - 1] == words[i];
        }
      }
    }
  }

  /** A key that contains one of the words is matched. */
  lemma CleanedBy(key: string, i: nat)
    requires i < |CleanupWords| && Contains(key, CleanupWords[i])
    ensures Cleaned(key)
  {
    ContainsAnyIndex(key, CleanupWords);
  }

  /** A key that contains none of the words is not matched. */
  lemma NotCleaned(key: string)
    requires forall i :: 0 <= i < |CleanupWords| ==> !Contains(key, CleanupWords[i])
    ensures !Cleaned(key)
  {
    ContainsAnyIndex(key, CleanupWords);
  }

  /** Each word of the pattern is matched by itself. */
  lemma SelfCleaned(key: string, i: nat)
    requires i < |CleanupWords| && key == CleanupWords[i]
    ensures Cleaned(key)
  {
    ContainsAt(key, CleanupWords[i], 0);
    CleanedBy(key, i);
  }

  /** A key that lacks, for each word, one of that word's characters is not matched. */
  lemma NotCleanedByMissing(key: string, missing: seq<char>)
    requires |missing| == |CleanupWords|
    requires forall i :: 0 <= i < |CleanupWords| ==> missing[i] in CleanupWords[i] && missing[i] !in key
    ensures !Cleaned(key)
  {
    forall i | 0 <= i < |CleanupWords|
      ensures !Contains(key, CleanupWords[i])
    {
      MissingElement(key, CleanupWords[i], missing[i]);
    }
    NotCleaned(key);
  }

  /** The equation axes, each written into the table as one prefixed key. */
  datatype Axis = Diffuse | Fresnel | NDF | Vis | SpecularAO

  function Prefix(a: Axis): string {
    match a
    case Diffuse => "DIFFUSE_"
    case Fresnel => "F_"
    case NDF => "NDF_"
    case Vis => "V_"
    case SpecularAO => "SPECULAR_AO_"
  }

  function Selected(p: GuiParams, a: Axis): string {
    match a
    case Diffuse => p.diffuseEquation
    case Fresnel => p.specularFresnelEquation
    case NDF => p.specularNDFEquation
    case Vis => p.specularVisEquation
    case SpecularAO => p.specularAO
  }

  /** The key an axis contributes: its prefix and the upper-cased option. */
  function AxisKey(p: GuiParams, a: Axis): string {
    Prefix(a) + ToUpper(Selected(p, a))
  }

  /** The keys the reset step writes, all with value 1. */
  function Inserted(p: GuiParams): map<string, int> {
    ToggleKeys(p) + AxisKeys(p)
  }

  /** One key per axis. */
  function AxisKeys(p: GuiParams): map<string, int> {
    map[AxisKey(p, Diffuse) := 1, AxisKey(p, Fresnel) := 1, AxisKey(p, NDF) := 1, AxisKey(p, Vis) := 1,
        AxisKey(p, SpecularAO) := 1]
  }

  /** The toggle defines that are on, written in the order the reset writes them. */
  function ToggleKeys(p: GuiParams): map<string, int> {
    var ibl := if p.enableIBL then map["ENABLE_IBL" := 1] else map[];
    var light := if p.enableLight then ibl["ENABLE_LIGHT" := 1] else ibl;
    if p.enableCompensation then light["ENERGY_COMPENSATION" := 1] else light
  }

  /** Writing the axis keys one by one onto a table with the toggles adds `Inserted`. */
  lemma AxisWrites(m: map<string, int>, p: GuiParams)
    ensures (m + ToggleKeys(p))[AxisKey(p, Diffuse) := 1][AxisKey(p, Fresnel) := 1][AxisKey(p, NDF) := 1]
              [AxisKey(p, Vis) := 1][AxisKey(p, SpecularAO) := 1] == m + Inserted(p)
  {
    var t := ToggleKeys(p);
    var d, f, n, v, a := AxisKey(p, Diffuse), AxisKey(p, Fresnel), AxisKey(p, NDF), AxisKey(p, Vis), AxisKey(p, SpecularAO);
    UnionUpdate(m, t, d);
    UnionUpdate(m, t[d := 1], f);
    UnionUpdate(m, t[d := 1][f := 1], n);
    UnionUpdate(m, t[d := 1][f := 1][n := 1], v);
    UnionUpdate(m, t[d := 1][f := 1][n := 1][v := 1], a);
    assert t + map[d := 1, f := 1, n := 1, v := 1, a := 1] == t[d := 1][f := 1][n := 1][v := 1][a := 1];
  }

  lemma UnionUpdate(m: map<string, int>, n: map<string, int>, k: string)
    ensures (m + n)[k := 1] == m + n[k := 1]
  {
  }

  /** The table after cleanup and reset. */
  function Compose(table: map<string, int>, p: GuiParams): map<string, int> {
    Kept(table) + Inserted(p)
  }

  /** The table after cleanup. */
  function Kept(table: map<string, int>): map<string, int> {
    map k | k in table && !Cleaned(k) :: table[k]
  }

  // ----- string facts behind the lemmas -----

  /** Every key an axis writes, and every key with an axis prefix, is matched by the cleanup pattern. */
  lemma PrefixCleaned(a: Axis, key: string)
    requires StartsWith(key, Prefix(a))
    ensures Cleaned(key)
  {
    var i := match a
      case Diffuse => 3
      case Fresnel => 4
      case NDF => 5
      case Vis => 6
      case SpecularAO => 7;
    var word := CleanupWords[i];
    assert key[..|word|] == Prefix(a)[..|word|] == word;
    ContainsAt(key, word, 0);
    CleanedBy(key, i);
  }

  lemma AxisKeyStarts(p: GuiParams, a: Axis)
    ensures StartsWith(AxisKey(p, a), Prefix(a))
  {
    assert AxisKey(p, a)[..|Prefix(a)|] == Prefix(a);
  }

  /** Every key the reset writes is one the cleanup deletes. */
  lemma InsertedCleaned(p: GuiParams)
    ensures forall k :: k in Inserted(p) ==> Cleaned(k)
  {
    forall k | k in Inserted(p)
      ensures Cleaned(k)
    {
      if k in ToggleKeys(p) {
        ToggleCleaned(k);
      } else {
        var a := AxisOf(p, k);
        AxisCleaned(p, a);
      }
    }
  }

  /** The axis whose key a written axis key is. */
  lemma AxisOf(p: GuiParams, k: string) returns (a: Axis)
    requires k in AxisKeys(p)
    ensures k == AxisKey(p, a)
  {
    a := if k == AxisKey(p, Diffuse) then Diffuse
      else if k == AxisKey(p, Fresnel) then Fresnel
      else if k == AxisKey(p, NDF) then NDF
      else if k == AxisKey(p, Vis) then Vis
      else SpecularAO;
  }

  lemma AxisCleaned(p: GuiParams, a: Axis)
    ensures Cleaned(AxisKey(p, a))
  {
    AxisKeyStarts(p, a);
    PrefixCleaned(a, AxisKey(p, a));
  }

  /** Every toggle key starts with `E`. */
  lemma ToggleHeads(p: GuiParams)
    ensures forall k :: k in ToggleKeys(p) ==> |k| > 0 && k[0] == 'E'
  {
  }

  lemma TogglesCleaned()
    ensures Cleaned("ENABLE_IBL") && Cleaned("ENABLE_LIGHT") && Cleaned("ENERGY_COMPENSATION")
  {
    SelfCleaned("ENABLE_IBL", 0);
    SelfCleaned("ENABLE_LIGHT", 1);
    SelfCleaned("ENERGY_COMPENSATION", 2);
  }

  // ----- properties of the composer -----

  /**
   * The composed table holds exactly the unmatched keys of the old table,
   * with their old values, and the reset keys with value 1.
   */
  lemma ComposeKeys(table: map<string, int>, p: GuiParams)
    ensures forall k :: k in Compose(table, p) <==> (k in table && !Cleaned(k)) || k in Inserted(p)
    ensures forall k :: k in table && !Cleaned(k) ==> Compose(table, p)[k] == table[k]
    ensures forall k :: k in Inserted(p) ==> Compose(table, p)[k] == 1
  {
    var added := Inserted(p);
    InsertedCleaned(p);
    KeptUnion(table, added);
    assert Compose(table, p) == Kept(table) + added;
  }

  /** Adding cleaned keys to the kept table leaves the kept keys as they were. */
  lemma KeptUnion(table: map<string, int>, added: map<string, int>)
    requires forall k :: k in added ==> Cleaned(k)
    ensures forall k :: k in Kept(table) + added <==> (k in table && !Cleaned(k)) || k in added
    ensures forall k :: k in table && !Cleaned(k) ==> (Kept(table) + added)[k] == table[k]
    ensures forall k :: k in added ==> (Kept(table) + added)[k] == added[k]
  {
  }

  /** Every matched key of the old table is gone unless the reset writes it again. */
  lemma MatchedDropped(table: map<string, int>, p: GuiParams, k: string)
    requires Cleaned(k) && k !in Inserted(p)
    ensures k !in Compose(table, p)
  {
  }

  /** The first characters of the reset keys tell the toggles from the axis keys. */
  lemma AxisKeyHead(p: GuiParams, a: Axis)
    ensures AxisKey(p, a)[0] == Prefix(a)[0]
  {
  }

  /** Each toggle's define is present exactly when the toggle is on, with value 1. */
  lemma Toggles(table: map<string, int>, p: GuiParams)
    ensures "ENABLE_IBL" in Compose(table, p) <==> p.enableIBL
    ensures "ENABLE_LIGHT" in Compose(table, p) <==> p.enableLight
    ensures "ENERGY_COMPENSATION" in Compose(table, p) <==> p.enableCompensation
    ensures p.enableIBL ==> Compose(table, p)["ENABLE_IBL"] == 1
    ensures p.enableLight ==> Compose(table, p)["ENABLE_LIGHT"] == 1
    ensures p.enableCompensation ==> Compose(table, p)["ENERGY_COMPENSATION"] == 1
  {
    ToggleKept(table, p, "ENABLE_IBL", p.enableIBL);
    ToggleKept(table, p, "ENABLE_LIGHT", p.enableLight);
    ToggleKept(table, p, "ENERGY_COMPENSATION", p.enableCompensation);
  }

  lemma ToggleKept(table: map<string, int>, p: GuiParams, key: string, on: bool)
    requires (key == "ENABLE_IBL" && on == p.enableIBL) || (key == "ENABLE_LIGHT" && on == p.enableLight) ||
             (key == "ENERGY_COMPENSATION" && on == p.enableCompensation)
    ensures key in Compose(table, p) <==> on
    ensures on ==> Compose(table, p)[key] == 1
  {
    ToggleCleaned(key);
    CleanedNotKept(table, key);
    NotAxisKey(p, key);
  }

  lemma ToggleCleaned(key: string)
    requires key == "ENABLE_IBL" || key == "ENABLE_LIGHT" || key == "ENERGY_COMPENSATION"
    ensures Cleaned(key)
  {
    TogglesCleaned();
  }

  lemma CleanedNotKept(table: map<string, int>, key: string)
    requires Cleaned(key)
    ensures key !in Kept(table)
  {
  }

  /** No axis key starts with `E` or `U`. */
  lemma NotAxisKey(p: GuiParams, key: string)
    requires |key| > 0 && (key[0] == 'E' || key[0] == 'U')
    ensures key !in AxisKeys(p)
  {
    forall a: Axis
      ensures AxisKey(p, a) != key
    {
      AxisKeyHead(p, a);
    }
  }

  /** Two different axes never write keys with the same prefix. */
  lemma PrefixesApart(a: Axis, b: Axis, key: string)
    requires StartsWith(key, Prefix(a)) && StartsWith(key, Prefix(b))
    ensures a == b
  {
    assert key[0] == Prefix(a)[0] == Prefix(b)[0];
  }

  /**
   * After a composition each axis has exactly one key with its prefix: the
   * prefix followed by the upper-cased selected option.
   */
  lemma OneKeyPerAxis(table: map<string, int>, p: GuiParams, a: Axis)
    ensures forall k :: k in Compose(table, p) && StartsWith(k, Prefix(a)) <==> k == AxisKey(p, a)
    ensures Compose(table, p)[AxisKey(p, a)] == 1
  {
    ComposeKeys(table, p);
    AxisKeyStarts(p, a);
    AxisInserted(p, a);
    forall k | k in Compose(table, p) && StartsWith(k, Prefix(a))
      ensures k == AxisKey(p, a)
    {
      PrefixCleaned(a, k);
      var b := InsertedAxis(p, k);
      AxisKeyStarts(p, b);
      PrefixesApart(a, b, k);
    }
  }

  lemma AxisInserted(p: GuiParams, a: Axis)
    ensures AxisKey(p, a) in Inserted(p)
  {
  }

  /** A written key that does not start with `E` is an axis key. */
  lemma InsertedAxis(p: GuiParams, k: string) returns (b: Axis)
    requires k in Inserted(p) && |k| > 0 && k[0] != 'E'
    ensures k == AxisKey(p, b)
  {
    ToggleHeads(p);
    b := AxisOf(p, k);
  }

  /** Composing twice with the same parameters gives the table composing once gives. */
  lemma ComposeIdempotent(table: map<string, int>, p: GuiParams)
    ensures Compose(Compose(table, p), p) == Compose(table, p)
  {
    var added := Inserted(p);
    InsertedCleaned(p);
    KeptAgain(table, added);
    assert Compose(table, p) == Kept(table) + added;
  }

  /** Cleaning a kept table with cleaned keys added gives the kept table back. */
  lemma KeptAgain(table: map<string, int>, added: map<string, int>)
    requires forall k :: k in added ==> Cleaned(k)
    ensures Kept(Kept(table) + added) == Kept(table)
  {
  }

  /** The default table has no ambient-occlusion key, though the GUI starts with an option selected. */
  lemma DefaultLacksSpecularAO()
    ensures forall k :: k in DefaultDefines ==> !StartsWith(k, Prefix(SpecularAO))
    ensures AxisKey(InitialParams, SpecularAO) !in DefaultDefines
    ensures Compose(DefaultDefines, InitialParams) != DefaultDefines
  {
    forall k | k in DefaultDefines
      ensures k[0] != 'S'
    {
    }
    AxisKeyHead(InitialParams, SpecularAO);
    OneKeyPerAxis(DefaultDefines, InitialParams, SpecularAO);
  }

  /** The key the first composition adds for the ambient-occlusion axis. */
  lemma InitialSpecularAOKey()
    ensures AxisKey(InitialParams, SpecularAO) == "SPECULAR_AO_SEBLAGARDE"
  {
    assert ToUpper("Seblagarde") == "SEBLAGARDE";
  }

  /** The keys the material seeds outside the default table. */
  const MaterialKeys: set<string> := {"MOBILE", "SPECULAR_GLOSSINESS", "USE_SPECULARMAP", "USE_GLOSSINESSMAP"}

  /** A key with no `A` after its first nine characters cannot contain `SPECULAR_AO`, whose `A` at 9 is preceded by more. */
  lemma NoLateA(key: string, head: string, tail: string)
    requires key == head + tail && |head| == 9 && 'A' !in tail
    ensures !Contains(key, CleanupWords[7])
  {
    var word := CleanupWords[7];
    forall i
      ensures !MatchAt(key, word, i)
    {
      if 0 <= i && i + |word| <= |key| {
        assert key[i..i + |word|][9] == key[i + 9] == tail[i];
      }
    }
    ContainsIff(key, word);
  }

  /**
   * A key that lacks one character of each of the first seven words and has
   * no `A` after its first nine characters is not matched: this covers
   * `SPECULAR_GLOSSINESS`, which has every character of `SPECULAR_AO`.
   */
  lemma NotCleanedByMissingOrLateA(key: string, missing: seq<char>, head: string, tail: string)
    requires key == head + tail && |head| == 9 && 'A' !in tail
    requires |missing| == 7 && forall i :: 0 <= i < 7 ==> missing[i] in CleanupWords[i] && missing[i] !in key
    ensures !Cleaned(key)
  {
    NoLateA(key, head, tail);
    forall i | 0 <= i < 7
      ensures !Contains(key, CleanupWords[i])
    {
      MissingElement(key, CleanupWords[i], missing[i]);
    }
    NotCleaned(key);
  }

  /** The keys the material seeds are left alone by every composition. */
  lemma MaterialKeysKept(table: map<string, int>, p: GuiParams)
    ensures forall k :: k in MaterialKeys && k in table ==> k in Compose(table, p) && Compose(table, p)[k] == table[k]
  {
    forall k | k in MaterialKeys && k in table
      ensures k in Compose(table, p) && Compose(table, p)[k] == table[k]
    {
      MaterialKeyUnmatched(k);
      UnmatchedKept(table, p, k);
    }
  }

  /** None of the material's own keys is matched by the cleanup pattern. */
  lemma MaterialKeyUnmatched(k: string)
    requires k in MaterialKeys
    ensures !Cleaned(k)
  {
    if k == "MOBILE" {
      MobileUnmatched(k);
    } else if k == "USE_SPECULARMAP" {
      SpecularMapUnmatched(k);
    } else if k == "USE_GLOSSINESSMAP" {
      GlossinessMapUnmatched(k);
    } else {
      SpecularGlossinessUnmatched(k);
    }
  }

  lemma MobileUnmatched(k: string)
    requires k == "MOBILE"
    ensures !Cleaned(k)
  {
    NotCleanedByMissing(k, "NNNDFNVS");
  }

  lemma SpecularMapUnmatched(k: string)
    requires k == "USE_SPECULARMAP"
    ensures !Cleaned(k)
  {
    NotCleanedByMissing(k, "NNNDFNVO");
  }

  lemma GlossinessMapUnmatched(k: string)
    requires k == "USE_GLOSSINESSMAP"
    ensures !Cleaned(k)
  {
    NotCleanedByMissing(k, "BBRDFDVC");
  }

  lemma SpecularGlossinessUnmatched(k: string)
    requires k == "SPECULAR_GLOSSINESS"
    ensures !Cleaned(k)
  {
    NotCleanedByMissingOrLateA(k, "BBMDFDV", "SPECULAR_", "GLOSSINESS");
  }

  /** A key the pattern does not match keeps its value. */
  lemma UnmatchedKept(table: map<string, int>, p: GuiParams, k: string)
    requires k in table && !Cleaned(k)
    ensures k in Compose(table, p) && Compose(table, p)[k] == table[k]
  {
    InsertedCleaned(p);
  }

  /**
   * The pattern also deletes keys it was not aimed at: any key with an F or a
   * V, such as `USE_FOG`, unless the reset writes it back.
   */
  lemma LetterKeyDropped(table: map<string, int>, p: GuiParams, key: string)
    requires 'F' in key || 'V' in key
    requires key !in Inserted(p)
    ensures key !in Compose(table, p)
  {
    var i := if 'F' in key then 4 else 6;
    var j :| 0 <= j < |key| && key[j] == CleanupWords[i][0];
    assert key[j..j + 1] == CleanupWords[i];
    ContainsAt(key, CleanupWords[i], j);
    CleanedBy(key, i);
  }

  /** No axis or toggle key starts with `U`, so a key like `USE_FOG` is never written back. */
  lemma NotInsertedByHead(p: GuiParams, key: string)
    requires |key| > 0 && key[0] == 'U'
    ensures key !in Inserted(p)
  {
    ToggleHeads(p);
    NotAxisKey(p, key);
  }

  /** A scene-graph node, in traversal order; only meshes carry a material. */
  class SceneNode {
    const isMesh: bool
    var material: PBRMaterial?

    constructor (isMesh: bool, material: PBRMaterial?)
      ensures this.isMesh == isMesh && this.material == material
    {
      this.isMesh := isMesh;
      this.material := material;
    }
  }

  class ModelViewer {
    var guiParams: GuiParams
    /** `background.material.needsUpdate` */
    var backgroundNeedsUpdate: bool

    /** The GUI part of construction: `initGUI`'s parameter record. */
    constructor ()
      ensures guiParams == InitialParams && !backgroundNeedsUpdate
    {
      guiParams := InitialParams;
      backgroundNeedsUpdate := false;
    }

    /** `setDefinesFromGUI`: rewrites the table in place and returns the same object. */
    method SetDefinesFromGUI(defines: Defines) returns (r: Defines)
      modifies defines
      ensures r == defines
      ensures defines.entries == Compose(old(defines.entries), guiParams)
    {
      DeleteMatched(defines);
      Reset(defines);
      return defines;
    }

    /** The clean step: deletes each key of a snapshot of the keys that the pattern matches. */
    method DeleteMatched(defines: Defines)
      modifies defines
      ensures defines.entries == Kept(old(defines.entries))
    {
      ghost var table := defines.entries;
      var keys := defines.entries.Keys;
      while keys != {}
        invariant keys <= table.Keys
        invariant defines.entries == map k | k in table && (k in keys || !Cleaned(k)) :: table[k]
        decreases |keys|
      {
        var k :| k in keys;
        if Cleaned(k) {
          defines.entries := defines.entries - {k};
        }
        keys := keys - {k};
      }
    }

    /** The reset step: writes the toggles that are on and one key per axis. */
    method Reset(defines: Defines)
      modifies defines
      ensures defines.entries == old(defines.entries) + Inserted(guiParams)
    {
      var p := guiParams;
      ghost var written: map<string, int> := map[];
      if p.enableIBL {
        defines.entries := defines.entries["ENABLE_IBL" := 1];
        UnionUpdate(old(defines.entries), written, "ENABLE_IBL");
        written := written["ENABLE_IBL" := 1];
      }
      if p.enableLight {
        defines.entries := defines.entries["ENABLE_LIGHT" := 1];
        UnionUpdate(old(defines.entries), written, "ENABLE_LIGHT");
        written := written["ENABLE_LIGHT" := 1];
      }
      if p.enableCompensation {
        defines.entries := defines.entries["ENERGY_COMPENSATION" := 1];
        UnionUpdate(old(defines.entries), written, "ENERGY_COMPENSATION");
        written := written["ENERGY_COMPENSATION" := 1];
      }
      assert defines.entries == old(defines.entries) + ToggleKeys(p);
      defines.entries := defines.entries["DIFFUSE_" + ToUpper(p.diffuseEquation) := 1];
      defines.entries := defines.entries["F_" + ToUpper(p.specularFresnelEquation) := 1];
      defines.entries := defines.entries["NDF_" + ToUpper(p.specularNDFEquation) := 1];
      defines.entries := defines.entries["V_" + ToUpper(p.specularVisEquation) := 1];
      defines.entries := defines.entries["SPECULAR_AO_" + ToUpper(p.specularAO) := 1];
      AxisWrites(old(defines.entries), p);
    }

    /** One mesh's share of `reCompileShader`: compose its table and mark it for update. */
    method RecompileMaterial(m: PBRMaterial)
      modifies m`needsUpdate, m.defines
      ensures m.needsUpdate
      ensures m.defines.entries == Compose(old(m.defines.entries), guiParams)
      ensures m.Settings() == old(m.Settings())
    {
      var _ := SetDefinesFromGUI(m.defines);
      m.needsUpdate := true;
    }

    /**
     * `reCompileShader`: every mesh with a material gets the composed table
     * and is marked for update; the background only when asked. A material
     * or table reached twice ends the same, as composition is idempotent.
     */
    method ReCompileShader(nodes: seq<SceneNode>, updateBG: bool)
      modifies this`backgroundNeedsUpdate
      modifies (set n | n in nodes && n.isMesh && n.material != null :: n.material)`needsUpdate
      modifies set n | n in nodes && n.isMesh && n.material != null :: n.material.defines
      ensures guiParams == old(guiParams)
      ensures backgroundNeedsUpdate == (updateBG || old(backgroundNeedsUpdate))
      ensures forall n :: n in nodes && n.isMesh && n.material != null ==>
        n.material == old(n.material) && n.material.needsUpdate &&
        n.material.defines.entries == Compose(old(n.material.defines.entries), guiParams)
      ensures forall n :: n in nodes && n.isMesh && n.material != null ==> n.material.Settings() == old(n.material.Settings())
    {
      var i := 0;
      while i < |nodes|
        invariant 0 <= i <= |nodes|
        invariant guiParams == old(guiParams) && backgroundNeedsUpdate == old(backgroundNeedsUpdate)
        invariant forall n :: n in nodes ==> n.material == old(n.material)
        invariant forall n :: n in nodes && n.isMesh && n.material != null ==>
          n.material.defines.entries == old(n.material.defines.entries) ||
          n.material.defines.entries == Compose(old(n.material.defines.entries), guiParams)
        invariant forall j :: 0 <= j < i && nodes[j].isMesh && nodes[j].material != null ==>
          nodes[j].material.needsUpdate &&
          nodes[j].material.defines.entries == Compose(old(nodes[j].material.defines.entries), guiParams)
      {
        var node := nodes[i];
        if node.isMesh && node.material != null {
          ComposeIdempotent(old(node.material.defines.entries), guiParams);
          RecompileMaterial(node.material);
        }
        i := i + 1;
      }
      if updateBG {
        backgroundNeedsUpdate := true;
      }
    }
  }
}
