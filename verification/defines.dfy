/**
 * The shader define table: a plain object from define names to values that
 * a material owns and that the viewer's composer rewrites in place.
 */
module ShaderDefines {

  /** A `defines` object; `entries` holds its own enumerable properties. */
  class Defines {
    var entries: map<string, int>

    /** `Object.assign({}, table)`: a new object with the same entries. */
    constructor (table: map<string, int>)
      ensures entries == table
    {
      entries := table;
    }
  }

  /** `pbrDefaultDefines`: the table every material starts from. */
  const DefaultDefines: map<string, int> := map[
    "ENABLE_IBL" := 1,
    "ENABLE_LIGHT" := 1,
    "DIFFUSE_LAMBERT" := 1,
    "NDF_GGX" := 1,
    "F_SCHLICK" := 1,
    "V_SMITHJOINTAPPROX" := 1
  ]
}
