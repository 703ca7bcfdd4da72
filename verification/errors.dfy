/** The exceptions the modelled code throws, each named after what goes wrong. */
module Errors {

  datatype Error =
    /** TypeError: a buffer that gunzip left undefined is read (`data.byteLength`). */
    | UndefinedBuffer
    /** RangeError: `new Uint8Array(buffer, offset, length)` reaches past the buffer. */
    | ViewOutOfRange
    /** TypeError: a cube map buffer held no level, so `packedImages[0]` is undefined. */
    | NoCubeLevels
    /** TypeError: the manifest has no texture of this (type, encoding, format). */
    | MissingTexture(textureType: string, encoding: string, format: string)
    /** TypeError: a matching manifest texture has an empty `images` array. */
    | MissingImage(textureType: string, encoding: string, format: string)
    /** TypeError: the manifest carries `Lights` but the array is empty. */
    | MissingLight
    /** "Can not resolve #preImport <name>". */
    | UnresolvedImport(name: string)
    /** RangeError: include expansion recursed past the engine's stack limit. */
    | StackOverflow
    /** TypeError: the material reads `environment.cubeMapEnv`, which is undefined. */
    | UndefinedCubeMapEnv
    /** ReferenceError: the bare identifier `Color` is not defined. */
    | ColorNotDefined
    /** TypeError: a uniform slot that does not exist receives a `.value`. */
    | MissingUniform(name: string)
    /** TypeError: `URL.createObjectURL` received undefined (no root file was found). */
    | NoRootFile
    /** SyntaxError: `JSON.parse` of a blob, whose string form `[object Blob]` is not JSON. */
    | BlobNotJSON
}
