/** Bytes, paths and the file system as the PDF tool sees them. */
module Files {

  newtype byte = x: int | 0 <= x < 256

  type Bytes = seq<byte>

  type Path = string

  /** A snapshot of the file system: a path can be read exactly when it is a key. */
  type FileSystem = map<Path, Bytes>
}
