/** The filesystem capability the core is written against. The source reaches
    it through an `AbstractFs` trait whose definition is not part of this
    model; all the core asks of it is `canonicalize` and `metadata`, which are
    kept here as arbitrary total functions that may fail. */
module Fs {
  import opened Lib
  import opened Paths

  /** A point in time as the filesystem reports it; it is only ever copied. */
  datatype SystemTime = SystemTime(nanosSinceEpoch: int)

  /** The five values `metadata` yields: size, modified, accessed, created
      and inode number. */
  datatype Metadata = Metadata(
    size: u64,
    modified: SystemTime,
    accessed: SystemTime,
    created: SystemTime,
    inode: u64)

  datatype AbstractFs = AbstractFs(
    canonicalize: Path -> Result<Path>,
    metadata: Path -> Result<Metadata>)
}
