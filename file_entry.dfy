/** One indexed file (src/lib/file_entry.rs): where it lies relative to the
    indexed folder, its cached fast hash and the metadata copied when the
    entry was made. */
module FileEntries {
  import opened Lib
  import opened Paths
  import opened Fs

  datatype FileEntry = FileEntry(
    relativePath: Path,
    fastHash: Option<u128>,
    statSize: u64,
    statModified: SystemTime,
    statAccessed: SystemTime,
    statCreated: SystemTime,
    statInode: u64)

  const NoParentMessage := "error finding relative folder"

  /** `FileEntry::new`: canonicalise `path`, take the part below `basePath`,
      insist that this part has a parent folder, and copy the metadata of the
      canonical path. The first failing step decides the error. */
  function New(fs: AbstractFs, basePath: Path, path: Path): (r: Result<FileEntry>)
    // a failing canonicalisation is passed on unchanged
    ensures fs.canonicalize(path).Err? ==> r == Err(fs.canonicalize(path).error)
    // the entry exists exactly when every step succeeds
    ensures r.Ok? <==>
      && fs.canonicalize(path).Ok?
      && var abs := fs.canonicalize(path).value;
      && basePath <= abs
      && HasParent(abs[|basePath|..])
      && fs.metadata(abs).Ok?
    // a canonical path outside the base folder is a strip-prefix error, and
    // one with no parent below it (the base folder itself) a generic error
    ensures fs.canonicalize(path).Ok? ==>
      var abs := fs.canonicalize(path).value;
      && (!(basePath <= abs) ==> r == Err(StripPrefixError))
      && (basePath <= abs && !HasParent(abs[|basePath|..]) ==> r == Err(Generic(NoParentMessage)))
      && (basePath <= abs && HasParent(abs[|basePath|..]) && fs.metadata(abs).Err? ==>
            r == Err(fs.metadata(abs).error))
    // a new entry lies below the base, has a parent, has no hash yet, and
    // carries the metadata of its canonical path
    ensures r.Ok? ==>
      var abs := fs.canonicalize(path).value;
      var e := r.value;
      && basePath + e.relativePath == abs
      && HasParent(e.relativePath)
      && e.fastHash == None
      && fs.metadata(abs) == Ok(Metadata(e.statSize, e.statModified, e.statAccessed, e.statCreated, e.statInode))
  {
    var abs :- fs.canonicalize(path);
    var rel :- StripPrefix(abs, basePath);
    var _ :- Parent(rel).OkOr(Generic(NoParentMessage));
    var meta :- fs.metadata(abs);
    Ok(FileEntry(rel, None, meta.size, meta.modified, meta.accessed, meta.created, meta.inode))
  }

  /** `FileEntry::absolute_path`: the entry's path joined onto a base folder. */
  function AbsolutePath(e: FileEntry, basePath: Path): (r: Path)
    ensures |e.relativePath| <= |r| && r[|r| - |e.relativePath|..] == e.relativePath
    ensures !IsAbsolute(e.relativePath) ==> basePath <= r && r[|basePath|..] == e.relativePath
    ensures IsAbsolute(e.relativePath) ==> r == e.relativePath
  {
    Join(basePath, e.relativePath)
  }

  /** `FileEntry::relative_folder`: the folder holding the entry, relative to
      the base. The source unwraps `parent()`, so a path without a parent is
      excluded by the precondition; entries made by `New` always meet it. */
  function RelativeFolder(e: FileEntry): (r: Path)
    requires HasParent(e.relativePath)
    ensures |r| + 1 == |e.relativePath|
    ensures r + [e.relativePath[|r|]] == e.relativePath
  {
    Parent(e.relativePath).value
  }

  /** Round trip: joining a new entry's relative path back onto the base
      folder it was made against gives the canonical path it came from. */
  lemma NewThenAbsolutePath(fs: AbstractFs, basePath: Path, path: Path)
    requires New(fs, basePath, path).Ok?
    requires WellFormed(fs.canonicalize(path).value)
    ensures AbsolutePath(New(fs, basePath, path).value, basePath) == fs.canonicalize(path).value
  {
    StripThenJoin(fs.canonicalize(path).value, basePath);
  }

  /** When every step succeeds, the entry is the part of the canonical path
      below the base, with no hash and the canonical path's metadata. */
  lemma NewSucceeds(fs: AbstractFs, basePath: Path, path: Path, rel: Path, meta: Metadata)
    requires fs.canonicalize(path) == Ok(basePath + rel)
    requires HasParent(rel)
    requires fs.metadata(basePath + rel) == Ok(meta)
    ensures New(fs, basePath, path)
      == Ok(FileEntry(rel, None, meta.size, meta.modified, meta.accessed, meta.created, meta.inode))
  {
    assert (basePath + rel)[|basePath|..] == rel;
  }

  /** The first entry of the source's own unit test, `filepath` under
      `/somefolder/`, for any names in their place: a file directly in the
      base folder is found again by joining, and its relative folder is
      empty. */
  lemma NewEntryInBaseFolder(fs: AbstractFs, folder: string, file: string, meta: Metadata)
    requires fs.canonicalize([Normal(file)]) == Ok([RootDir, Normal(folder), Normal(file)])
    requires fs.metadata([RootDir, Normal(folder), Normal(file)]) == Ok(meta)
    ensures
      var e := New(fs, [RootDir, Normal(folder)], [Normal(file)]);
      && e.Ok?
      && AbsolutePath(e.value, [RootDir, Normal(folder)]) == [RootDir, Normal(folder), Normal(file)]
      && e.value.relativePath == [Normal(file)]
      && RelativeFolder(e.value) == []
  {
    var base := [RootDir, Normal(folder)];
    assert base + [Normal(file)] == [RootDir, Normal(folder), Normal(file)];
    NewSucceeds(fs, base, [Normal(file)], [Normal(file)], meta);
  }

  /** The second entry of that test, `subfolder/file` under `/somefolder/`,
      for any names in their place: its relative folder is the subfolder. */
  lemma NewEntryInSubfolder(fs: AbstractFs, folder: string, subfolder: string, file: string, meta: Metadata)
    requires fs.canonicalize([Normal(subfolder), Normal(file)]) == Ok([RootDir, Normal(folder), Normal(subfolder), Normal(file)])
    requires fs.metadata([RootDir, Normal(folder), Normal(subfolder), Normal(file)]) == Ok(meta)
    ensures
      var e := New(fs, [RootDir, Normal(folder)], [Normal(subfolder), Normal(file)]);
      && e.Ok?
      && AbsolutePath(e.value, [RootDir, Normal(folder)]) == [RootDir, Normal(folder), Normal(subfolder), Normal(file)]
      && e.value.relativePath == [Normal(subfolder), Normal(file)]
      && RelativeFolder(e.value) == [Normal(subfolder)]
  {
    var base := [RootDir, Normal(folder)];
    var rel := [Normal(subfolder), Normal(file)];
    assert base + rel == [RootDir, Normal(folder), Normal(subfolder), Normal(file)];
    NewSucceeds(fs, base, rel, rel, meta);
  }
}
