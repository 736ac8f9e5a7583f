/** The in-memory index of file entries (src/lib/files_index.rs): a table of
    entries with a lookup by relative path and a lookup by size. */
module FilesIndexing {
  import opened Lib
  import opened Paths
  import opened Fs
  import opened FileEntries

  /** Position `i` holds the first entry of size `s`. */
  predicate IsFirstOfSize(entries: seq<FileEntry>, s: u64, i: nat) {
    i < |entries| && entries[i].statSize == s &&
    forall j :: 0 <= j < i ==> entries[j].statSize != s
  }

  /** Position `i` holds the last entry whose relative path is `p`. */
  predicate IsLastWithPath(entries: seq<FileEntry>, p: Path, i: nat) {
    i < |entries| && entries[i].relativePath == p &&
    forall j :: i < j < |entries| ==> entries[j].relativePath != p
  }

  predicate DistinctPaths(entries: seq<FileEntry>) {
    forall i, j :: 0 <= i < j < |entries| ==> entries[i].relativePath != entries[j].relativePath
  }

  /** The sizes that occur among the entries. */
  function Sizes(entries: seq<FileEntry>): set<u64> {
    set e | e in entries :: e.statSize
  }

  /** The relative paths that occur among the entries. */
  function RelativePaths(entries: seq<FileEntry>): set<Path> {
    set e | e in entries :: e.relativePath
  }

  /** What `group_by_size` computes, as a fold over the entries in order: a
      size seen for the first time gets the bucket `[i]`, and a size already
      present is left alone, since `or_insert_with` only ever inserts.
      The buckets are keyed by exactly the sizes of the entries, and every
      bucket is the one position of the first entry of that size. */
  function SizeGroups(entries: seq<FileEntry>): (m: map<u64, seq<nat>>)
    ensures m.Keys == Sizes(entries)
    ensures forall s :: s in m ==> |m[s]| == 1 && IsFirstOfSize(entries, s, m[s][0])
  {
    if entries == [] then map[]
    else
      var n := |entries| - 1;
      var prefix := entries[..n];
      var m := SizeGroups(prefix);
      assert entries == prefix + [entries[n]];
      assert forall j :: 0 <= j < n ==> entries[j] == prefix[j];
      assert Sizes(entries) == Sizes(prefix) + {entries[n].statSize};
      if entries[n].statSize in m then m else m[entries[n].statSize := [n]]
  }

  /** `group_by_size`: one pass over the entries filling a map of buckets. */
  method GroupBySize(entries: seq<FileEntry>) returns (out: map<u64, seq<nat>>)
    ensures out == SizeGroups(entries)
  {
    out := map[];
    for i := 0 to |entries|
      invariant out == SizeGroups(entries[..i])
    {
      assert entries[..i + 1][..i] == entries[..i];
      var size := entries[i].statSize;
      if size !in out {
        out := out[size := [i]];
      }
    }
    assert entries[..|entries|] == entries;
  }

  /** Entries that all have one size give a single bucket, holding the first
      position. */
  lemma UniformSizeOneBucket(entries: seq<FileEntry>, s: u64)
    requires |entries| > 0
    requires forall i :: 0 <= i < |entries| ==> entries[i].statSize == s
    ensures SizeGroups(entries) == map[s := [0]]
  {
    assert entries[0] in entries;
    assert Sizes(entries) == {s};
  }

  /** The `by_path` map of `from_entries`: each entry's relative path mapped
      to its position, collected in order, so that a later entry with the
      same path overwrites an earlier one. The keys are exactly the entries'
      relative paths, and each holds the last position with that path. */
  function PathPositions(entries: seq<FileEntry>): (m: map<Path, nat>)
    ensures m.Keys == RelativePaths(entries)
    ensures forall p :: p in m ==> IsLastWithPath(entries, p, m[p])
  {
    if entries == [] then map[]
    else
      var n := |entries| - 1;
      var prefix := entries[..n];
      var m := PathPositions(prefix);
      assert entries == prefix + [entries[n]];
      assert forall j :: 0 <= j < n ==> entries[j] == prefix[j];
      m[entries[n].relativePath := n]
  }

  /** With distinct paths, each entry is found at its own position, and
      there are as many indexed paths as entries. */
  lemma DistinctPathPositions(entries: seq<FileEntry>)
    requires DistinctPaths(entries)
    ensures forall i :: 0 <= i < |entries| ==> PathPositions(entries)[entries[i].relativePath] == i
    ensures |PathPositions(entries)| == |entries|
  {
    var m := PathPositions(entries);
    forall i | 0 <= i < |entries| ensures m[entries[i].relativePath] == i {
      assert entries[i] in entries;
    }
    DistinctPathsCount(entries);
  }

  /** Distinct paths: the set of paths is as large as the sequence. */
  lemma {:induction false} DistinctPathsCount(entries: seq<FileEntry>)
    requires DistinctPaths(entries)
    ensures |RelativePaths(entries)| == |entries|
  {
    if entries != [] {
      var n := |entries| - 1;
      var prefix := entries[..n];
      DistinctPathsCount(prefix);
      assert entries == prefix + [entries[n]];
      assert RelativePaths(entries) == RelativePaths(prefix) + {entries[n].relativePath};
      assert entries[n].relativePath !in RelativePaths(prefix);
    }
  }

  /** The index invariant: every position stored in either map is a valid
      position whose entry has that path or that size, every entry's size
      has a bucket, and no bucket is empty. */
  ghost predicate Consistent(entries: seq<FileEntry>, byPath: map<Path, nat>, bySize: map<u64, seq<nat>>) {
    && (forall p :: p in byPath ==> byPath[p] < |entries| && entries[byPath[p]].relativePath == p)
    && (forall i :: 0 <= i < |entries| ==> entries[i].statSize in bySize)
    && (forall s :: s in bySize ==> |bySize[s]| > 0)
    && (forall s, k :: s in bySize && 0 <= k < |bySize[s]| ==>
          bySize[s][k] < |entries| && entries[bySize[s][k]].statSize == s)
  }

  /** Every entry's relative path is indexed. */
  ghost predicate PathsIndexed(entries: seq<FileEntry>, byPath: map<Path, nat>) {
    byPath.Keys == RelativePaths(entries)
  }

  /** The maps `from_entries` builds satisfy the index invariant and index
      every path. */
  lemma FromEntriesConsistent(entries: seq<FileEntry>)
    ensures Consistent(entries, PathPositions(entries), SizeGroups(entries))
    ensures PathsIndexed(entries, PathPositions(entries))
  {
    var m := SizeGroups(entries);
    forall i | 0 <= i < |entries| ensures entries[i].statSize in m {
      assert entries[i] in entries;
    }
  }

  /** Adding an entry whose size is new, at the end, with its path and size
      mapped to the new position, keeps the index invariant, and keeps every
      path indexed. */
  lemma AddNewSizeConsistent(entries: seq<FileEntry>, byPath: map<Path, nat>, bySize: map<u64, seq<nat>>, e: FileEntry)
    requires Consistent(entries, byPath, bySize)
    requires e.statSize !in bySize
    ensures Consistent(entries + [e], byPath[e.relativePath := |entries|], bySize[e.statSize := [|entries|]])
    ensures PathsIndexed(entries, byPath) ==>
      PathsIndexed(entries + [e], byPath[e.relativePath := |entries|])
  {
    var entries' := entries + [e];
    assert Sizes(entries') == Sizes(entries) + {e.statSize};
    assert RelativePaths(entries') == RelativePaths(entries) + {e.relativePath};
  }

  /** What `add_file` leaves behind when it reaches the unimplemented branch:
      the entry appended and its position added to the existing bucket, with
      `by_path` untouched. The index invariant still holds. */
  lemma AddExistingSizeConsistent(entries: seq<FileEntry>, byPath: map<Path, nat>, bySize: map<u64, seq<nat>>, e: FileEntry)
    requires Consistent(entries, byPath, bySize)
    requires e.statSize in bySize
    ensures Consistent(entries + [e], byPath, bySize[e.statSize := bySize[e.statSize] + [|entries|]])
  {
    var entries' := entries + [e];
    assert Sizes(entries') == Sizes(entries) + {e.statSize};
  }

  /** How `add_file` ends. */
  datatype AddOutcome =
    | Added(entry: FileEntry)   // `Ok(entry)`
    | Failed(error: Error)      // `FileEntry::new` failed; `?` returned early
    | Panicked                  // reached `unimplemented!()`

  class FilesIndex {
    var entries: seq<FileEntry>
    var byPath: map<Path, nat>
    var bySize: map<u64, seq<nat>>

    ghost predicate Valid()
      reads this
    {
      Consistent(entries, byPath, bySize)
    }

    /** `FilesIndex::default()`: no entries and empty maps. */
    constructor ()
      ensures Valid()
      ensures entries == [] && byPath == map[] && bySize == map[]
    {
      entries := [];
      byPath := map[];
      bySize := map[];
    }

    /** `from_entries`: the entries copied unchanged, `by_path` from their
        relative paths and `by_size` from `group_by_size`. */
    constructor FromEntries(entries: seq<FileEntry>)
      ensures this.entries == entries
      ensures byPath == PathPositions(entries) && bySize == SizeGroups(entries)
      ensures Valid() && PathsIndexed(entries, byPath)
    {
      var groups := GroupBySize(entries);
      this.entries := entries;
      byPath := PathPositions(entries);
      bySize := groups;
      new;
      FromEntriesConsistent(entries);
    }

    /** `get_by_path`: the entry recorded for `path`, if any. */
    function GetByPath(path: Path): (r: Option<FileEntry>)
      reads this
      requires Valid()
      ensures r.Some? <==> path in byPath
      ensures r.Some? ==> r.value == entries[byPath[path]] && r.value.relativePath == path
      ensures PathsIndexed(entries, byPath) ==> (r.Some? <==> path in RelativePaths(entries))
    {
      if path in byPath then Some(entries[byPath[path]]) else None
    }

    /** `add_file`: make the entry, append it, and index it. A failure of
        `FileEntry::new` leaves the index as it was. A size not yet indexed
        gets the bucket `[new position]` and the path is mapped to the new
        position. A size already indexed has its bucket extended and then
        reaches `unimplemented!()`, before `by_path` is touched. */
    method AddFile(fs: AbstractFs, basePath: Path, path: Path) returns (outcome: AddOutcome)
      requires Valid()
      modifies this
      ensures Valid()
      ensures New(fs, basePath, path).Err? ==>
        && outcome == Failed(New(fs, basePath, path).error)
        && entries == old(entries) && byPath == old(byPath) && bySize == old(bySize)
      ensures New(fs, basePath, path).Ok? ==>
        var e := New(fs, basePath, path).value;
        var i := |old(entries)|;
        && entries == old(entries) + [e]
        && (e.statSize !in old(bySize) ==>
              && outcome == Added(e)
              && bySize == old(bySize)[e.statSize := [i]]
              && byPath == old(byPath)[e.relativePath := i]
              && |bySize| == |old(bySize)| + 1
              && |byPath| == |old(byPath)| + (if e.relativePath in old(byPath) then 0 else 1))
        && (e.statSize in old(bySize) ==>
              && outcome == Panicked
              && bySize == old(bySize)[e.statSize := old(bySize)[e.statSize] + [i]]
              && byPath == old(byPath))
      ensures outcome.Added? && old(PathsIndexed(entries, byPath)) ==> PathsIndexed(entries, byPath)
    {
      var made := New(fs, basePath, path);
      if made.Err? {
        return Failed(made.error);
      }
      var entry := made.value;
      if entry.statSize in bySize {
        AddExistingSizeConsistent(entries, byPath, bySize, entry);
      } else {
        AddNewSizeConsistent(entries, byPath, bySize, entry);
      }
      entries := entries + [entry];
      var entryIndex := |entries| - 1;
      if entry.statSize in bySize {
        bySize := bySize[entry.statSize := bySize[entry.statSize] + [entryIndex]];
        return Panicked;
      }
      bySize := bySize[entry.statSize := [entryIndex]];
      byPath := byPath[entry.relativePath := entryIndex];
      return Added(entry);
    }
  }
  /** The source's `test_construct`, for any three entries with distinct
      paths and the same size (there, four bytes each): three entries, three
      indexed paths, one size bucket, and each entry found by its path. */
  method ConstructScenario(e0: FileEntry, e1: FileEntry, e2: FileEntry)
    returns (counts: (int, int, int), found: seq<Option<FileEntry>>)
    requires e0.relativePath != e1.relativePath && e0.relativePath != e2.relativePath
    requires e1.relativePath != e2.relativePath
    requires e0.statSize == e1.statSize == e2.statSize
    ensures counts == (3, 3, 1)
    ensures found == [Some(e0), Some(e1), Some(e2)]
  {
    var entries := [e0, e1, e2];
    ThreePathPositions(e0, e1, e2);
    UniformSizeOneBucket(entries, e0.statSize);
    var index := new FilesIndex.FromEntries(entries);
    counts := (|index.entries|, |index.byPath|, |index.bySize|);
    var f0 := index.GetByPath(e0.relativePath);
    var f1 := index.GetByPath(e1.relativePath);
    var f2 := index.GetByPath(e2.relativePath);
    found := [f0, f1, f2];
  }

  /** The `by_path` map `from_entries` builds for three entries with
      distinct paths: three paths, each at its entry's position. */
  lemma ThreePathPositions(e0: FileEntry, e1: FileEntry, e2: FileEntry)
    requires e0.relativePath != e1.relativePath && e0.relativePath != e2.relativePath
    requires e1.relativePath != e2.relativePath
    ensures var m := PathPositions([e0, e1, e2]);
      |m| == 3 && m[e0.relativePath] == 0 && m[e1.relativePath] == 1 && m[e2.relativePath] == 2
  {
    var entries := [e0, e1, e2];
    assert DistinctPaths(entries);
    DistinctPathPositions(entries);
    var m := PathPositions(entries);
    assert m[entries[0].relativePath] == 0;
    assert m[entries[1].relativePath] == 1;
    assert m[entries[2].relativePath] == 2;
  }

  /** One `add_file` of the file `name` that the filesystem places directly
      in the base folder `/folder` and whose size is not indexed yet: the
      entry is added, found again by its path, gets a new size bucket, and
      its path is mapped to the new position (replacing any earlier one). */
  method AddFreshFile(index: FilesIndex, fs: AbstractFs, folder: string, name: string, meta: Metadata)
    returns (outcome: AddOutcome, found: Option<FileEntry>)
    requires index.Valid()
    requires fs.canonicalize([Normal(name)]) == Ok([RootDir, Normal(folder), Normal(name)])
    requires fs.metadata([RootDir, Normal(folder), Normal(name)]) == Ok(meta)
    requires meta.size !in index.bySize
    modifies index
    ensures index.Valid()
    ensures outcome.Added? && outcome.entry.relativePath == [Normal(name)] && outcome.entry.statSize == meta.size
    ensures found == Some(outcome.entry)
    ensures |index.entries| == |old(index.entries)| + 1
    ensures index.byPath == old(index.byPath)[[Normal(name)] := |old(index.entries)|]
    ensures index.bySize == old(index.bySize)[meta.size := [|old(index.entries)|]]
  {
    var base := [RootDir, Normal(folder)];
    assert base + [Normal(name)] == [RootDir, Normal(folder), Normal(name)];
    NewSucceeds(fs, base, [Normal(name)], [Normal(name)], meta);
    outcome := index.AddFile(fs, base, [Normal(name)]);
    found := index.GetByPath([Normal(name)]);
  }

  /** The source's `test_add_unique_file`, for any two file names under one
      folder whose sizes differ (there, four and eight bytes): both files are
      added, found again by path, and counted once in each map. */
  method AddUniqueFileScenario(fs: AbstractFs, folder: string, name1: string, name2: string, m1: Metadata, m2: Metadata)
    returns (first: AddOutcome, second: AddOutcome, found1: Option<FileEntry>, found2: Option<FileEntry>,
             counts1: (int, int, int), counts2: (int, int, int))
    requires name1 != name2 && m1.size != m2.size
    requires fs.canonicalize([Normal(name1)]) == Ok([RootDir, Normal(folder), Normal(name1)])
    requires fs.metadata([RootDir, Normal(folder), Normal(name1)]) == Ok(m1)
    requires fs.canonicalize([Normal(name2)]) == Ok([RootDir, Normal(folder), Normal(name2)])
    requires fs.metadata([RootDir, Normal(folder), Normal(name2)]) == Ok(m2)
    ensures first.Added? && first.entry.relativePath == [Normal(name1)] && first.entry.statSize == m1.size
    ensures second.Added? && second.entry.relativePath == [Normal(name2)] && second.entry.statSize == m2.size
    ensures found1 == Some(first.entry) && counts1 == (1, 1, 1)
    ensures found2 == Some(second.entry) && counts2 == (2, 2, 2)
  {
    var index := new FilesIndex();
    first, found1 := AddFreshFile(index, fs, folder, name1, m1);
    counts1 := (|index.entries|, |index.byPath|, |index.bySize|);
    assert [Normal(name1)][0] != [Normal(name2)][0];
    assert m2.size !in index.bySize;
    second, found2 := AddFreshFile(index, fs, folder, name2, m2);
    counts2 := (|index.entries|, |index.byPath|, |index.bySize|);
  }

  /** The source's `test_add_duplicate_file`: a second file with the size of
      the first (there, four bytes each) reaches the unimplemented
      deduplication branch. */
  method AddDuplicateFileScenario(fs: AbstractFs, folder: string, name1: string, name2: string, m1: Metadata, m2: Metadata)
    returns (first: AddOutcome, second: AddOutcome)
    requires m1.size == m2.size
    requires fs.canonicalize([Normal(name1)]) == Ok([RootDir, Normal(folder), Normal(name1)])
    requires fs.metadata([RootDir, Normal(folder), Normal(name1)]) == Ok(m1)
    requires fs.canonicalize([Normal(name2)]) == Ok([RootDir, Normal(folder), Normal(name2)])
    requires fs.metadata([RootDir, Normal(folder), Normal(name2)]) == Ok(m2)
    ensures first.Added?
    ensures second == Panicked
  {
    var base := [RootDir, Normal(folder)];
    assert base + [Normal(name1)] == [RootDir, Normal(folder), Normal(name1)];
    assert base + [Normal(name2)] == [RootDir, Normal(folder), Normal(name2)];
    NewSucceeds(fs, base, [Normal(name1)], [Normal(name1)], m1);
    NewSucceeds(fs, base, [Normal(name2)], [Normal(name2)], m2);
    var index := new FilesIndex();
    first := index.AddFile(fs, base, [Normal(name1)]);
    second := index.AddFile(fs, base, [Normal(name2)]);
  }
}
