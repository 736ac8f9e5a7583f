# hardlink-deduplicator: the in-memory files index, in Dafny

The deduplicator's library keeps, for one folder, an index of the files
found below it. Each file is a `FileEntry`: its path relative to the base
folder, a fast content hash that is not computed yet, and the size, times
and inode number read from the filesystem when the entry was made. The
`FilesIndex` holds the entries in the order they were added, a map from
relative path to position, and a map from size to a list of positions,
which is where duplicate candidates are to be found. `from_entries` records
only the first entry of each size there, and `add_file` appends to an
existing list before it stops at `unimplemented!()`.

This project models that core and proves what it guarantees:

- `paths.dfy`: the part of Rust's `std::path` the core uses
  (`strip_prefix`, `join`, `parent`), over paths as sequences of components.
- `fs.dfy`: the two filesystem queries the core makes, `canonicalize` and
  `metadata`, as arbitrary functions that may fail.
- `file_entry.dfy`: `FileEntry::new`, `absolute_path` and `relative_folder`,
  with the round trip from a new entry back to its canonical path.
- `files_index.dfy`: `group_by_size` as a loop proved equal to a fold,
  `from_entries`, `get_by_path` and `add_file` on a `FilesIndex` class whose
  methods keep an index invariant, plus the source's three unit tests stated
  for arbitrary names and sizes.
- `lib.dfy`: the crate's `Error` and `Result` types, and `Option`.

The repository is at an early stage: entries are grouped by size only, and
adding a second file of an already indexed size stops at `unimplemented!()`.
The index never computes a content hash (`fast_hash` is always `None`),
nothing groups entries by hash, and hardlinking is not implemented.

The index invariant (`FilesIndexing.Consistent`) has four parts:

- every position in `by_path` is a valid position whose entry has that path;
- every entry's size has a bucket in `by_size`;
- no bucket is empty;
- every position in a bucket is a valid position whose entry has that size.

The constructors and `add_file` keep this invariant. `add_file` keeps it
even on the path that panics.

`add_file` has three outcomes. `Added(e)` is `Ok(&e)`. `Failed(err)` is the
`Err` passed on from `FileEntry::new`. `Panicked` means the
`unimplemented!()` was reached. In that case the state is what the source
leaves behind: the entry is already pushed, its size bucket is already
extended, and `by_path` is untouched.

## Model

| member | source | states |
|---|---|---|
| Lib.Option.OkOr | src/lib/file_entry.rs:28 | `ok_or` succeeds exactly on `Some`, carrying its value, and otherwise fails with the given error |
| Paths.StripPrefix | src/lib/file_entry.rs:25 | succeeds exactly when the base is a component-wise prefix; on success, base followed by the result is the path; otherwise a strip-prefix error |
| Paths.Join | src/lib/file_entry.rs:44 | the joined path ends with the right-hand side; a relative right-hand side is appended after the base; an absolute one replaces the base |
| Paths.Parent | src/lib/file_entry.rs:28 | `parent`, as used here and by `relative_folder`: a parent exists exactly when the path is non-empty and does not end at the root; the parent followed by the last component is the path |
| Paths.StripThenJoin | src/lib/file_entry.rs:25 | joining what `strip_prefix` left back onto the base gives the original well-formed path |
| FileEntries.New | src/lib/file_entry.rs:23-41 | the entry exists exactly when canonicalisation succeeds, the canonical path lies below the base with a parent folder, and metadata succeeds. Each failure gives its own error, in source order: the canonicalisation error, then the strip-prefix error, then "error finding relative folder", then the metadata error. A new entry is the part below the base, has no hash, and carries the canonical path's metadata |
| FileEntries.AbsolutePath | src/lib/file_entry.rs:43-45 | the absolute path ends with the entry's relative path; a relative entry path is appended after the base, and an absolute one replaces the base |
| FileEntries.RelativeFolder | src/lib/file_entry.rs:47-49 | the relative folder is the relative path without its last component |
| FileEntries.NewThenAbsolutePath | src/lib/file_entry.rs:23-45 | for a well-formed canonical path, the absolute path of a new entry, against the base it was made with, is that canonical path |
| FileEntries.NewSucceeds | src/lib/file_entry.rs:30-40 | when every step succeeds, the entry is exactly the relative part with no hash and the metadata's five values |
| FileEntries.NewEntryInBaseFolder | src/lib/file_entry.rs:60-71 | a file directly in the base folder: the entry is made, joins back to its absolute path, keeps its relative path, and has the empty relative folder |
| FileEntries.NewEntryInSubfolder | src/lib/file_entry.rs:74-82 | a file in a subfolder: the entry is made, joins back to its absolute path, keeps its relative path, and has the subfolder as its relative folder |
| FilesIndexing.SizeGroups | src/lib/files_index.rs:18-26 | the keys are exactly the sizes of the entries, and each bucket holds one position: that of the first entry of that size |
| FilesIndexing.GroupBySize | src/lib/files_index.rs:18-26 | the loop over the entries computes exactly `SizeGroups` of the entries |
| FilesIndexing.UniformSizeOneBucket | src/lib/files_index.rs:18-26 | non-empty entries all of one size give the single bucket `[0]` under that size |
| FilesIndexing.PathPositions | src/lib/files_index.rs:40-43 | the keys are exactly the entries' relative paths, and each maps to the last position with that path |
| FilesIndexing.DistinctPathPositions | src/lib/files_index.rs:40-43 | with distinct paths, every entry is mapped to its own position and there are as many keys as entries |
| FilesIndexing.DistinctPathsCount | src/lib/files_index.rs:40-43 | distinct paths give as many relative paths as entries |
| FilesIndexing.FromEntriesConsistent | src/lib/files_index.rs:39-50 | the maps built from any entries satisfy the index invariant and index every relative path |
| FilesIndexing.AddNewSizeConsistent | src/lib/files_index.rs:68-72 | appending an entry of a new size, with a singleton bucket and its path mapped to the new position, keeps the invariant and keeps every path indexed |
| FilesIndexing.AddExistingSizeConsistent | src/lib/files_index.rs:61-65 | appending an entry of a known size and extending its bucket keeps the invariant |
| FilesIndexing.FilesIndex.constructor | src/lib/files_index.rs:30-36 | `FilesIndex::default()` is empty and satisfies the invariant |
| FilesIndexing.FilesIndex.FromEntries | src/lib/files_index.rs:39-50 | the entries are copied, `by_path` is `PathPositions`, `by_size` is `SizeGroups`; the invariant holds and every path is indexed |
| FilesIndexing.FilesIndex.GetByPath | src/lib/files_index.rs:53-56 | an entry is found exactly when the path is a key of `by_path`; the entry found has that path; when every path is indexed, found exactly for the entries' paths |
| FilesIndexing.FilesIndex.AddFile | src/lib/files_index.rs:59-75 | keeps the invariant. On failure of `FileEntry::new`: the error, nothing changed. Otherwise the entry is appended. A new size gets the bucket `[i]`, the path is mapped to `i`, and the outcome is the entry; `by_size` grows by one and `by_path` by one unless the path was already a key. A known size gets `i` appended to its bucket, `by_path` is unchanged, and the outcome is the panic |
| FilesIndexing.ConstructScenario | src/lib/files_index.rs:87-108 | three entries with distinct paths and one size give 3 entries, 3 paths, 1 size bucket, and each entry is found by its path |
| FilesIndexing.ThreePathPositions | src/lib/files_index.rs:100-107 | for three distinct paths, `by_path` has three keys, each at its entry's position |
| FilesIndexing.AddFreshFile | src/lib/files_index.rs:119-124 | adding a file of an unindexed size returns that file's entry, finds it again by path, and extends both maps by the new position |
| FilesIndexing.AddUniqueFileScenario | src/lib/files_index.rs:111-133 | two files of different sizes are both added and found again, with counts (1, 1, 1) after the first and (2, 2, 2) after the second |
| FilesIndexing.AddDuplicateFileScenario | src/lib/files_index.rs:135-148 | a second file with the size of the first reaches the panic |

## Left out

- `src/main.rs` is not modelled. It walks a directory, hashes each file and prints the hash, all of which is I/O.
- The fast-hash module (`fast_hash`, `hash_file`) is not part of this model. `FileEntry::new` never calls it and always stores no hash.
- The `AbstractFs` trait is not modelled. The `fs.rs` of the repository declares only an `Fs` trait with `open`, and neither `AbstractFs` nor the test filesystem's `set_cwd` and `new_file_entry` are defined there. The two queries the core makes, `canonicalize` and `metadata`, are parameters: arbitrary total functions that may fail.
- `RealFs` and `TestFs` are not modelled. The unit tests' file contents only fix sizes, so the scenarios take sizes and metadata as parameters.
- `std::io::Error` is kept only as a description, and `std::path::StripPrefixError` carries no data. The `From` conversions in `src/lib/mod.rs` are applied directly where `?` uses them.
- `SystemTime` values are only copied, so they are an opaque wrapper around an integer.
- Paths have only root and normal components. Canonical Unix paths have no `.`, `..` or Windows prefixes, so those are not modelled. `StripThenJoin` and `NewThenAbsolutePath` assume the root appears only first.
- `HashMap` hashing and iteration order are not modelled: the maps are Dafny maps. Positions (`usize`) are unbounded naturals, so a push never overflows.
- `FileEntryKey` is declared in the source but never used, so it is not modelled.
- Deduplication, hardlinking and a persistent index are absent from the code, and so from the model.
- FilesIndexing.FilesIndex.AddFile: the panic is a `Panicked` outcome that leaves the partly updated state, not an unwinding. Nothing after it is modelled.
- FileEntries.RelativeFolder: the source unwraps `parent()` and would panic on a path without one. The model requires a parent instead. Every entry made by `FileEntries.New` has one.
- The scenarios state the unit tests for any names, metadata and sizes that meet the tests' conditions, rather than for the literal paths and contents.
