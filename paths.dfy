/** The part of `std::path` the core relies on, over paths as sequences of
    components: `strip_prefix`, `join` and `parent`. A canonical Unix path
    has only two kinds of component, the root directory and normal names. */
module Paths {
  import opened Lib

  datatype Component = RootDir | Normal(name: string)

  type Path = seq<Component>

  /** A path is absolute when it starts at the root directory. */
  predicate IsAbsolute(p: Path) {
    |p| > 0 && p[0] == RootDir
  }

  /** The root directory can only be a path's first component. */
  predicate WellFormed(p: Path) {
    forall i :: 0 < i < |p| ==> p[i] != RootDir
  }

  /** `Path::strip_prefix`: succeeds exactly when `base` is a component-wise
      prefix of `p`, with what follows that prefix. */
  function StripPrefix(p: Path, base: Path): (r: Result<Path>)
    ensures r.Ok? <==> base <= p
    ensures r.Ok? ==> base + r.value == p
    ensures r.Err? ==> r.error == StripPrefixError
  {
    if base <= p then Ok(p[|base|..]) else Err(StripPrefixError)
  }

  /** `Path::join`: an absolute right-hand side replaces the base. */
  function Join(base: Path, rel: Path): (r: Path)
    ensures |rel| <= |r| && r[|r| - |rel|..] == rel
    ensures !IsAbsolute(rel) ==> base <= r && r[|base|..] == rel
    ensures IsAbsolute(rel) ==> r == rel
  {
    if IsAbsolute(rel) then rel else base + rel
  }

  /** `Path::parent`: the path without its last component; there is none for
      the empty path and for a path that ends at the root directory. */
  function Parent(p: Path): (r: Option<Path>)
    ensures r.Some? <==> |p| > 0 && p[|p| - 1] != RootDir
    ensures r.Some? ==> r.value + [p[|p| - 1]] == p
  {
    if |p| == 0 || p[|p| - 1] == RootDir then None else Some(p[..|p| - 1])
  }

  predicate HasParent(p: Path) {
    Parent(p).Some?
  }

  /** Stripping a prefix and joining it back gives the path again, for every
      well-formed path: a relative rest is appended, and an absolute rest can
      only arise from an empty base. */
  lemma StripThenJoin(p: Path, base: Path)
    requires WellFormed(p)
    requires StripPrefix(p, base).Ok?
    ensures Join(base, StripPrefix(p, base).value) == p
  {
  }
}
