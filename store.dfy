/** The filesystem as a value: which directories exist and what each file
    holds, with the few `fs` primitives the persistence layer uses, each a
    total function with an explicit failure outcome. */
module FileStore {
  import opened Json
  import opened Schemas
  import opened Paths

  /** The `fs` error codes the primitives below can report. */
  datatype IoCode = ENOENT | ENOTDIR | EISDIR | EEXIST

  datatype Error =
    | IoError(path: Path, code: IoCode)
    /** A file is present but `JSON.parse` rejects its text. */
    | ParseError(path: Path)
    /** `Invalid ... format in <path>`, raised when reading. */
    | InvalidOnRead(kind: Kind, path: Path)
    /** `Invalid ... format`, raised when writing. */
    | InvalidOnWrite(kind: Kind)
    /** A property assignment on `null`. */
    | TypeError

  datatype Result<T> = Ok(value: T) | Err(error: Error)

  /** What a file holds: a decoded JSON value, or text that is not JSON. */
  datatype Content = Decoded(value: Json) | Garbled

  datatype FsState = FsState(dirs: set<Path>, files: map<Path, Content>)

  /** The outcome of an operation that may change the filesystem. */
  datatype Effect<T> = Effect(result: Result<T>, state: FsState)

  /** The shape every real filesystem has: the root is a directory, every
      ancestor of a directory is a directory, and every file sits in a
      directory and is not itself one. */
  predicate WellFormed(s: FsState) {
    && [] in s.dirs
    && (forall d, k :: d in s.dirs && 0 <= k < |d| ==> d[..k] in s.dirs)
    && (forall p :: p in s.files ==> p != [] && p !in s.dirs && Parent(p) in s.dirs)
  }

  /** `fs.access(p)` succeeds: something, file or directory, is there. */
  predicate Exists(s: FsState, p: Path) {
    p in s.dirs || p in s.files
  }

  /** Some proper ancestor of `p` is a file, so `p` cannot be reached (ENOTDIR). */
  predicate FileOnPath(s: FsState, p: Path) {
    exists k :: 0 < k < |p| && p[..k] in s.files
  }

  /** `readJsonFile(p)`: the decoded content, `None` when nothing is there
      (ENOENT), or the error `readFile` / `JSON.parse` would throw. */
  function ReadJsonSpec(s: FsState, p: Path): (r: Result<Option<Json>>)
    ensures r == Ok(None) <==> !Exists(s, p) && !FileOnPath(s, p)
    ensures r.Ok? && r.value.Some? <==> p in s.files && s.files[p].Decoded?
    ensures r.Ok? && r.value.Some? ==> r.value.value == s.files[p].value
  {
    if p in s.files then
      match s.files[p]
      case Decoded(v) => Ok(Some(v))
      case Garbled => Err(ParseError(p))
    else if FileOnPath(s, p) then Err(IoError(p, ENOTDIR))
    else if p in s.dirs then Err(IoError(p, EISDIR))
    else Ok(None)
  }

  /** `fs.mkdir(p, { recursive: true })`: creates every missing ancestor and
      `p`; fails when a file stands anywhere on the way. */
  function MakeDirsSpec(s: FsState, p: Path): (e: Effect<()>)
    ensures e.result.Ok? <==> forall k :: 0 < k <= |p| ==> p[..k] !in s.files
    ensures e.result.Ok? ==> e.state == FsState(s.dirs + Prefixes(p), s.files)
    ensures e.result.Err? ==> e.state == s
    ensures WellFormed(s) ==> WellFormed(e.state)
  {
    if exists k :: 0 < k <= |p| && p[..k] in s.files then
      Effect(Err(IoError(p, if p in s.files then EEXIST else ENOTDIR)), s)
    else
      var s' := FsState(s.dirs + Prefixes(p), s.files);
      MakeDirsKeepsWellFormed(s, p);
      Effect(Ok(()), s')
  }

  lemma MakeDirsKeepsWellFormed(s: FsState, p: Path)
    requires forall k :: 0 < k <= |p| ==> p[..k] !in s.files
    ensures WellFormed(s) ==> WellFormed(FsState(s.dirs + Prefixes(p), s.files))
  {
    if WellFormed(s) {
      var s' := FsState(s.dirs + Prefixes(p), s.files);
      forall d, k | d in s'.dirs && 0 <= k < |d| ensures d[..k] in s'.dirs {
        if d !in s.dirs {
          assert d == p[..|d|];
          assert d[..k] == p[..k];
        }
      }
    }
  }

  /** `fs.writeFile(p, ...)`: replaces or creates the file `p` in an
      existing directory. */
  function WriteFileSpec(s: FsState, p: Path, c: Content): (e: Effect<()>)
    requires p != []
    ensures e.result.Ok? <==> p !in s.dirs && Parent(p) in s.dirs
    ensures e.result.Ok? ==> e.state == FsState(s.dirs, s.files[p := c])
    ensures e.result.Err? ==> e.state == s
    ensures WellFormed(s) ==> WellFormed(e.state)
  {
    if p in s.dirs then Effect(Err(IoError(p, EISDIR)), s)
    else if Parent(p) !in s.dirs then Effect(Err(IoError(p, ENOENT)), s)
    else Effect(Ok(()), FsState(s.dirs, s.files[p := c]))
  }

  /** `writeJsonFile(p, v)`: `mkdir -p` of the parent, then the whole file
      at once. The parent directory may be left created when the write
      itself fails. */
  function WriteJsonSpec(s: FsState, p: Path, v: Json): (e: Effect<()>)
    requires p != []
    ensures WellFormed(s) ==> WellFormed(e.state)
    ensures e.result.Ok? ==> e.state.files == s.files[p := Decoded(v)]
    ensures e.result.Ok? ==> e.state.dirs == s.dirs + Prefixes(Parent(p))
    ensures e.result.Err? ==> e.state.files == s.files
  {
    var mk := MakeDirsSpec(s, Parent(p));
    if mk.result.Err? then mk
    else WriteFileSpec(mk.state, p, Decoded(v))
  }

  /** The names directly inside directory `p`, files and directories alike. */
  function Children(s: FsState, p: Path): (r: set<string>)
    ensures forall c :: c in r <==> Exists(s, p + [c])
  {
    var below := set q | q in s.dirs + s.files.Keys && |q| == |p| + 1 && q[..|p|] == p;
    assert forall c :: Exists(s, p + [c]) ==> p + [c] in below && (p + [c])[|p|] == c;
    assert forall q :: q in below ==> q == p + [q[|p|]];
    set q | q in below :: q[|p|]
  }

  /** `fs.readdir(p)` as a set of names. */
  function ReadDirSpec(s: FsState, p: Path): (r: Result<set<string>>)
    ensures r.Ok? <==> p in s.dirs && p !in s.files && !FileOnPath(s, p)
    ensures r.Ok? ==> r.value == Children(s, p)
    ensures r.Err? && r.error.IoError? && r.error.code == ENOENT <==> !Exists(s, p) && !FileOnPath(s, p)
  {
    if p in s.files || FileOnPath(s, p) then Err(IoError(p, ENOTDIR))
    else if p !in s.dirs then Err(IoError(p, ENOENT))
    else Ok(Children(s, p))
  }

  /** `fs.copyFile(src, dst)`: the destination gets the source's bytes. */
  function CopyFileSpec(s: FsState, src: Path, dst: Path): (e: Effect<()>)
    requires dst != []
    ensures e.result.Ok? <==> src in s.files && dst !in s.dirs && Parent(dst) in s.dirs
    ensures e.result.Ok? ==> e.state == FsState(s.dirs, s.files[dst := s.files[src]])
    ensures e.result.Err? ==> e.state == s
    ensures WellFormed(s) ==> WellFormed(e.state)
  {
    if src !in s.files then
      Effect(Err(IoError(src, if src in s.dirs then EISDIR else ENOENT)), s)
    else WriteFileSpec(s, dst, s.files[src])
  }
}
