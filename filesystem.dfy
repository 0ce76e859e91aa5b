/** The persistence layer as it runs: a filesystem object whose methods
    change its directories and files step by step, and the caller's
    documents as mutable objects. Each method is tied to the function of
    `Lifecycle` or `FileStore` that specifies it. */
module JsonUtils {
  import opened Json
  import opened Schemas
  import opened Paths
  import opened FileStore
  import opened Lifecycle

  /** A JavaScript object held by the caller; `write*` updates its metadata
      in place. */
  class Doc {
    var value: Json

    constructor (v: Json)
      ensures value == v
    {
      value := v;
    }
  }

  /** The directory tree under the working directory `root`. */
  class FileSystem {
    const root: Path
    var dirs: set<Path>
    var files: map<Path, Content>

    function State(): FsState
      reads this
    {
      FsState(dirs, files)
    }

    ghost predicate Valid()
      reads this
    {
      WellFormed(State())
    }

    constructor (root: Path, initial: FsState)
      requires WellFormed(initial)
      ensures Valid() && this.root == root && State() == initial
    {
      this.root := root;
      dirs := initial.dirs;
      files := initial.files;
    }

    // -------------------------------------------------------------------
    // fs primitives
    // -------------------------------------------------------------------

    /** `fs.access(p)`. */
    method Access(p: Path) returns (b: bool)
      ensures b == Exists(State(), p)
    {
      b := p in dirs || p in files;
    }

    method ReadJsonFile(p: Path) returns (r: Result<Option<Json>>)
      ensures r == ReadJsonSpec(State(), p)
    {
      if p in files {
        match files[p]
        case Decoded(v) => r := Ok(Some(v));
        case Garbled => r := Err(ParseError(p));
      } else if exists k :: 0 < k < |p| && p[..k] in files {
        r := Err(IoError(p, ENOTDIR));
      } else if p in dirs {
        r := Err(IoError(p, EISDIR));
      } else {
        r := Ok(None);
      }
    }

    /** `fs.mkdir(p, { recursive: true })`. */
    method MakeDirs(p: Path) returns (r: Result<()>)
      requires Valid()
      modifies this
      ensures Valid()
      ensures Effect(r, State()) == MakeDirsSpec(old(State()), p)
    {
      if exists k :: 0 < k <= |p| && p[..k] in files {
        r := Err(IoError(p, if p in files then EEXIST else ENOTDIR));
      } else {
        dirs := dirs + Prefixes(p);
        r := Ok(());
        assert State() == MakeDirsSpec(old(State()), p).state;
      }
    }

    method WriteJsonFile(p: Path, v: Json) returns (r: Result<()>)
      requires Valid() && p != []
      modifies this
      ensures Valid()
      ensures Effect(r, State()) == WriteJsonSpec(old(State()), p, v)
    {
      r := MakeDirs(Parent(p));
      if r.Err? {
        return;
      }
      if p in dirs {
        r := Err(IoError(p, EISDIR));
      } else {
        files := files[p := Decoded(v)];
      }
    }

    /** `fs.readdir(p)`: the names in the directory, each once, in an order
        the operating system chooses. */
    method ReadDir(p: Path) returns (r: Result<seq<string>>)
      ensures r.Ok? == ReadDirSpec(State(), p).Ok?
      ensures r.Err? ==> r.error == ReadDirSpec(State(), p).error
      ensures r.Ok? ==> Enumerates(r.value, Children(State(), p))
    {
      if p in files || exists k :: 0 < k < |p| && p[..k] in files {
        return Err(IoError(p, ENOTDIR));
      }
      if p !in dirs {
        return Err(IoError(p, ENOENT));
      }
      var all := Children(State(), p);
      var remaining := all;
      var listed: seq<string> := [];
      while remaining != {}
        invariant remaining <= all
        invariant Enumerates(listed, all - remaining)
        decreases remaining
      {
        var c :| c in remaining;
        listed := listed + [c];
        remaining := remaining - {c};
      }
      r := Ok(listed);
    }

    /** `fs.copyFile(src, dst)`. */
    method CopyFile(src: Path, dst: Path) returns (r: Result<()>)
      requires Valid() && dst != []
      modifies this
      ensures Valid()
      ensures Effect(r, State()) == CopyFileSpec(old(State()), src, dst)
    {
      if src !in files {
        r := Err(IoError(src, if src in dirs then EISDIR else ENOENT));
      } else if dst in dirs {
        r := Err(IoError(dst, EISDIR));
      } else if Parent(dst) !in dirs {
        r := Err(IoError(dst, ENOENT));
      } else {
        files := files[dst := files[src]];
        r := Ok(());
      }
    }

    // -------------------------------------------------------------------
    // Documents
    // -------------------------------------------------------------------

    method EnsureProjectDir(featureName: string) returns (r: Result<()>)
      requires Valid()
      modifies this
      ensures Valid()
      ensures Effect(r, State()) == EnsureProjectDirSpec(old(State()), root, featureName)
    {
      var projectPath := ProjectPath(root, featureName);
      var present := Access(projectPath);
      if present {
        r := Ok(());
      } else {
        r := MakeDirs(projectPath);
      }
    }

    method ReadDocument(kind: Kind, featureName: string) returns (r: Result<Option<Json>>)
      ensures r == ReadDocSpec(State(), root, kind, featureName)
    {
      var filePath := DocPath(root, featureName, kind);
      r := ReadJsonFile(filePath);
      if r.Ok? && r.value.Some? && !Validate(kind, r.value.value) {
        r := Err(InvalidOnRead(kind, filePath));
      }
    }

    /** Validates `doc`, stamps its metadata in place, then writes it. */
    method WriteDocument(kind: Kind, featureName: string, doc: Doc, now: string) returns (r: Result<()>)
      requires Valid()
      modifies this, doc
      ensures Valid()
      ensures var e := WriteDocSpec(old(State()), root, kind, featureName, old(doc.value), now);
        State() == e.state && r.Ok? == e.result.Ok? && (r.Err? ==> r.error == e.result.error)
      ensures var stamped := StampForWrite(kind, old(doc.value), featureName, now);
        doc.value == if stamped.Ok? then stamped.value else old(doc.value)
    {
      if !Validate(kind, doc.value) {
        return Err(InvalidOnWrite(kind));
      }
      var metadata := doc.value.fields["metadata"];
      if metadata == JNull {
        return Err(TypeError);
      }
      if metadata.JObject? {
        var m := metadata.fields;
        m := m["updated" := JString(now)];
        m := m["featureName" := JString(featureName)];
        doc.value := JObject(doc.value.fields["metadata" := JObject(m)]);
      }
      r := WriteJsonFile(DocPath(root, featureName, kind), doc.value);
    }

    /** Returns the merged object that was written, stamped. */
    method CreateOrUpdate(kind: Kind, featureName: string, updates: map<string, Json>, now: string)
      returns (r: Result<Doc>)
      requires Valid()
      modifies this
      ensures Valid()
      ensures var e := CreateOrUpdateSpec(old(State()), root, kind, featureName, updates, now);
        && State() == e.state
        && r.Ok? == e.result.Ok?
        && (r.Ok? ==> fresh(r.value) && r.value.value == e.result.value)
        && (r.Err? ==> r.error == e.result.error)
    {
      var ensured := EnsureProjectDir(featureName);
      if ensured.Err? {
        return Err(ensured.error);
      }
      var existing := ReadDocument(kind, featureName);
      if existing.Err? {
        return Err(existing.error);
      }
      var base: Json;
      if existing.value.None? {
        base := Template(kind, featureName, now);
      } else {
        base := existing.value.value;
      }
      var updated := new Doc(JObject(Merge(base.fields, updates)));
      var written := WriteDocument(kind, featureName, updated, now);
      if written.Err? {
        return Err(written.error);
      }
      r := Ok(updated);
    }

    // -------------------------------------------------------------------
    // Projects
    // -------------------------------------------------------------------

    method ListProjects() returns (r: Result<seq<string>>)
      ensures var spec := ListProjectsSpec(State(), root);
        && r.Ok? == spec.Ok?
        && (r.Err? ==> r.error == spec.error)
        && (r.Ok? ==> NoDuplicates(r.value) && forall c :: c in r.value <==> c in spec.value)
    {
      var codeloopsPath := CodeloopsPath(root);
      var entries := ReadDir(codeloopsPath);
      match entries
      case Err(e) =>
        if e.IoError? && e.code == ENOENT {
          r := Ok([]);
        } else {
          r := Err(e);
        }
      case Ok(names) =>
        r := Ok(KeepDirectories(codeloopsPath, names, dirs));
    }

    method ProjectExists(featureName: string) returns (b: bool)
      ensures b == ProjectExistsSpec(State(), root, featureName)
    {
      b := Access(ProjectPath(root, featureName));
    }

    method GetProjectFiles(featureName: string) returns (r: ProjectFiles)
      ensures r == ProjectFilesSpec(State(), root, featureName)
    {
      var present := ProjectExists(featureName);
      if !present {
        return ProjectFiles(false, false, false);
      }
      var problem := Access(DocPath(root, featureName, Problem));
      var technical := Access(DocPath(root, featureName, Technical));
      var tasks := Access(DocPath(root, featureName, Tasks));
      r := ProjectFiles(problem, technical, tasks);
    }

    /** `order` is the order in which the source directory was listed. */
    method BackupProject(featureName: string, now: string) returns (r: Result<string>, ghost order: seq<string>)
      requires Valid()
      modifies this
      ensures Valid()
      ensures Effect(r, State()) == BackupSpec(old(State()), root, featureName, now, order)
      ensures MakeDirsSpec(old(State()), ProjectPath(root, BackupName(featureName, now))).result.Ok? &&
              ReadDirSpec(old(State()), ProjectPath(root, featureName)).Ok? ==>
        Enumerates(order, Children(old(State()), ProjectPath(root, featureName)))
    {
      var backupName := BackupName(featureName, now);
      var sourcePath := ProjectPath(root, featureName);
      var backupPath := ProjectPath(root, backupName);
      ghost var s0 := State();
      BackupDirLeavesSourceAlone(s0, root, featureName, now);
      order := [];
      var made := MakeDirs(backupPath);
      if made.Err? {
        return Err(made.error), order;
      }
      var listing := ReadDir(sourcePath);
      if listing.Err? {
        return Err(listing.error), order;
      }
      var entries := listing.value;
      order := entries;
      ghost var s1 := State();
      var i := 0;
      while i < |entries|
        invariant 0 <= i <= |entries| && Valid()
        invariant CopyAll(s1, sourcePath, backupPath, entries) == CopyAll(State(), sourcePath, backupPath, entries[i..])
      {
        assert entries[i..][0] == entries[i] && entries[i..][1..] == entries[i + 1..];
        var copied := CopyFile(sourcePath + [entries[i]], backupPath + [entries[i]]);
        if copied.Err? {
          return Err(copied.error), order;
        }
        i := i + 1;
      }
      r := Ok(backupName);
    }
  }

  /** Starting from a working directory that holds nothing, creating the
      problem definition of feature "checkout" with only a problem statement
      stores the template overlaid with that statement and stamped with the
      feature name; afterwards only the problem document is reported. */
  method RunCheckoutScenario(root: Path, now: string) returns (stored: Json, present: ProjectFiles)
    ensures stored.JObject? && stored.fields.Keys == FieldTable(Problem).Keys
    ensures MetaField(stored, "featureName") == Some(JString("checkout"))
    ensures MetaField(stored, "created") == Some(JString(now))
    ensures stored.fields["problemStatement"] == JString("cart abandonment")
    ensures stored.fields["successCriteria"] == JArray([]) && stored.fields["users"] == JArray([])
    ensures present == ProjectFiles(true, false, false)
  {
    var fs := new FileSystem(root, FreshRoot(root));
    var updates := map["problemStatement" := JString("cart abandonment")];
    CheckoutScenario(root, now);
    CheckoutDocument(now);
    var r := fs.CreateOrUpdate(Problem, "checkout", updates, now);
    stored := r.value.value;
    present := fs.GetProjectFiles("checkout");
  }
}
