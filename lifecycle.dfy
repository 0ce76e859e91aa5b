/** The document lifecycle and the project-directory operations, as functions
    from a filesystem state to an outcome and a new state. */
module Lifecycle {
  import opened Json
  import opened Schemas
  import opened Paths
  import opened FileStore

  // ---------------------------------------------------------------------
  // Reading a document
  // ---------------------------------------------------------------------

  /** The read operation exactly as the source writes it,
      `if (data && !validate(data)) throw ...; return data;`, applied to what
      `readJsonFile` produced. JavaScript cannot tell a file holding `null`
      from a missing file (both come back as `null`), and a falsy value
      skips validation. */
  function ReadDocAsWritten(kind: Kind, path: Path, raw: Result<Option<Json>>): (r: Result<Option<Json>>)
    ensures raw.Err? ==> r == raw
    ensures r.Ok? && r.value.Some? ==> r == raw && (Truthy(r.value.value) ==> Validate(kind, r.value.value))
    ensures raw.Ok? && (raw.value.None? || raw.value.value == JNull) ==> r == Ok(None)
  {
    match raw
    case Err(e) => Err(e)
    case Ok(None) => Ok(None)
    case Ok(Some(v)) =>
      if v == JNull then Ok(None)
      else if Truthy(v) && !Validate(kind, v) then Err(InvalidOnRead(kind, path))
      else Ok(Some(v))
  }

  /** A `problem.json` holding `false` is returned as if it were a problem
      definition, and one holding `null` reads as a missing document. */
  lemma FalsyContentBypassesValidation(path: Path)
    ensures !Validate(Problem, JBool(false)) && !Validate(Problem, JNull)
    ensures ReadDocAsWritten(Problem, path, Ok(Some(JBool(false)))) == Ok(Some(JBool(false)))
    ensures ReadDocAsWritten(Problem, path, Ok(Some(JNull))) == Ok(None)
  {
  }

  /** The read check as intended: every present value is validated. */
  function CheckRead(kind: Kind, path: Path, raw: Result<Option<Json>>): (r: Result<Option<Json>>)
    ensures r == Ok(None) <==> raw == Ok(None)
    ensures raw.Err? ==> r == raw
    ensures r.Ok? && r.value.Some? ==> r == raw && Validate(kind, r.value.value)
    ensures raw.Ok? && raw.value.Some? && !Validate(kind, raw.value.value) ==> r == Err(InvalidOnRead(kind, path))
  {
    match raw
    case Err(e) => Err(e)
    case Ok(None) => Ok(None)
    case Ok(Some(v)) => if Validate(kind, v) then Ok(Some(v)) else Err(InvalidOnRead(kind, path))
  }

  /** The two differ exactly on present content that is falsy. */
  lemma AsWrittenDiffersOnlyOnFalsy(kind: Kind, path: Path, raw: Result<Option<Json>>)
    ensures ReadDocAsWritten(kind, path, raw) != CheckRead(kind, path, raw)
        <==> raw.Ok? && raw.value.Some? && !Truthy(raw.value.value)
  {
  }

  /** Reading the document of `kind` for `featureName`: absence is `None`,
      a present value is returned unchanged only when it validates, and an
      invalid one is an error naming the file. */
  function ReadDocSpec(s: FsState, root: Path, kind: Kind, featureName: string): (r: Result<Option<Json>>)
    ensures var p := DocPath(root, featureName, kind);
      && (r == Ok(None) <==> !Exists(s, p) && !FileOnPath(s, p))
      && (r.Ok? && r.value.Some? ==> p in s.files && s.files[p] == Decoded(r.value.value) && Validate(kind, r.value.value))
      && (p in s.files && s.files[p].Decoded? && !Validate(kind, s.files[p].value) ==> r == Err(InvalidOnRead(kind, p)))
  {
    var p := DocPath(root, featureName, kind);
    CheckRead(kind, p, ReadJsonSpec(s, p))
  }

  // ---------------------------------------------------------------------
  // Writing a document
  // ---------------------------------------------------------------------

  /** `doc.metadata.updated = now; doc.metadata.featureName = featureName`
      on a value whose metadata has passed `typeof === 'object'`. On `null`
      it throws; on an array the two named properties are dropped when the
      value is serialized, so what reaches the file is the array as it was. */
  function Stamp(doc: Json, featureName: string, now: string): (r: Result<Json>)
    requires doc.JObject? && "metadata" in doc.fields && TypeOf(Some(doc.fields["metadata"])) == Object
    ensures r.Err? <==> doc.fields["metadata"] == JNull
    ensures r.Err? ==> r.error == TypeError
    ensures doc.fields["metadata"].JArray? ==> r == Ok(doc)
    ensures r.Ok? ==> r.value.JObject? && r.value.fields.Keys == doc.fields.Keys && "metadata" in r.value.fields
    ensures r.Ok? ==> forall key :: key in doc.fields && key != "metadata" ==> r.value.fields[key] == doc.fields[key]
    ensures r.Ok? && doc.fields["metadata"].JObject? ==>
      var before, after := doc.fields["metadata"].fields, r.value.fields["metadata"];
      && after.JObject?
      && after.fields.Keys == before.Keys + {"updated", "featureName"}
      && MetaField(r.value, "updated") == Some(JString(now))
      && MetaField(r.value, "featureName") == Some(JString(featureName))
      && forall key :: key in before && key != "updated" && key != "featureName" ==> after.fields[key] == before[key]
  {
    match doc.fields["metadata"]
    case JNull => Err(TypeError)
    case JArray(_) => Ok(doc)
    case JObject(m) =>
      Ok(JObject(doc.fields["metadata" := JObject(m["updated" := JString(now)]["featureName" := JString(featureName)])]))
  }

  /** What `write*` does to the caller's value before it touches the disk:
      validate, then stamp. */
  function StampForWrite(kind: Kind, doc: Json, featureName: string, now: string): (r: Result<Json>)
    ensures !Validate(kind, doc) ==> r == Err(InvalidOnWrite(kind))
    ensures r.Ok? ==> Validate(kind, doc) && Validate(kind, r.value)
  {
    if !Validate(kind, doc) then Err(InvalidOnWrite(kind))
    else
      var r := Stamp(doc, featureName, now);
      if r.Ok? then StampKeepsValid(kind, doc, r.value); r else r
  }

  lemma StampKeepsValid(kind: Kind, doc: Json, stamped: Json)
    requires Validate(kind, doc) && stamped.JObject? && stamped.fields.Keys == doc.fields.Keys
    requires TypeOf(Some(stamped.fields["metadata"])) == Object
    requires forall key :: key in doc.fields && key != "metadata" ==> stamped.fields[key] == doc.fields[key]
    ensures Validate(kind, stamped)
  {
    ValidatorIsShallow(kind, doc, stamped);
  }

  /** A valid value whose metadata is an object can always be stamped. */
  lemma StampsObjectMetadata(kind: Kind, doc: Json, featureName: string, now: string)
    requires Validate(kind, doc) && doc.fields["metadata"].JObject?
    ensures StampForWrite(kind, doc, featureName, now).Ok?
  {
  }

  /** `write*(featureName, doc)`: validate, stamp, then `writeJsonFile`. The
      value in the result is what the caller's object holds afterwards. */
  function WriteDocSpec(s: FsState, root: Path, kind: Kind, featureName: string, doc: Json, now: string): (e: Effect<Json>)
    ensures StampForWrite(kind, doc, featureName, now).Err? ==>
      e == Effect(Err(StampForWrite(kind, doc, featureName, now).error), s)
    ensures e.result.Ok? ==> StampForWrite(kind, doc, featureName, now) == e.result
    ensures e.result.Ok? ==> e.state.files == s.files[DocPath(root, featureName, kind) := Decoded(e.result.value)]
    ensures e.result.Err? ==> e.state.files == s.files
    ensures WellFormed(s) ==> WellFormed(e.state)
  {
    match StampForWrite(kind, doc, featureName, now)
    case Err(err) => Effect(Err(err), s)
    case Ok(d) =>
      var w := WriteJsonSpec(s, DocPath(root, featureName, kind), d);
      Effect(if w.result.Ok? then Ok(d) else Err(w.result.error), w.state)
  }

  /** A value that fails its validator is refused before anything on disk
      is created or changed. */
  lemma InvalidWriteChangesNothing(s: FsState, root: Path, kind: Kind, featureName: string, doc: Json, now: string)
    requires !Validate(kind, doc)
    ensures WriteDocSpec(s, root, kind, featureName, doc, now) == Effect(Err(InvalidOnWrite(kind)), s)
  {
  }

  /** A value whose metadata is `null` passes the validator, then the stamp
      throws: nothing is written. */
  lemma NullMetadataWriteFails(s: FsState, root: Path, kind: Kind, featureName: string, doc: Json, now: string)
    requires Validate(kind, doc) && doc.fields["metadata"] == JNull
    ensures WriteDocSpec(s, root, kind, featureName, doc, now) == Effect(Err(TypeError), s)
  {
  }

  /** Writing and then reading gives back the stamped value. */
  lemma {:induction false} WriteThenRead(s: FsState, root: Path, kind: Kind, featureName: string, doc: Json, now: string)
    requires WellFormed(s)
    requires WriteDocSpec(s, root, kind, featureName, doc, now).result.Ok?
    ensures var e := WriteDocSpec(s, root, kind, featureName, doc, now);
      ReadDocSpec(e.state, root, kind, featureName) == Ok(Some(e.result.value))
  {
    var e := WriteDocSpec(s, root, kind, featureName, doc, now);
    var p := DocPath(root, featureName, kind);
    assert p in e.state.files && e.state.files[p] == Decoded(e.result.value);
    assert ReadJsonSpec(e.state, p) == Ok(Some(e.result.value));
  }

  // ---------------------------------------------------------------------
  // Create or update
  // ---------------------------------------------------------------------

  /** `{ ...existing, ...updates }`: every key of `updates` replaces the base
      value wholesale; every other key keeps it. */
  function Merge(base: map<string, Json>, updates: map<string, Json>): (r: map<string, Json>)
    ensures r.Keys == base.Keys + updates.Keys
    ensures forall key :: key in updates ==> r[key] == updates[key]
    ensures forall key :: key in base && key !in updates ==> r[key] == base[key]
  {
    base + updates
  }

  /** The merge is one level deep: a task list `[a, b]` overlaid with
      `{ tasks: [c] }` becomes `[c]`. */
  lemma ShallowMergeReplacesLists(base: map<string, Json>, a: Json, b: Json, c: Json)
    ensures Merge(base["tasks" := JArray([a, b])], map["tasks" := JArray([c])])["tasks"] == JArray([c])
  {
  }

  /** `ensureProjectDir`: creates the project directory unless something is
      already at that path. */
  function EnsureProjectDirSpec(s: FsState, root: Path, featureName: string): (e: Effect<()>)
    ensures e.state.files == s.files
    ensures Exists(s, ProjectPath(root, featureName)) ==> e == Effect(Ok(()), s)
    ensures e.result.Ok? ==> Exists(e.state, ProjectPath(root, featureName))
    ensures e.result.Err? ==> e.state == s
    ensures WellFormed(s) ==> WellFormed(e.state)
  {
    var p := ProjectPath(root, featureName);
    if Exists(s, p) then Effect(Ok(()), s) else MakeDirsSpec(s, p)
  }

  /** Ensuring the directory a second time changes nothing. */
  lemma EnsureProjectDirIdempotent(s: FsState, root: Path, featureName: string)
    requires EnsureProjectDirSpec(s, root, featureName).result.Ok?
    ensures var t := EnsureProjectDirSpec(s, root, featureName).state;
      EnsureProjectDirSpec(t, root, featureName) == Effect(Ok(()), t)
  {
  }

  /** Ensuring the project directory never changes what a document read sees. */
  lemma EnsureKeepsReads(s: FsState, root: Path, kind: Kind, featureName: string)
    ensures var t := EnsureProjectDirSpec(s, root, featureName).state;
      ReadDocSpec(t, root, kind, featureName) == ReadDocSpec(s, root, kind, featureName)
  {
  }

  /** The value a create-or-update starts from: the stored document, or the
      kind's template when there is none. */
  function BaseDocument(kind: Kind, featureName: string, now: string, existing: Option<Json>): (r: map<string, Json>)
    requires existing.Some? ==> Validate(kind, existing.value)
    ensures Validate(kind, JObject(r))
    ensures existing.None? ==> JObject(r) == Template(kind, featureName, now)
    ensures existing.Some? ==> JObject(r) == existing.value
  {
    if existing.Some? then existing.value.fields else Template(kind, featureName, now).fields
  }

  /** `createOrUpdate*(featureName, updates)`: ensure the directory, read
      (or take the template), overlay `updates`, write. The value in the
      result is the merged value after stamping: exactly what was stored. */
  function CreateOrUpdateSpec(s: FsState, root: Path, kind: Kind, featureName: string,
                              updates: map<string, Json>, now: string): (e: Effect<Json>)
    ensures e.result.Ok? ==>
      DocPath(root, featureName, kind) in e.state.files &&
      e.state.files[DocPath(root, featureName, kind)] == Decoded(e.result.value)
    ensures e.result.Err? ==> e.state.files == s.files
    ensures WellFormed(s) ==> WellFormed(e.state)
  {
    var ensured := EnsureProjectDirSpec(s, root, featureName);
    if ensured.result.Err? then Effect(Err(ensured.result.error), ensured.state)
    else
      var existing := ReadDocSpec(ensured.state, root, kind, featureName);
      if existing.Err? then Effect(Err(existing.error), ensured.state)
      else
        var merged := JObject(Merge(BaseDocument(kind, featureName, now, existing.value), updates));
        WriteDocSpec(ensured.state, root, kind, featureName, merged, now)
  }

  /** What stamping a merged value keeps: every key of `updates` other
      than `metadata` verbatim, every other key of the base verbatim, and the
      base's `created` stamp unless `updates` brings its own metadata. */
  lemma StampedOverlay(kind: Kind, base: map<string, Json>, updates: map<string, Json>, featureName: string, now: string)
    requires StampForWrite(kind, JObject(Merge(base, updates)), featureName, now).Ok?
    ensures var stored := StampForWrite(kind, JObject(Merge(base, updates)), featureName, now).value;
      && stored.JObject?
      && stored.fields.Keys == base.Keys + updates.Keys
      && (forall key :: key in updates && key != "metadata" ==> stored.fields[key] == updates[key])
      && (forall key :: key in base && key !in updates && key != "metadata" ==> stored.fields[key] == base[key])
      && ("metadata" !in updates && "metadata" in base && base["metadata"].JObject? ==>
            MetaField(stored, "created") == MetaField(JObject(base), "created"))
  {
    var merged := JObject(Merge(base, updates));
    assert Stamp(merged, featureName, now) == StampForWrite(kind, merged, featureName, now);
  }

  /** A successful create-or-update stores the stamped overlay of `updates`
      on the base document: the stored one, or the template when the
      document is absent. */
  lemma {:induction false} CreateOrUpdateStoresOverlay(s: FsState, root: Path, kind: Kind, featureName: string,
                                                       updates: map<string, Json>, now: string)
    requires CreateOrUpdateSpec(s, root, kind, featureName, updates, now).result.Ok?
    ensures ReadDocSpec(s, root, kind, featureName).Ok?
    ensures var base := BaseDocument(kind, featureName, now, ReadDocSpec(s, root, kind, featureName).value);
      CreateOrUpdateSpec(s, root, kind, featureName, updates, now).result ==
        StampForWrite(kind, JObject(Merge(base, updates)), featureName, now)
  {
    EnsureKeepsReads(s, root, kind, featureName);
  }

  /** On a feature with no document yet, the stored value is the template
      overlaid with `updates` and stamped; with nothing in `updates` it is
      the template with `updated` set to the current instant. */
  lemma CreateOnAbsentUsesTemplate(s: FsState, root: Path, kind: Kind, featureName: string,
                                   updates: map<string, Json>, now: string)
    requires WellFormed(s)
    requires !Exists(s, DocPath(root, featureName, kind)) && !FileOnPath(s, DocPath(root, featureName, kind))
    requires CreateOrUpdateSpec(s, root, kind, featureName, updates, now).result.Ok?
    ensures CreateOrUpdateSpec(s, root, kind, featureName, updates, now).result ==
      StampForWrite(kind, JObject(Merge(Template(kind, featureName, now).fields, updates)), featureName, now)
  {
    EnsureKeepsReads(s, root, kind, featureName);
  }

  /** Reading never fails with a write-time validation error. */
  lemma ReadNeverInvalidOnWrite(s: FsState, root: Path, kind: Kind, featureName: string)
    ensures ReadDocSpec(s, root, kind, featureName).Err? ==>
      !ReadDocSpec(s, root, kind, featureName).error.InvalidOnWrite?
  {
    var p := DocPath(root, featureName, kind);
    assert ReadDocSpec(s, root, kind, featureName) == CheckRead(kind, p, ReadJsonSpec(s, p));
  }

  /** A write refused by the validator changes nothing. */
  lemma WriteInvalidOnWriteKeepsState(s: FsState, root: Path, kind: Kind, featureName: string, doc: Json, now: string)
    requires WriteDocSpec(s, root, kind, featureName, doc, now).result == Err(InvalidOnWrite(kind))
    ensures WriteDocSpec(s, root, kind, featureName, doc, now).state == s
  {
  }


  /** A merge refused by the validator leaves the state the directory step
      produced. */
  lemma {:induction false} InvalidMergeKeepsEnsuredState(s: FsState, root: Path, kind: Kind, featureName: string,
                                                         updates: map<string, Json>, now: string)
    requires EnsureProjectDirSpec(s, root, featureName).result.Ok?
    requires CreateOrUpdateSpec(s, root, kind, featureName, updates, now).result == Err(InvalidOnWrite(kind))
    ensures CreateOrUpdateSpec(s, root, kind, featureName, updates, now).state ==
      EnsureProjectDirSpec(s, root, featureName).state
  {
    var t := EnsureProjectDirSpec(s, root, featureName).state;
    ReadNeverInvalidOnWrite(t, root, kind, featureName);
    var existing := ReadDocSpec(t, root, kind, featureName);
    if existing.Ok? {
      var merged := JObject(Merge(BaseDocument(kind, featureName, now, existing.value), updates));
      WriteInvalidOnWriteKeepsState(t, root, kind, featureName, merged, now);
    }
  }

  /** The project directory is created before validation: a merge that
      fails validation leaves no document written but the directory in place. */
  lemma InvalidMergeLeavesDirectory(s: FsState, root: Path, kind: Kind, featureName: string,
                                    updates: map<string, Json>, now: string)
    requires EnsureProjectDirSpec(s, root, featureName).result.Ok?
    requires CreateOrUpdateSpec(s, root, kind, featureName, updates, now).result == Err(InvalidOnWrite(kind))
    ensures var e := CreateOrUpdateSpec(s, root, kind, featureName, updates, now);
      && e.state.files == s.files
      && Exists(e.state, ProjectPath(root, featureName))
  {
    InvalidMergeKeepsEnsuredState(s, root, kind, featureName, updates, now);
  }

  /** `createOrUpdate*` exactly as the source writes it: the read is the
      as-written one, and `if (!existing)` takes the template for any falsy
      read result, not only for a missing document. */
  function CreateOrUpdateAsWritten(s: FsState, root: Path, kind: Kind, featureName: string,
                                   updates: map<string, Json>, now: string): (e: Effect<Json>)
    ensures e.result.Ok? ==>
      DocPath(root, featureName, kind) in e.state.files &&
      e.state.files[DocPath(root, featureName, kind)] == Decoded(e.result.value)
    ensures e.result.Err? ==> e.state.files == s.files
    ensures WellFormed(s) ==> WellFormed(e.state)
  {
    var ensured := EnsureProjectDirSpec(s, root, featureName);
    if ensured.result.Err? then Effect(Err(ensured.result.error), ensured.state)
    else
      var p := DocPath(root, featureName, kind);
      var existing := ReadDocAsWritten(kind, p, ReadJsonSpec(ensured.state, p));
      if existing.Err? then Effect(Err(existing.error), ensured.state)
      else
        var base := if existing.value.Some? && Truthy(existing.value.value)
                    then existing.value.value.fields
                    else Template(kind, featureName, now).fields;
        WriteDocSpec(ensured.state, root, kind, featureName, JObject(Merge(base, updates)), now)
  }

  /** Writing over an existing document file never fails on the filesystem:
      its directory chain is already there. */
  lemma {:induction false} WriteOverExistingFile(s: FsState, root: Path, kind: Kind, featureName: string, doc: Json, now: string)
    requires WellFormed(s) && DocPath(root, featureName, kind) in s.files
    ensures WriteDocSpec(s, root, kind, featureName, doc, now).result == StampForWrite(kind, doc, featureName, now)
  {
    var p := DocPath(root, featureName, kind);
    var project := Parent(p);
    forall k | 0 < k <= |project| ensures project[..k] !in s.files {
      if k == |project| {
        assert project[..k] == project;
      } else {
        assert project[..k] in s.dirs;
      }
    }
    assert MakeDirsSpec(s, project).result.Ok?;
  }

  /** A document file holding a falsy value: its project directory exists,
      the as-written read comes back falsy, and the intended read refuses it. */
  lemma {:induction false} FalsyFileReads(s: FsState, root: Path, kind: Kind, featureName: string, v: Json)
    requires WellFormed(s)
    requires DocPath(root, featureName, kind) in s.files
    requires s.files[DocPath(root, featureName, kind)] == Decoded(v) && !Truthy(v)
    ensures EnsureProjectDirSpec(s, root, featureName) == Effect(Ok(()), s)
    ensures var p := DocPath(root, featureName, kind);
      var r := ReadDocAsWritten(kind, p, ReadJsonSpec(s, p));
      r.Ok? && (r.value.None? || !Truthy(r.value.value))
    ensures ReadDocSpec(s, root, kind, featureName) == Err(InvalidOnRead(kind, DocPath(root, featureName, kind)))
  {
    var p := DocPath(root, featureName, kind);
    assert Parent(p) == ProjectPath(root, featureName);
    assert ReadJsonSpec(s, p) == Ok(Some(v));
  }

  /** As written, a document file holding `null`, `false`, `0` or `""` is
      silently replaced by the stamped template overlay, where the intended
      read refuses it and leaves the filesystem as it was. */
  lemma {:induction false} FalsyFileOverwrittenByTemplate(s: FsState, root: Path, kind: Kind, featureName: string,
                                                          updates: map<string, Json>, now: string, v: Json)
    requires WellFormed(s)
    requires DocPath(root, featureName, kind) in s.files
    requires s.files[DocPath(root, featureName, kind)] == Decoded(v) && !Truthy(v)
    ensures CreateOrUpdateAsWritten(s, root, kind, featureName, updates, now).result ==
      StampForWrite(kind, JObject(Merge(Template(kind, featureName, now).fields, updates)), featureName, now)
    ensures CreateOrUpdateSpec(s, root, kind, featureName, updates, now) ==
      Effect(Err(InvalidOnRead(kind, DocPath(root, featureName, kind))), s)
  {
    FalsyFileReads(s, root, kind, featureName, v);
    WriteOverExistingFile(s, root, kind, featureName,
                          JObject(Merge(Template(kind, featureName, now).fields, updates)), now);
  }

  /** The as-written and the intended create-or-update agree whenever the
      document file does not hold a falsy value. */
  lemma AsWrittenCreateAgreesOnTruthy(s: FsState, root: Path, kind: Kind, featureName: string,
                                      updates: map<string, Json>, now: string)
    requires var p := DocPath(root, featureName, kind);
      !(p in s.files && s.files[p].Decoded? && !Truthy(s.files[p].value))
    ensures CreateOrUpdateAsWritten(s, root, kind, featureName, updates, now) ==
      CreateOrUpdateSpec(s, root, kind, featureName, updates, now)
  {
    var p := DocPath(root, featureName, kind);
    var ensured := EnsureProjectDirSpec(s, root, featureName);
    AsWrittenDiffersOnlyOnFalsy(kind, p, ReadJsonSpec(ensured.state, p));
  }

  /** A filesystem holding only the working directory and its ancestors. */
  function FreshRoot(root: Path): (s: FsState)
    ensures WellFormed(s) && s.files == map[]
    ensures forall p :: p in s.dirs ==> |p| <= |root|
  {
    var s := FsState(Prefixes(root), map[]);
    assert root[..0] == [];
    forall d, k | d in s.dirs && 0 <= k < |d| ensures d[..k] in s.dirs {
      assert d == root[..|d|] && d[..k] == root[..k];
    }
    s
  }

  /** On a fresh working directory, ensuring a project directory creates
      it, and no document can be found there yet. */
  lemma FreshProjectDir(root: Path, featureName: string)
    ensures var e := EnsureProjectDirSpec(FreshRoot(root), root, featureName);
      && e.result.Ok?
      && e.state == FsState(Prefixes(root) + Prefixes(ProjectPath(root, featureName)), map[])
      && forall kind :: ReadDocSpec(e.state, root, kind, featureName) == Ok(None)
  {
    var s := FreshRoot(root);
    var project := ProjectPath(root, featureName);
    assert project !in s.dirs;
    var t := EnsureProjectDirSpec(s, root, featureName).state;
    forall kind ensures ReadDocSpec(t, root, kind, featureName) == Ok(None) {
      assert DocPath(root, featureName, kind) !in t.dirs;
    }
  }

  /** Overlaying a problem statement on the problem template gives a value
      that validates and can be stamped. */
  lemma StatementOverTemplateStamps(featureName: string, now: string, statement: string)
    ensures var merged := JObject(Merge(ProblemTemplate(featureName, now).fields,
                                        map["problemStatement" := JString(statement)]));
      StampForWrite(Problem, merged, featureName, now).Ok?
  {
    var fields := ProblemTemplate(featureName, now).fields;
    var merged := Merge(fields, map["problemStatement" := JString(statement)]);
    assert merged == fields["problemStatement" := JString(statement)];
    NestedContentIgnored(Problem, fields, "problemStatement", JString(statement));
    assert merged["metadata"] == fields["metadata"];
    StampsObjectMetadata(Problem, JObject(merged), featureName, now);
  }

  /** A project directory holding only its problem document reports just that. */
  lemma OnlyProblemReported(root: Path, featureName: string, c: Content)
    ensures var project := ProjectPath(root, featureName);
      var s := FsState(Prefixes(root) + Prefixes(project), map[DocPath(root, featureName, Problem) := c]);
      ProjectFilesSpec(s, root, featureName) == ProjectFiles(true, false, false)
  {
    var project := ProjectPath(root, featureName);
    PathsAreDistinct(root, featureName, featureName, Problem, Technical);
    PathsAreDistinct(root, featureName, featureName, Problem, Tasks);
    assert project in Prefixes(project);
    assert DocPath(root, featureName, Technical) !in Prefixes(root) + Prefixes(project);
    assert DocPath(root, featureName, Tasks) !in Prefixes(root) + Prefixes(project);
  }

  /** The document the checkout scenario stores: the template's fields, the
      new statement, the feature name and the creation instant. */
  lemma CheckoutDocument(now: string)
    ensures var updates := map["problemStatement" := JString("cart abandonment")];
      var r := StampForWrite(Problem, JObject(Merge(ProblemTemplate("checkout", now).fields, updates)), "checkout", now);
      && r.Ok?
      && r.value.JObject? && r.value.fields.Keys == FieldTable(Problem).Keys
      && MetaField(r.value, "featureName") == Some(JString("checkout"))
      && MetaField(r.value, "created") == Some(JString(now))
      && r.value.fields["problemStatement"] == JString("cart abandonment")
      && r.value.fields["successCriteria"] == JArray([]) && r.value.fields["users"] == JArray([])
  {
    var updates := map["problemStatement" := JString("cart abandonment")];
    StatementOverTemplateStamps("checkout", now, "cart abandonment");
    StampedOverlay(Problem, ProblemTemplate("checkout", now).fields, updates, "checkout", now);
  }

  /** Starting from a working directory that holds nothing, creating the
      problem definition of feature "checkout" with only a problem statement
      stores the stamped overlay of that statement on the template; afterwards
      only the problem document is reported. */
  lemma {:induction false} CheckoutScenario(root: Path, now: string)
    ensures var updates := map["problemStatement" := JString("cart abandonment")];
      var e := CreateOrUpdateSpec(FreshRoot(root), root, Problem, "checkout", updates, now);
      && e.result.Ok?
      && e.result == StampForWrite(Problem, JObject(Merge(ProblemTemplate("checkout", now).fields, updates)), "checkout", now)
      && ProjectFilesSpec(e.state, root, "checkout") == ProjectFiles(true, false, false)
  {
    var s := FreshRoot(root);
    var updates := map["problemStatement" := JString("cart abandonment")];
    FreshProjectDir(root, "checkout");
    var t := EnsureProjectDirSpec(s, root, "checkout").state;
    var project := ProjectPath(root, "checkout");
    StatementOverTemplateStamps("checkout", now, "cart abandonment");
    var merged := JObject(Merge(ProblemTemplate("checkout", now).fields, updates));
    var stamped := StampForWrite(Problem, merged, "checkout", now);
    var d := DocPath(root, "checkout", Problem);
    assert project in t.dirs;
    var w := WriteJsonSpec(t, d, stamped.value);
    assert w.result.Ok? && w.state == FsState(t.dirs, map[d := Decoded(stamped.value)]);
    var e := CreateOrUpdateSpec(s, root, Problem, "checkout", updates, now);
    assert e == Effect(Ok(stamped.value), w.state) by {
      assert ReadDocSpec(t, root, Problem, "checkout") == Ok(None);
      assert BaseDocument(Problem, "checkout", now, None) == ProblemTemplate("checkout", now).fields;
    }
    OnlyProblemReported(root, "checkout", Decoded(stamped.value));
  }

  /** On a fresh working directory, create-or-update writes the stamped
      overlay of `updates` on the template into the new project directory. */
  lemma {:induction false} CreateOnFreshRoot(root: Path, kind: Kind, featureName: string,
                                             updates: map<string, Json>, now: string)
    ensures var t := FsState(Prefixes(root) + Prefixes(ProjectPath(root, featureName)), map[]);
      CreateOrUpdateSpec(FreshRoot(root), root, kind, featureName, updates, now) ==
        WriteDocSpec(t, root, kind, featureName, JObject(Merge(Template(kind, featureName, now).fields, updates)), now)
  {
    FreshProjectDir(root, featureName);
  }

  /** An update that sets `successCriteria` to a string is refused, and yet
      on a fresh filesystem the project directory now exists. */
  lemma {:induction false} InvalidUpdateOnFreshRoot(root: Path, featureName: string, now: string)
    ensures var s := FreshRoot(root);
      var e := CreateOrUpdateSpec(s, root, Problem, featureName, map["successCriteria" := JString("fast")], now);
      && e.result == Err(InvalidOnWrite(Problem))
      && e.state.files == map[]
      && ProjectPath(root, featureName) in e.state.dirs
      && ProjectPath(root, featureName) !in s.dirs
  {
    var updates := map["successCriteria" := JString("fast")];
    CreateOnFreshRoot(root, Problem, featureName, updates, now);
    var merged := JObject(Merge(ProblemTemplate(featureName, now).fields, updates));
    assert !ValidProblemDefinition(merged);
    assert ProjectPath(root, featureName) in Prefixes(ProjectPath(root, featureName));
  }

  // ---------------------------------------------------------------------
  // Project directory operations
  // ---------------------------------------------------------------------

  predicate NoDuplicates(names: seq<string>) {
    forall i, j :: 0 <= i < j < |names| ==> names[i] != names[j]
  }

  /** `entries.filter(entry => entry.isDirectory()).map(entry => entry.name)`
      over the entries of directory `base`. */
  function KeepDirectories(base: Path, names: seq<string>, dirs: set<Path>): (r: seq<string>)
    ensures forall c :: c in r <==> c in names && base + [c] in dirs
    ensures NoDuplicates(names) ==> NoDuplicates(r)
    ensures |r| <= |names|
  {
    if names == [] then []
    else
      var rest := KeepDirectories(base, names[1..], dirs);
      assert forall c :: c in names[1..] ==> c in names;
      if base + [names[0]] in dirs then [names[0]] + rest else rest
  }

  /** `listProjects`: the names of the directories directly under
      `.codeloops`; no projects when `.codeloops` is missing. */
  function ListProjectsSpec(s: FsState, root: Path): (r: Result<set<string>>)
    ensures WellFormed(s) && r.Ok? ==> forall c :: c in r.value <==> ProjectPath(root, c) in s.dirs
    ensures !Exists(s, CodeloopsPath(root)) && !FileOnPath(s, CodeloopsPath(root)) ==> r == Ok({})
    ensures WellFormed(s) && CodeloopsPath(root) in s.dirs ==> r.Ok?
  {
    var base := CodeloopsPath(root);
    assert forall c :: ProjectPath(root, c)[..|base|] == base;
    match ReadDirSpec(s, base)
    case Err(e) => if e.IoError? && e.code == ENOENT then Ok({}) else Err(e)
    case Ok(names) => Ok(set c | c in names && ProjectPath(root, c) in s.dirs)
  }

  /** `projectExists`: something is at the project path. */
  function ProjectExistsSpec(s: FsState, root: Path, featureName: string): bool {
    Exists(s, ProjectPath(root, featureName))
  }

  datatype ProjectFiles = ProjectFiles(problem: bool, technical: bool, tasks: bool)

  /** `getProjectFiles`: all `false` when the project is missing, otherwise
      one `fs.access` per document file. */
  function ProjectFilesSpec(s: FsState, root: Path, featureName: string): ProjectFiles {
    if !ProjectExistsSpec(s, root, featureName) then ProjectFiles(false, false, false)
    else ProjectFiles(Exists(s, DocPath(root, featureName, Problem)),
                      Exists(s, DocPath(root, featureName, Technical)),
                      Exists(s, DocPath(root, featureName, Tasks)))
  }

  /** On a well-formed filesystem each flag is just "that document path
      exists": the early all-`false` answer for a missing project agrees. */
  lemma {:induction false} ProjectFilesAreDirectLookups(s: FsState, root: Path, featureName: string)
    requires WellFormed(s)
    ensures ProjectFilesSpec(s, root, featureName) ==
      ProjectFiles(Exists(s, DocPath(root, featureName, Problem)),
                   Exists(s, DocPath(root, featureName, Technical)),
                   Exists(s, DocPath(root, featureName, Tasks)))
  {
    var p := ProjectPath(root, featureName);
    forall kind: Kind | Exists(s, DocPath(root, featureName, kind)) ensures p in s.dirs {
      var d := DocPath(root, featureName, kind);
      if d in s.dirs {
        assert d[..|d| - 1] in s.dirs;
      }
      assert d[..|d| - 1] == p;
    }
  }

  // ---------------------------------------------------------------------
  // Backup
  // ---------------------------------------------------------------------

  /** The `for (const file of files) await fs.copyFile(...)` loop: copies
      `src/<name>` to `dst/<name>` in order, stopping at the first failure. */
  function CopyAll(s: FsState, src: Path, dst: Path, names: seq<string>): (e: Effect<()>)
    ensures e.state.dirs == s.dirs && s.files.Keys <= e.state.files.Keys
    ensures WellFormed(s) ==> WellFormed(e.state)
    decreases |names|
  {
    if names == [] then Effect(Ok(()), s)
    else
      var c := CopyFileSpec(s, src + [names[0]], dst + [names[0]]);
      if c.result.Err? then c else CopyAll(c.state, src, dst, names[1..])
  }

  /** The paths the copy loop writes to. */
  function Targets(dst: Path, names: seq<string>): set<Path> {
    set n | n in names :: dst + [n]
  }

  /** The copy loop writes nowhere but `dst/<name>`; when it succeeds every
      listed source was a file and its copy holds the same content. */
  lemma {:induction false} CopyAllCopies(s: FsState, src: Path, dst: Path, names: seq<string>)
    requires |src| == |dst| && src != dst
    ensures var e := CopyAll(s, src, dst, names);
      && e.state.files.Keys <= s.files.Keys + Targets(dst, names)
      && (forall p :: p in s.files && p !in Targets(dst, names) ==> e.state.files[p] == s.files[p])
      && (e.result.Ok? ==> forall n :: n in names ==>
            src + [n] in s.files && dst + [n] in e.state.files && e.state.files[dst + [n]] == s.files[src + [n]])
    decreases |names|
  {
    if names != [] {
      var n0 := names[0];
      var c := CopyFileSpec(s, src + [n0], dst + [n0]);
      if c.result.Ok? {
        CopyAllCopies(c.state, src, dst, names[1..]);
        assert Targets(dst, names) == Targets(dst, names[1..]) + {dst + [n0]};
        forall n | true ensures src + [n] != dst + [n0] {
          assert (src + [n])[..|src|] == src && (dst + [n0])[..|dst|] == dst;
        }
      }
    }
  }

  /** `order` lists each name of `names` once. */
  predicate Enumerates(order: seq<string>, names: set<string>) {
    (forall i, j :: 0 <= i < j < |order| ==> order[i] != order[j]) &&
    (forall n :: n in order ==> n in names) &&
    (forall n :: n in names ==> n in order)
  }

  /** `backupProject(featureName)` at instant `now`, where `order` is the
      order in which `readdir` lists the project directory: create the
      backup directory, list the source, copy each entry. */
  function BackupSpec(s: FsState, root: Path, featureName: string, now: string, order: seq<string>): (e: Effect<string>)
    ensures e.result.Ok? ==> e.result.value == BackupName(featureName, now)
    ensures WellFormed(s) ==> WellFormed(e.state)
    ensures s.files.Keys <= e.state.files.Keys
  {
    var name := BackupName(featureName, now);
    var src, dst := ProjectPath(root, featureName), ProjectPath(root, name);
    var mk := MakeDirsSpec(s, dst);
    if mk.result.Err? then Effect(Err(mk.result.error), mk.state)
    else
      match ReadDirSpec(mk.state, src)
      case Err(err) => Effect(Err(err), mk.state)
      case Ok(_) =>
        var c := CopyAll(mk.state, src, dst, order);
        Effect(if c.result.Ok? then Ok(name) else Err(c.result.error), c.state)
  }

  /** Creating the backup directory adds nothing inside the source directory. */
  lemma BackupDirLeavesSourceAlone(s: FsState, root: Path, featureName: string, now: string)
    ensures var mk := MakeDirsSpec(s, ProjectPath(root, BackupName(featureName, now)));
      var src := ProjectPath(root, featureName);
      && Children(mk.state, src) == Children(s, src)
      && ReadDirSpec(mk.state, src).Ok? == ReadDirSpec(s, src).Ok?
  {
    var dst := ProjectPath(root, BackupName(featureName, now));
    var src := ProjectPath(root, featureName);
    BackupNameShape(featureName, now);
    PathsAreDistinct(root, featureName, BackupName(featureName, now), Problem, Problem);
  }

  /** A successful backup returns the backup name, has copied every entry
      of the source directory (all of them files) into the backup directory
      with the same content, and changed no other file. */
  lemma {:induction false} BackupCopiesEveryEntry(s: FsState, root: Path, featureName: string, now: string, order: seq<string>)
    requires WellFormed(s)
    requires Enumerates(order, Children(s, ProjectPath(root, featureName)))
    requires BackupSpec(s, root, featureName, now, order).result.Ok?
    ensures var e := BackupSpec(s, root, featureName, now, order);
      var src, dst := ProjectPath(root, featureName), ProjectPath(root, BackupName(featureName, now));
      && e.result.value == BackupName(featureName, now)
      && dst in e.state.dirs
      && (forall n :: Exists(s, src + [n]) ==>
            src + [n] in s.files && dst + [n] in e.state.files && e.state.files[dst + [n]] == s.files[src + [n]])
      && (forall p :: p in s.files && p !in Targets(dst, order) ==> e.state.files[p] == s.files[p])
  {
    var name := BackupName(featureName, now);
    var src, dst := ProjectPath(root, featureName), ProjectPath(root, name);
    BackupNameShape(featureName, now);
    PathsAreDistinct(root, featureName, name, Problem, Problem);
    BackupDirLeavesSourceAlone(s, root, featureName, now);
    var mk := MakeDirsSpec(s, dst);
    CopyAllCopies(mk.state, src, dst, order);
  }

  /** The backup directory is made before the source is listed: backing up
      a missing project fails, yet leaves the (empty) backup directory. */
  lemma {:induction false} BackupOfMissingProject(s: FsState, root: Path, featureName: string, now: string, order: seq<string>)
    requires WellFormed(s)
    requires !Exists(s, ProjectPath(root, featureName)) && !FileOnPath(s, ProjectPath(root, featureName))
    requires MakeDirsSpec(s, ProjectPath(root, BackupName(featureName, now))).result.Ok?
    ensures var e := BackupSpec(s, root, featureName, now, order);
      var dst := ProjectPath(root, BackupName(featureName, now));
      && e.result == Err(IoError(ProjectPath(root, featureName), ENOENT))
      && dst in e.state.dirs
      && e.state.files == s.files
      && (dst !in s.dirs ==> forall p :: p in e.state.files ==> Parent(p) != dst)
  {
    var name := BackupName(featureName, now);
    var src, dst := ProjectPath(root, featureName), ProjectPath(root, name);
    BackupNameShape(featureName, now);
    PathsAreDistinct(root, featureName, name, Problem, Problem);
    BackupDirLeavesSourceAlone(s, root, featureName, now);
    var mk := MakeDirsSpec(s, dst);
    assert ReadDirSpec(mk.state, src) == Err(IoError(src, ENOENT));
  }

  /** `copyFile` refuses a directory: a project holding a sub-directory
      cannot be backed up. */
  lemma {:induction false} BackupFailsOnSubdirectory(s: FsState, root: Path, featureName: string, now: string,
                                                     order: seq<string>, sub: string)
    requires WellFormed(s)
    requires Enumerates(order, Children(s, ProjectPath(root, featureName)))
    requires ProjectPath(root, featureName) + [sub] in s.dirs
    ensures BackupSpec(s, root, featureName, now, order).result.Err?
  {
    var src := ProjectPath(root, featureName);
    assert Exists(s, src + [sub]);
    if BackupSpec(s, root, featureName, now, order).result.Ok? {
      BackupCopiesEveryEntry(s, root, featureName, now, order);
    }
  }
}
