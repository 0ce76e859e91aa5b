/** The three document kinds: their structural validators and their default
    templates. */
module Schemas {
  import opened Json

  datatype Kind = Problem | Technical | Tasks

  /** The version every template is stamped with. */
  const TemplateVersion: string := "1.0.0"

  // ---------------------------------------------------------------------
  // Validators: one `typeof` / `Array.isArray` check per top-level field
  // ---------------------------------------------------------------------

  predicate ValidProblemDefinition(data: Json) {
    && TypeOf(Some(data)) == Object
    && data != JNull
    && TypeOf(Prop(data, "metadata")) == Object
    && TypeOf(Prop(data, "problemStatement")) == String
    && TypeOf(Prop(data, "why")) == String
    && IsArray(Prop(data, "successCriteria"))
    && TypeOf(Prop(data, "constraints")) == Object
    && IsArray(Prop(data, "users"))
  }

  predicate ValidTechnicalApproach(data: Json) {
    && TypeOf(Some(data)) == Object
    && data != JNull
    && TypeOf(Prop(data, "metadata")) == Object
    && TypeOf(Prop(data, "technologyStack")) == Object
    && IsArray(Prop(data, "dataModels"))
    && TypeOf(Prop(data, "architecture")) == Object
    && TypeOf(Prop(data, "security")) == Object
  }

  predicate ValidTaskBreakdown(data: Json) {
    && TypeOf(Some(data)) == Object
    && data != JNull
    && TypeOf(Prop(data, "metadata")) == Object
    && TypeOf(Prop(data, "contextAnalysis")) == Object
    && IsArray(Prop(data, "tasks"))
    && IsArray(Prop(data, "dependencies"))
  }

  /** The validator of `kind`. None accepts a value that is not an object
      holding a `metadata` key: `null`, primitives and arrays are rejected. */
  predicate Validate(kind: Kind, data: Json)
    ensures Validate(kind, data) ==> data.JObject? && "metadata" in data.fields
  {
    match kind
    case Problem => ValidProblemDefinition(data)
    case Technical => ValidTechnicalApproach(data)
    case Tasks => ValidTaskBreakdown(data)
  }

  // ---------------------------------------------------------------------
  // An independent, table-driven reading of the validators
  // ---------------------------------------------------------------------

  /** What a validator asks of one top-level field. */
  datatype Expect = AnyObject | AnyString | AnyArray

  predicate Accepts(e: Expect, o: Option<Json>) {
    match e
    case AnyObject => TypeOf(o) == Object
    case AnyString => TypeOf(o) == String
    case AnyArray => IsArray(o)
  }

  /** The fields each validator inspects and what it asks of each. */
  function FieldTable(kind: Kind): map<string, Expect> {
    match kind
    case Problem =>
      map["metadata" := AnyObject, "problemStatement" := AnyString, "why" := AnyString,
          "successCriteria" := AnyArray, "constraints" := AnyObject, "users" := AnyArray]
    case Technical =>
      map["metadata" := AnyObject, "technologyStack" := AnyObject, "dataModels" := AnyArray,
          "architecture" := AnyObject, "security" := AnyObject]
    case Tasks =>
      map["metadata" := AnyObject, "contextAnalysis" := AnyObject, "tasks" := AnyArray,
          "dependencies" := AnyArray]
  }

  /** A top-level object whose every listed field has the listed shape. */
  predicate Conforms(kind: Kind, data: Json) {
    data.JObject? &&
    forall key :: key in FieldTable(kind) ==> Accepts(FieldTable(kind)[key], Prop(data, key))
  }

  /** Each validator accepts exactly the objects that conform to its table:
      an array or a primitive at top level is rejected (it has no `metadata`),
      and no field outside the table is looked at. */
  lemma {:induction false} ValidatorMatchesFieldTable(kind: Kind, data: Json)
    ensures Validate(kind, data) <==> Conforms(kind, data)
  {
    if data.JObject? {
      var t := FieldTable(kind);
      match kind
      case Problem =>
        assert Accepts(t["metadata"], Prop(data, "metadata")) <==> TypeOf(Prop(data, "metadata")) == Object;
        assert Accepts(t["problemStatement"], Prop(data, "problemStatement")) <==> TypeOf(Prop(data, "problemStatement")) == String;
        assert Accepts(t["why"], Prop(data, "why")) <==> TypeOf(Prop(data, "why")) == String;
        assert Accepts(t["successCriteria"], Prop(data, "successCriteria")) <==> IsArray(Prop(data, "successCriteria"));
        assert Accepts(t["constraints"], Prop(data, "constraints")) <==> TypeOf(Prop(data, "constraints")) == Object;
        assert Accepts(t["users"], Prop(data, "users")) <==> IsArray(Prop(data, "users"));
      case Technical =>
        assert Accepts(t["metadata"], Prop(data, "metadata")) <==> TypeOf(Prop(data, "metadata")) == Object;
        assert Accepts(t["technologyStack"], Prop(data, "technologyStack")) <==> TypeOf(Prop(data, "technologyStack")) == Object;
        assert Accepts(t["dataModels"], Prop(data, "dataModels")) <==> IsArray(Prop(data, "dataModels"));
        assert Accepts(t["architecture"], Prop(data, "architecture")) <==> TypeOf(Prop(data, "architecture")) == Object;
        assert Accepts(t["security"], Prop(data, "security")) <==> TypeOf(Prop(data, "security")) == Object;
      case Tasks =>
        assert Accepts(t["metadata"], Prop(data, "metadata")) <==> TypeOf(Prop(data, "metadata")) == Object;
        assert Accepts(t["contextAnalysis"], Prop(data, "contextAnalysis")) <==> TypeOf(Prop(data, "contextAnalysis")) == Object;
        assert Accepts(t["tasks"], Prop(data, "tasks")) <==> IsArray(Prop(data, "tasks"));
        assert Accepts(t["dependencies"], Prop(data, "dependencies")) <==> IsArray(Prop(data, "dependencies"));
    } else if data.JArray? {
      assert Prop(data, "metadata") == None;
    }
  }

  /** The validators are shallow: two objects whose listed fields pass or
      fail the same `typeof` / `Array.isArray` checks are accepted alike,
      whatever else they hold. */
  lemma {:induction false} ValidatorIsShallow(kind: Kind, v: Json, w: Json)
    requires v.JObject? && w.JObject?
    requires forall key :: key in FieldTable(kind) ==>
      Accepts(FieldTable(kind)[key], Prop(v, key)) == Accepts(FieldTable(kind)[key], Prop(w, key))
    ensures Validate(kind, v) == Validate(kind, w)
  {
    ValidatorMatchesFieldTable(kind, v);
    ValidatorMatchesFieldTable(kind, w);
  }

  /** Adding or replacing a key that the validator does not list never
      changes its verdict. */
  lemma ExtraKeysIgnored(kind: Kind, fields: map<string, Json>, key: string, x: Json)
    requires key !in FieldTable(kind)
    ensures Validate(kind, JObject(fields[key := x])) == Validate(kind, JObject(fields))
  {
    ValidatorIsShallow(kind, JObject(fields[key := x]), JObject(fields));
  }

  /** Replacing a listed field by another value of the same container kind
      (an array by an array, an object-typed value by an object-typed value,
      a string by a string) never changes the verdict: nested content is not
      inspected. */
  lemma NestedContentIgnored(kind: Kind, fields: map<string, Json>, key: string, x: Json)
    requires key in fields
    requires TypeOf(Some(x)) == TypeOf(Some(fields[key])) && x.JArray? == fields[key].JArray?
    ensures Validate(kind, JObject(fields[key := x])) == Validate(kind, JObject(fields))
  {
    ValidatorIsShallow(kind, JObject(fields[key := x]), JObject(fields));
  }

  // ---------------------------------------------------------------------
  // Templates
  // ---------------------------------------------------------------------

  /** `doc.metadata.key`, when `doc` is an object whose metadata is an object. */
  function MetaField(doc: Json, key: string): Option<Json> {
    if doc.JObject? && "metadata" in doc.fields && doc.fields["metadata"].JObject?
    then Prop(doc.fields["metadata"], key)
    else None
  }

  /** The metadata header of a template created at instant `now`. */
  predicate FreshMetadata(doc: Json, featureName: string, now: string) {
    && MetaField(doc, "created") == Some(JString(now))
    && MetaField(doc, "updated") == Some(JString(now))
    && MetaField(doc, "version") == Some(JString(TemplateVersion))
    && MetaField(doc, "featureName") == Some(JString(featureName))
  }

  /** An empty string or an empty list. */
  predicate EmptyLeaf(v: Json) {
    v == JString("") || v == JArray([])
  }

  /** An empty leaf, or a record of empty leaves. */
  predicate Blank(v: Json) {
    EmptyLeaf(v) || (v.JObject? && forall key :: key in v.fields ==> EmptyLeaf(v.fields[key]))
  }

  /** Every field of `doc` other than `metadata` is blank. */
  predicate BlankBody(doc: Json) {
    doc.JObject? && forall key :: key in doc.fields && key != "metadata" ==> Blank(doc.fields[key])
  }

  // The nested records of the templates, every entry empty.

  function BlankConstraints(): (r: Json)
    ensures r.JObject? && Blank(r)
  {
    JObject(map["technical" := JString(""), "business" := JString(""),
                "scope" := JString(""), "nonGoals" := JString("")])
  }

  function BlankTechnologyStack(): (r: Json)
    ensures r.JObject? && Blank(r)
  {
    JObject(map["language" := JString(""), "framework" := JString(""),
                "dependencies" := JArray([]), "database" := JString(""),
                "infrastructure" := JString("")])
  }

  function BlankArchitecture(): (r: Json)
    ensures r.JObject? && Blank(r)
  {
    JObject(map["components" := JArray([]), "apiEndpoints" := JArray([]),
                "integrationPoints" := JArray([]), "fileOrganization" := JArray([])])
  }

  function BlankSecurity(): (r: Json)
    ensures r.JObject? && Blank(r)
  {
    JObject(map["authentication" := JString(""), "authorization" := JString(""),
                "validation" := JString(""), "errorHandling" := JString("")])
  }

  function BlankContextAnalysis(): (r: Json)
    ensures r.JObject? && Blank(r)
  {
    JObject(map["problemDefinition" := JString(""), "technicalApproach" := JString(""),
                "codebasePatterns" := JString(""), "externalDocs" := JString("")])
  }

  function TemplateMetadata(featureName: string, now: string): Json {
    JObject(map["created" := JString(now), "updated" := JString(now),
                "version" := JString(TemplateVersion), "featureName" := JString(featureName)])
  }

  /** The fields of `createProblemTemplate`. */
  function ProblemFields(featureName: string, now: string): map<string, Json> {
    map[
      "metadata" := TemplateMetadata(featureName, now),
      "problemStatement" := JString(""),
      "why" := JString(""),
      "successCriteria" := JArray([]),
      "constraints" := BlankConstraints(),
      "users" := JArray([])]
  }

  lemma ProblemFieldsShape(featureName: string, now: string)
    ensures ValidProblemDefinition(JObject(ProblemFields(featureName, now)))
    ensures ProblemFields(featureName, now).Keys == FieldTable(Problem).Keys
  {
  }

  lemma ProblemFieldsFresh(featureName: string, now: string)
    ensures FreshMetadata(JObject(ProblemFields(featureName, now)), featureName, now)
    ensures BlankBody(JObject(ProblemFields(featureName, now)))
  {
  }

  function ProblemTemplate(featureName: string, now: string): (r: Json)
    ensures ValidProblemDefinition(r)
    ensures r.JObject? && r.fields.Keys == FieldTable(Problem).Keys
    ensures FreshMetadata(r, featureName, now) && BlankBody(r)
  {
    ProblemFieldsShape(featureName, now);
    ProblemFieldsFresh(featureName, now);
    JObject(ProblemFields(featureName, now))
  }

  /** The fields of `createTechnicalTemplate`. */
  function TechnicalFields(featureName: string, now: string): map<string, Json> {
    map[
      "metadata" := TemplateMetadata(featureName, now),
      "technologyStack" := BlankTechnologyStack(),
      "dataModels" := JArray([]),
      "architecture" := BlankArchitecture(),
      "security" := BlankSecurity()]
  }

  lemma TechnicalFieldsShape(featureName: string, now: string)
    ensures ValidTechnicalApproach(JObject(TechnicalFields(featureName, now)))
    ensures TechnicalFields(featureName, now).Keys == FieldTable(Technical).Keys
  {
  }

  lemma TechnicalFieldsFresh(featureName: string, now: string)
    ensures FreshMetadata(JObject(TechnicalFields(featureName, now)), featureName, now)
    ensures BlankBody(JObject(TechnicalFields(featureName, now)))
  {
  }

  function TechnicalTemplate(featureName: string, now: string): (r: Json)
    ensures ValidTechnicalApproach(r)
    ensures r.JObject? && r.fields.Keys == FieldTable(Technical).Keys
    ensures FreshMetadata(r, featureName, now) && BlankBody(r)
  {
    TechnicalFieldsShape(featureName, now);
    TechnicalFieldsFresh(featureName, now);
    JObject(TechnicalFields(featureName, now))
  }

  /** The fields of `createTaskTemplate`. */
  function TaskFields(featureName: string, now: string): map<string, Json> {
    map[
      "metadata" := TemplateMetadata(featureName, now),
      "contextAnalysis" := BlankContextAnalysis(),
      "tasks" := JArray([]),
      "dependencies" := JArray([])]
  }

  lemma TaskFieldsShape(featureName: string, now: string)
    ensures ValidTaskBreakdown(JObject(TaskFields(featureName, now)))
    ensures TaskFields(featureName, now).Keys == FieldTable(Tasks).Keys
  {
  }

  lemma TaskFieldsFresh(featureName: string, now: string)
    ensures FreshMetadata(JObject(TaskFields(featureName, now)), featureName, now)
    ensures BlankBody(JObject(TaskFields(featureName, now)))
  {
  }

  function TaskTemplate(featureName: string, now: string): (r: Json)
    ensures ValidTaskBreakdown(r)
    ensures r.JObject? && r.fields.Keys == FieldTable(Tasks).Keys
    ensures FreshMetadata(r, featureName, now) && BlankBody(r)
  {
    TaskFieldsShape(featureName, now);
    TaskFieldsFresh(featureName, now);
    JObject(TaskFields(featureName, now))
  }

  function Template(kind: Kind, featureName: string, now: string): (r: Json)
    ensures Validate(kind, r)
    ensures r.JObject? && r.fields.Keys == FieldTable(kind).Keys
    ensures FreshMetadata(r, featureName, now) && BlankBody(r)
  {
    match kind
    case Problem => ProblemTemplate(featureName, now)
    case Technical => TechnicalTemplate(featureName, now)
    case Tasks => TaskTemplate(featureName, now)
  }

  // ---------------------------------------------------------------------
  // What `typeof` lets through
  // ---------------------------------------------------------------------

  /** `typeof null === 'object'` and `typeof [] === 'object'`: a problem
      definition whose metadata is `null` and whose constraints are a list
      still validates. */
  lemma NullMetadataAndListConstraintsValidate(featureName: string, now: string)
    ensures ValidProblemDefinition(JObject(ProblemTemplate(featureName, now).fields
                                             ["metadata" := JNull]["constraints" := JArray([])]))
  {
    var fields := ProblemTemplate(featureName, now).fields;
    var doc := JObject(fields["metadata" := JNull]["constraints" := JArray([])]);
    ValidatorIsShallow(Problem, doc, JObject(fields));
  }

  /** A task breakdown holding a task with priority `"P9"` and a dependency
      that is a bare number still validates: list contents are not checked. */
  lemma MalformedTasksValidate(featureName: string, now: string)
    ensures ValidTaskBreakdown(JObject(TaskTemplate(featureName, now).fields
      ["tasks" := JArray([JObject(map["priority" := JString("P9")])])]
      ["dependencies" := JArray([JNumber(7)])]))
  {
    var fields := TaskTemplate(featureName, now).fields;
    var tasks := JArray([JObject(map["priority" := JString("P9")])]);
    NestedContentIgnored(Tasks, fields, "tasks", tasks);
    NestedContentIgnored(Tasks, fields["tasks" := tasks], "dependencies", JArray([JNumber(7)]));
  }
}
