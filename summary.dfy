/** The counting part of the task-breakdown summary. */
module Summary {
  import opened Json
  import opened Schemas
  import opened FileStore

  /** `t.key === value` for one list element, where `t` is not `null`. */
  predicate Matches(t: Json, key: string, value: string)
    requires t != JNull
  {
    Prop(t, key) == Some(JString(value))
  }

  /** `items.filter(t => t.key === value).length`; the callback throws on a
      `null` element. */
  function CountWhere(items: seq<Json>, key: string, value: string): (r: Result<nat>)
    ensures r.Err? <==> JNull in items
    ensures r.Err? ==> r.error == TypeError
    ensures r.Ok? ==> r.value <= |items|
    ensures r.Ok? && (forall i :: 0 <= i < |items| ==> !Matches(items[i], key, value)) ==> r.value == 0
    ensures r.Ok? && (forall i :: 0 <= i < |items| ==> Matches(items[i], key, value)) ==> r.value == |items|
    decreases |items|
  {
    if items == [] then Ok(0)
    else if items[0] == JNull then Err(TypeError)
    else
      var rest := CountWhere(items[1..], key, value);
      assert forall t :: t in items[1..] ==> t in items;
      if rest.Err? then rest
      else Ok(rest.value + if Matches(items[0], key, value) then 1 else 0)
  }

  /** Elements matching one of three distinct values are counted at most
      once in all: the three counts add up to no more than the list. */
  lemma {:induction false} DisjointCountsBounded(items: seq<Json>, key: string, a: string, b: string, c: string)
    requires a != b && b != c && a != c
    requires JNull !in items
    ensures CountWhere(items, key, a).value + CountWhere(items, key, b).value + CountWhere(items, key, c).value <= |items|
    ensures (forall i :: 0 <= i < |items| ==> Matches(items[i], key, a) || Matches(items[i], key, b) || Matches(items[i], key, c))
      ==> CountWhere(items, key, a).value + CountWhere(items, key, b).value + CountWhere(items, key, c).value == |items|
    decreases |items|
  {
    if items != [] {
      assert forall t :: t in items[1..] ==> t in items;
      DisjointCountsBounded(items[1..], key, a, b, c);
      if forall i :: 0 <= i < |items| ==> Matches(items[i], key, a) || Matches(items[i], key, b) || Matches(items[i], key, c) {
        assert forall i :: 0 <= i < |items[1..]| ==> items[1..][i] == items[i + 1];
      }
    }
  }

  datatype TaskCounts = TaskCounts(total: nat, completed: nat, p0: nat, p1: nat, p2: nat, dependencies: nat)

  /** The numbers `formatTasksSummary` prints. The priorities are not
      checked by the validator, so the three priority counts may add up to
      less than the total; a `null` task makes the filters throw. */
  function TasksSummaryCounts(doc: Json): (r: Result<TaskCounts>)
    requires ValidTaskBreakdown(doc)
    ensures r.Err? <==> JNull in doc.fields["tasks"].items
    ensures r.Ok? ==> r.value.total == |doc.fields["tasks"].items|
    ensures r.Ok? ==> r.value.dependencies == |doc.fields["dependencies"].items|
    ensures r.Ok? ==> r.value.p0 + r.value.p1 + r.value.p2 <= r.value.total
    ensures r.Ok? ==> r.value.completed <= r.value.total
    ensures r.Ok? && (forall t :: t in doc.fields["tasks"].items ==>
              t != JNull && (Matches(t, "priority", "P0") || Matches(t, "priority", "P1") || Matches(t, "priority", "P2")))
      ==> r.value.p0 + r.value.p1 + r.value.p2 == r.value.total
  {
    var tasks := doc.fields["tasks"].items;
    var p0 := CountWhere(tasks, "priority", "P0");
    var p1 := CountWhere(tasks, "priority", "P1");
    var p2 := CountWhere(tasks, "priority", "P2");
    var completed := CountWhere(tasks, "status", "completed");
    if p0.Err? || p1.Err? || p2.Err? || completed.Err? then Err(TypeError)
    else
      DisjointCountsBounded(tasks, "priority", "P0", "P1", "P2");
      Ok(TaskCounts(|tasks|, completed.value, p0.value, p1.value, p2.value, |doc.fields["dependencies"].items|))
  }
}
