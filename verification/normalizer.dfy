/**
 * The graph normaliser `_add_degree_and_size` (nodal/backend.py:123-189) and the
 * two edge passes it ends with, `_ensure_edge_ids` (lines 90-93) and
 * `_clamp_weight` (lines 95-109).
 *
 * The source mutates the parsed dicts in place. json.loads never shares a
 * sub-object between two places, so each dict is modelled as a value and every
 * in-place update as building the updated value. The specification functions
 * below say what each pass produces; the methods follow the source loop by loop
 * and are proved to produce exactly that.
 */
module Normalizer {
  import opened Wrappers
  import opened Text
  import opened Json
  import opened PyFloat

  /** The exceptions that abort normalisation. */
  datatype NormalizeError =
    | NotAnObject        // parsed.get(...) on a JSON value that is not a dict (AttributeError)
    | ListsRequired      // lines 128-129: "nodes" or "edges" is not a list (ValueError)
    | RelationTypeError  // lines 159-168: a kept edge's relation is neither a dict nor absent

  /** `d.get(key) is not None`. */
  predicate HasValue(fields: map<string, Json>, key: string) {
    key in fields && fields[key] != JNull
  }

  /** The number of dicts in a list: `len([n for n in nodes if isinstance(n, dict)])`. */
  function CountDicts(items: seq<Json>): (r: nat)
    ensures r <= |items|
  {
    if items == [] then 0
    else CountDicts(items[..|items| - 1]) + (if items[|items| - 1].JObj? then 1 else 0)
  }

  // ---------------------------------------------------------------------------
  // Bilingual backfill (lines 136-141 and 160-168)
  // ---------------------------------------------------------------------------

  /**
   * `if keyEn not in d and key in d: d[keyEn] = d[key]; d[keyOriginal] = d[key]`:
   * an English field is filled from the plain one, and never overwritten.
   */
  function Backfill(fields: map<string, Json>, key: string, keyEn: string, keyOriginal: string): (r: map<string, Json>)
    ensures key in fields ==> keyEn in r
    ensures keyEn in fields || key !in fields ==> r == fields
    ensures keyEn !in fields && key in fields ==>
      r[keyEn] == fields[key] && keyOriginal in r && r[keyOriginal] == fields[key]
    ensures r.Keys >= fields.Keys
    ensures r.Keys <= fields.Keys + {keyEn, keyOriginal}
    ensures forall k :: k in fields && k != keyEn && k != keyOriginal ==> r[k] == fields[k]
  {
    if keyEn !in fields && key in fields then fields[keyEn := fields[key]][keyOriginal := fields[key]] else fields
  }

  /** A plain key, its English counterpart and the key that keeps the original text. */
  type KeyTriple = (string, string, string)

  /** The backfills of lines 136-141, on a node. */
  const NodeKeys: seq<KeyTriple> :=
    [("label", "label_en", "label_original"), ("description", "description_en", "description_original")]

  /** The backfills of lines 160-168, on a relation. */
  const RelationKeys: seq<KeyTriple> :=
    [("label", "label_en", "label_original"), ("description", "description_en", "description_original"),
     ("type", "type_en", "type_original")]

  /** A key that one of the backfills may write. */
  predicate WrittenBy(k: string, keys: seq<KeyTriple>) {
    exists j :: 0 <= j < |keys| && (k == keys[j].1 || k == keys[j].2)
  }

  /** The backfills one after the other. */
  function BackfillAll(fields: map<string, Json>, keys: seq<KeyTriple>): (r: map<string, Json>)
    ensures r.Keys >= fields.Keys
    decreases |keys|
  {
    if keys == [] then fields
    else BackfillAll(Backfill(fields, keys[0].0, keys[0].1, keys[0].2), keys[1..])
  }

  /** Every plain key of the input ends up with its English counterpart. */
  lemma {:induction false} BackfillAllComplete(fields: map<string, Json>, keys: seq<KeyTriple>)
    ensures forall j :: 0 <= j < |keys| && keys[j].0 in fields ==> keys[j].1 in BackfillAll(fields, keys)
    decreases |keys|
  {
    if keys != [] {
      var f := Backfill(fields, keys[0].0, keys[0].1, keys[0].2);
      BackfillAllComplete(f, keys[1..]);
      forall j | 1 <= j < |keys| ensures keys[j] == keys[1..][j - 1] { }
    }
  }

  /** No key outside the written ones appears, disappears or changes. */
  lemma {:induction false} BackfillAllKeeps(fields: map<string, Json>, keys: seq<KeyTriple>)
    ensures forall k :: !WrittenBy(k, keys) ==> Agree(fields, BackfillAll(fields, keys), k)
    decreases |keys|
  {
    if keys != [] {
      var f := Backfill(fields, keys[0].0, keys[0].1, keys[0].2);
      BackfillAllKeeps(f, keys[1..]);
      forall k | WrittenBy(k, keys[1..]) ensures WrittenBy(k, keys) {
        var j :| 0 <= j < |keys[1..]| && (k == keys[1..][j].1 || k == keys[1..][j].2);
        assert keys[1..][j] == keys[j + 1];
      }
    }
  }

  /** Two dicts agree on a key: both lack it, or both hold the same value under it. */
  predicate Agree(a: map<string, Json>, b: map<string, Json>, k: string) {
    (k in a <==> k in b) && (k in a ==> a[k] == b[k])
  }

  /**
   * What lines 136-141 and 160-168 leave for one triple, against the dict they
   * started from: when the English key was absent and the plain key present,
   * the English and the original key both hold the plain value; otherwise both
   * are as they were.
   */
  predicate Filled(before: map<string, Json>, after: map<string, Json>, t: KeyTriple) {
    if t.1 !in before && t.0 in before then
      t.1 in after && t.2 in after && after[t.1] == before[t.0] && after[t.2] == before[t.0]
    else
      Agree(before, after, t.1) && Agree(before, after, t.2)
  }

  /**
   * No backfill writes a key another one reads or writes, so their order does
   * not matter.
   */
  predicate DistinctKeys(keys: seq<KeyTriple>) {
    forall i, j :: 0 <= i < |keys| && 0 <= j < |keys| ==>
      keys[i].0 != keys[j].1 && keys[i].0 != keys[j].2 && keys[i].1 != keys[j].2 &&
      (i != j ==> keys[i].1 != keys[j].1 && keys[i].2 != keys[j].2)
  }

  /** With distinct keys, each backfill has its effect on the final dict. */
  lemma {:induction false} BackfillAllValues(fields: map<string, Json>, keys: seq<KeyTriple>)
    requires DistinctKeys(keys)
    ensures forall j :: 0 <= j < |keys| ==> Filled(fields, BackfillAll(fields, keys), keys[j])
    decreases |keys|
  {
    if keys != [] {
      var t, rest := keys[0], keys[1..];
      var f := Backfill(fields, t.0, t.1, t.2);
      var r := BackfillAll(fields, keys);
      assert r == BackfillAll(f, rest);
      assert DistinctKeys(rest) by {
        forall i, j | 0 <= i < |rest| && 0 <= j < |rest|
          ensures rest[i].0 != rest[j].1 && rest[i].0 != rest[j].2 && rest[i].1 != rest[j].2 &&
                  (i != j ==> rest[i].1 != rest[j].1 && rest[i].2 != rest[j].2)
        {
          assert rest[i] == keys[i + 1] && rest[j] == keys[j + 1];
        }
      }
      BackfillAllValues(f, rest);
      BackfillAllKeeps(f, rest);
      forall j | 0 <= j < |keys| ensures Filled(fields, r, keys[j]) {
        if j == 0 {
          FirstNotRewritten(keys);
        } else {
          assert keys[j] == rest[j - 1];
          assert Filled(f, r, rest[j - 1]);
          assert Agree(fields, f, keys[j].0) && Agree(fields, f, keys[j].1) && Agree(fields, f, keys[j].2) by {
            assert keys[j].0 != t.1 && keys[j].0 != t.2;
            assert keys[j].1 != t.1 && keys[j].1 != t.2;
            assert keys[j].2 != t.1 && keys[j].2 != t.2;
          }
        }
      }
    }
  }

  /** The keys the first backfill writes are not written again by the later ones. */
  lemma FirstNotRewritten(keys: seq<KeyTriple>)
    requires DistinctKeys(keys) && keys != []
    ensures !WrittenBy(keys[0].1, keys[1..]) && !WrittenBy(keys[0].2, keys[1..])
  {
    forall j | 0 <= j < |keys[1..]|
      ensures keys[0].1 != keys[1..][j].1 && keys[0].1 != keys[1..][j].2
      ensures keys[0].2 != keys[1..][j].1 && keys[0].2 != keys[1..][j].2
    {
      assert keys[1..][j] == keys[j + 1];
    }
  }

  /** Lines 136-141: both node backfills take effect. */
  lemma BackfillNode(fields: map<string, Json>)
    ensures forall j :: 0 <= j < |NodeKeys| ==> Filled(fields, BackfillAll(fields, NodeKeys), NodeKeys[j])
  {
    BackfillAllValues(fields, NodeKeys);
  }

  /** Lines 160-168: all three relation backfills take effect. */
  lemma BackfillRelation(fields: map<string, Json>)
    ensures forall j :: 0 <= j < |RelationKeys| ==> Filled(fields, BackfillAll(fields, RelationKeys), RelationKeys[j])
  {
    BackfillAllValues(fields, RelationKeys);
  }

  // ---------------------------------------------------------------------------
  // First node pass (lines 131-141)
  // ---------------------------------------------------------------------------

  /** A node with an id that is not None has its id replaced by str(id), then its labels backfilled. */
  function CoerceNode(n: Json): (r: Json)
    ensures r.JObj? <==> n.JObj?
    ensures n.JObj? && HasValue(n.fields, "id") ==>
      "id" in r.fields && r.fields["id"] == JStr(PyStr(n.fields["id"]))
    ensures !(n.JObj? && HasValue(n.fields, "id")) ==> r == n
  {
    if n.JObj? && HasValue(n.fields, "id")
    then JObj(BackfillAll(n.fields["id" := JStr(PyStr(n.fields["id"]))], NodeKeys))
    else n
  }

  /** `node_ids`: str(id) of every dict node whose id is not None, in list order. */
  function NodeIdList(nodes: seq<Json>): seq<string> {
    if nodes == [] then []
    else
      var n := nodes[|nodes| - 1];
      NodeIdList(nodes[..|nodes| - 1]) + (if n.JObj? && HasValue(n.fields, "id") then [PyStr(n.fields["id"])] else [])
  }

  lemma NodeIdListStep(nodes: seq<Json>, i: nat)
    requires i < |nodes|
    ensures NodeIdList(nodes[..i + 1]) == NodeIdList(nodes[..i]) +
      (if nodes[i].JObj? && HasValue(nodes[i].fields, "id") then [PyStr(nodes[i].fields["id"])] else [])
  {
    assert nodes[..i + 1][..i] == nodes[..i];
  }

  /** `node_set`. */
  function NodeIdSet(nodes: seq<Json>): set<string> {
    set x | x in NodeIdList(nodes)
  }

  // ---------------------------------------------------------------------------
  // Edge pass (lines 143-168)
  // ---------------------------------------------------------------------------

  /**
   * Lines 147-155: a dict edge whose source and target are not None, with both
   * converted by str(), when both converted values are node ids.
   */
  function KeptEdge(e: Json, ids: set<string>): (r: Option<map<string, Json>>)
    ensures r.Some? ==> e.JObj? && r.value.Keys == e.fields.Keys
    ensures r.Some? ==> "source" in r.value && r.value["source"].JStr? && r.value["source"].s in ids
    ensures r.Some? ==> "target" in r.value && r.value["target"].JStr? && r.value["target"].s in ids
    ensures r.Some? ==> forall k :: k in e.fields && k != "source" && k != "target" ==> r.value[k] == e.fields[k]
  {
    if e.JObj? && HasValue(e.fields, "source") && HasValue(e.fields, "target") then
      var s, t := PyStr(e.fields["source"]), PyStr(e.fields["target"]);
      if s in ids && t in ids then Some(e.fields["source" := JStr(s)]["target" := JStr(t)]) else None
    else None
  }

  /** Python's `sub in s` on strings. */
  predicate IsSubstring(sub: string, s: string)
    decreases |s|
  {
    StartsWith(s, sub) || (s != [] && IsSubstring(sub, s[1..]))
  }

  /** `x in c` for a str x and a relation c that is a str (substring) or a list (membership). */
  predicate ContainerHas(c: Json, x: string)
    requires c.JStr? || c.JArr?
  {
    if c.JStr? then IsSubstring(x, c.s) else JStr(x) in c.items
  }

  /**
   * On a str or list relation, some backfill guard of lines 160-168 holds, and
   * the `rel[key]` that follows raises TypeError.
   */
  predicate SomeGuardFires(c: Json)
    requires c.JStr? || c.JArr?
  {
    exists k :: 0 <= k < |RelationKeys| && !ContainerHas(c, RelationKeys[k].1) && ContainerHas(c, RelationKeys[k].0)
  }

  /**
   * Lines 159-168 on a kept edge. An absent relation is replaced by a fresh
   * empty dict that is never stored, so the edge is unchanged. A dict relation
   * is backfilled. A str or list relation passes only when no guard holds.
   * Any other relation (None, a number, a bool) makes the first `in` test raise.
   */
  function PrepareRelation(fields: map<string, Json>): (r: Result<map<string, Json>, NormalizeError>)
    ensures r.Ok? ==> r.value.Keys == fields.Keys
    ensures r.Ok? ==> forall k :: k in fields && k != "relation" ==> r.value[k] == fields[k]
    ensures r.Err? ==> r.error == RelationTypeError
  {
    if "relation" !in fields then Ok(fields)
    else
      var rel := fields["relation"];
      if rel.JObj? then Ok(fields["relation" := JObj(BackfillAll(rel.fields, RelationKeys))])
      else if (rel.JStr? || rel.JArr?) && !SomeGuardFires(rel) then Ok(fields)
      else Err(RelationTypeError)
  }

  /** `valid_edges` after the edge loop, or the error it raises. */
  function PrepareEdges(edges: seq<Json>, ids: set<string>): Result<seq<Json>, NormalizeError> {
    if edges == [] then Ok([])
    else
      var prior := PrepareEdges(edges[..|edges| - 1], ids);
      var kept := KeptEdge(edges[|edges| - 1], ids);
      if prior.Err? then prior
      else if kept.None? then prior
      else
        var prepared := PrepareRelation(kept.value);
        if prepared.Err? then Err(prepared.error) else Ok(prior.value + [JObj(prepared.value)])
  }

  // ---------------------------------------------------------------------------
  // Degree and the second node pass (lines 144, 157-158, 170-179)
  // ---------------------------------------------------------------------------

  /** How many endpoints of an edge are the node id: 0, 1 or 2 (a self-loop). */
  function Incidence(e: Json, id: string): (r: nat)
    ensures r <= 2
  {
    if e.JObj?
    then (if Get(e.fields, "source", JNull) == JStr(id) then 1 else 0) +
         (if Get(e.fields, "target", JNull) == JStr(id) then 1 else 0)
    else 0
  }

  /** The degree of a node id: the endpoints among the edges that name it. */
  function Degree(edges: seq<Json>, id: string): nat {
    if edges == [] then 0 else Degree(edges[..|edges| - 1], id) + Incidence(edges[|edges| - 1], id)
  }

  /** `degree.get(key, 0)` on the Counter. */
  function Count(counter: map<string, nat>, key: string): nat {
    if key in counter then counter[key] else 0
  }

  /**
   * Lines 171-179: a dict node gets its centrality d (the degree of str(id),
   * with "" for a missing id) and a visual dict whose size is 15 + 5d.
   */
  function FinishNode(n: Json, edges: seq<Json>): (r: Json)
    ensures r.JObj? <==> n.JObj?
    ensures n.JObj? ==> r.fields.Keys == n.fields.Keys + {"centrality", "visual"}
    ensures n.JObj? ==> forall k :: k != "centrality" && k != "visual" ==> Agree(n.fields, r.fields, k)
    ensures n.JObj? ==> (
      r.fields["visual"].JObj? &&
      r.fields["visual"].fields.Keys == VisualOf(n.fields).Keys + {"size"} &&
      forall k :: k in VisualOf(n.fields) && k != "size" ==> r.fields["visual"].fields[k] == VisualOf(n.fields)[k])
    ensures !n.JObj? ==> r == n
  {
    if !n.JObj? then n
    else
      var d := Degree(edges, PyStr(Get(n.fields, "id", JStr(""))));
      var f := n.fields["centrality" := JInt(d)];
      var vis := if "visual" in f && f["visual"].JObj? then f["visual"].fields else map[];
      JObj(f["visual" := JObj(vis["size" := JInt(15 + d * 5)])])
  }

  // ---------------------------------------------------------------------------
  // Edge ids and weights (lines 90-109)
  // ---------------------------------------------------------------------------

  /** The id `_ensure_edge_ids` gives the edge at 1-based position i. */
  function GeneratedId(i: nat): string {
    "e" + NatToString(i)
  }

  /** Lines 92-93: a dict edge whose id is missing or falsy gets "e<i>". */
  function WithEdgeId(e: Json, i: nat): (r: Json)
    ensures r.JObj? <==> e.JObj?
    ensures e.JObj? ==> "id" in r.fields && Truthy(r.fields["id"])
    ensures e.JObj? && Truthy(Get(e.fields, "id", JNull)) ==> r == e
    ensures e.JObj? && !Truthy(Get(e.fields, "id", JNull)) ==> r.fields["id"] == JStr(GeneratedId(i))
  {
    if e.JObj? && !Truthy(Get(e.fields, "id", JNull)) then JObj(e.fields["id" := JStr(GeneratedId(i))]) else e
  }

  /**
   * Lines 103-108: the result of float(w) (None when it raises) falls back to
   * 0.5 and is clamped to [0, 1]. NaN fails both comparisons and stays NaN.
   */
  function ClampUnit(w: Option<Float>): (r: Float)
    ensures w.None? ==> r == Finite(0.5)
    ensures w.Some? && Below(w.value, 0.0) ==> r == Finite(0.0)
    ensures w.Some? && Above(w.value, 1.0) ==> r == Finite(1.0)
    ensures w.Some? && !Below(w.value, 0.0) && !Above(w.value, 1.0) ==> r == w.value
    ensures r.NaN? || (r.Finite? && 0.0 <= r.r <= 1.0)
    ensures r.NaN? <==> w == Some(NaN)
  {
    match w
    case None => Finite(0.5)
    case Some(NaN) => NaN
    case Some(NegInf) => Finite(0.0)
    case Some(PosInf) => Finite(1.0)
    case Some(Finite(x)) => if x < 0.0 then Finite(0.0) else if x > 1.0 then Finite(1.0) else Finite(x)
  }

  /** The visual dict of an edge or node, or a fresh one when it has none (lines 98-101, 175-178). */
  function VisualOf(fields: map<string, Json>): map<string, Json> {
    if "visual" in fields && fields["visual"].JObj? then fields["visual"].fields else map[]
  }

  /**
   * Lines 97-109 for one edge: a dict edge gets a visual dict (its own, or a
   * fresh one) whose weight is the clamped float of the old weight; every other
   * key of the edge and of its visual dict is kept.
   */
  function ClampEdge(e: Json): (r: Json)
    ensures r.JObj? <==> e.JObj?
    ensures !e.JObj? ==> r == e
    ensures e.JObj? ==> r.fields.Keys == e.fields.Keys + {"visual"}
    ensures e.JObj? ==> forall k :: k in e.fields && k != "visual" ==> r.fields[k] == e.fields[k]
    ensures e.JObj? ==> (
      r.fields["visual"].JObj? &&
      var vis, before := r.fields["visual"].fields, VisualOf(e.fields);
      vis.Keys == before.Keys + {"weight"} &&
      (forall k :: k in before && k != "weight" ==> vis[k] == before[k]) &&
      vis["weight"] == JFloat(ClampUnit(ToFloat(Get(before, "weight", JNull)))))
  {
    if !e.JObj? then e
    else
      var vis := VisualOf(e.fields);
      JObj(e.fields["visual" := JObj(vis["weight" := JFloat(ClampUnit(ToFloat(Get(vis, "weight", JNull))))])])
  }

  // ---------------------------------------------------------------------------
  // The whole normaliser (lines 123-189)
  // ---------------------------------------------------------------------------

  /** The nodes returned: both passes applied to each node, in order. */
  function OutNodes(nodes: seq<Json>, kept: seq<Json>): (r: seq<Json>)
    ensures |r| == |nodes|
  {
    seq(|nodes|, k requires 0 <= k < |nodes| => FinishNode(CoerceNode(nodes[k]), kept))
  }

  /** The edges returned: the kept edges with ids ensured, then weights clamped. */
  function OutEdges(kept: seq<Json>): (r: seq<Json>)
    ensures |r| == |kept|
  {
    seq(|kept|, k requires 0 <= k < |kept| => ClampEdge(WithEdgeId(kept[k], k + 1)))
  }

  function Assemble(language: Json, nodes: seq<Json>, kept: seq<Json>): Json {
    JObj(map[
      "detected_language" := language,
      "total_characters" := JInt(CountDicts(nodes)),
      "nodes" := JArr(OutNodes(nodes, kept)),
      "edges" := JArr(OutEdges(kept))])
  }

  /** `_add_degree_and_size(parsed)`: the returned dict, or the exception raised. */
  function Normalize(parsed: Json): (r: Result<Json, NormalizeError>)
    ensures r.Ok? ==> parsed.JObj? && r.value.JObj?
    ensures r.Ok? ==> r.value.fields.Keys == {"detected_language", "total_characters", "nodes", "edges"}
    ensures r.Ok? ==>
      var nodes, edges := Get(parsed.fields, "nodes", JArr([])), Get(parsed.fields, "edges", JArr([]));
      nodes.JArr? && edges.JArr? &&
      r.value.fields["nodes"].JArr? && |r.value.fields["nodes"].items| == |nodes.items| &&
      r.value.fields["edges"].JArr? && |r.value.fields["edges"].items| <= |edges.items| &&
      r.value.fields["total_characters"] == JInt(CountDicts(nodes.items)) &&
      r.value.fields["detected_language"] == Get(parsed.fields, "detected_language", JStr("English"))
  {
    if !parsed.JObj? then Err(NotAnObject)
    else
      var nodes := Get(parsed.fields, "nodes", JArr([]));
      var edges := Get(parsed.fields, "edges", JArr([]));
      var language := Get(parsed.fields, "detected_language", JStr("English"));
      if !nodes.JArr? || !edges.JArr? then Err(ListsRequired)
      else
        PrepareEdgesAtMost(edges.items, NodeIdSet(nodes.items));
        match PrepareEdges(edges.items, NodeIdSet(nodes.items))
        case Err(e) => Err(e)
        case Ok(kept) => Ok(Assemble(language, nodes.items, kept))
  }

  /** The edge loop keeps at most as many edges as it reads. */
  lemma {:induction false} PrepareEdgesAtMost(edges: seq<Json>, ids: set<string>)
    ensures PrepareEdges(edges, ids).Ok? ==> |PrepareEdges(edges, ids).value| <= |edges|
  {
    if edges != [] {
      PrepareEdgesAtMost(edges[..|edges| - 1], ids);
    }
  }

  // ---------------------------------------------------------------------------
  // The source's loops
  // ---------------------------------------------------------------------------

  /** Python's `x < c` for a float x and a finite c: false for NaN. */
  predicate Below(x: Float, c: real) {
    x.NegInf? || (x.Finite? && x.r < c)
  }

  /** Python's `x > c` for a float x and a finite c: false for NaN. */
  predicate Above(x: Float, c: real) {
    x.PosInf? || (x.Finite? && x.r > c)
  }

  /** `_ensure_edge_ids(edges)` (lines 90-93). */
  method EnsureEdgeIds(edges: seq<Json>) returns (r: seq<Json>)
    ensures |r| == |edges|
    ensures forall k :: 0 <= k < |r| ==> r[k] == WithEdgeId(edges[k], k + 1)
  {
    r := edges;
    var i := 0;
    while i < |r|
      invariant 0 <= i <= |r| == |edges|
      invariant forall k :: 0 <= k < i ==> r[k] == WithEdgeId(edges[k], k + 1)
      invariant forall k :: i <= k < |r| ==> r[k] == edges[k]
    {
      var e := r[i];
      if e.JObj? && !Truthy(Get(e.fields, "id", JNull)) {
        r := r[i := JObj(e.fields["id" := JStr("e" + NatToString(i + 1))])];
      }
      i := i + 1;
    }
  }

  /** `_clamp_weight(edges)` (lines 95-109). */
  method ClampWeights(edges: seq<Json>) returns (r: seq<Json>)
    ensures |r| == |edges|
    ensures forall k :: 0 <= k < |r| ==> r[k] == ClampEdge(edges[k])
  {
    r := edges;
    var i := 0;
    while i < |r|
      invariant 0 <= i <= |r| == |edges|
      invariant forall k :: 0 <= k < i ==> r[k] == ClampEdge(edges[k])
      invariant forall k :: i <= k < |r| ==> r[k] == edges[k]
    {
      var e := r[i];
      if e.JObj? {
        var vis := Get(e.fields, "visual", JNull);
        if !vis.JObj? {
          vis := JObj(map[]);
        }
        var w: Float;
        match ToFloat(Get(vis.fields, "weight", JNull)) {
          case None => w := Finite(0.5);
          case Some(v) => w := v;
        }
        if Below(w, 0.0) {
          w := Finite(0.0);
        }
        if Above(w, 1.0) {
          w := Finite(1.0);
        }
        r := r[i := JObj(e.fields["visual" := JObj(vis.fields["weight" := JFloat(w)])])];
      }
      i := i + 1;
    }
  }

  /** `_add_degree_and_size(parsed)`: the three loops of lines 131-179, then the two edge passes. */
  method AddDegreeAndSize(parsed: Json) returns (r: Result<Json, NormalizeError>)
    ensures r == Normalize(parsed)
  {
    if !parsed.JObj? {
      return Err(NotAnObject);
    }
    var nodesValue := Get(parsed.fields, "nodes", JArr([]));
    var edgesValue := Get(parsed.fields, "edges", JArr([]));
    var language := Get(parsed.fields, "detected_language", JStr("English"));
    if !nodesValue.JArr? || !edgesValue.JArr? {
      return Err(ListsRequired);
    }
    var input := nodesValue.items;
    var nodes, nodeIds := CoerceNodes(input);
    var kept, degree := KeepEdges(edgesValue.items, set x | x in nodeIds);
    if kept.Err? {
      return Err(kept.error);
    }
    var valid := kept.value;
    assert Normalize(parsed) == Ok(Assemble(language, input, valid));
    var sized := SizeNodes(nodes, degree, valid);
    var withIds := EnsureEdgeIds(valid);
    var outEdges := ClampWeights(withIds);
    NodesAssembled(input, nodes, sized, valid);
    EdgesAssembled(valid, withIds, outEdges);
    r := Ok(JObj(map[
      "detected_language" := language,
      "total_characters" := JInt(CountDicts(sized)),
      "nodes" := JArr(sized),
      "edges" := JArr(outEdges)]));
  }

  /** The node loops together give the returned nodes, which have as many dicts as the input. */
  lemma NodesAssembled(input: seq<Json>, coerced: seq<Json>, sized: seq<Json>, valid: seq<Json>)
    requires |coerced| == |input| && forall k :: 0 <= k < |coerced| ==> coerced[k] == CoerceNode(input[k])
    requires |sized| == |coerced| && forall k :: 0 <= k < |sized| ==> sized[k] == FinishNode(coerced[k], valid)
    ensures sized == OutNodes(input, valid) && CountDicts(sized) == CountDicts(input)
  {
    CountDictsSameShape(input, sized);
  }

  /** The two edge passes together give the returned edges. */
  lemma EdgesAssembled(valid: seq<Json>, withIds: seq<Json>, out: seq<Json>)
    requires |withIds| == |valid| && forall k :: 0 <= k < |withIds| ==> withIds[k] == WithEdgeId(valid[k], k + 1)
    requires |out| == |withIds| && forall k :: 0 <= k < |out| ==> out[k] == ClampEdge(withIds[k])
    ensures out == OutEdges(valid)
  {
  }

  /** Lines 131-141: collect the ids, convert them with str(), backfill the labels. */
  method CoerceNodes(input: seq<Json>) returns (nodes: seq<Json>, nodeIds: seq<string>)
    ensures nodeIds == NodeIdList(input)
    ensures |nodes| == |input| && forall k :: 0 <= k < |nodes| ==> nodes[k] == CoerceNode(input[k])
  {
    nodes := input;
    nodeIds := [];
    var i := 0;
    while i < |nodes|
      invariant 0 <= i <= |nodes| == |input|
      invariant nodeIds == NodeIdList(input[..i])
      invariant forall k :: 0 <= k < i ==> nodes[k] == CoerceNode(input[k])
      invariant forall k :: i <= k < |nodes| ==> nodes[k] == input[k]
    {
      NodeIdListStep(input, i);
      var n, id := CoerceOne(nodes[i]);
      if id.Some? {
        nodeIds := nodeIds + [id.value];
      }
      nodes := nodes[i := n];
      i := i + 1;
    }
    assert input[..|input|] == input;
  }

  /** The body of the loop of lines 132-141 for one node. */
  method CoerceOne(n: Json) returns (r: Json, id: Option<string>)
    ensures r == CoerceNode(n)
    ensures id == if n.JObj? && HasValue(n.fields, "id") then Some(PyStr(n.fields["id"])) else None
  {
    r, id := n, None;
    if n.JObj? && HasValue(n.fields, "id") {
      var s := PyStr(n.fields["id"]);
      id := Some(s);
      var f := n.fields["id" := JStr(s)];
      f := BackfillAll(f, NodeKeys);
      r := JObj(f);
    }
  }

  /** Lines 143-168: keep the edges between known nodes, count the degrees, backfill the relations. */
  method KeepEdges(edges: seq<Json>, nodeSet: set<string>) returns (r: Result<seq<Json>, NormalizeError>, degree: map<string, nat>)
    ensures r == PrepareEdges(edges, nodeSet)
    ensures r.Ok? ==> forall id :: Count(degree, id) == Degree(r.value, id)
  {
    degree := map[];
    var valid: seq<Json> := [];
    var j := 0;
    while j < |edges|
      invariant 0 <= j <= |edges|
      invariant PrepareEdges(edges[..j], nodeSet) == Ok(valid)
      invariant forall id :: Count(degree, id) == Degree(valid, id)
    {
      var kept := KeepOne(edges[j], nodeSet);
      if kept.Some? {
        var f := kept.value;
        var s, t := f["source"].s, f["target"].s;
        degree := CountEndpoints(degree, s, t);
        var prepared := PrepareRelation(f);
        if prepared.Err? {
          PrepareEdgesFailAt(edges, j, nodeSet);
          return Err(RelationTypeError), degree;
        }
        PrepareEdgesKeepAt(edges, j, nodeSet);
        KeptDegree(valid, f, prepared.value, s, t);
        valid := valid + [JObj(prepared.value)];
      } else {
        PrepareEdgesStep(edges, j, nodeSet);
      }
      j := j + 1;
    }
    assert edges[..|edges|] == edges;
    r := Ok(valid);
  }

  /** Lines 157-158: `degree[s] += 1; degree[t] += 1`. */
  method CountEndpoints(degree: map<string, nat>, s: string, t: string) returns (r: map<string, nat>)
    ensures forall id :: Count(r, id) == Count(degree, id) + (if s == id then 1 else 0) + (if t == id then 1 else 0)
  {
    r := degree[s := Count(degree, s) + 1];
    r := r[t := Count(r, t) + 1];
  }

  /** Lines 147-155 for one edge: the edge with str() endpoints, when it is kept. */
  method KeepOne(e: Json, nodeSet: set<string>) returns (kept: Option<map<string, Json>>)
    ensures kept == KeptEdge(e, nodeSet)
  {
    kept := None;
    if e.JObj? {
      var s := Get(e.fields, "source", JNull);
      var t := Get(e.fields, "target", JNull);
      if s != JNull && t != JNull {
        var ss, ts := PyStr(s), PyStr(t);
        var f := e.fields["source" := JStr(ss)]["target" := JStr(ts)];
        if ss in nodeSet && ts in nodeSet {
          kept := Some(f);
        }
      }
    }
  }

  lemma PrepareEdgesStep(edges: seq<Json>, j: nat, ids: set<string>)
    requires j < |edges|
    ensures PrepareEdges(edges[..j + 1], ids) ==
      var prior, kept := PrepareEdges(edges[..j], ids), KeptEdge(edges[j], ids);
      if prior.Err? || kept.None? then prior
      else if PrepareRelation(kept.value).Err? then Err(PrepareRelation(kept.value).error)
      else Ok(prior.value + [JObj(PrepareRelation(kept.value).value)])
  {
    assert edges[..j + 1][..j] == edges[..j];
  }

  /** The edge loop appends a kept edge whose relation is prepared. */
  lemma PrepareEdgesKeepAt(edges: seq<Json>, j: nat, ids: set<string>)
    requires j < |edges| && PrepareEdges(edges[..j], ids).Ok? && KeptEdge(edges[j], ids).Some?
    requires PrepareRelation(KeptEdge(edges[j], ids).value).Ok?
    ensures PrepareEdges(edges[..j + 1], ids) ==
      Ok(PrepareEdges(edges[..j], ids).value + [JObj(PrepareRelation(KeptEdge(edges[j], ids).value).value)])
  {
    PrepareEdgesStep(edges, j, ids);
  }

  /** The edge loop stops at a kept edge whose relation raises. */
  lemma PrepareEdgesFailAt(edges: seq<Json>, j: nat, ids: set<string>)
    requires j < |edges| && PrepareEdges(edges[..j], ids).Ok? && KeptEdge(edges[j], ids).Some?
    requires PrepareRelation(KeptEdge(edges[j], ids).value).Err?
    ensures PrepareEdges(edges, ids) == Err(RelationTypeError)
  {
    PrepareEdgesStep(edges, j, ids);
    PrepareEdgesFailsFrom(edges, j + 1, ids);
  }

  lemma DegreeAppend(edges: seq<Json>, e: Json)
    ensures forall id :: Degree(edges + [e], id) == Degree(edges, id) + Incidence(e, id)
  {
    assert (edges + [e])[..|edges|] == edges;
  }

  /** Lines 170-179: each dict node gets its centrality and its size. */
  method SizeNodes(nodes: seq<Json>, degree: map<string, nat>, ghost valid: seq<Json>) returns (r: seq<Json>)
    requires forall id :: Count(degree, id) == Degree(valid, id)
    ensures |r| == |nodes| && forall k :: 0 <= k < |r| ==> r[k] == FinishNode(nodes[k], valid)
  {
    r := nodes;
    var m := 0;
    while m < |r|
      invariant 0 <= m <= |r| == |nodes|
      invariant forall k :: 0 <= k < m ==> r[k] == FinishNode(nodes[k], valid)
      invariant forall k :: m <= k < |r| ==> r[k] == nodes[k]
    {
      var n := r[m];
      if n.JObj? {
        var nid := PyStr(Get(n.fields, "id", JStr("")));
        var d := Count(degree, nid);
        var f := n.fields["centrality" := JInt(d)];
        var vis := Get(f, "visual", JNull);
        if !vis.JObj? {
          vis := JObj(map[]);
        }
        f := f["visual" := JObj(vis.fields["size" := JInt(15 + d * 5)])];
        r := r[m := JObj(f)];
      }
      m := m + 1;
    }
  }

  /** Once a prefix of the edges fails, every longer prefix fails the same way. */
  lemma {:induction false} PrepareEdgesFailsFrom(edges: seq<Json>, n: nat, ids: set<string>)
    requires n <= |edges| && PrepareEdges(edges[..n], ids).Err?
    ensures PrepareEdges(edges, ids) == PrepareEdges(edges[..n], ids)
    decreases |edges| - n
  {
    if n < |edges| {
      assert edges[..n + 1][..n] == edges[..n];
      PrepareEdgesFailsFrom(edges, n + 1, ids);
    } else {
      assert edges[..n] == edges;
    }
  }

  /** The endpoints a kept edge adds to the degree are the ones stored on it. */
  lemma IncidenceOfKept(f: map<string, Json>, g: map<string, Json>, s: string, t: string)
    requires "source" in f && f["source"] == JStr(s) && "target" in f && f["target"] == JStr(t)
    requires g.Keys == f.Keys && forall k :: k in f && k != "relation" ==> g[k] == f[k]
    ensures forall id :: Incidence(JObj(g), id) == (if s == id then 1 else 0) + (if t == id then 1 else 0)
  {
  }

  /** Appending a kept edge from s to t adds one to the degree of s and one to that of t. */
  lemma KeptDegree(valid: seq<Json>, f: map<string, Json>, g: map<string, Json>, s: string, t: string)
    requires "source" in f && f["source"] == JStr(s) && "target" in f && f["target"] == JStr(t)
    requires g.Keys == f.Keys && forall k :: k in f && k != "relation" ==> g[k] == f[k]
    ensures forall id :: Degree(valid + [JObj(g)], id) == Degree(valid, id) + (if s == id then 1 else 0) + (if t == id then 1 else 0)
  {
    IncidenceOfKept(f, g, s, t);
    DegreeAppend(valid, JObj(g));
  }

  /** Element-wise updates that keep dicts dicts keep the dict count. */
  lemma {:induction false} CountDictsSameShape(a: seq<Json>, b: seq<Json>)
    requires |a| == |b| && forall k :: 0 <= k < |a| ==> (a[k].JObj? <==> b[k].JObj?)
    ensures CountDicts(a) == CountDicts(b)
  {
    if a != [] {
      CountDictsSameShape(a[..|a| - 1], b[..|b| - 1]);
    }
  }

  // ---------------------------------------------------------------------------
  // Properties of the normaliser
  // ---------------------------------------------------------------------------

  /** A kept edge whose relation makes lines 159-168 raise. */
  predicate BadRelation(e: Json, ids: set<string>) {
    KeptEdge(e, ids).Some? && PrepareRelation(KeptEdge(e, ids).value).Err?
  }

  /** The edge pass fails exactly when some kept edge has a relation it cannot backfill. */
  lemma {:induction false} PrepareEdgesFails(edges: seq<Json>, ids: set<string>)
    ensures PrepareEdges(edges, ids).Err? <==> exists k :: 0 <= k < |edges| && BadRelation(edges[k], ids)
  {
    if edges != [] {
      var prefix := edges[..|edges| - 1];
      PrepareEdgesFails(prefix, ids);
      forall k | 0 <= k < |prefix| ensures edges[k] == prefix[k] { }
    }
  }

  /** The only error the edge pass raises is the relation's TypeError. */
  lemma {:induction false} PrepareEdgesError(edges: seq<Json>, ids: set<string>)
    ensures PrepareEdges(edges, ids).Err? ==> PrepareEdges(edges, ids).error == RelationTypeError
  {
    if edges != [] {
      PrepareEdgesError(edges[..|edges| - 1], ids);
    }
  }

  /** `_add_degree_and_size` raises exactly in the three situations of NormalizeError. */
  lemma NormalizeFails(parsed: Json)
    ensures Normalize(parsed) == Err(NotAnObject) <==> !parsed.JObj?
    ensures Normalize(parsed) == Err(ListsRequired) <==>
      parsed.JObj? && (!Get(parsed.fields, "nodes", JArr([])).JArr? || !Get(parsed.fields, "edges", JArr([])).JArr?)
    ensures Normalize(parsed) == Err(RelationTypeError) <==>
      parsed.JObj? && Get(parsed.fields, "nodes", JArr([])).JArr? && Get(parsed.fields, "edges", JArr([])).JArr? &&
      var edges, ids := Get(parsed.fields, "edges", JArr([])).items, NodeIdSet(Get(parsed.fields, "nodes", JArr([])).items);
      exists k :: 0 <= k < |edges| && BadRelation(edges[k], ids)
  {
    if parsed.JObj? {
      var nodes, edges := Get(parsed.fields, "nodes", JArr([])), Get(parsed.fields, "edges", JArr([]));
      if nodes.JArr? && edges.JArr? {
        PrepareEdgesFails(edges.items, NodeIdSet(nodes.items));
        PrepareEdgesError(edges.items, NodeIdSet(nodes.items));
      }
    }
  }

  /**
   * A dict relation is always accepted; each of its three backfills takes
   * effect, and no other key of the relation changes.
   */
  lemma DictRelationBackfilled(fields: map<string, Json>)
    requires "relation" in fields && fields["relation"].JObj?
    ensures PrepareRelation(fields).Ok?
    ensures var before, after := fields["relation"].fields, PrepareRelation(fields).value["relation"];
      after.JObj? &&
      (forall j :: 0 <= j < |RelationKeys| ==> Filled(before, after.fields, RelationKeys[j])) &&
      (forall k :: !WrittenBy(k, RelationKeys) ==> Agree(before, after.fields, k))
  {
    BackfillRelation(fields["relation"].fields);
    BackfillAllKeeps(fields["relation"].fields, RelationKeys);
  }

  /** A kept edge joins two node ids, both stored as strings. */
  predicate Joins(e: Json, ids: set<string>) {
    e.JObj? && "source" in e.fields && "target" in e.fields &&
    e.fields["source"].JStr? && e.fields["target"].JStr? &&
    e.fields["source"].s in ids && e.fields["target"].s in ids
  }

  /** The endpoints an edge names, as str() renders them. */
  function PairOf(e: Json): (string, string) {
    if e.JObj? then (PyStr(Get(e.fields, "source", JNull)), PyStr(Get(e.fields, "target", JNull))) else ("", "")
  }

  function Pairs(edges: seq<Json>): seq<(string, string)> {
    if edges == [] then [] else Pairs(edges[..|edges| - 1]) + [PairOf(edges[|edges| - 1])]
  }

  /**
   * The endpoint pairs the edge loop keeps, read off the input: those of the
   * dict edges whose source and target are not None and render as node ids.
   */
  function KeptPairs(edges: seq<Json>, ids: set<string>): seq<(string, string)> {
    if edges == [] then []
    else
      var e := edges[|edges| - 1];
      KeptPairs(edges[..|edges| - 1], ids) +
        (if e.JObj? && HasValue(e.fields, "source") && HasValue(e.fields, "target") &&
            PairOf(e).0 in ids && PairOf(e).1 in ids
         then [PairOf(e)] else [])
  }

  /** The positions of the input edges the edge loop keeps, in increasing order, and no others. */
  function KeptIndices(edges: seq<Json>, ids: set<string>): (r: seq<nat>)
    ensures forall k :: 0 <= k < |r| ==> r[k] < |edges| && KeptEdge(edges[r[k]], ids).Some?
    ensures forall k, l :: 0 <= k < l < |r| ==> r[k] < r[l]
    ensures forall i :: 0 <= i < |edges| && KeptEdge(edges[i], ids).Some? ==> i in r
  {
    if edges == [] then []
    else
      var prefix, last := edges[..|edges| - 1], |edges| - 1;
      var before := KeptIndices(prefix, ids);
      var added: seq<nat> := if KeptEdge(edges[last], ids).Some? then [last] else [];
      assert forall i :: 0 <= i < last ==> edges[i] == prefix[i];
      assert forall k :: 0 <= k < |before| ==> before[k] < last;
      before + added
  }

  /** What the edge loop stores for an input edge it keeps: the kept form with its relation prepared. */
  function Stored(e: Json, ids: set<string>): Option<Json> {
    match KeptEdge(e, ids)
    case None => None
    case Some(f) => if PrepareRelation(f).Ok? then Some(JObj(PrepareRelation(f).value)) else None
  }

  /**
   * The edges that survive are exactly the input edges between node ids, in
   * input order, each with its endpoints stored as strings and its relation
   * backfilled: the k-th one is the stored form of the input edge at the k-th
   * kept position.
   */
  lemma PrepareEdgesKeeps(edges: seq<Json>, ids: set<string>)
    requires PrepareEdges(edges, ids).Ok?
    ensures var kept, at := PrepareEdges(edges, ids).value, KeptIndices(edges, ids);
      |kept| == |at| &&
      (forall k :: 0 <= k < |kept| ==> Some(kept[k]) == Stored(edges[at[k]], ids)) &&
      (forall k :: 0 <= k < |kept| ==> Joins(kept[k], ids)) && Pairs(kept) == KeptPairs(edges, ids)
  {
    PrepareEdgesStored(edges, ids);
    PrepareEdgesJoin(edges, ids);
  }

  lemma {:induction false} PrepareEdgesStored(edges: seq<Json>, ids: set<string>)
    requires PrepareEdges(edges, ids).Ok?
    ensures var kept, at := PrepareEdges(edges, ids).value, KeptIndices(edges, ids);
      |kept| == |at| && forall k :: 0 <= k < |kept| ==> Some(kept[k]) == Stored(edges[at[k]], ids)
  {
    if edges != [] {
      var prefix, last := edges[..|edges| - 1], |edges| - 1;
      PrepareEdgesStored(prefix, ids);
      var kept := KeptEdge(edges[last], ids);
      var before, at := PrepareEdges(prefix, ids).value, KeptIndices(prefix, ids);
      StoredPrefix(edges, before, at, ids);
      PrepareEdgesLast(edges, ids);
      if kept.Some? {
        StoredAppend(before, at, JObj(PrepareRelation(kept.value).value), last, edges, ids);
      }
    }
  }

  /** The edge loop and the kept positions after one more edge. */
  lemma PrepareEdgesLast(edges: seq<Json>, ids: set<string>)
    requires edges != [] && PrepareEdges(edges, ids).Ok?
    ensures var prefix, last := edges[..|edges| - 1], |edges| - 1;
      var before, at, kept := PrepareEdges(prefix, ids), KeptIndices(prefix, ids), KeptEdge(edges[last], ids);
      before.Ok? &&
      (kept.Some? ==>
        PrepareRelation(kept.value).Ok? &&
        PrepareEdges(edges, ids).value == before.value + [JObj(PrepareRelation(kept.value).value)] &&
        KeptIndices(edges, ids) == at + [last]) &&
      (kept.None? ==> PrepareEdges(edges, ids).value == before.value && KeptIndices(edges, ids) == at)
  {
  }

  /** What holds of the kept positions of all but the last edge holds of them among all the edges. */
  lemma StoredPrefix(edges: seq<Json>, before: seq<Json>, at: seq<nat>, ids: set<string>)
    requires edges != [] && |before| == |at|
    requires forall k :: 0 <= k < |at| ==>
      at[k] < |edges| - 1 && Some(before[k]) == Stored(edges[..|edges| - 1][at[k]], ids)
    ensures forall k :: 0 <= k < |at| ==> at[k] < |edges| && Some(before[k]) == Stored(edges[at[k]], ids)
  {
  }

  lemma {:induction false} PrepareEdgesJoin(edges: seq<Json>, ids: set<string>)
    requires PrepareEdges(edges, ids).Ok?
    ensures var kept := PrepareEdges(edges, ids).value;
      (forall k :: 0 <= k < |kept| ==> Joins(kept[k], ids)) && Pairs(kept) == KeptPairs(edges, ids)
  {
    if edges != [] {
      var prefix := edges[..|edges| - 1];
      PrepareEdgesJoin(prefix, ids);
      var e := edges[|edges| - 1];
      var kept := KeptEdge(e, ids);
      KeptPairCondition(e, ids);
      if kept.Some? {
        var before := PrepareEdges(prefix, ids).value;
        var x := JObj(PrepareRelation(kept.value).value);
        KeptEdgeJoins(e, ids);
        JoinsAppend(before, x, ids);
        PairsAppend(before, x);
      }
    }
  }

  lemma StoredAppend(before: seq<Json>, at: seq<nat>, x: Json, last: nat, edges: seq<Json>, ids: set<string>)
    requires |before| == |at| && last < |edges| && Some(x) == Stored(edges[last], ids)
    requires forall k :: 0 <= k < |at| ==> at[k] < |edges| && Some(before[k]) == Stored(edges[at[k]], ids)
    ensures forall k :: 0 <= k < |before| + 1 ==> Some((before + [x])[k]) == Stored(edges[(at + [last])[k]], ids)
  {
  }

  /** KeptPairs keeps an edge's pair exactly when the edge loop keeps the edge. */
  lemma KeptPairCondition(e: Json, ids: set<string>)
    ensures KeptEdge(e, ids).Some? <==>
      e.JObj? && HasValue(e.fields, "source") && HasValue(e.fields, "target") &&
      PairOf(e).0 in ids && PairOf(e).1 in ids
  {
  }

  /** A kept edge, once its relation is prepared, joins two node ids and names the same pair. */
  lemma KeptEdgeJoins(e: Json, ids: set<string>)
    requires KeptEdge(e, ids).Some? && PrepareRelation(KeptEdge(e, ids).value).Ok?
    ensures var x := JObj(PrepareRelation(KeptEdge(e, ids).value).value);
      Joins(x, ids) && PairOf(x) == PairOf(e)
  {
  }

  lemma JoinsAppend(before: seq<Json>, x: Json, ids: set<string>)
    requires forall k :: 0 <= k < |before| ==> Joins(before[k], ids)
    requires Joins(x, ids)
    ensures forall k :: 0 <= k < |before + [x]| ==> Joins((before + [x])[k], ids)
  {
  }

  lemma PairsAppend(before: seq<Json>, x: Json)
    ensures Pairs(before + [x]) == Pairs(before) + [PairOf(x)]
  {
    assert (before + [x])[..|before|] == before;
  }

  /** Two edges that name every node id equally often give every node the same degree. */
  lemma {:induction false} DegreeSameIncidence(a: seq<Json>, b: seq<Json>, id: string)
    requires |a| == |b| && forall k :: 0 <= k < |a| ==> Incidence(a[k], id) == Incidence(b[k], id)
    ensures Degree(a, id) == Degree(b, id)
  {
    if a != [] {
      DegreeSameIncidence(a[..|a| - 1], b[..|b| - 1], id);
    }
  }

  /** Neither the id nor the weight pass touches an endpoint, so the returned edges give the counted degrees. */
  lemma DegreeOfOutEdges(kept: seq<Json>, id: string)
    ensures Degree(OutEdges(kept), id) == Degree(kept, id)
  {
    DegreeSameIncidence(OutEdges(kept), kept, id);
  }

  /** How often x occurs in a list of ids. */
  function Occurrences(ids: seq<string>, x: string): nat {
    if ids == [] then 0 else Occurrences(ids[..|ids| - 1], x) + (if ids[|ids| - 1] == x then 1 else 0)
  }

  predicate Distinct(ids: seq<string>) {
    forall a, b :: 0 <= a < b < |ids| ==> ids[a] != ids[b]
  }

  /** The degrees of all listed ids added up. */
  function TotalDegree(edges: seq<Json>, ids: seq<string>): nat {
    if ids == [] then 0 else TotalDegree(edges, ids[..|ids| - 1]) + Degree(edges, ids[|ids| - 1])
  }

  /** The endpoints of one edge that the listed ids name, added up over the ids. */
  function TotalIncidence(e: Json, ids: seq<string>): nat {
    if ids == [] then 0 else TotalIncidence(e, ids[..|ids| - 1]) + Incidence(e, ids[|ids| - 1])
  }

  lemma {:induction false} OccurrencesDistinct(ids: seq<string>, x: string)
    requires Distinct(ids)
    ensures Occurrences(ids, x) == if x in ids then 1 else 0
  {
    if ids != [] {
      var prefix := ids[..|ids| - 1];
      OccurrencesDistinct(prefix, x);
      if ids[|ids| - 1] == x {
        assert x !in prefix by {
          forall a | 0 <= a < |prefix| ensures prefix[a] != x {
            assert prefix[a] == ids[a];
          }
        }
      } else {
        assert x in ids <==> x in prefix by {
          if x in ids {
            var a :| 0 <= a < |ids| && ids[a] == x;
            assert prefix[a] == x;
          }
        }
      }
    }
  }

  lemma {:induction false} TotalIncidenceCounts(e: Json, ids: seq<string>)
    requires e.JObj? && "source" in e.fields && "target" in e.fields && e.fields["source"].JStr? && e.fields["target"].JStr?
    ensures TotalIncidence(e, ids) == Occurrences(ids, e.fields["source"].s) + Occurrences(ids, e.fields["target"].s)
  {
    if ids != [] {
      TotalIncidenceCounts(e, ids[..|ids| - 1]);
    }
  }

  lemma {:induction false} TotalDegreeAppend(edges: seq<Json>, e: Json, ids: seq<string>)
    ensures TotalDegree(edges + [e], ids) == TotalDegree(edges, ids) + TotalIncidence(e, ids)
  {
    DegreeAppend(edges, e);
    if ids != [] {
      TotalDegreeAppend(edges, e, ids[..|ids| - 1]);
    }
  }

  /**
   * The handshake property: when the node ids are distinct and every edge
   * joins two of them, the degrees add up to twice the number of edges.
   */
  lemma {:induction false} DegreeSum(edges: seq<Json>, ids: seq<string>)
    requires Distinct(ids)
    requires forall k :: 0 <= k < |edges| ==> Joins(edges[k], set x | x in ids)
    ensures TotalDegree(edges, ids) == 2 * |edges|
  {
    if edges == [] {
      TotalDegreeEmpty(ids);
    } else {
      var prefix, e := edges[..|edges| - 1], edges[|edges| - 1];
      DegreeSum(prefix, ids);
      assert edges == prefix + [e];
      TotalDegreeAppend(prefix, e, ids);
      TotalIncidenceCounts(e, ids);
      OccurrencesDistinct(ids, e.fields["source"].s);
      OccurrencesDistinct(ids, e.fields["target"].s);
    }
  }

  lemma {:induction false} TotalDegreeEmpty(ids: seq<string>)
    ensures TotalDegree([], ids) == 0
  {
    if ids != [] {
      TotalDegreeEmpty(ids[..|ids| - 1]);
    }
  }

  /** The id and weight passes leave both endpoints of every edge as they were. */
  lemma OutEdgeEndpoints(kept: seq<Json>, k: nat)
    requires k < |kept| && kept[k].JObj?
    ensures var r := OutEdges(kept)[k];
      r.JObj? && (forall key :: key != "id" && key != "visual" && key in kept[k].fields ==>
        key in r.fields && r.fields[key] == kept[k].fields[key])
  {
  }

  /**
   * For a normalised graph whose node ids are distinct, the degrees of the
   * ids the nodes declare add up to twice the number of returned edges.
   */
  lemma NormalizedDegreeSum(nodes: seq<Json>, edges: seq<Json>)
    requires PrepareEdges(edges, NodeIdSet(nodes)).Ok? && Distinct(NodeIdList(nodes))
    ensures var out := OutEdges(PrepareEdges(edges, NodeIdSet(nodes)).value);
      TotalDegree(out, NodeIdList(nodes)) == 2 * |out|
  {
    var ids := NodeIdSet(nodes);
    var kept := PrepareEdges(edges, ids).value;
    PrepareEdgesKeeps(edges, ids);
    forall k | 0 <= k < |kept| ensures Joins(OutEdges(kept)[k], set x | x in NodeIdList(nodes)) {
      OutEdgeEndpoints(kept, k);
    }
    DegreeSum(OutEdges(kept), NodeIdList(nodes));
  }

  /** The integer `centrality` of a node, and 0 for a node without one. */
  function Centrality(n: Json): int {
    if n.JObj? && "centrality" in n.fields && n.fields["centrality"].JInt? then n.fields["centrality"].i else 0
  }

  /** The centralities of a list of nodes added up. */
  function CentralitySum(ns: seq<Json>): int {
    if ns == [] then 0 else CentralitySum(ns[..|ns| - 1]) + Centrality(ns[|ns| - 1])
  }

  lemma CentralitySumStep(ns: seq<Json>, i: nat)
    requires 0 < i <= |ns|
    ensures CentralitySum(ns[..i]) == CentralitySum(ns[..i - 1]) + Centrality(ns[i - 1])
  {
    assert ns[..i][..i - 1] == ns[..i - 1];
  }

  lemma NodeIdListDeclared(nodes: seq<Json>, i: nat)
    requires 0 < i <= |nodes|
    ensures NodeIdList(nodes[..i]) == NodeIdList(nodes[..i - 1]) + DeclaredId(nodes[i - 1])
  {
    assert nodes[..i][..i - 1] == nodes[..i - 1];
  }

  /** Adding at most one more id to the list adds its degree. */
  lemma TotalDegreeMoreIds(edges: seq<Json>, ids: seq<string>, more: seq<string>)
    requires |more| <= 1
    ensures TotalDegree(edges, ids + more) == TotalDegree(edges, ids) + TotalDegree(edges, more)
  {
    if more != [] {
      assert (ids + more)[..|ids + more| - 1] == ids;
      assert more[..0] == [];
    } else {
      assert ids + more == ids;
    }
  }

  /** The id a node contributes to `node_ids`: str(id) for a dict node whose id is not None. */
  function DeclaredId(n: Json): (r: seq<string>)
    ensures |r| <= 1
  {
    if n.JObj? && HasValue(n.fields, "id") then [PyStr(n.fields["id"])] else []
  }

  /**
   * When each node's centrality is the degree of the id it declares, the
   * centralities of the first i nodes add up to the degrees of the ids those
   * nodes declare.
   */
  lemma {:induction false} CentralityPrefix(nodes: seq<Json>, out: seq<Json>, edges: seq<Json>, i: nat)
    requires i <= |nodes| == |out|
    requires forall k :: 0 <= k < |nodes| ==> Centrality(out[k]) == TotalDegree(edges, DeclaredId(nodes[k]))
    ensures CentralitySum(out[..i]) == TotalDegree(edges, NodeIdList(nodes[..i]))
  {
    if i > 0 {
      var ids, declared := NodeIdList(nodes[..i - 1]), DeclaredId(nodes[i - 1]);
      calc {
        CentralitySum(out[..i]);
        == { CentralitySumStep(out, i); }
        CentralitySum(out[..i - 1]) + Centrality(out[i - 1]);
        == { CentralityPrefix(nodes, out, edges, i - 1); }
        TotalDegree(edges, ids) + TotalDegree(edges, declared);
        == { TotalDegreeMoreIds(edges, ids, declared); }
        TotalDegree(edges, ids + declared);
        == { NodeIdListDeclared(nodes, i); }
        TotalDegree(edges, NodeIdList(nodes[..i]));
      }
    }
  }

  /** A returned node's centrality is the degree of the id it declares, and 0 when it declares none. */
  lemma CentralityOfOutNode(nodes: seq<Json>, kept: seq<Json>, k: nat)
    requires k < |nodes| && (nodes[k].JObj? ==> HasValue(nodes[k].fields, "id"))
    ensures Centrality(OutNodes(nodes, kept)[k]) == TotalDegree(OutEdges(kept), DeclaredId(nodes[k]))
  {
    OutNode(nodes, kept, k);
    if nodes[k].JObj? {
      assert DeclaredId(nodes[k])[..0] == [];
    }
  }

  /**
   * When every dict node has an id and the ids are distinct, the `centrality`
   * fields of the returned nodes add up to twice the number of returned edges.
   */
  lemma NormalizedCentralitySum(nodes: seq<Json>, edges: seq<Json>)
    requires PrepareEdges(edges, NodeIdSet(nodes)).Ok? && Distinct(NodeIdList(nodes))
    requires forall k :: 0 <= k < |nodes| && nodes[k].JObj? ==> HasValue(nodes[k].fields, "id")
    ensures var kept := PrepareEdges(edges, NodeIdSet(nodes)).value;
      CentralitySum(OutNodes(nodes, kept)) == 2 * |OutEdges(kept)|
  {
    var kept := PrepareEdges(edges, NodeIdSet(nodes)).value;
    var out := OutNodes(nodes, kept);
    forall k | 0 <= k < |nodes| ensures Centrality(out[k]) == TotalDegree(OutEdges(kept), DeclaredId(nodes[k])) {
      CentralityOfOutNode(nodes, kept, k);
    }
    CentralityPrefix(nodes, out, OutEdges(kept), |nodes|);
    assert out[..|nodes|] == out;
    assert nodes[..|nodes|] == nodes;
    NormalizedDegreeSum(nodes, edges);
  }

  /** The text a node's degree is looked up under (line 172): str(id), or "" without an id. */
  function NodeKey(n: Json): string
    requires n.JObj?
  {
    if "id" in n.fields then PyStr(n.fields["id"]) else ""
  }

  /**
   * Each returned node is the input node at the same position. A dict node
   * with an id that is not None gets that id as a string and its labels
   * backfilled. Every dict node gets its centrality (the
   * number of endpoints of returned edges that name it) and a visual dict
   * whose size is 15 plus five times the centrality. Any other node is returned unchanged.
   */
  lemma OutNode(nodes: seq<Json>, kept: seq<Json>, k: nat)
    requires k < |nodes|
    ensures var n, r := nodes[k], OutNodes(nodes, kept)[k];
      (!n.JObj? ==> r == n) &&
      (n.JObj? ==> PassedNode(n, r, Degree(OutEdges(kept), NodeKey(n))))
  {
    var n := nodes[k];
    if n.JObj? {
      var r := FinishNode(CoerceNode(n), kept);
      assert OutNodes(nodes, kept)[k] == r;
      DictNodeOut(n, kept, r);
    }
  }

  /**
   * What both passes make of a dict node n with centrality d: r is a dict
   * holding centrality d and a visual dict whose size is 15 + 5 * d and
   * whose other keys are n's; with an id that is not None, r's id is that
   * id as a string, the labels are backfilled and every other key keeps
   * its value; without one, every key but centrality and visual keeps its
   * value.
   */
  ghost predicate PassedNode(n: Json, r: Json, d: int)
    requires n.JObj?
  {
      r.JObj? && "centrality" in r.fields && r.fields["centrality"] == JInt(d) &&
      "visual" in r.fields && r.fields["visual"].JObj? &&
      "size" in r.fields["visual"].fields && r.fields["visual"].fields["size"] == JInt(15 + 5 * d) &&
      r.fields["visual"].fields.Keys == VisualOf(n.fields).Keys + {"size"} &&
      (forall key :: key in VisualOf(n.fields) && key != "size" ==>
        r.fields["visual"].fields[key] == VisualOf(n.fields)[key]) &&
      (HasValue(n.fields, "id") ==>
        "id" in r.fields && r.fields["id"] == JStr(PyStr(n.fields["id"])) &&
        (forall j :: 0 <= j < |NodeKeys| ==> Filled(n.fields, r.fields, NodeKeys[j])) &&
        forall key :: key != "id" && key != "centrality" && key != "visual" && !WrittenBy(key, NodeKeys) ==>
          Agree(n.fields, r.fields, key)) &&
      (!HasValue(n.fields, "id") ==>
        forall key :: key != "centrality" && key != "visual" ==> Agree(n.fields, r.fields, key))
  }

  /** OutNode for one dict node, with its returned form named r. */
  lemma DictNodeOut(n: Json, kept: seq<Json>, r: Json)
    requires n.JObj? && r == FinishNode(CoerceNode(n), kept)
    ensures PassedNode(n, r, Degree(OutEdges(kept), NodeKey(n)))
  {
    DegreeOfOutEdges(kept, NodeKey(n));
    NodePassesCore(n, kept);
    NodePassesVisual(n, kept);
    if HasValue(n.fields, "id") {
      NodePassesFrame(n, kept);
    }
  }

  /** Both passes on a dict node: the centrality, the size, the string id and the backfills. */
  lemma NodePassesCore(n: Json, edges: seq<Json>)
    requires n.JObj?
    ensures var r, d := FinishNode(CoerceNode(n), edges), Degree(edges, NodeKey(n));
      r.JObj? && "centrality" in r.fields && r.fields["centrality"] == JInt(d) &&
      "visual" in r.fields && r.fields["visual"].JObj? &&
      "size" in r.fields["visual"].fields && r.fields["visual"].fields["size"] == JInt(15 + 5 * d) &&
      (HasValue(n.fields, "id") ==>
        r.fields["id"] == JStr(PyStr(n.fields["id"])) &&
        forall j :: 0 <= j < |NodeKeys| ==> Filled(n.fields, r.fields, NodeKeys[j])) &&
      (!HasValue(n.fields, "id") ==>
        forall key :: key != "centrality" && key != "visual" ==> Agree(n.fields, r.fields, key))
  {
    var c := CoerceNode(n);
    var r := FinishNode(c, edges);
    CoercedNode(n);
    FinishedNode(c, edges);
    if HasValue(n.fields, "id") {
      assert Agree(c.fields, r.fields, "id");
      forall j | 0 <= j < |NodeKeys| ensures Filled(n.fields, r.fields, NodeKeys[j]) {
        var t := NodeKeys[j];
        assert Filled(n.fields, c.fields, t);
        assert Agree(c.fields, r.fields, t.1) && Agree(c.fields, r.fields, t.2);
      }
    }
  }

  /** The first pass keys a dict node's degree under NodeKey and backfills its labels. */
  lemma CoercedNode(n: Json)
    requires n.JObj?
    ensures var c := CoerceNode(n);
      c.JObj? && PyStr(Get(c.fields, "id", JStr(""))) == NodeKey(n) &&
      (HasValue(n.fields, "id") ==> forall j :: 0 <= j < |NodeKeys| ==> Filled(n.fields, c.fields, NodeKeys[j]))
  {
    if HasValue(n.fields, "id") {
      var withId := n.fields["id" := JStr(PyStr(n.fields["id"]))];
      BackfillNode(withId);
      forall j | 0 <= j < |NodeKeys| ensures Filled(n.fields, CoerceNode(n).fields, NodeKeys[j]) {
        assert Filled(withId, CoerceNode(n).fields, NodeKeys[j]);
        assert Agree(n.fields, withId, NodeKeys[j].0) && Agree(n.fields, withId, NodeKeys[j].1) &&
               Agree(n.fields, withId, NodeKeys[j].2);
      }
    }
  }

  /** The first pass writes only the id and the backfilled fields; the visual dict is untouched. */
  lemma CoercedNodeFrame(n: Json)
    requires n.JObj?
    ensures var c := CoerceNode(n);
      c.JObj? && VisualOf(c.fields) == VisualOf(n.fields) &&
      (HasValue(n.fields, "id") ==> forall key :: key != "id" && !WrittenBy(key, NodeKeys) ==> Agree(n.fields, c.fields, key))
  {
    if HasValue(n.fields, "id") {
      var withId := n.fields["id" := JStr(PyStr(n.fields["id"]))];
      BackfillAllKeeps(withId, NodeKeys);
      assert !WrittenBy("visual", NodeKeys);
      assert Agree(withId, CoerceNode(n).fields, "visual");
    }
  }

  /** Both passes on a dict node keep every key of its visual dict except the size. */
  lemma NodePassesVisual(n: Json, edges: seq<Json>)
    requires n.JObj?
    ensures var r := FinishNode(CoerceNode(n), edges);
      r.JObj? && r.fields["visual"].JObj? &&
      r.fields["visual"].fields.Keys == VisualOf(n.fields).Keys + {"size"} &&
      forall key :: key in VisualOf(n.fields) && key != "size" ==> r.fields["visual"].fields[key] == VisualOf(n.fields)[key]
  {
    CoercedNodeFrame(n);
  }

  /** Both passes on a dict node with an id keep every key they do not write. */
  lemma NodePassesFrame(n: Json, edges: seq<Json>)
    requires n.JObj? && HasValue(n.fields, "id")
    ensures var r := FinishNode(CoerceNode(n), edges);
      r.JObj? &&
      forall key :: key != "id" && key != "centrality" && key != "visual" && !WrittenBy(key, NodeKeys) ==>
        Agree(n.fields, r.fields, key)
  {
    CoercedNodeFrame(n);
  }

  /** The second pass sets the centrality and the size and keeps the other fields. */
  lemma FinishedNode(c: Json, kept: seq<Json>)
    requires c.JObj?
    ensures var r, d := FinishNode(c, kept), Degree(kept, PyStr(Get(c.fields, "id", JStr(""))));
      r.JObj? && "centrality" in r.fields && r.fields["centrality"] == JInt(d) &&
      "visual" in r.fields && r.fields["visual"].JObj? &&
      "size" in r.fields["visual"].fields && r.fields["visual"].fields["size"] == JInt(15 + 5 * d) &&
      (forall key :: key != "centrality" && key != "visual" ==> Agree(c.fields, r.fields, key))
  {
  }

  /**
   * Every returned edge has a truthy id (its own, or "e<k+1>") and a weight
   * that is the clamped float of its own weight, so NaN or a value in [0, 1].
   */
  lemma OutEdge(kept: seq<Json>, k: nat)
    requires k < |kept| && kept[k].JObj?
    ensures var r := OutEdges(kept)[k];
      r.JObj? && "id" in r.fields && Truthy(r.fields["id"]) &&
      (!Truthy(Get(kept[k].fields, "id", JNull)) ==> r.fields["id"] == JStr(GeneratedId(k + 1))) &&
      (Truthy(Get(kept[k].fields, "id", JNull)) ==> r.fields["id"] == kept[k].fields["id"]) &&
      "visual" in r.fields && r.fields["visual"].JObj? && "weight" in r.fields["visual"].fields &&
      r.fields["visual"].fields["weight"] == JFloat(ClampUnit(ToFloat(Get(VisualOf(kept[k].fields), "weight", JNull)))) &&
      var w := r.fields["visual"].fields["weight"].f;
      w.NaN? || (w.Finite? && 0.0 <= w.r <= 1.0)
  {
    var e := WithEdgeId(kept[k], k + 1);
    assert VisualOf(e.fields) == VisualOf(kept[k].fields);
  }

  /** An edge whose weight is the text "abc" gets 0.5; one whose weight is 1.7 gets 1.0. */
  lemma ClampExamples()
    ensures ClampEdge(JObj(map["visual" := JObj(map["weight" := JStr("abc")])])).fields["visual"].fields["weight"] == JFloat(Finite(0.5))
    ensures ClampEdge(JObj(map["visual" := JObj(map["weight" := JFloat(Finite(1.7))])])).fields["visual"].fields["weight"] == JFloat(Finite(1.0))
  {
    ToFloatRejectsWord();
  }

  /** The generated edge ids "e1", "e2", ... are pairwise distinct. */
  lemma GeneratedIdsDistinct(i: nat, j: nat)
    requires i != j
    ensures GeneratedId(i) != GeneratedId(j)
  {
    if GeneratedId(i) == GeneratedId(j) {
      assert GeneratedId(i)[1..] == NatToString(i);
      assert GeneratedId(j)[1..] == NatToString(j);
      NatToStringInjective(i, j);
    }
  }

  /** Ensuring ids twice changes nothing: a truthy id is kept. */
  lemma WithEdgeIdIdempotent(e: Json, i: nat, j: nat)
    ensures WithEdgeId(WithEdgeId(e, i), j) == WithEdgeId(e, i)
  {
  }

  /** Clamping a clamped weight changes nothing. */
  lemma ClampUnitIdempotent(w: Option<Float>)
    ensures ClampUnit(Some(ClampUnit(w))) == ClampUnit(w)
  {
  }

  /** A weight that float() reads as a value in [0, 1] is kept as it is. */
  lemma ClampUnitKeepsUnit(x: real)
    requires 0.0 <= x <= 1.0
    ensures ClampUnit(Some(Finite(x))) == Finite(x)
  {
  }

  /** Clamping the weights of an edge twice gives the same edge as clamping once. */
  lemma ClampEdgeIdempotent(e: Json)
    ensures ClampEdge(ClampEdge(e)) == ClampEdge(e)
  {
    if e.JObj? {
      var vis := VisualOf(e.fields);
      var w := ClampUnit(ToFloat(Get(vis, "weight", JNull)));
      var once := ClampEdge(e);
      assert VisualOf(once.fields) == vis["weight" := JFloat(w)];
      ClampUnitIdempotent(ToFloat(Get(vis, "weight", JNull)));
      assert vis["weight" := JFloat(w)]["weight" := JFloat(w)] == vis["weight" := JFloat(w)];
    }
  }
}
