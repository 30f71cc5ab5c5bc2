/**
 * The graph-JSON consistency checker of work_logs/A/json_check.py: it reads a
 * graph dict (nodes, edges, total_characters), reports dangling edge
 * endpoints, counts each node's degree, checks the `size = centrality*6+10`
 * rule, flags nodes whose degree and centrality disagree, tallies relation
 * types and their colours, and lists weighted edges from heaviest to lightest.
 *
 * The script is a sequence of top-level loops; each loop is a method here,
 * proved equal to a specification function over the prefix it has read, and
 * the properties the script promises are lemmas about those functions. A
 * Python exception ends the script; it is an `Err` carrying the exception's
 * class.
 */
module GraphCheck {
  import opened Wrappers
  import opened Json
  import opened StableSort

  /**
   * The exceptions that end the script. FormatError is the ValueError or
   * TypeError an f-string format specification such as `:25s` or `:6d` raises
   * for a value of the wrong type.
   */
  datatype PyError = AttributeError | TypeError | FormatError

  /**
   * A value as a dict key or set member. Python identifies equal numbers of
   * any type (True == 1 == 1.0), so every number becomes one float key.
   */
  datatype Key = KNone | KNum(f: Float) | KStr(s: string)

  /** The number a bool, int or float stands for; None for every other value. */
  function NumValue(j: Json): Option<Float> {
    match j
    case JBool(b) => Some(Finite(if b then 1.0 else 0.0))
    case JInt(i) => Some(Finite(i as real))
    case JFloat(f) => Some(f)
    case _ => None
  }

  /** `hash(x)`: lists and dicts are unhashable. */
  function HashKey(j: Json): (r: Option<Key>)
    ensures r.None? <==> j.JArr? || j.JObj?
  {
    match j
    case JNull => Some(KNone)
    case JStr(s) => Some(KStr(s))
    case JArr(_) => None
    case JObj(_) => None
    case _ => Some(KNum(NumValue(j).value))
  }

  /**
   * Equal numbers are one key whatever their type (True, 1 and 1.0), and a
   * string is never the same key as a number or None.
   */
  lemma HashKeyPythonEquality(a: Json, b: Json)
    ensures NumValue(a).Some? && NumValue(a) == NumValue(b) ==> HashKey(a) == HashKey(b)
    ensures a.JStr? && !b.JStr? ==> HashKey(a) != HashKey(b)
    ensures HashKey(JBool(true)) == HashKey(JInt(1)) == HashKey(JFloat(Finite(1.0)))
  {
  }

  /** Python's `==` between two floats: NaN equals nothing. */
  predicate FloatEq(a: Float, b: Float) {
    match (a, b)
    case (Finite(x), Finite(y)) => x == y
    case (PosInf, PosInf) => true
    case (NegInf, NegInf) => true
    case _ => false
  }

  /** Python's `j == f` for a number f: only a number can equal a number. */
  predicate NumEquals(j: Json, f: Float) {
    NumValue(j).Some? && FloatEq(NumValue(j).value, f)
  }

  /**
   * Iterating a value and calling `.get` on each item: a list gives its items,
   * an empty string or dict gives nothing, a non-empty string or dict yields
   * strings (AttributeError on `.get`), and None, bools and numbers are not
   * iterable (TypeError).
   */
  function AsList(j: Json): Result<seq<Json>, PyError> {
    match j
    case JArr(items) => Ok(items)
    case JStr(s) => if s == [] then Ok([]) else Err(AttributeError)
    case JObj(m) => if m == map[] then Ok([]) else Err(AttributeError)
    case _ => Err(TypeError)
  }

  /** `x.get(key, {}).get(sub, default)` on a dict x. */
  function Nested(fields: map<string, Json>, key: string, sub: string, default: Json): Result<Json, PyError> {
    var inner := Get(fields, key, JObj(map[]));
    if inner.JObj? then Ok(Get(inner.fields, sub, default)) else Err(AttributeError)
  }

  /** A Counter: absent keys count zero. */
  function Count(counter: map<Key, nat>, k: Key): nat {
    if k in counter then counter[k] else 0
  }

  /** `counter[k] += 1` */
  function Bump(counter: map<Key, nat>, k: Key): (r: map<Key, nat>)
    ensures r.Keys == counter.Keys + {k}
    ensures forall x :: Count(r, x) == Count(counter, x) + (if x == k then 1 else 0)
  {
    counter[k := Count(counter, k) + 1]
  }

  // ---------------------------------------------------------------------------
  // The basic check (lines 13-25)

  /** `[n.get("id") for n in nodes]`: every node must be a dict. */
  function NodeIds(nodes: seq<Json>): (r: Result<seq<Json>, PyError>)
    ensures r.Ok? <==> forall i :: 0 <= i < |nodes| ==> nodes[i].JObj?
    ensures r.Ok? ==> |r.value| == |nodes|
    ensures r.Ok? ==> forall i :: 0 <= i < |nodes| ==> r.value[i] == Get(nodes[i].fields, "id", JNull)
  {
    if forall i :: 0 <= i < |nodes| ==> nodes[i].JObj?
    then Ok(seq(|nodes|, i requires 0 <= i < |nodes| => Get(nodes[i].fields, "id", JNull)))
    else Err(AttributeError)
  }

  /** `set(node_ids)`: every id must be hashable. */
  function KeySet(ids: seq<Json>): (r: Result<set<Key>, PyError>)
    ensures r.Ok? <==> forall i :: 0 <= i < |ids| ==> HashKey(ids[i]).Some?
    ensures r.Ok? ==> forall k :: k in r.value <==> exists i :: 0 <= i < |ids| && HashKey(ids[i]) == Some(k)
  {
    if forall i :: 0 <= i < |ids| ==> HashKey(ids[i]).Some?
    then Ok(set i | 0 <= i < |ids| :: HashKey(ids[i]).value)
    else Err(TypeError)
  }

  /** `declared_total == len(nodes)` with Python's numeric equality. */
  function CountMatches(declared: Json, count: nat): (r: bool)
    ensures r <==> (declared.JInt? && declared.i == count) ||
                   (declared.JFloat? && declared.f == Finite(count as real)) ||
                   (declared.JBool? && count == (if declared.b then 1 else 0))
  {
    NumEquals(declared, Finite(count as real))
  }

  // ---------------------------------------------------------------------------
  // Missing endpoints and degrees (lines 29-42)

  datatype Missing = Missing(side: string, value: Json, edgeId: Json)

  datatype Scan = Scan(missing: seq<Missing>, degree: map<Key, nat>)

  /** Reading an edge's endpoints: `e.get` needs a dict, `s not in node_set` a hashable s. */
  function ReadEndpoints(e: Json): Result<(Key, Key), PyError> {
    if !e.JObj? then Err(AttributeError)
    else
      var s, t := HashKey(Get(e.fields, "source", JNull)), HashKey(Get(e.fields, "target", JNull));
      if s.None? || t.None? then Err(TypeError) else Ok((s.value, t.value))
  }

  /** The records one edge adds: its source if dangling, then its target if dangling. */
  function MissingFor(e: Json, nodeSet: set<Key>): seq<Missing>
    requires ReadEndpoints(e).Ok?
  {
    var (s, t) := ReadEndpoints(e).value;
    var id := Get(e.fields, "id", JNull);
    (if s !in nodeSet then [Missing("source", Get(e.fields, "source", JNull), id)] else []) +
    (if t !in nodeSet then [Missing("target", Get(e.fields, "target", JNull), id)] else [])
  }

  /** The degree counter after one more edge: each endpoint that is a node id counts. */
  function CountFor(degree: map<Key, nat>, s: Key, t: Key, nodeSet: set<Key>): map<Key, nat> {
    var afterSource := if s in nodeSet then Bump(degree, s) else degree;
    if t in nodeSet then Bump(afterSource, t) else afterSource
  }

  /** The state of the endpoint loop after the given edges, or the exception it raised. */
  function EndpointScan(edges: seq<Json>, nodeSet: set<Key>): Result<Scan, PyError> {
    if edges == [] then Ok(Scan([], map[]))
    else
      var e := edges[|edges| - 1];
      match EndpointScan(edges[..|edges| - 1], nodeSet)
      case Err(err) => Err(err)
      case Ok(sc) =>
        match ReadEndpoints(e)
        case Err(err) => Err(err)
        case Ok((s, t)) => Ok(Scan(sc.missing + MissingFor(e, nodeSet), CountFor(sc.degree, s, t, nodeSet)))
  }

  /** How many endpoints of the edges (sources and targets alike) have key k. */
  function Endpoints(edges: seq<Json>, k: Key): nat {
    if edges == [] then 0
    else
      var e := edges[|edges| - 1];
      Endpoints(edges[..|edges| - 1], k) +
      (if e.JObj? && HashKey(Get(e.fields, "source", JNull)) == Some(k) then 1 else 0) +
      (if e.JObj? && HashKey(Get(e.fields, "target", JNull)) == Some(k) then 1 else 0)
  }

  /** Once an exception is raised, reading further edges does not change it. */
  lemma {:induction false} EndpointScanErrSticks(edges: seq<Json>, i: nat, nodeSet: set<Key>)
    requires i <= |edges| && EndpointScan(edges[..i], nodeSet).Err?
    ensures EndpointScan(edges, nodeSet) == EndpointScan(edges[..i], nodeSet)
  {
    if i < |edges| {
      var prefix := edges[..|edges| - 1];
      assert prefix[..i] == edges[..i];
      EndpointScanErrSticks(prefix, i, nodeSet);
    } else {
      assert edges[..i] == edges;
    }
  }

  /** The endpoint loop (lines 32-42). */
  method ScanEndpoints(edges: seq<Json>, nodeSet: set<Key>) returns (r: Result<Scan, PyError>)
    ensures r == EndpointScan(edges, nodeSet)
  {
    var missing: seq<Missing> := [];
    var degree: map<Key, nat> := map[];
    var i := 0;
    while i < |edges|
      invariant i <= |edges|
      invariant EndpointScan(edges[..i], nodeSet) == Ok(Scan(missing, degree))
    {
      var e := edges[i];
      EndpointScanStep(edges, i, nodeSet);
      if !e.JObj? {
        r := Err(AttributeError);
        EndpointScanErrSticks(edges, i + 1, nodeSet);
        return;
      }
      var s, t := Get(e.fields, "source", JNull), Get(e.fields, "target", JNull);
      var sk, tk := HashKey(s), HashKey(t);
      if sk.None? || tk.None? {
        r := Err(TypeError);
        EndpointScanErrSticks(edges, i + 1, nodeSet);
        return;
      }
      missing := NoteMissing(missing, e, nodeSet);
      degree := NoteDegree(degree, sk.value, tk.value, nodeSet);
      i := i + 1;
    }
    assert edges[..i] == edges;
    r := Ok(Scan(missing, degree));
  }

  /** The loop state after one more edge, in terms of the state before it. */
  lemma EndpointScanStep(edges: seq<Json>, i: nat, nodeSet: set<Key>)
    requires i < |edges| && EndpointScan(edges[..i], nodeSet).Ok?
    ensures var prior, read := EndpointScan(edges[..i], nodeSet).value, ReadEndpoints(edges[i]);
      EndpointScan(edges[..i + 1], nodeSet) ==
        if read.Err? then Err(read.error)
        else Ok(Scan(prior.missing + MissingFor(edges[i], nodeSet), CountFor(prior.degree, read.value.0, read.value.1, nodeSet)))
  {
    var upto := edges[..i + 1];
    assert upto[..i] == edges[..i] && upto[i] == edges[i] && |upto| - 1 == i;
  }

  /** The records of one edge (lines 36-39): each endpoint that is not a node id. */
  method NoteMissing(missing: seq<Missing>, e: Json, nodeSet: set<Key>) returns (r: seq<Missing>)
    requires ReadEndpoints(e).Ok?
    ensures r == missing + MissingFor(e, nodeSet)
  {
    var (sk, tk) := ReadEndpoints(e).value;
    var id := Get(e.fields, "id", JNull);
    r := missing;
    if sk !in nodeSet {
      r := r + [Missing("source", Get(e.fields, "source", JNull), id)];
    }
    if tk !in nodeSet {
      r := r + [Missing("target", Get(e.fields, "target", JNull), id)];
    }
  }

  /** The counts of one edge (lines 40-42): each endpoint that is a node id. */
  method NoteDegree(degree: map<Key, nat>, sk: Key, tk: Key, nodeSet: set<Key>) returns (r: map<Key, nat>)
    ensures r == CountFor(degree, sk, tk, nodeSet)
  {
    r := degree;
    if sk in nodeSet {
      r := Bump(r, sk);
    }
    if tk in nodeSet {
      r := Bump(r, tk);
    }
  }

  /**
   * The endpoint loop fails exactly when some edge is not a dict or has an
   * unhashable endpoint, and then with the first such edge's exception.
   */
  lemma {:induction false} EndpointScanFails(edges: seq<Json>, nodeSet: set<Key>)
    ensures EndpointScan(edges, nodeSet).Ok? <==> forall i :: 0 <= i < |edges| ==> ReadEndpoints(edges[i]).Ok?
    ensures EndpointScan(edges, nodeSet).Err? ==>
      exists i :: 0 <= i < |edges| && ReadEndpoints(edges[i]) == Err(EndpointScan(edges, nodeSet).error) &&
        forall j :: 0 <= j < i ==> ReadEndpoints(edges[j]).Ok?
  {
    if edges != [] {
      var prefix := edges[..|edges| - 1];
      EndpointScanFails(prefix, nodeSet);
      assert forall i :: 0 <= i < |prefix| ==> prefix[i] == edges[i];
      if EndpointScan(prefix, nodeSet).Err? {
        var i :| 0 <= i < |prefix| && ReadEndpoints(prefix[i]) == Err(EndpointScan(prefix, nodeSet).error) &&
          forall j :: 0 <= j < i ==> ReadEndpoints(prefix[j]).Ok?;
        assert ReadEndpoints(edges[i]) == Err(EndpointScan(edges, nodeSet).error);
      }
    }
  }

  /**
   * A node's degree is the number of endpoints, over all edges, equal to its
   * id: a half-dangling edge still counts at its valid end, a self-loop counts
   * twice, and values that are not node ids get no count.
   */
  lemma {:induction false} EndpointScanDegree(edges: seq<Json>, nodeSet: set<Key>, k: Key)
    requires EndpointScan(edges, nodeSet).Ok?
    ensures Count(EndpointScan(edges, nodeSet).value.degree, k) == if k in nodeSet then Endpoints(edges, k) else 0
  {
    if edges != [] {
      var prefix, e := edges[..|edges| - 1], edges[|edges| - 1];
      EndpointScanDegree(prefix, nodeSet, k);
      var (s, t) := ReadEndpoints(e).value;
      CountForCount(EndpointScan(prefix, nodeSet).value.degree, s, t, nodeSet, k);
    }
  }

  /** One more edge adds one to k for each endpoint equal to k, when k is a node id. */
  lemma CountForCount(degree: map<Key, nat>, s: Key, t: Key, nodeSet: set<Key>, k: Key)
    ensures Count(CountFor(degree, s, t, nodeSet), k) ==
      Count(degree, k) + (if s == k && k in nodeSet then 1 else 0) + (if t == k && k in nodeSet then 1 else 0)
  {
  }

  /** Every dangling endpoint of every edge is recorded with the edge's id. */
  lemma {:induction false} EndpointScanRecords(edges: seq<Json>, nodeSet: set<Key>, i: nat)
    requires EndpointScan(edges, nodeSet).Ok? && i < |edges|
    ensures ReadEndpoints(edges[i]).Ok?
    ensures var (s, t) := ReadEndpoints(edges[i]).value;
      var e, missing := edges[i], EndpointScan(edges, nodeSet).value.missing;
      (s !in nodeSet ==> Missing("source", Get(e.fields, "source", JNull), Get(e.fields, "id", JNull)) in missing) &&
      (t !in nodeSet ==> Missing("target", Get(e.fields, "target", JNull), Get(e.fields, "id", JNull)) in missing)
  {
    var prefix := edges[..|edges| - 1];
    if i < |prefix| {
      assert prefix[i] == edges[i];
      EndpointScanRecords(prefix, nodeSet, i);
    }
  }

  /** Every record names a dangling endpoint of some edge, and that edge's id. */
  lemma {:induction false} EndpointScanRecordSound(edges: seq<Json>, nodeSet: set<Key>, m: Missing)
    requires EndpointScan(edges, nodeSet).Ok? && m in EndpointScan(edges, nodeSet).value.missing
    ensures m.side == "source" || m.side == "target"
    ensures HashKey(m.value).Some? && HashKey(m.value).value !in nodeSet
    ensures exists i ::
      0 <= i < |edges| && edges[i].JObj? &&
      Get(edges[i].fields, m.side, JNull) == m.value && Get(edges[i].fields, "id", JNull) == m.edgeId
  {
    var prefix, e := edges[..|edges| - 1], edges[|edges| - 1];
    if m in EndpointScan(prefix, nodeSet).value.missing {
      EndpointScanRecordSound(prefix, nodeSet, m);
      var i :| 0 <= i < |prefix| && prefix[i].JObj? &&
        Get(prefix[i].fields, m.side, JNull) == m.value && Get(prefix[i].fields, "id", JNull) == m.edgeId;
      assert edges[i] == prefix[i];
    } else {
      assert m in MissingFor(e, nodeSet);
      assert edges[|edges| - 1] == e;
    }
  }

  // ---------------------------------------------------------------------------
  // The size rule (lines 56-67)

  datatype SizeError = SizeError(id: Json, centrality: Json, size: Json, expected: Float)

  datatype SizeTally = SizeTally(errors: seq<SizeError>, centrality: map<Key, Json>)

  /** What the loop over nodes may assume: the earlier lines already read every id. */
  predicate NodesReady(nodes: seq<Json>) {
    forall i :: 0 <= i < |nodes| ==> nodes[i].JObj? && HashKey(Get(nodes[i].fields, "id", JNull)).Some?
  }

  function NodeKey(n: Json): Key
    requires n.JObj? && HashKey(Get(n.fields, "id", JNull)).Some?
  {
    HashKey(Get(n.fields, "id", JNull)).value
  }

  /** `n.get("centrality", 0)` */
  function CentralityOf(n: Json): Json
    requires n.JObj?
  {
    Get(n.fields, "centrality", JInt(0))
  }

  /** `c * 6 + 10` for a number c. */
  function Expected(c: Float): (r: Float)
    ensures c.Finite? ==> r == Finite(6.0 * c.r + 10.0)
    ensures !c.Finite? ==> r == c
  {
    match c
    case Finite(x) => Finite(x * 6.0 + 10.0)
    case _ => c
  }

  /**
   * One node's size check: `visual` must be a dict when present
   * (AttributeError), the centrality a number (TypeError); the node is
   * reported when its size is not equal to the expected one.
   */
  function SizeStep(n: Json): Result<Option<SizeError>, PyError>
    requires n.JObj?
  {
    match Nested(n.fields, "visual", "size", JNull)
    case Err(err) => Err(err)
    case Ok(size) =>
      var c := CentralityOf(n);
      if NumValue(c).None? then Err(TypeError)
      else
        var expected := Expected(NumValue(c).value);
        if NumEquals(size, expected) then Ok(None)
        else Ok(Some(SizeError(Get(n.fields, "id", JNull), c, size, expected)))
  }

  /** The size loop's state after the given nodes, or the exception it raised. */
  function SizeScan(nodes: seq<Json>): Result<SizeTally, PyError>
    requires NodesReady(nodes)
  {
    if nodes == [] then Ok(SizeTally([], map[]))
    else
      var n := nodes[|nodes| - 1];
      match SizeScan(nodes[..|nodes| - 1])
      case Err(err) => Err(err)
      case Ok(tally) =>
        var centrality := tally.centrality[NodeKey(n) := CentralityOf(n)];
        match SizeStep(n)
        case Err(err) => Err(err)
        case Ok(None) => Ok(SizeTally(tally.errors, centrality))
        case Ok(Some(x)) => Ok(SizeTally(tally.errors + [x], centrality))
  }

  lemma {:induction false} SizeScanErrSticks(nodes: seq<Json>, i: nat)
    requires NodesReady(nodes)
    requires i <= |nodes| && SizeScan(nodes[..i]).Err?
    ensures SizeScan(nodes) == SizeScan(nodes[..i])
  {
    if i < |nodes| {
      var prefix := nodes[..|nodes| - 1];
      assert prefix[..i] == nodes[..i];
      SizeScanErrSticks(prefix, i);
    } else {
      assert nodes[..i] == nodes;
    }
  }

  /** The size loop (lines 60-67). */
  method CheckSizes(nodes: seq<Json>) returns (r: Result<SizeTally, PyError>)
    requires NodesReady(nodes)
    ensures r == SizeScan(nodes)
  {
    var errors: seq<SizeError> := [];
    var centrality: map<Key, Json> := map[];
    var i := 0;
    while i < |nodes|
      invariant i <= |nodes|
      invariant SizeScan(nodes[..i]) == Ok(SizeTally(errors, centrality))
    {
      var n := nodes[i];
      SizeScanNext(nodes, i);
      var id := Get(n.fields, "id", JNull);
      var c := Get(n.fields, "centrality", JInt(0));
      centrality := centrality[HashKey(id).value := c];
      var visual := Get(n.fields, "visual", JObj(map[]));
      if !visual.JObj? {
        r := Err(AttributeError);
        SizeScanErrSticks(nodes, i + 1);
        return;
      }
      var size := Get(visual.fields, "size", JNull);
      if NumValue(c).None? {
        r := Err(TypeError);
        SizeScanErrSticks(nodes, i + 1);
        return;
      }
      var expected := Expected(NumValue(c).value);
      if !NumEquals(size, expected) {
        errors := errors + [SizeError(id, c, size, expected)];
      }
      i := i + 1;
    }
    assert nodes[..i] == nodes;
    r := Ok(SizeTally(errors, centrality));
  }

  /** One more node of the size loop. */
  lemma SizeScanNext(nodes: seq<Json>, i: nat)
    requires NodesReady(nodes) && i < |nodes|
    ensures NodesReady(nodes[..i]) && NodesReady(nodes[..i + 1])
    ensures SizeScan(nodes[..i + 1]) ==
      match SizeScan(nodes[..i])
      case Err(err) => Err(err)
      case Ok(tally) =>
        var centrality := tally.centrality[NodeKey(nodes[i]) := CentralityOf(nodes[i])];
        match SizeStep(nodes[i])
        case Err(err) => Err(err)
        case Ok(None) => Ok(SizeTally(tally.errors, centrality))
        case Ok(Some(x)) => Ok(SizeTally(tally.errors + [x], centrality))
  {
    assert nodes[..i + 1][..i] == nodes[..i];
  }

  /** Python's `size != c * 6 + 10` for a node whose centrality is a number. */
  predicate BreaksSizeRule(n: Json)
    requires n.JObj? && NumValue(CentralityOf(n)).Some? && Nested(n.fields, "visual", "size", JNull).Ok?
  {
    !NumEquals(Nested(n.fields, "visual", "size", JNull).value, Expected(NumValue(CentralityOf(n)).value))
  }

  /**
   * The size loop succeeds exactly when every node's `visual` is a dict (or
   * absent) and every centrality is a number.
   */
  lemma {:induction false} SizeScanFails(nodes: seq<Json>)
    requires NodesReady(nodes)
    ensures SizeScan(nodes).Ok? <==> forall i :: 0 <= i < |nodes| ==>
      Nested(nodes[i].fields, "visual", "size", JNull).Ok? && NumValue(CentralityOf(nodes[i])).Some?
  {
    if nodes != [] {
      var prefix := nodes[..|nodes| - 1];
      assert forall i :: 0 <= i < |prefix| ==> prefix[i] == nodes[i];
      SizeScanFails(prefix);
    }
  }

  /** A node is reported exactly when it breaks `size = centrality*6 + 10`. */
  lemma {:induction false} SizeScanReports(nodes: seq<Json>, i: nat)
    requires NodesReady(nodes) && SizeScan(nodes).Ok? && i < |nodes|
    ensures SizeStep(nodes[i]).Ok?
    ensures NumValue(CentralityOf(nodes[i])).Some? && Nested(nodes[i].fields, "visual", "size", JNull).Ok?
    ensures BreaksSizeRule(nodes[i]) <==>
      SizeStep(nodes[i]).value.Some? && SizeStep(nodes[i]).value.value in SizeScan(nodes).value.errors
  {
    var prefix := nodes[..|nodes| - 1];
    if i < |prefix| {
      assert prefix[i] == nodes[i];
      SizeScanReports(prefix, i);
    }
  }

  /**
   * The centrality map holds a number under every node id, and under each id
   * the centrality of the last node carrying it.
   */
  lemma {:induction false} SizeScanCentrality(nodes: seq<Json>)
    requires NodesReady(nodes) && SizeScan(nodes).Ok?
    ensures forall k :: k in SizeScan(nodes).value.centrality ==> NumValue(SizeScan(nodes).value.centrality[k]).Some?
    ensures forall i :: 0 <= i < |nodes| ==> NodeKey(nodes[i]) in SizeScan(nodes).value.centrality
  {
    if nodes != [] {
      var prefix := nodes[..|nodes| - 1];
      assert forall i :: 0 <= i < |prefix| ==> prefix[i] == nodes[i];
      SizeScanCentrality(prefix);
    }
  }

  lemma {:induction false} SizeScanLastWins(nodes: seq<Json>, i: nat)
    requires NodesReady(nodes) && SizeScan(nodes).Ok? && i < |nodes|
    requires forall j :: i < j < |nodes| ==> NodeKey(nodes[j]) != NodeKey(nodes[i])
    ensures NodeKey(nodes[i]) in SizeScan(nodes).value.centrality
    ensures SizeScan(nodes).value.centrality[NodeKey(nodes[i])] == CentralityOf(nodes[i])
  {
    var prefix := nodes[..|nodes| - 1];
    if i < |prefix| {
      assert prefix[i] == nodes[i];
      assert forall j :: i < j < |prefix| ==> prefix[j] == nodes[j];
      SizeScanLastWins(prefix, i);
    }
  }

  /** A graph that follows the size rule everywhere yields no size errors. */
  lemma SizeRuleKept(nodes: seq<Json>)
    requires NodesReady(nodes)
    requires forall i :: 0 <= i < |nodes| ==>
      var n := nodes[i];
      NumValue(CentralityOf(n)).Some? && Nested(n.fields, "visual", "size", JNull).Ok? && !BreaksSizeRule(n)
    ensures SizeScan(nodes).Ok? && SizeScan(nodes).value.errors == []
  {
    SizeScanFails(nodes);
    if SizeScan(nodes).value.errors != [] {
      var x := SizeScan(nodes).value.errors[0];
      SizeErrorHasNode(nodes, x);
    }
  }

  /** Every reported size error comes from some node that breaks the rule. */
  lemma {:induction false} SizeErrorHasNode(nodes: seq<Json>, x: SizeError)
    requires NodesReady(nodes) && SizeScan(nodes).Ok? && x in SizeScan(nodes).value.errors
    ensures exists i :: 0 <= i < |nodes| && SizeStep(nodes[i]) == Ok(Some(x))
  {
    var prefix, n := nodes[..|nodes| - 1], nodes[|nodes| - 1];
    assert forall i :: 0 <= i < |prefix| ==> prefix[i] == nodes[i];
    if x in SizeScan(prefix).value.errors {
      SizeErrorHasNode(prefix, x);
    } else {
      assert SizeStep(nodes[|nodes| - 1]) == Ok(Some(x));
    }
  }

  // ---------------------------------------------------------------------------
  // Degree against centrality (lines 78-101)

  const DiffThreshold: real := 5.0
  const RatioHigh: real := 2.0
  const RatioLow: real := 0.5

  datatype Row = Row(id: Json, degree: nat, centrality: Float, diff: Float, ratio: Float, flags: seq<string>)

  /** `d - c` */
  function Diff(d: nat, c: Float): Float {
    match c
    case Finite(x) => Finite(d as real - x)
    case PosInf => NegInf
    case NegInf => PosInf
    case NaN => NaN
  }

  /** `d / c` when c is not zero, else inf when d > 0 and 1.0 otherwise. */
  function Ratio(d: nat, c: Float): Float {
    match c
    case Finite(x) => if x != 0.0 then Finite(d as real / x) else if d > 0 then PosInf else Finite(1.0)
    case PosInf => Finite(0.0)
    case NegInf => Finite(0.0)
    case NaN => NaN
  }

  function Abs(f: Float): Float {
    match f
    case Finite(x) => Finite(if x < 0.0 then -x else x)
    case NegInf => PosInf
    case _ => f
  }

  /** `f >= x` */
  predicate AtLeast(f: Float, x: real) {
    (f.Finite? && f.r >= x) || f.PosInf?
  }

  /** `f <= x` */
  predicate AtMost(f: Float, x: real) {
    (f.Finite? && f.r <= x) || f.NegInf?
  }

  predicate IsZero(c: Float) {
    c == Finite(0.0)
  }

  /** The flags of one row, in the order the script appends them. */
  function Flags(d: nat, c: Float): seq<string> {
    var ratio := Ratio(d, c);
    (if AtLeast(Abs(Diff(d, c)), DiffThreshold) then ["DIFF_BIG"] else []) +
    (if !IsZero(c) && (AtLeast(ratio, RatioHigh) || AtMost(ratio, RatioLow)) then ["RATIO_ODD"] else []) +
    (if IsZero(c) && d > 0 then ["CENTRALITY_ZERO_BUT_HAS_EDGES"] else [])
  }

  function RowFor(id: Json, d: nat, c: Float): Row {
    Row(id, d, c, Diff(d, c), Ratio(d, c), Flags(d, c))
  }

  /** `centrality_map.get(nid, 0)` as a number. */
  function CentralityAt(centrality: map<Key, Json>, k: Key): Float
    requires forall x :: x in centrality ==> NumValue(centrality[x]).Some?
  {
    if k in centrality then NumValue(centrality[k]).value else Finite(0.0)
  }

  predicate RowsReady(ids: seq<Json>, centrality: map<Key, Json>) {
    (forall i :: 0 <= i < |ids| ==> HashKey(ids[i]).Some?) &&
    (forall x :: x in centrality ==> NumValue(centrality[x]).Some?)
  }

  /** The rows the loop at lines 86-98 appends, one per node id, in node order. */
  function Rows(ids: seq<Json>, degree: map<Key, nat>, centrality: map<Key, Json>): (rows: seq<Row>)
    requires RowsReady(ids, centrality)
    ensures |rows| == |ids|
  {
    if ids == [] then []
    else
      var id := ids[|ids| - 1];
      var k := HashKey(id).value;
      Rows(ids[..|ids| - 1], degree, centrality) + [RowFor(id, Count(degree, k), CentralityAt(centrality, k))]
  }

  /** The row loop (lines 86-98). */
  method BuildRows(ids: seq<Json>, degree: map<Key, nat>, centrality: map<Key, Json>) returns (rows: seq<Row>)
    requires RowsReady(ids, centrality)
    ensures rows == Rows(ids, degree, centrality)
  {
    rows := [];
    var i := 0;
    while i < |ids|
      invariant i <= |ids|
      invariant rows == Rows(ids[..i], degree, centrality)
    {
      RowsStep(ids, degree, centrality, i);
      var nid := ids[i];
      var k := HashKey(nid).value;
      var d := Count(degree, k);
      var c := CentralityAt(centrality, k);
      rows := rows + [Row(nid, d, c, Diff(d, c), Ratio(d, c), Flags(d, c))];
      i := i + 1;
    }
    assert ids[..i] == ids;
  }

  /** The rows of one more id are the rows so far and that id's row. */
  lemma RowsStep(ids: seq<Json>, degree: map<Key, nat>, centrality: map<Key, Json>, i: nat)
    requires RowsReady(ids, centrality) && i < |ids|
    ensures RowsReady(ids[..i], centrality) && RowsReady(ids[..i + 1], centrality)
    ensures var k := HashKey(ids[i]).value;
      Rows(ids[..i + 1], degree, centrality) ==
        Rows(ids[..i], degree, centrality) + [RowFor(ids[i], Count(degree, k), CentralityAt(centrality, k))]
  {
    var next := ids[..i + 1];
    assert next[..i] == ids[..i] && next[i] == ids[i];
    assert |next| - 1 == i;
  }

  /** DIFF_BIG is raised exactly when |degree - centrality| >= 5 (always for an infinite centrality). */
  lemma DiffBigMeaning(d: nat, c: Float)
    ensures "DIFF_BIG" in Flags(d, c) <==>
      (c.Finite? && (d as real - c.r >= 5.0 || c.r - d as real >= 5.0)) || c.PosInf? || c.NegInf?
  {
  }

  /**
   * RATIO_ODD, stated without division: for a positive centrality c it is
   * raised exactly when d >= 2c or 2d <= c; a negative or infinite centrality
   * always raises it; a zero or NaN centrality never does.
   */
  lemma RatioOddMeaning(d: nat, c: Float)
    ensures c.Finite? && c.r > 0.0 ==> ("RATIO_ODD" in Flags(d, c) <==> d as real >= 2.0 * c.r || 2.0 * d as real <= c.r)
    ensures c.Finite? && c.r < 0.0 ==> "RATIO_ODD" in Flags(d, c)
    ensures c.PosInf? || c.NegInf? ==> "RATIO_ODD" in Flags(d, c)
    ensures IsZero(c) || c.NaN? ==> "RATIO_ODD" !in Flags(d, c)
  {
    if c.Finite? && c.r != 0.0 {
      var x, q := c.r, d as real / c.r;
      assert q * x == d as real;
      if x > 0.0 {
        QuotientBounds(d as real, x);
      } else {
        ScaleBy(q, 0.0, -x);
        assert q * -x == -(d as real);
        assert AtMost(Ratio(d, c), RatioLow);
      }
    }
  }

  /** For a positive divisor, comparing the quotient with 2 and 1/2 is comparing without division. */
  lemma QuotientBounds(d: real, x: real)
    requires x > 0.0
    ensures d / x >= 2.0 <==> d >= 2.0 * x
    ensures d / x <= 0.5 <==> 2.0 * d <= x
  {
    var q := d / x;
    assert q * x == d;
    ScaleBy(q, 2.0, x);
    ScaleBy(q, 0.5, x);
    assert q * x >= 2.0 * x <==> d >= 2.0 * x;
    assert q * x <= 0.5 * x <==> 2.0 * d <= x;
  }

  /** Multiplying by a positive number keeps the order. */
  lemma ScaleBy(q: real, b: real, x: real)
    requires x > 0.0
    ensures q >= b <==> q * x >= b * x
    ensures q <= b <==> q * x <= b * x
  {
    if q > b {
      assert (q - b) * x > 0.0;
    } else if q < b {
      assert (b - q) * x > 0.0;
    }
  }

  /** CENTRALITY_ZERO_BUT_HAS_EDGES is raised exactly when c = 0 and d > 0. */
  lemma ZeroCentralityMeaning(d: nat, c: Float)
    ensures "CENTRALITY_ZERO_BUT_HAS_EDGES" in Flags(d, c) <==> IsZero(c) && d > 0
  {
  }

  /** A node whose centrality equals its degree gets diff 0 and no flag. */
  lemma ConsistentRowUnflagged(id: Json, d: nat)
    ensures var row := RowFor(id, d, Finite(d as real));
      row.diff == Finite(0.0) && row.flags == []
  {
    if d > 0 {
      assert (d as real) / (d as real) == 1.0;
    }
  }

  /** The sort key of the report: `abs(diff)`. */
  function RowKey(row: Row): SortKey {
    Num(Abs(row.diff))
  }

  // ---------------------------------------------------------------------------
  // Relation types and their colours (lines 109-117, 176-181)

  datatype TypeTally = TypeTally(order: seq<Key>, counter: map<Key, nat>, colors: map<Key, set<Key>>)

  /**
   * One edge's relation type and colour: `relation` and `visual` must be dicts
   * when present (AttributeError), and both values hashable (TypeError).
   */
  function TypeStep(e: Json): Result<(Key, Key), PyError> {
    if !e.JObj? then Err(AttributeError)
    else
      var rType, color := Nested(e.fields, "relation", "type", JStr("UNKNOWN")), Nested(e.fields, "visual", "color", JStr("#999999"));
      if rType.Err? || color.Err? then Err(AttributeError)
      else if HashKey(rType.value).None? || HashKey(color.value).None? then Err(TypeError)
      else Ok((HashKey(rType.value).value, HashKey(color.value).value))
  }

  function ColorsOf(colors: map<Key, set<Key>>, t: Key): set<Key> {
    if t in colors then colors[t] else {}
  }

  /** The tallies after one more edge of type t and colour c. */
  function Tally(tally: TypeTally, t: Key, c: Key): TypeTally {
    TypeTally(if t in tally.counter then tally.order else tally.order + [t],
              Bump(tally.counter, t),
              tally.colors[t := ColorsOf(tally.colors, t) + {c}])
  }

  /** The tallies after the given edges, or the exception the loop raised. */
  function TypeScan(edges: seq<Json>): Result<TypeTally, PyError> {
    if edges == [] then Ok(TypeTally([], map[], map[]))
    else
      var before, step := TypeScan(edges[..|edges| - 1]), TypeStep(edges[|edges| - 1]);
      if before.Err? then before
      else if step.Err? then Err(step.error)
      else Ok(Tally(before.value, step.value.0, step.value.1))
  }

  lemma {:induction false} TypeScanErrSticks(edges: seq<Json>, i: nat)
    requires i <= |edges| && TypeScan(edges[..i]).Err?
    ensures TypeScan(edges) == TypeScan(edges[..i])
  {
    if i < |edges| {
      var prefix := edges[..|edges| - 1];
      assert prefix[..i] == edges[..i];
      TypeScanErrSticks(prefix, i);
    } else {
      assert edges[..i] == edges;
    }
  }

  /** The tally loop (lines 112-116); `order` is the Counter's key order. */
  method CountTypes(edges: seq<Json>) returns (r: Result<TypeTally, PyError>)
    ensures r == TypeScan(edges)
  {
    var order: seq<Key> := [];
    var counter: map<Key, nat> := map[];
    var colors: map<Key, set<Key>> := map[];
    var i := 0;
    while i < |edges|
      invariant i <= |edges|
      invariant TypeScan(edges[..i]) == Ok(TypeTally(order, counter, colors))
    {
      assert edges[..i + 1][..i] == edges[..i];
      var step := TypeStep(edges[i]);
      if step.Err? {
        r := Err(step.error);
        TypeScanErrSticks(edges, i + 1);
        return;
      }
      var (t, color) := step.value;
      if t !in counter {
        order := order + [t];
      }
      counter := Bump(counter, t);
      colors := colors[t := ColorsOf(colors, t) + {color}];
      i := i + 1;
    }
    assert edges[..i] == edges;
    r := Ok(TypeTally(order, counter, colors));
  }

  /** The type of edge i, once the tally loop has read it. */
  function TypeAt(edges: seq<Json>, i: nat): Key
    requires i < |edges| && TypeStep(edges[i]).Ok?
  {
    TypeStep(edges[i]).value.0
  }

  /** The colour of edge i, once the tally loop has read it. */
  function ColorAt(edges: seq<Json>, i: nat): Key
    requires i < |edges| && TypeStep(edges[i]).Ok?
  {
    TypeStep(edges[i]).value.1
  }

  /** How many of the edges have relation type t. */
  function TypeCount(edges: seq<Json>, t: Key): nat {
    if edges == [] then 0
    else
      var e := edges[|edges| - 1];
      TypeCount(edges[..|edges| - 1], t) + (if TypeStep(e).Ok? && TypeStep(e).value.0 == t then 1 else 0)
  }

  /**
   * The tally loop fails exactly when some edge's relation or visual is not a
   * dict, or its type or colour is unhashable.
   */
  lemma TypeScanFails(edges: seq<Json>)
    ensures TypeScan(edges).Ok? <==> forall i :: 0 <= i < |edges| ==> TypeStep(edges[i]).Ok?
  {
    if TypeScan(edges).Ok? {
      forall i | 0 <= i < |edges| ensures TypeStep(edges[i]).Ok? {
        TypeScanStepOk(edges, i);
      }
    } else {
      TypeScanErrAt(edges);
    }
  }

  /** A tally loop that succeeds read every edge. */
  lemma TypeScanStepOk(edges: seq<Json>, i: nat)
    requires TypeScan(edges).Ok? && i < |edges|
    ensures TypeStep(edges[i]).Ok?
  {
    TypeScanPrefixOk(edges, i + 1);
    var upto := edges[..i + 1];
    assert upto[..i] == edges[..i] && upto[i] == edges[i] && |upto| - 1 == i;
  }

  /** A tally loop that succeeds succeeded on every prefix. */
  lemma {:induction false} TypeScanPrefixOk(edges: seq<Json>, n: nat)
    requires TypeScan(edges).Ok? && n <= |edges|
    ensures TypeScan(edges[..n]).Ok?
  {
    if n < |edges| {
      var prefix := edges[..|edges| - 1];
      assert TypeScan(prefix).Ok?;
      TypeScanPrefixOk(prefix, n);
      assert prefix[..n] == edges[..n];
    } else {
      assert edges[..n] == edges;
    }
  }

  lemma {:induction false} TypeScanErrAt(edges: seq<Json>)
    requires TypeScan(edges).Err?
    ensures exists i :: 0 <= i < |edges| && TypeStep(edges[i]).Err?
  {
    var prefix := edges[..|edges| - 1];
    if TypeScan(prefix).Err? {
      TypeScanErrAt(prefix);
      var i :| 0 <= i < |prefix| && TypeStep(prefix[i]).Err?;
      assert prefix[i] == edges[i];
    } else {
      assert TypeStep(edges[|edges| - 1]).Err?;
    }
  }

  /**
   * Each type is listed once, and the listed types are exactly the counted
   * ones and exactly the ones with a colour set.
   */
  lemma {:induction false} TypeScanKeys(edges: seq<Json>)
    requires TypeScan(edges).Ok?
    ensures var tally := TypeScan(edges).value;
      (forall a, b :: 0 <= a < b < |tally.order| ==> tally.order[a] != tally.order[b]) &&
      (forall t :: t in tally.order <==> t in tally.counter) &&
      (forall t :: t in tally.counter <==> t in tally.colors)
  {
    if edges != [] {
      var prefix := edges[..|edges| - 1];
      TypeScanKeys(prefix);
      var step := TypeStep(edges[|edges| - 1]).value;
      TallyKeys(TypeScan(prefix).value, step.0, step.1);
    }
  }

  /** Whether the tally loop reads edge e as one of relation type t. */
  predicate OfType(e: Json, t: Key) {
    TypeStep(e).Ok? && TypeStep(e).value.0 == t
  }

  /** The position of the first edge of relation type t, or |edges| when none has it. */
  function FirstOfType(edges: seq<Json>, t: Key): (r: nat)
    ensures r <= |edges|
    ensures r < |edges| ==> OfType(edges[r], t)
    ensures forall i :: 0 <= i < r ==> !OfType(edges[i], t)
  {
    if edges == [] then 0
    else
      var before := FirstOfType(edges[..|edges| - 1], t);
      if before < |edges| - 1 then before
      else if OfType(edges[|edges| - 1], t) then |edges| - 1
      else |edges|
  }

  /**
   * The Counter's key order is first-seen order: it lists exactly the types
   * some edge has, each before every type whose first edge comes later.
   */
  lemma {:induction false} TypeScanFirstSeen(edges: seq<Json>)
    requires TypeScan(edges).Ok?
    ensures FirstSeen(edges, TypeScan(edges).value.order)
  {
    if edges != [] {
      var prefix, last := edges[..|edges| - 1], |edges| - 1;
      var before := TypeScan(prefix).value;
      TypeScanFirstSeen(prefix);
      TypeScanKeys(prefix);
      var t := TypeStep(edges[last]).value.0;
      assert TypeScan(edges).value.order == if t in before.order then before.order else before.order + [t];
      FirstSeenExtend(edges, before.order, t);
    }
  }

  /**
   * order lists exactly the types some edge has, each before every type
   * whose first edge comes later.
   */
  ghost predicate FirstSeen(edges: seq<Json>, order: seq<Key>) {
    (forall t :: t in order <==> FirstOfType(edges, t) < |edges|) &&
    (forall a, b :: 0 <= a < b < |order| ==> FirstOfType(edges, order[a]) < FirstOfType(edges, order[b]))
  }

  /** Reading one more edge, of type t, appends t to a first-seen order unless it is listed. */
  lemma FirstSeenExtend(edges: seq<Json>, order: seq<Key>, t: Key)
    requires edges != [] && OfType(edges[|edges| - 1], t) && FirstSeen(edges[..|edges| - 1], order)
    ensures FirstSeen(edges, if t in order then order else order + [t])
  {
    var prefix := edges[..|edges| - 1];
    forall u
      ensures FirstOfType(edges, u) ==
        if FirstOfType(prefix, u) < |prefix| then FirstOfType(prefix, u) else if u == t then |prefix| else |edges|
    {
    }
  }

  ghost predicate TallyKeysAgree(tally: TypeTally) {
    (forall a, b :: 0 <= a < b < |tally.order| ==> tally.order[a] != tally.order[b]) &&
    (forall t :: t in tally.order <==> t in tally.counter) &&
    (forall t :: t in tally.counter <==> t in tally.colors)
  }

  /** One more edge keeps the type list, the counter and the colour sets keyed alike. */
  lemma TallyKeys(tally: TypeTally, t: Key, c: Key)
    requires TallyKeysAgree(tally)
    ensures TallyKeysAgree(Tally(tally, t, c))
  {
  }

  /** The counter holds the number of edges of each type. */
  lemma {:induction false} TypeScanCounts(edges: seq<Json>, t: Key)
    requires TypeScan(edges).Ok?
    ensures Count(TypeScan(edges).value.counter, t) == TypeCount(edges, t)
  {
    if edges != [] {
      TypeScanCounts(edges[..|edges| - 1], t);
    }
  }

  /** Every edge's colour is in its type's colour set. */
  lemma {:induction false} TypeScanColorAt(edges: seq<Json>, i: nat)
    requires TypeScan(edges).Ok? && i < |edges|
    ensures TypeStep(edges[i]).Ok?
    ensures ColorAt(edges, i) in ColorsOf(TypeScan(edges).value.colors, TypeAt(edges, i))
  {
    var prefix, last := edges[..|edges| - 1], |edges| - 1;
    TypeScanStepOk(edges, i);
    var before, step := TypeScan(prefix).value, TypeStep(edges[last]).value;
    TallyColors(before, step.0, step.1, TypeAt(edges, i));
    if i < last {
      assert prefix[i] == edges[i];
      TypeScanColorAt(prefix, i);
    } else {
      assert i == last;
    }
  }

  /** One more edge only adds colours, and adds its own to its type's set. */
  lemma TallyColors(tally: TypeTally, t: Key, c: Key, u: Key)
    ensures ColorsOf(tally.colors, u) <= ColorsOf(Tally(tally, t, c).colors, u)
    ensures c in ColorsOf(Tally(tally, t, c).colors, t)
  {
  }

  /** Every colour in a type's colour set is carried by some edge of that type. */
  lemma {:induction false} TypeScanColorFrom(edges: seq<Json>, t: Key, c: Key)
    requires TypeScan(edges).Ok? && c in ColorsOf(TypeScan(edges).value.colors, t)
    ensures exists i :: 0 <= i < |edges| && TypeStep(edges[i]) == Ok((t, c))
  {
    var prefix := edges[..|edges| - 1];
    if c in ColorsOf(TypeScan(prefix).value.colors, t) {
      TypeScanColorFrom(prefix, t, c);
      var i :| 0 <= i < |prefix| && TypeStep(prefix[i]) == Ok((t, c));
      assert prefix[i] == edges[i];
    } else {
      assert TypeStep(edges[|edges| - 1]) == Ok((t, c));
    }
  }

  /** `[t for t in type_counter if len(type_colors[t]) > 1]`, in the Counter's key order. */
  function MixedTypes(order: seq<Key>, colors: map<Key, set<Key>>): seq<Key> {
    if order == [] then []
    else
      var t := order[|order| - 1];
      MixedTypes(order[..|order| - 1], colors) + (if |ColorsOf(colors, t)| > 1 then [t] else [])
  }

  lemma {:induction false} MixedTypesMembers(order: seq<Key>, colors: map<Key, set<Key>>, t: Key)
    ensures t in MixedTypes(order, colors) <==> t in order && |ColorsOf(colors, t)| > 1
  {
    if order != [] {
      var prefix := order[..|order| - 1];
      MixedTypesMembers(prefix, colors, t);
      assert order == prefix + [order[|order| - 1]];
    }
  }

  /** A set with more than one element holds two different ones. */
  lemma TwoMembers(s: set<Key>)
    ensures |s| > 1 <==> exists a, b :: a in s && b in s && a != b
  {
    if exists a, b :: a in s && b in s && a != b {
      var a, b :| a in s && b in s && a != b;
      assert b in s - {a};
      assert |s - {a}| == |s| - 1;
    }
    if |s| > 1 {
      var a :| a in s;
      assert |s - {a}| > 0;
      var b :| b in s - {a};
    }
  }

  /**
   * A relation type is reported as mixed exactly when two of its edges carry
   * different colours (a missing type counting as "UNKNOWN" and a missing
   * colour as "#999999").
   */
  lemma MixedMeaning(edges: seq<Json>, t: Key)
    requires TypeScan(edges).Ok?
    ensures forall i :: 0 <= i < |edges| ==> TypeStep(edges[i]).Ok?
    ensures var tally := TypeScan(edges).value;
      t in MixedTypes(tally.order, tally.colors) <==>
      exists i, j :: 0 <= i < |edges| && 0 <= j < |edges| &&
        TypeAt(edges, i) == t && TypeAt(edges, j) == t && ColorAt(edges, i) != ColorAt(edges, j)
  {
    var tally := TypeScan(edges).value;
    TypeScanFails(edges);
    TypeScanKeys(edges);
    MixedTypesMembers(tally.order, tally.colors, t);
    var colors := ColorsOf(tally.colors, t);
    TwoMembers(colors);
    if exists i, j :: 0 <= i < |edges| && 0 <= j < |edges| &&
        TypeAt(edges, i) == t && TypeAt(edges, j) == t && ColorAt(edges, i) != ColorAt(edges, j) {
      var i, j :| 0 <= i < |edges| && 0 <= j < |edges| &&
        TypeAt(edges, i) == t && TypeAt(edges, j) == t && ColorAt(edges, i) != ColorAt(edges, j);
      TypeScanColorAt(edges, i);
      TypeScanColorAt(edges, j);
    }
    if t in MixedTypes(tally.order, tally.colors) {
      var a, b :| a in colors && b in colors && a != b;
      TypeScanColorFrom(edges, t, a);
      TypeScanColorFrom(edges, t, b);
      var i :| 0 <= i < |edges| && TypeStep(edges[i]) == Ok((t, a));
      var j :| 0 <= j < |edges| && TypeStep(edges[j]) == Ok((t, b));
      assert TypeAt(edges, i) == t && TypeAt(edges, j) == t && ColorAt(edges, i) != ColorAt(edges, j);
    }
  }

  // ---------------------------------------------------------------------------
  // The weight report (lines 183-202)

  datatype Weighted = Weighted(weight: Json, source: Json, target: Json, relationType: Json, id: Json)

  /** The entry of an edge that has a top-level weight; its relation is a dict or absent. */
  function WeightedFor(e: Json): Weighted
    requires e.JObj? && "weight" in e.fields && Nested(e.fields, "relation", "type", JStr("UNKNOWN")).Ok?
  {
    Weighted(e.fields["weight"], Get(e.fields, "source", JStr("UNKNOWN")), Get(e.fields, "target", JStr("UNKNOWN")),
             Nested(e.fields, "relation", "type", JStr("UNKNOWN")).value, Get(e.fields, "id", JStr("")))
  }

  /** What the weight loop may assume: the tally loop already read every edge's relation. */
  predicate WeightReady(e: Json) {
    e.JObj? && Nested(e.fields, "relation", "type", JStr("UNKNOWN")).Ok?
  }

  /** The entries of the edges that have a weight, in edge order. */
  function WeightedOf(edges: seq<Json>): seq<Weighted>
    requires forall i :: 0 <= i < |edges| ==> WeightReady(edges[i])
  {
    if edges == [] then []
    else
      var e := edges[|edges| - 1];
      assert WeightReady(edges[|edges| - 1]);
      WeightedOf(edges[..|edges| - 1]) + (if "weight" in e.fields then [WeightedFor(e)] else [])
  }

  /** The collecting loop (lines 187-197). */
  method CollectWeighted(edges: seq<Json>) returns (weighted: seq<Weighted>)
    requires forall i :: 0 <= i < |edges| ==> WeightReady(edges[i])
    ensures weighted == WeightedOf(edges)
  {
    weighted := [];
    var i := 0;
    while i < |edges|
      invariant i <= |edges|
      invariant weighted == WeightedOf(edges[..i])
    {
      assert edges[..i + 1][..i] == edges[..i];
      var e := edges[i];
      if "weight" in e.fields {
        var w := e.fields["weight"];
        var s := Get(e.fields, "source", JStr("UNKNOWN"));
        var t := Get(e.fields, "target", JStr("UNKNOWN"));
        var rType := Get(Get(e.fields, "relation", JObj(map[])).fields, "type", JStr("UNKNOWN"));
        var id := Get(e.fields, "id", JStr(""));
        weighted := weighted + [Weighted(w, s, t, rType, id)];
      }
      i := i + 1;
    }
    assert edges[..i] == edges;
  }

  /** The report holds exactly the edges that carry a top-level weight. */
  lemma {:induction false} WeightedOfMeaning(edges: seq<Json>, x: Weighted)
    requires forall i :: 0 <= i < |edges| ==> WeightReady(edges[i])
    ensures x in WeightedOf(edges) <==>
      exists i :: 0 <= i < |edges| && "weight" in edges[i].fields && x == WeightedFor(edges[i])
  {
    if edges != [] {
      var prefix, last := edges[..|edges| - 1], |edges| - 1;
      var e := edges[last];
      var added := if "weight" in e.fields then [WeightedFor(e)] else [];
      assert forall i :: 0 <= i < |prefix| ==> prefix[i] == edges[i];
      assert WeightedOf(edges) == WeightedOf(prefix) + added;
      WeightedOfMeaning(prefix, x);
      if x in WeightedOf(prefix) {
        var i :| 0 <= i < |prefix| && "weight" in prefix[i].fields && x == WeightedFor(prefix[i]);
        assert edges[i] == prefix[i];
      }
      if exists i :: 0 <= i < |edges| && "weight" in edges[i].fields && x == WeightedFor(edges[i]) {
        var i :| 0 <= i < |edges| && "weight" in edges[i].fields && x == WeightedFor(edges[i]);
        if i < last {
          assert "weight" in prefix[i].fields && x == WeightedFor(prefix[i]);
        } else {
          assert i == last;
        }
      }
    }
  }

  /** The sort key of a weight: numbers by value, strings by code points. */
  function WeightKey(w: Weighted): SortKey {
    match w.weight
    case JStr(s) => Text(s)
    case _ => if NumValue(w.weight).Some? then Num(NumValue(w.weight).value) else Num(NaN)
  }

  /** Python can order the weights: all numbers, or all strings. */
  predicate Comparable(ws: seq<Weighted>) {
    (forall i :: 0 <= i < |ws| ==> NumValue(ws[i].weight).Some?) ||
    (forall i :: 0 <= i < |ws| ==> ws[i].weight.JStr?)
  }

  /**
   * `weighted_edges.sort(key=lambda x: x[0], reverse=True)`: with two or more
   * entries every entry is compared, and comparing a number with a string, or
   * None, a list or a dict with anything, raises TypeError.
   */
  function SortWeights(ws: seq<Weighted>): (r: Result<seq<Weighted>, PyError>)
    ensures r.Err? ==> r.error == TypeError && |ws| >= 2
    ensures Comparable(ws) ==> r.Ok?
    ensures r.Ok? ==> SortedDesc(r.value, WeightKey) && multiset(r.value) == multiset(ws)
  {
    if |ws| >= 2 && !Comparable(ws) then Err(TypeError) else Ok(Sort(ws, WeightKey))
  }

  /**
   * The weight report is in descending weight order, holds every collected
   * entry, and keeps entries of equal weight in edge order.
   */
  lemma WeightReportSorted(ws: seq<Weighted>)
    requires SortWeights(ws).Ok?
    ensures var sorted := SortWeights(ws).value;
      SortedDesc(sorted, WeightKey) && multiset(sorted) == multiset(ws) &&
      (forall k :: WithKey(sorted, WeightKey, k) == WithKey(ws, WeightKey, k))
  {
    SortStable(ws, WeightKey);
  }

  /** With numeric weights the report order is plain descending numeric order. */
  lemma NumericWeightsDescend(ws: seq<Weighted>)
    requires forall i :: 0 <= i < |ws| ==> NumValue(ws[i].weight).Some?
    ensures SortWeights(ws).Ok?
    ensures var sorted := SortWeights(ws).value;
      forall i, j :: 0 <= i < j < |sorted| ==>
        NumValue(sorted[i].weight).Some? && NumValue(sorted[j].weight).Some? &&
        !FloatLess(NumValue(sorted[i].weight).value, NumValue(sorted[j].weight).value)
  {
    SortStable(ws, WeightKey);
    var sorted := SortWeights(ws).value;
    forall i | 0 <= i < |sorted| ensures NumValue(sorted[i].weight).Some? {
      assert sorted[i] in multiset(ws);
      var m :| 0 <= m < |ws| && ws[m] == sorted[i];
    }
  }

  // ---------------------------------------------------------------------------
  // The printing the checks rely on (lines 51-52, 103-105)

  /** `f"{name:25s}"` for every key of the degree counter: only strings format with `s`. */
  predicate DegreePrintable(degree: map<Key, nat>) {
    forall k :: k in degree ==> k.KStr?
  }

  /**
   * `f"{nid:25s} ... {c:6d} ... {diff:6d}"` for every row: the id must be a
   * string, and the centrality an int or a bool (a float centrality makes both
   * c and diff floats, which do not format with `d`).
   */
  predicate RowsPrintable(ids: seq<Json>, centrality: map<Key, Json>)
    requires RowsReady(ids, centrality)
  {
    forall i :: 0 <= i < |ids| ==>
      var k := HashKey(ids[i]).value;
      ids[i].JStr? && (k in centrality ==> centrality[k].JInt? || centrality[k].JBool?)
  }

  /**
   * `f"{w:<5}"` for every entry of the weight report: None, a list or a dict
   * has no format specification at all, so only numbers and strings print.
   */
  predicate WeightsPrintable(ws: seq<Weighted>) {
    forall i :: 0 <= i < |ws| ==> NumValue(ws[i].weight).Some? || ws[i].weight.JStr?
  }

  // ---------------------------------------------------------------------------
  // The whole script

  datatype Report = Report(
    countMatches: bool,
    missing: seq<Missing>,
    degree: map<Key, nat>,
    sizeErrors: seq<SizeError>,
    rows: seq<Row>,
    types: TypeTally,
    mixed: seq<Key>,
    weighted: seq<Weighted>)

  /** What the script computes for a graph, or the exception that ends it. */
  function CheckGraph(data: map<string, Json>): (r: Result<Report, PyError>)
    ensures r.Ok? ==> AsList(Get(data, "nodes", JArr([]))).Ok? && AsList(Get(data, "edges", JArr([]))).Ok?
    ensures r.Ok? ==> DegreePrintable(r.value.degree) && WeightsPrintable(r.value.weighted)
    ensures r.Ok? ==> SortedDesc(r.value.weighted, WeightKey)
  {
    match AsList(Get(data, "nodes", JArr([])))
    case Err(err) => Err(err)
    case Ok(nodes) =>
      match NodeIds(nodes)
      case Err(err) => Err(err)
      case Ok(ids) =>
        match KeySet(ids)
        case Err(err) => Err(err)
        case Ok(nodeSet) =>
          match AsList(Get(data, "edges", JArr([])))
          case Err(err) => Err(err)
          case Ok(edges) =>
            CheckGraphFrom(nodes, ids, nodeSet, edges, CountMatches(Get(data, "total_characters", JNull), |nodes|))
  }

  /** The script from the endpoint loop on, once nodes and edges are lists and the ids are read. */
  function CheckGraphFrom(nodes: seq<Json>, ids: seq<Json>, nodeSet: set<Key>, edges: seq<Json>, countMatches: bool): (r: Result<Report, PyError>)
    requires NodeIds(nodes) == Ok(ids) && KeySet(ids).Ok?
    ensures r.Ok? ==> DegreePrintable(r.value.degree) && WeightsPrintable(r.value.weighted)
    ensures r.Ok? ==> SortedDesc(r.value.weighted, WeightKey)
  {
    assert NodesReady(nodes) by {
      forall i | 0 <= i < |nodes| ensures nodes[i].JObj? && HashKey(Get(nodes[i].fields, "id", JNull)).Some? {
        assert ids[i] == Get(nodes[i].fields, "id", JNull);
      }
    }
    match EndpointScan(edges, nodeSet)
    case Err(err) => Err(err)
    case Ok(scan) =>
      if !DegreePrintable(scan.degree) then Err(FormatError)
      else
      match SizeScan(nodes)
      case Err(err) => Err(err)
      case Ok(sizes) =>
        SizeScanCentrality(nodes);
        var rows := Rows(ids, scan.degree, sizes.centrality);
        if !RowsPrintable(ids, sizes.centrality) then Err(FormatError)
        else
        match TypeScan(edges)
        case Err(err) => Err(err)
        case Ok(types) =>
          TypeScanFails(edges);
          match SortWeights(WeightedOf(edges))
          case Err(err) => Err(err)
          case Ok(weighted) =>
            if !WeightsPrintable(weighted) then Err(FormatError)
            else
            Ok(Report(countMatches, scan.missing, scan.degree, sizes.errors, Sort(rows, RowKey),
                      types, MixedTypes(types.order, types.colors), weighted))
  }

  /** The script (lines 13-106, 109-117, 176-205), without its plotting; of its printing, only the formats that can raise. */
  method Check(data: map<string, Json>) returns (r: Result<Report, PyError>)
    ensures r == CheckGraph(data)
  {
    var nodesValue := Get(data, "nodes", JArr([]));
    var edgesValue := Get(data, "edges", JArr([]));
    var declared := Get(data, "total_characters", JNull);
    var nodesList := AsList(nodesValue);
    if nodesList.Err? {
      return Err(nodesList.error);
    }
    var nodes := nodesList.value;
    var idsResult := NodeIds(nodes);
    if idsResult.Err? {
      return Err(idsResult.error);
    }
    var ids := idsResult.value;
    var nodeSetResult := KeySet(ids);
    if nodeSetResult.Err? {
      return Err(nodeSetResult.error);
    }
    var nodeSet := nodeSetResult.value;
    assert NodesReady(nodes) by {
      forall i | 0 <= i < |nodes| ensures nodes[i].JObj? && HashKey(Get(nodes[i].fields, "id", JNull)).Some? {
        assert ids[i] == Get(nodes[i].fields, "id", JNull);
      }
    }
    var matches := CountMatches(declared, |nodes|);
    var edgesList := AsList(edgesValue);
    if edgesList.Err? {
      return Err(edgesList.error);
    }
    var edges := edgesList.value;

    var scan := ScanEndpoints(edges, nodeSet);
    if scan.Err? {
      return Err(scan.error);
    }
    if !DegreePrintable(scan.value.degree) {
      return Err(FormatError);
    }
    var sizes := CheckSizes(nodes);
    if sizes.Err? {
      return Err(sizes.error);
    }
    SizeScanCentrality(nodes);
    var rows := BuildRows(ids, scan.value.degree, sizes.value.centrality);
    var sortedRows := Sort(rows, RowKey);
    if !RowsPrintable(ids, sizes.value.centrality) {
      return Err(FormatError);
    }

    var types := CountTypes(edges);
    if types.Err? {
      return Err(types.error);
    }
    TypeScanFails(edges);
    var mixed := MixedTypes(types.value.order, types.value.colors);

    var weighted := CollectWeighted(edges);
    var sortedWeights := SortWeights(weighted);
    if sortedWeights.Err? {
      return Err(sortedWeights.error);
    }
    if !WeightsPrintable(sortedWeights.value) {
      return Err(FormatError);
    }
    r := Ok(Report(matches, scan.value.missing, scan.value.degree, sizes.value.errors, sortedRows,
                   types.value, mixed, sortedWeights.value));
  }

  /**
   * Rows of nodes whose centrality equals their degree have diff 0 and no
   * flag, before and after the sort.
   */
  lemma RowsClean(ids: seq<Json>, degree: map<Key, nat>, centrality: map<Key, Json>)
    requires RowsReady(ids, centrality)
    requires forall i :: 0 <= i < |ids| ==>
      CentralityAt(centrality, HashKey(ids[i]).value) == Finite(Count(degree, HashKey(ids[i]).value) as real)
    ensures forall row :: row in Sort(Rows(ids, degree, centrality), RowKey) ==> row.diff == Finite(0.0) && row.flags == []
  {
    var rows := Rows(ids, degree, centrality);
    SortMembers(rows, RowKey);
    forall row | row in Sort(rows, RowKey) ensures row.diff == Finite(0.0) && row.flags == [] {
      var i :| 0 <= i < |rows| && rows[i] == row;
      RowClean(ids, degree, centrality, i);
    }
  }

  lemma RowClean(ids: seq<Json>, degree: map<Key, nat>, centrality: map<Key, Json>, i: nat)
    requires RowsReady(ids, centrality) && i < |ids|
    requires CentralityAt(centrality, HashKey(ids[i]).value) == Finite(Count(degree, HashKey(ids[i]).value) as real)
    ensures |Rows(ids, degree, centrality)| == |ids|
    ensures Rows(ids, degree, centrality)[i].diff == Finite(0.0) && Rows(ids, degree, centrality)[i].flags == []
  {
    RowsAt(ids, degree, centrality, i);
    ConsistentRowUnflagged(ids[i], Count(degree, HashKey(ids[i]).value));
  }

  lemma {:induction false} RowsAt(ids: seq<Json>, degree: map<Key, nat>, centrality: map<Key, Json>, i: nat)
    requires RowsReady(ids, centrality) && i < |ids|
    ensures |Rows(ids, degree, centrality)| == |ids|
    ensures var k := HashKey(ids[i]).value;
      Rows(ids, degree, centrality)[i] == RowFor(ids[i], Count(degree, k), CentralityAt(centrality, k))
  {
    var prefix, last := ids[..|ids| - 1], |ids| - 1;
    assert RowsReady(prefix, centrality) by {
      assert forall j :: 0 <= j < |prefix| ==> prefix[j] == ids[j];
    }
    var k := HashKey(ids[last]).value;
    assert Rows(ids, degree, centrality) ==
      Rows(prefix, degree, centrality) + [RowFor(ids[last], Count(degree, k), CentralityAt(centrality, k))];
    if i < last {
      RowsAt(prefix, degree, centrality, i);
      assert prefix[i] == ids[i];
    } else {
      assert i == last;
    }
  }

  /**
   * The report has one row per node, ordered by |degree - centrality| from
   * largest to smallest.
   */
  lemma ReportRowsSorted(data: map<string, Json>)
    requires CheckGraph(data).Ok?
    ensures AsList(Get(data, "nodes", JArr([]))).Ok?
    ensures |CheckGraph(data).value.rows| == |AsList(Get(data, "nodes", JArr([]))).value|
    ensures SortedDesc(CheckGraph(data).value.rows, RowKey)
  {
    var nodes := AsList(Get(data, "nodes", JArr([]))).value;
    var ids := NodeIds(nodes).value;
    var edges := AsList(Get(data, "edges", JArr([]))).value;
    var nodeSet := KeySet(ids).value;
    var report := CheckGraphFrom(nodes, ids, nodeSet, edges, CountMatches(Get(data, "total_characters", JNull), |nodes|)).value;
    assert NodesReady(nodes) by {
      forall i | 0 <= i < |nodes| ensures nodes[i].JObj? && HashKey(Get(nodes[i].fields, "id", JNull)).Some? {
        assert ids[i] == Get(nodes[i].fields, "id", JNull);
      }
    }
    SizeScanCentrality(nodes);
    var rows := Rows(ids, EndpointScan(edges, nodeSet).value.degree, SizeScan(nodes).value.centrality);
    assert report.rows == Sort(rows, RowKey);
    SortedRows(rows);
  }

  /** Sorting the rows orders them and keeps their number. */
  lemma SortedRows(rows: seq<Row>)
    ensures SortedDesc(Sort(rows, RowKey), RowKey) && |Sort(rows, RowKey)| == |rows|
  {
    SortStable(rows, RowKey);
    assert |Sort(rows, RowKey)| == |multiset(Sort(rows, RowKey))| == |multiset(rows)| == |rows|;
  }
  /**
   * A single edge whose weight is null passes every earlier check and the
   * one-entry sort, and stops the script when its weight is printed.
   */
  lemma NullWeightFails()
    ensures CheckGraph(map["nodes" := JArr([]), "edges" := JArr([JObj(map["weight" := JNull])])]) == Err(FormatError)
  {
    var e := JObj(map["weight" := JNull]);
    var data := map["nodes" := JArr([]), "edges" := JArr([e])];
    assert AsList(Get(data, "nodes", JArr([]))) == Ok([]);
    assert AsList(Get(data, "edges", JArr([]))) == Ok([e]);
    assert NodeIds([]) == Ok([]);
    NullWeightFailsFrom(KeySet([]).value, CountMatches(Get(data, "total_characters", JNull), 0));
  }

  lemma NullWeightFailsFrom(nodeSet: set<Key>, countMatches: bool)
    requires KeySet([]) == Ok(nodeSet)
    ensures CheckGraphFrom([], [], nodeSet, [JObj(map["weight" := JNull])], countMatches) == Err(FormatError)
  {
    var e := JObj(map["weight" := JNull]);
    NullEdgeScans(e, nodeSet);
    assert SizeScan([]) == Ok(SizeTally([], map[]));
    NullEdgeWeight(e);
  }

  lemma NullEdgeScans(e: Json, nodeSet: set<Key>)
    requires e == JObj(map["weight" := JNull]) && KeySet([]) == Ok(nodeSet)
    ensures EndpointScan([e], nodeSet).Ok? && EndpointScan([e], nodeSet).value.degree == map[]
    ensures TypeScan([e]).Ok?
  {
    assert [e][..0] == [];
    assert ReadEndpoints(e) == Ok((KNone, KNone));
    assert KNone !in nodeSet;
    assert EndpointScan([e][..0], nodeSet) == Ok(Scan([], map[]));
    assert EndpointScan([e], nodeSet).value.degree == CountFor(map[], KNone, KNone, nodeSet);
    assert TypeStep(e) == Ok((KStr("UNKNOWN"), KStr("#999999")));
  }

  lemma NullEdgeWeight(e: Json)
    requires e == JObj(map["weight" := JNull])
    ensures WeightReady(e)
    ensures var ws := WeightedOf([e]); SortWeights(ws).Ok? && !WeightsPrintable(SortWeights(ws).value)
  {
    assert [e][..0] == [];
    assert WeightedOf([e]) == [WeightedFor(e)];
    var w := WeightedFor(e);
    assert [w][..0] == [];
    assert Sort([w], WeightKey) == [w];
  }


}
