/**
 * The chapter filter of the 3-D story graph (the `data` memo of both
 * GraphViewer.jsx components), and the unpinning of the visible nodes when
 * the camera is reset. A node is visible once the story reaches its chapter;
 * an edge is visible unless it belongs to a later chapter, and only between
 * two visible nodes.
 */
module ChapterFilter {
  import opened Wrappers
  import opened Json
  import opened JsValue

  /** `Array.prototype.filter` with a callback that may throw: the kept elements in order, or the first throw. */
  function Filter<T>(s: seq<T>, test: T -> Result<bool, JsError>): (r: Result<seq<T>, JsError>)
    ensures r.Ok? ==> |r.value| <= |s|
  {
    if s == [] then Ok([])
    else
      var front := Filter(s[..|s| - 1], test);
      var t := test(s[|s| - 1]);
      if front.Err? then front
      else if t.Err? then Err(t.error)
      else if t.value then Ok(front.value + [s[|s| - 1]])
      else front
  }

  /** The filter throws exactly when the callback throws on some element. */
  lemma {:induction false} FilterFails<T>(s: seq<T>, test: T -> Result<bool, JsError>)
    ensures Filter(s, test).Err? <==> exists i :: 0 <= i < |s| && test(s[i]).Err?
  {
    if s != [] {
      var front := s[..|s| - 1];
      FilterFails(front, test);
      if exists i :: 0 <= i < |s| && test(s[i]).Err? {
        var i :| 0 <= i < |s| && test(s[i]).Err?;
        if i < |front| {
          assert front[i] == s[i];
        }
      } else {
        forall i | 0 <= i < |front| ensures test(front[i]).Ok? {
          assert front[i] == s[i];
        }
      }
    }
  }

  /** The filter keeps exactly the elements the callback accepts, unchanged. */
  lemma {:induction false} FilterMembers<T>(s: seq<T>, test: T -> Result<bool, JsError>, x: T)
    requires Filter(s, test).Ok?
    ensures x in Filter(s, test).value <==> x in s && test(x) == Ok(true)
  {
    if s != [] {
      var front := s[..|s| - 1];
      FilterMembers(front, test, x);
      assert s == front + [s[|s| - 1]];
    }
  }

  /** The elements the callback accepts, read front to back as `filter` visits them. */
  function Accepted<T>(s: seq<T>, test: T -> Result<bool, JsError>): seq<T> {
    if s == [] then []
    else (if test(s[0]) == Ok(true) then [s[0]] else []) + Accepted(s[1..], test)
  }

  lemma {:induction false} AcceptedAppend<T>(s: seq<T>, x: T, test: T -> Result<bool, JsError>)
    ensures Accepted(s + [x], test) == Accepted(s, test) + (if test(x) == Ok(true) then [x] else [])
  {
    if s == [] {
      assert [x][1..] == [];
    } else {
      var head, tail := if test(s[0]) == Ok(true) then [s[0]] else [], if test(x) == Ok(true) then [x] else [];
      assert (s + [x])[0] == s[0] && (s + [x])[1..] == s[1..] + [x];
      calc {
        Accepted(s + [x], test);
        head + Accepted(s[1..] + [x], test);
        { AcceptedAppend(s[1..], x, test); }
        head + (Accepted(s[1..], test) + tail);
        (head + Accepted(s[1..], test)) + tail;
      }
    }
  }

  /**
   * When the filter does not throw, it returns the accepted elements in
   * their input order, each as often as it occurs.
   */
  lemma {:induction false} FilterIsAccepted<T>(s: seq<T>, test: T -> Result<bool, JsError>)
    requires Filter(s, test).Ok?
    ensures Filter(s, test).value == Accepted(s, test)
  {
    if s != [] {
      var front := s[..|s| - 1];
      FilterIsAccepted(front, test);
      AcceptedAppend(front, s[|s| - 1], test);
      assert front + [s[|s| - 1]] == s;
    }
  }

  /** Each accepted value occurs in the result as often as in the input; a rejected one not at all. */
  lemma {:induction false} FilterCounts<T>(s: seq<T>, test: T -> Result<bool, JsError>, x: T)
    requires Filter(s, test).Ok?
    ensures multiset(Filter(s, test).value)[x] == if test(x) == Ok(true) then multiset(s)[x] else 0
  {
    if s != [] {
      var front := s[..|s| - 1];
      FilterCounts(front, test, x);
      assert s == front + [s[|s| - 1]];
    }
  }

  /**
   * Filtering with a test that accepts less (and throws no more) gives the
   * result of filtering the first result again: a subsequence, in order.
   */
  lemma {:induction false} FilterAgain<T>(s: seq<T>, narrow: T -> Result<bool, JsError>, wide: T -> Result<bool, JsError>)
    requires Filter(s, wide).Ok?
    requires forall x :: x in s && wide(x).Ok? ==> narrow(x).Ok? && (narrow(x).value ==> wide(x).value)
    ensures Filter(s, narrow).Ok?
    ensures Filter(s, narrow) == Filter(Filter(s, wide).value, narrow)
  {
    if s != [] {
      var front, x := s[..|s| - 1], s[|s| - 1];
      assert forall y :: y in front ==> y in s;
      FilterAgain(front, narrow, wide);
      var w := Filter(front, wide).value;
      if wide(x).value {
        assert (w + [x])[..|w + [x]| - 1] == w;
      }
    }
  }

  /** The chapter a node or edge belongs to, as `<=` and `>` convert it to a number. */
  function ChapterOf(v: Json): Float {
    JsNumber(Prop(v, "chapter"))
  }

  /** `node.chapter <= chapter`; reading a property of a null node throws. */
  function NodeTest(chapter: Float): (test: Json -> Result<bool, JsError>)
    ensures forall n :: test(n).Err? <==> n.JNull?
    ensures forall n :: test(n) == Ok(true) <==> !n.JNull? && NumAtMost(ChapterOf(n), chapter)
  {
    (n: Json) => if n.JNull? then Err(TypeError) else Ok(NumAtMost(ChapterOf(n), chapter))
  }

  /** `x.id || x` for an edge endpoint, which throws when the endpoint is null or missing. */
  function EndpointId(v: JsVal): (r: Result<JsVal, JsError>)
    ensures r.Err? <==> Nullish(v)
    ensures r.Ok? && JsTruthy(Prop(v.value, "id")) ==> r.value == Prop(v.value, "id")
    ensures r.Ok? && !JsTruthy(Prop(v.value, "id")) ==> r.value == v
  {
    if Nullish(v) then Err(TypeError) else Ok(Or(Prop(v.value, "id"), v))
  }

  /** The set of visible node ids, compared as `Set.prototype.has` does. */
  function IdsOf(nodes: seq<Json>): (ids: set<SetKey>)
    ensures forall n :: n in nodes ==> KeyOf(Prop(n, "id")) in ids
    ensures forall k :: k in ids ==> exists n :: n in nodes && KeyOf(Prop(n, "id")) == k
  {
    set n | n in nodes :: KeyOf(Prop(n, "id"))
  }

  /**
   * The edge callback: false for an edge of a later chapter; otherwise both
   * endpoint ids must be visible node ids. A null edge or a null or missing
   * endpoint of an edge that is not later throws.
   */
  function EdgeTest(chapter: Float, ids: set<SetKey>): (test: Json -> Result<bool, JsError>)
    ensures forall e: Json :: !e.JNull? && NumLess(chapter, ChapterOf(e)) ==> test(e) == Ok(false)
  {
    (e: Json) =>
      if e.JNull? then Err(TypeError)
      else if NumLess(chapter, ChapterOf(e)) then Ok(false)
      else
        var source := EndpointId(Prop(e, "source"));
        if source.Err? then Err(source.error)
        else
          var target := EndpointId(Prop(e, "target"));
          if target.Err? then Err(target.error)
          else Ok(KeyOf(source.value) in ids && KeyOf(target.value) in ids)
  }

  /** What the 3-D graph is given: the visible nodes and links. */
  datatype Scene = Scene(nodes: seq<Json>, links: seq<Json>)

  /** The `data` memo over the imported node and edge arrays. */
  function Visible(nodes: seq<Json>, edges: seq<Json>, chapter: Float): (r: Result<Scene, JsError>)
    ensures r.Ok? ==> Filter(nodes, NodeTest(chapter)).Ok?
    ensures r.Ok? ==> r.value.nodes == Filter(nodes, NodeTest(chapter)).value
    ensures r.Ok? ==> Filter(edges, EdgeTest(chapter, IdsOf(r.value.nodes))) == Ok(r.value.links)
  {
    var shown := Filter(nodes, NodeTest(chapter));
    if shown.Err? then Err(shown.error)
    else
      var links := Filter(edges, EdgeTest(chapter, IdsOf(shown.value)));
      if links.Err? then Err(links.error)
      else Ok(Scene(shown.value, links.value))
  }

  /** The memo on the imported data object: `DATA.nodes` and `DATA.edges` must be arrays, or `.filter` throws. */
  function FilterData(data: Json, chapter: Float): (r: Result<Scene, JsError>)
    ensures r.Ok? ==> Prop(data, "nodes").Some? && Prop(data, "nodes").value.JArr?
    ensures r.Ok? ==> Prop(data, "edges").Some? && Prop(data, "edges").value.JArr?
  {
    var nodes, edges := Prop(data, "nodes"), Prop(data, "edges");
    if nodes.None? || !nodes.value.JArr? then Err(TypeError)
    else
      var shown := Filter(nodes.value.items, NodeTest(chapter));
      if shown.Err? then Err(shown.error)
      else if edges.None? || !edges.value.JArr? then Err(TypeError)
      else Visible(nodes.value.items, edges.value.items, chapter)
  }

  /** The visible nodes are exactly the data nodes whose chapter is at most the current one, unchanged. */
  lemma VisibleNodes(nodes: seq<Json>, edges: seq<Json>, chapter: Float, n: Json)
    requires Visible(nodes, edges, chapter).Ok?
    ensures n in Visible(nodes, edges, chapter).value.nodes <==> n in nodes && !n.JNull? && NumAtMost(ChapterOf(n), chapter)
  {
    FilterMembers(nodes, NodeTest(chapter), n);
  }

  /** A visible node has a chapter, so it is an object. */
  lemma VisibleNodesAreObjects(nodes: seq<Json>, edges: seq<Json>, chapter: Float, n: Json)
    requires Visible(nodes, edges, chapter).Ok? && n in Visible(nodes, edges, chapter).value.nodes
    ensures n.JObj? && "chapter" in n.fields
  {
    VisibleNodes(nodes, edges, chapter, n);
  }

  /**
   * The visible links are exactly the data edges that are not of a later
   * chapter and whose endpoint ids (`.id` when truthy, else the endpoint
   * itself) are both ids of visible nodes.
   */
  lemma VisibleLinks(nodes: seq<Json>, edges: seq<Json>, chapter: Float, e: Json)
    requires Visible(nodes, edges, chapter).Ok?
    ensures var scene := Visible(nodes, edges, chapter).value;
            e in scene.links <==>
              e in edges && !e.JNull? && !NumLess(chapter, ChapterOf(e)) &&
              EndpointId(Prop(e, "source")).Ok? && EndpointId(Prop(e, "target")).Ok? &&
              KeyOf(EndpointId(Prop(e, "source")).value) in IdsOf(scene.nodes) &&
              KeyOf(EndpointId(Prop(e, "target")).value) in IdsOf(scene.nodes)
  {
    var scene := Visible(nodes, edges, chapter).value;
    FilterMembers(edges, EdgeTest(chapter, IdsOf(scene.nodes)), e);
  }

  /** An edge of a later chapter is never visible. */
  lemma LaterEdgeHidden(nodes: seq<Json>, edges: seq<Json>, chapter: Float, e: Json)
    requires Visible(nodes, edges, chapter).Ok?
    requires NumLess(chapter, ChapterOf(e))
    ensures e !in Visible(nodes, edges, chapter).value.links
  {
    VisibleLinks(nodes, edges, chapter, e);
  }

  /** An edge is visible only when both of its endpoint ids are ids of visible nodes. */
  lemma VisibleLinkJoinsVisibleNodes(nodes: seq<Json>, edges: seq<Json>, chapter: Float, e: Json)
    requires Visible(nodes, edges, chapter).Ok?
    requires e in Visible(nodes, edges, chapter).value.links
    ensures var shown := Visible(nodes, edges, chapter).value.nodes;
            EndpointId(Prop(e, "source")).Ok? && EndpointId(Prop(e, "target")).Ok? &&
            (exists n :: n in shown && KeyOf(Prop(n, "id")) == KeyOf(EndpointId(Prop(e, "source")).value)) &&
            (exists n :: n in shown && KeyOf(Prop(n, "id")) == KeyOf(EndpointId(Prop(e, "target")).value))
  {
    VisibleLinks(nodes, edges, chapter, e);
  }

  /**
   * Moving to a later chapter never hides anything: the scene of an earlier
   * chapter is the later scene filtered again, so its nodes and links are
   * subsequences of the later ones, in the same order. (A memo that throws at
   * the later chapter may still succeed at an earlier one; one that succeeds
   * at the later chapter succeeds at every earlier one.)
   */
  lemma Monotone(nodes: seq<Json>, edges: seq<Json>, c1: Float, c2: Float)
    requires NumAtMost(c1, c2)
    requires Visible(nodes, edges, c2).Ok?
    ensures Visible(nodes, edges, c1).Ok?
    ensures var early, late := Visible(nodes, edges, c1).value, Visible(nodes, edges, c2).value;
            Filter(late.nodes, NodeTest(c1)) == Ok(early.nodes) &&
            Filter(late.links, EdgeTest(c1, IdsOf(early.nodes))) == Ok(early.links)
  {
    var late := Visible(nodes, edges, c2).value;
    forall n | n in nodes && NodeTest(c2)(n).Ok?
      ensures NodeTest(c1)(n).Ok? && (NodeTest(c1)(n).value ==> NodeTest(c2)(n).value)
    {
      if NodeTest(c1)(n).value {
        NumAtMostTransitive(ChapterOf(n), c1, c2);
      }
    }
    FilterAgain(nodes, NodeTest(c1), NodeTest(c2));
    var early := Filter(nodes, NodeTest(c1)).value;
    var ids1, ids2 := IdsOf(early), IdsOf(late.nodes);
    assert ids1 <= ids2 by {
      forall k | k in ids1 ensures k in ids2 {
        var n :| n in early && KeyOf(Prop(n, "id")) == k;
        FilterMembers(nodes, NodeTest(c1), n);
        FilterMembers(nodes, NodeTest(c2), n);
      }
    }
    forall e | e in edges && EdgeTest(c2, ids2)(e).Ok?
      ensures EdgeTest(c1, ids1)(e).Ok? && (EdgeTest(c1, ids1)(e).value ==> EdgeTest(c2, ids2)(e).value)
    {
      if NumLess(c2, ChapterOf(e)) {
        NumLessWeaken(c1, c2, ChapterOf(e));
      }
    }
    FilterAgain(edges, EdgeTest(c1, ids1), EdgeTest(c2, ids2));
  }

  /** The node after unpinning: `fx`, `fy` and `fz` are null and every other property is as it was. */
  function Unpinned(n: Json): (r: Json)
    requires n.JObj?
    ensures r.JObj? && r.fields.Keys == n.fields.Keys + {"fx", "fy", "fz"}
    ensures r.fields["fx"] == JNull && r.fields["fy"] == JNull && r.fields["fz"] == JNull
    ensures forall k :: k in n.fields && k !in {"fx", "fy", "fz"} ==> r.fields[k] == n.fields[k]
  {
    JObj(n.fields["fx" := JNull]["fy" := JNull]["fz" := JNull])
  }

  /** Every data node after the reset: the visible ones unpinned, the others as they were. */
  function UnpinVisible(nodes: seq<Json>, chapter: Float): (r: seq<Json>)
    ensures |r| == |nodes|
  {
    seq(|nodes|, i requires 0 <= i < |nodes| =>
      if NodeTest(chapter)(nodes[i]) == Ok(true) then Unpinned(nodes[i]) else nodes[i])
  }

  /** Unpinning changes neither a node's chapter nor its id, so it changes no visibility. */
  lemma UnpinnedKeeps(n: Json, chapter: Float)
    requires n.JObj?
    ensures ChapterOf(Unpinned(n)) == ChapterOf(n)
    ensures Prop(Unpinned(n), "id") == Prop(n, "id")
    ensures NodeTest(chapter)(Unpinned(n)) == NodeTest(chapter)(n)
  {
  }

  function MapUnpinned(nodes: seq<Json>): (r: seq<Json>)
    requires forall i :: 0 <= i < |nodes| ==> nodes[i].JObj?
    ensures |r| == |nodes| && forall i :: 0 <= i < |nodes| ==> r[i] == Unpinned(nodes[i])
  {
    seq(|nodes|, i requires 0 <= i < |nodes| => Unpinned(nodes[i]))
  }

  /** A node the chapter filter keeps is an object. */
  lemma ShownAreObjects(nodes: seq<Json>, chapter: Float)
    requires Filter(nodes, NodeTest(chapter)).Ok?
    ensures forall i :: 0 <= i < |Filter(nodes, NodeTest(chapter)).value| ==> Filter(nodes, NodeTest(chapter)).value[i].JObj?
  {
    var shown := Filter(nodes, NodeTest(chapter)).value;
    forall i | 0 <= i < |shown| ensures shown[i].JObj? {
      FilterMembers(nodes, NodeTest(chapter), shown[i]);
    }
  }

  /** Filtering the reset nodes gives the previously visible nodes, unpinned, in the same order. */
  lemma {:induction false} FilterUnpinned(nodes: seq<Json>, chapter: Float)
    requires Filter(nodes, NodeTest(chapter)).Ok?
    ensures ShownAreObjectsHold(Filter(nodes, NodeTest(chapter)).value)
    ensures Filter(UnpinVisible(nodes, chapter), NodeTest(chapter)) == Ok(MapUnpinned(Filter(nodes, NodeTest(chapter)).value))
  {
    ShownAreObjects(nodes, chapter);
    if nodes != [] {
      var front, x := nodes[..|nodes| - 1], nodes[|nodes| - 1];
      var u := UnpinVisible(nodes, chapter);
      assert u[..|u| - 1] == UnpinVisible(front, chapter);
      FilterUnpinned(front, chapter);
      var shown := Filter(front, NodeTest(chapter)).value;
      if NodeTest(chapter)(x) == Ok(true) {
        UnpinnedKeeps(x, chapter);
        assert MapUnpinned(shown + [x]) == MapUnpinned(shown) + [Unpinned(x)];
      }
    }
  }

  predicate ShownAreObjectsHold(nodes: seq<Json>) {
    forall i :: 0 <= i < |nodes| ==> nodes[i].JObj?
  }

  /** Unpinned nodes keep their ids, so the visible id set is unchanged. */
  lemma IdsOfUnpinned(nodes: seq<Json>)
    requires ShownAreObjectsHold(nodes)
    ensures IdsOf(MapUnpinned(nodes)) == IdsOf(nodes)
  {
    var m := MapUnpinned(nodes);
    forall k | k in IdsOf(m) ensures k in IdsOf(nodes) {
      var n :| n in m && KeyOf(Prop(n, "id")) == k;
      var i :| 0 <= i < |m| && m[i] == n;
      UnpinnedKeeps(nodes[i], Finite(0.0));
    }
    forall k | k in IdsOf(nodes) ensures k in IdsOf(m) {
      var n :| n in nodes && KeyOf(Prop(n, "id")) == k;
      var i :| 0 <= i < |nodes| && nodes[i] == n;
      UnpinnedKeeps(nodes[i], Finite(0.0));
      assert m[i] in m;
    }
  }

  /**
   * After the reset the memo shows the same nodes, unpinned, and the same
   * links: unpinning moves nothing in or out of view.
   */
  lemma UnpinKeepsScene(nodes: seq<Json>, edges: seq<Json>, chapter: Float)
    requires Visible(nodes, edges, chapter).Ok?
    ensures ShownAreObjectsHold(Visible(nodes, edges, chapter).value.nodes)
    ensures Visible(UnpinVisible(nodes, chapter), edges, chapter) ==
            Ok(Scene(MapUnpinned(Visible(nodes, edges, chapter).value.nodes), Visible(nodes, edges, chapter).value.links))
  {
    FilterUnpinned(nodes, chapter);
    IdsOfUnpinned(Visible(nodes, edges, chapter).value.nodes);
  }

  /**
   * The imported graph data. Its node objects are the ones the memo shows, so
   * the reset's changes to them stay in the data.
   */
  class Story {
    var nodes: seq<Json>
    var edges: seq<Json>

    constructor (nodes: seq<Json>, edges: seq<Json>)
      ensures this.nodes == nodes && this.edges == edges
    {
      this.nodes := nodes;
      this.edges := edges;
    }

    /** The `data` memo for a chapter. */
    function Shown(chapter: Float): Result<Scene, JsError>
      reads this
    {
      Visible(nodes, edges, chapter)
    }

    /**
     * The unpinning in the camera reset, which runs once the memo has been
     * computed: `fx`, `fy` and `fz` of every node the memo shows become null.
     */
    method Unpin(chapter: Float)
      requires Shown(chapter).Ok?
      modifies this
      ensures nodes == UnpinVisible(old(nodes), chapter)
      ensures edges == old(edges)
    {
      var i := 0;
      while i < |nodes|
        invariant i <= |nodes| == |old(nodes)| && edges == old(edges)
        invariant forall k :: 0 <= k < i ==> nodes[k] == UnpinVisible(old(nodes), chapter)[k]
        invariant forall k :: i <= k < |nodes| ==> nodes[k] == old(nodes)[k]
      {
        if NodeTest(chapter)(nodes[i]) == Ok(true) {
          nodes := nodes[i := Unpinned(nodes[i])];
        }
        i := i + 1;
      }
    }
  }
}
