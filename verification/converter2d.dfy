/**
 * The 2-D graph view's conversion of the imported graph data into chart nodes
 * and links (Frontend/src/components/GraphViewer2D.jsx): node ids are
 * extracted and trimmed, missing styles get defaults, and a link is drawn only
 * when both of its extracted endpoints are node ids.
 */
module Converter2D {
  import opened Wrappers
  import opened Json
  import opened Text
  import opened JsValue

  /** What the component shows instead of a chart: its "cannot read data" message, or nothing because it threw. */
  datatype ViewError = NoData | Threw(e: JsError)

  /** The data fields of a chart node; the fixed presentation settings are not modelled. */
  datatype NodeView = NodeView(id: Json, name: Json, displayName: JsVal, symbolSize: Json, color: Json)

  /** The data fields of a chart link. */
  datatype LinkView = LinkView(source: Json, target: Json, labelText: Json, color: Json, width: Json)

  datatype View = View(nodes: seq<NodeView>, links: seq<LinkView>, validCount: nat)

  const NodeSize: Json := JInt(20)
  const NodeColor: Json := JStr("#2f4554")
  const LinkColor: Json := JStr("#999")
  const LinkWidth: Json := JInt(2)
  const NoLabel: Json := JStr("")

  /** The graph object: the module's `default` export when the module and that export are truthy, else the module. */
  function DataObject(raw: Json): (d: Json)
    ensures JsTruthy(Some(d)) <==> JsTruthy(Some(raw))
    ensures JsTruthy(Some(raw)) && JsTruthy(Prop(raw, "default")) ==> Some(d) == Prop(raw, "default")
    ensures !JsTruthy(Prop(raw, "default")) ==> d == raw
  {
    Setting(Some(raw), "default", raw)
  }

  /** `dataObj.nodes || []`. */
  function NodeSource(d: Json): (r: Json)
    ensures JsTruthy(Prop(d, "nodes")) ==> Some(r) == Prop(d, "nodes")
    ensures !JsTruthy(Prop(d, "nodes")) ==> r == JArr([])
  {
    Or(Prop(d, "nodes"), Some(JArr([]))).value
  }

  /** `dataObj.edges || dataObj.links || []`: the edges, else the links, else nothing. */
  function EdgeSource(d: Json): (r: Json)
    ensures JsTruthy(Prop(d, "edges")) ==> Some(r) == Prop(d, "edges")
    ensures !JsTruthy(Prop(d, "edges")) && JsTruthy(Prop(d, "links")) ==> Some(r) == Prop(d, "links")
    ensures !JsTruthy(Prop(d, "edges")) && !JsTruthy(Prop(d, "links")) ==> r == JArr([])
  {
    Or(Or(Prop(d, "edges"), Prop(d, "links")), Some(JArr([]))).value
  }

  /**
   * `extractId`: null for a falsy value; for an object (or array), its truthy
   * `id`, else its truthy `name`, else null; for any other value, its string
   * form without surrounding white space.
   */
  function ExtractId(v: JsVal): (r: Json)
    ensures !JsTruthy(v) ==> r == JNull
    ensures JsTruthy(v) && (v.value.JObj? || v.value.JArr?) ==>
              if JsTruthy(Prop(v.value, "id")) then Some(r) == Prop(v.value, "id")
              else if JsTruthy(Prop(v.value, "name")) then Some(r) == Prop(v.value, "name")
              else r == JNull
    ensures JsTruthy(v) && !v.value.JObj? && !v.value.JArr? ==>
              r.JStr? && (r.s == [] || (!IsJsSpace(r.s[0]) && !IsJsSpace(r.s[|r.s| - 1])))
    ensures JsTruthy(v) && !v.value.JObj? && !v.value.JArr? ==> r == JStr(JsTrim(JsString(v.value)))
  {
    if !JsTruthy(v) then JNull
    else if v.value.JObj? || v.value.JArr? then Or(Or(Prop(v.value, "id"), Prop(v.value, "name")), Some(JNull)).value
    else JStr(JsTrim(JsString(v.value)))
  }

  /** A non-empty string id without surrounding white space is kept as it is. */
  lemma ExtractIdKeepsCleanString(s: string)
    requires s != [] && !IsJsSpace(s[0]) && !IsJsSpace(s[|s| - 1])
    ensures ExtractId(Some(JStr(s))) == JStr(s)
  {
    JsTrimNoop(s);
  }

  /** An id made only of white space becomes the empty string, not null. */
  lemma ExtractIdBlankString(s: string)
    requires s != [] && forall k :: 0 <= k < |s| ==> IsJsSpace(s[k])
    ensures ExtractId(Some(JStr(s))) == JStr("")
  {
    JsTrimAllSpace(s);
  }

  /** A non-zero integer id becomes its decimal string, so 7 and "7" name the same node. */
  lemma ExtractIdInteger(i: int)
    requires i != 0 && -PlainLimit < i < PlainLimit
    ensures ExtractId(Some(JInt(i))) == JStr(IntToString(i))
  {
    IntegerString(i);
    var s := IntToString(i);
    assert s[0] == '-' || IsDigit(s[0]);
    assert IsDigit(s[|s| - 1]);
    JsTrimNoop(s);
  }

  /**
   * Extracting again changes a non-empty string id no more; an empty string id
   * (from a blank one) turns into null.
   */
  lemma ExtractIdAgain(v: JsVal)
    requires JsTruthy(v) && !v.value.JObj? && !v.value.JArr?
    ensures ExtractId(v).s != [] ==> ExtractId(Some(ExtractId(v))) == ExtractId(v)
    ensures ExtractId(v).s == [] ==> ExtractId(Some(ExtractId(v))) == JNull
  {
    var s := ExtractId(v).s;
    if s != [] {
      ExtractIdKeepsCleanString(s);
    }
  }

  /** One chart node for one data node (which must not be null: reading `node.id` would throw). */
  function NodeFor(n: Json): (r: NodeView)
    requires !n.JNull?
    ensures r.id == r.name == ExtractId(Prop(n, "id"))
    ensures r.displayName == Prop(n, "label")
    ensures JsTruthy(Some(r.symbolSize)) && JsTruthy(Some(r.color))
  {
    var id := ExtractId(Prop(n, "id"));
    var visual := Prop(n, "visual");
    NodeView(id, id, Prop(n, "label"), Setting(visual, "size", NodeSize), Setting(visual, "color", NodeColor))
  }

  /** A node's size and colour are its visual settings when truthy, else 20 and "#2f4554". */
  lemma NodeStyle(n: Json)
    requires !n.JNull?
    ensures var v := Prop(n, "visual");
            NodeFor(n).symbolSize == (if JsTruthy(v) && JsTruthy(Prop(v.value, "size")) then Prop(v.value, "size").value else NodeSize)
    ensures var v := Prop(n, "visual");
            NodeFor(n).color == (if JsTruthy(v) && JsTruthy(Prop(v.value, "color")) then Prop(v.value, "color").value else NodeColor)
  {
  }

  /** `originalNodes.map(...)`: throws at the first null node. */
  function Nodes(nodes: seq<Json>): (r: Result<seq<NodeView>, ViewError>)
    ensures r.Ok? <==> forall i :: 0 <= i < |nodes| ==> !nodes[i].JNull?
    ensures r.Err? ==> r.error == Threw(TypeError)
    ensures r.Ok? ==> |r.value| == |nodes|
    ensures r.Ok? ==> forall i :: 0 <= i < |nodes| ==> r.value[i] == NodeFor(nodes[i])
  {
    if nodes == [] then Ok([])
    else
      var front := Nodes(nodes[..|nodes| - 1]);
      if front.Err? then front
      else if nodes[|nodes| - 1].JNull? then Err(Threw(TypeError))
      else Ok(front.value + [NodeFor(nodes[|nodes| - 1])])
  }

  /** `new Set(myNodes.map(n => n.id))`. */
  function IdSet(views: seq<NodeView>): (ids: set<SetKey>)
    ensures forall i :: 0 <= i < |views| ==> KeyOf(Some(views[i].id)) in ids
    ensures forall k :: k in ids ==> exists i :: 0 <= i < |views| && KeyOf(Some(views[i].id)) == k
  {
    set i | 0 <= i < |views| :: KeyOf(Some(views[i].id))
  }

  /** Whether the edge's two extracted endpoints are both node ids. */
  predicate Joins(e: Json, ids: set<SetKey>)
    requires !e.JNull?
  {
    KeyOf(Some(ExtractId(Prop(e, "source")))) in ids && KeyOf(Some(ExtractId(Prop(e, "target")))) in ids
  }

  /** The link drawn for an edge whose endpoints are node ids. */
  function LinkFor(e: Json): (r: LinkView)
    requires !e.JNull?
    ensures r.source == ExtractId(Prop(e, "source")) && r.target == ExtractId(Prop(e, "target"))
    ensures JsTruthy(Some(r.color)) && JsTruthy(Some(r.width))
  {
    var visual := Prop(e, "visual");
    LinkView(ExtractId(Prop(e, "source")), ExtractId(Prop(e, "target")),
             Setting(Prop(e, "relation"), "label", NoLabel),
             Setting(visual, "color", LinkColor), Setting(visual, "weight", LinkWidth))
  }

  /** A link's label, colour and width are the relation label and visual settings when truthy, else "", "#999" and 2. */
  lemma LinkStyle(e: Json)
    requires !e.JNull?
    ensures var rel := Prop(e, "relation");
            LinkFor(e).labelText == (if JsTruthy(rel) && JsTruthy(Prop(rel.value, "label")) then Prop(rel.value, "label").value else NoLabel)
    ensures var v := Prop(e, "visual");
            LinkFor(e).color == (if JsTruthy(v) && JsTruthy(Prop(v.value, "color")) then Prop(v.value, "color").value else LinkColor)
    ensures var v := Prop(e, "visual");
            LinkFor(e).width == (if JsTruthy(v) && JsTruthy(Prop(v.value, "weight")) then Prop(v.value, "weight").value else LinkWidth)
  {
  }

  /**
   * `originalEdges.map(...).filter(link => link !== null)`: the links of the
   * edges that join two node ids, in edge order; throws at the first null edge.
   */
  function Links(edges: seq<Json>, ids: set<SetKey>): (r: Result<seq<LinkView>, ViewError>)
    ensures r.Err? ==> r.error == Threw(TypeError)
    ensures r.Ok? ==> |r.value| <= |edges|
  {
    if edges == [] then Ok([])
    else
      var front := Links(edges[..|edges| - 1], ids);
      var e := edges[|edges| - 1];
      if front.Err? then front
      else if e.JNull? then Err(Threw(TypeError))
      else if Joins(e, ids) then Ok(front.value + [LinkFor(e)])
      else front
  }

  /** A throw on a prefix of the edges is a throw on the whole list. */
  lemma {:induction false} LinksErrSticks(edges: seq<Json>, ids: set<SetKey>, i: nat)
    requires i <= |edges| && Links(edges[..i], ids).Err?
    ensures Links(edges, ids).Err?
    decreases |edges| - i
  {
    if i < |edges| {
      assert edges[..i + 1][..i] == edges[..i];
      LinksErrSticks(edges, ids, i + 1);
    } else {
      assert edges[..i] == edges;
    }
  }

  /** The conversion throws exactly when some edge is null. */
  lemma {:induction false} LinksFail(edges: seq<Json>, ids: set<SetKey>)
    ensures Links(edges, ids).Err? <==> exists i :: 0 <= i < |edges| && edges[i].JNull?
  {
    if edges != [] {
      var front := edges[..|edges| - 1];
      LinksFail(front, ids);
      if exists i :: 0 <= i < |edges| && edges[i].JNull? {
        var i :| 0 <= i < |edges| && edges[i].JNull?;
        if i < |front| {
          assert front[i] == edges[i];
        }
      } else {
        forall i | 0 <= i < |front| ensures !front[i].JNull? {
          assert front[i] == edges[i];
        }
      }
    }
  }

  /** Every link comes from an edge whose endpoints are both node ids. */
  lemma {:induction false} LinksSound(edges: seq<Json>, ids: set<SetKey>, j: nat)
    requires Links(edges, ids).Ok? && j < |Links(edges, ids).value|
    ensures exists i :: 0 <= i < |edges| && !edges[i].JNull? && Joins(edges[i], ids) && Links(edges, ids).value[j] == LinkFor(edges[i])
  {
    var front := edges[..|edges| - 1];
    var e := edges[|edges| - 1];
    if j < |Links(front, ids).value| {
      LinksSound(front, ids, j);
      var i :| 0 <= i < |front| && !front[i].JNull? && Joins(front[i], ids) && Links(front, ids).value[j] == LinkFor(front[i]);
      assert edges[i] == front[i];
    } else {
      assert Links(edges, ids).value[j] == LinkFor(e);
    }
  }

  /** A link's endpoints are node ids. */
  lemma LinkEndpointsAreNodes(edges: seq<Json>, ids: set<SetKey>, j: nat)
    requires Links(edges, ids).Ok? && j < |Links(edges, ids).value|
    ensures KeyOf(Some(Links(edges, ids).value[j].source)) in ids
    ensures KeyOf(Some(Links(edges, ids).value[j].target)) in ids
  {
    LinksSound(edges, ids, j);
  }

  /** The links of a prefix of the edges are a prefix of the links: converting keeps edge order. */
  lemma {:induction false} LinksPrefix(edges: seq<Json>, ids: set<SetKey>, i: nat)
    requires i <= |edges| && Links(edges, ids).Ok?
    ensures Links(edges[..i], ids).Ok?
    ensures Links(edges[..i], ids).value <= Links(edges, ids).value
    decreases |edges| - i
  {
    if Links(edges[..i], ids).Err? {
      LinksErrSticks(edges, ids, i);
    }
    if i < |edges| {
      LinksPrefix(edges, ids, i + 1);
      assert edges[..i + 1][..i] == edges[..i];
    } else {
      assert edges[..i] == edges;
    }
  }

  /**
   * Every edge joining two node ids is drawn, right after the links of the
   * edges before it: the links are exactly the joining edges, in order.
   */
  lemma LinkOfJoiningEdge(edges: seq<Json>, ids: set<SetKey>, i: nat)
    requires Links(edges, ids).Ok? && i < |edges|
    requires !edges[i].JNull? && Joins(edges[i], ids)
    ensures Links(edges[..i], ids).Ok?
    ensures |Links(edges[..i], ids).value| < |Links(edges, ids).value|
    ensures Links(edges, ids).value[|Links(edges[..i], ids).value|] == LinkFor(edges[i])
  {
    LinksPrefix(edges, ids, i + 1);
    LinksPrefix(edges, ids, i);
    assert edges[..i + 1][..i] == edges[..i];
  }

  /**
   * The `myLinks` loop: each edge's endpoints are extracted; when both are node
   * ids, `validCount` goes up and the edge's link is kept.
   */
  method ConvertLinks(edges: seq<Json>, ids: set<SetKey>) returns (r: Result<seq<LinkView>, ViewError>, validCount: nat)
    ensures r == Links(edges, ids)
    ensures r.Ok? ==> validCount == |r.value|
  {
    var links: seq<LinkView> := [];
    validCount := 0;
    var i := 0;
    while i < |edges|
      invariant i <= |edges|
      invariant Links(edges[..i], ids) == Ok(links)
      invariant validCount == |links|
    {
      var e := edges[i];
      assert edges[..i + 1][..i] == edges[..i];
      if e.JNull? {
        LinksErrSticks(edges, ids, i + 1);
        return Err(Threw(TypeError)), validCount;
      }
      var source := ExtractId(Prop(e, "source"));
      var target := ExtractId(Prop(e, "target"));
      if KeyOf(Some(source)) in ids && KeyOf(Some(target)) in ids {
        validCount := validCount + 1;
        links := links + [LinkFor(e)];
      }
      i := i + 1;
    }
    assert edges[..i] == edges;
    r := Ok(links);
  }

  /** The whole conversion, from the imported module to the chart's nodes and links. */
  function Convert(raw: Json): (r: Result<View, ViewError>)
    ensures r == Err(NoData) <==> !JsTruthy(Some(raw))
    ensures r.Ok? ==> NodeSource(DataObject(raw)).JArr? && EdgeSource(DataObject(raw)).JArr?
    ensures r.Ok? ==> r.value.validCount == |r.value.links|
  {
    var d := DataObject(raw);
    if !JsTruthy(Some(d)) then Err(NoData)
    else
      var nodeList, edgeList := NodeSource(d), EdgeSource(d);
      if !nodeList.JArr? then Err(Threw(TypeError))
      else
        var nodes := Nodes(nodeList.items);
        if nodes.Err? then Err(nodes.error)
        else if !edgeList.JArr? then Err(Threw(TypeError))
        else
          var links := Links(edgeList.items, IdSet(nodes.value));
          if links.Err? then Err(links.error)
          else Ok(View(nodes.value, links.value, |links.value|))
  }

  /** The component's data step, with the link loop as written. */
  method Render(raw: Json) returns (r: Result<View, ViewError>)
    ensures r == Convert(raw)
  {
    var d := DataObject(raw);
    if !JsTruthy(Some(d)) {
      return Err(NoData);
    }
    var nodeList, edgeList := NodeSource(d), EdgeSource(d);
    if !nodeList.JArr? {
      return Err(Threw(TypeError));
    }
    var nodes := Nodes(nodeList.items);
    if nodes.Err? {
      return Err(nodes.error);
    }
    if !edgeList.JArr? {
      return Err(Threw(TypeError));
    }
    var links, validCount := ConvertLinks(edgeList.items, IdSet(nodes.value));
    if links.Err? {
      return Err(links.error);
    }
    r := Ok(View(nodes.value, links.value, validCount));
  }

  /** A converted view has one chart node per data node, in order, and only links between its node ids. */
  lemma ConvertMeaning(raw: Json)
    requires Convert(raw).Ok?
    ensures var v := Convert(raw).value;
            var items := NodeSource(DataObject(raw)).items;
            |v.nodes| == |items| && forall i :: 0 <= i < |items| ==> v.nodes[i].id == ExtractId(Prop(items[i], "id"))
    ensures var v := Convert(raw).value;
            forall j :: 0 <= j < |v.links| ==> KeyOf(Some(v.links[j].source)) in IdSet(v.nodes) && KeyOf(Some(v.links[j].target)) in IdSet(v.nodes)
  {
    var v := Convert(raw).value;
    var d := DataObject(raw);
    forall j | 0 <= j < |v.links|
      ensures KeyOf(Some(v.links[j].source)) in IdSet(v.nodes) && KeyOf(Some(v.links[j].target)) in IdSet(v.nodes)
    {
      LinkEndpointsAreNodes(EdgeSource(d).items, IdSet(v.nodes), j);
    }
  }
}
