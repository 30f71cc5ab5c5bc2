# Nodal graph pipeline: a Dafny model

Nodal turns a novel or a screenplay into a character graph. A language model
returns the graph as loosely structured JSON. A Python backend cleans that JSON
up and computes per-character metrics. Several React front-ends then draw the
graph. This project models the deterministic parts of that pipeline and proves
what they promise:

- **Sanitizer** (`sanitizer.dfy`) models `_extract_json_text` in `nodal/backend.py`. It trims the model's reply and drops a code fence. Then it cuts the text from the first `{` to the last `}`.
- **Normalizer** (`normalizer.dfy`) models `_add_degree_and_size`, `_ensure_edge_ids` and `_clamp_weight`. These functions do the following:
  - turn node ids into strings;
  - backfill the bilingual `*_en`/`*_original` fields;
  - drop edges whose endpoints are not node ids;
  - give each node its degree as `centrality` and `visual.size = 15 + 5·degree`;
  - number the edges that lack an id;
  - clamp edge weights into [0, 1].
- **PyFloat** (`pyfloat.dfy`) models Python's `float()` as the weight clamp uses it.
- **GraphCheck** (`graphcheck.dfy`) models the consistency checker `work_logs/A/json_check.py`. It reports:
  - dangling edge endpoints and per-node degree;
  - the `size = 6·centrality + 10` rule;
  - degree-versus-centrality flags;
  - relation types that are drawn in more than one colour;
  - weighted edges, heaviest first.
- **StableSort** (`stablesort.dfy`) models Python's stable `sorted(..., reverse=True)`, which the checker uses twice.
- **JsValue** (`jsvalue.dfy`) holds the JavaScript reading rules the front-ends rely on:
  - `undefined` as a value;
  - truthiness and `||`;
  - `String(x)`, `Number(x)` and `trim()`;
  - `<` and `<=` on numbers;
  - the SameValueZero equality of `Set.prototype.has`.
- **Converter2D** (`converter2d.dfy`) models `Frontend/src/components/GraphViewer2D.jsx`. It turns the imported graph into chart nodes and links:
  - `extractId` reads and trims the ids;
  - missing styles get their defaults;
  - an edge becomes a link only when both extracted endpoints are node ids.
- **ChapterFilter** (`chapterfilter.dfy`) models the chapter filter that both `GraphViewer.jsx` components share. The filter in `xinyi_beining_frontend/src/components/GraphViewer.jsx:18-28` is the same code as in `Yixin_Beining_Frontend`, one line higher, so the table cites only the latter:
  - a node is visible once its chapter is reached;
  - an edge is visible unless it belongs to a later chapter, and only between visible nodes.

  It also models the camera reset, which unpins every visible node.
- **Json** and **Text** hold the JSON value model and Python's `str()` and truthiness, plus the string helpers (`strip`, `find`, `trim`).

JSON values keep the difference between ints and floats, NaN and the infinities. Numbers are exact integers and exact reals, not binary64 values.
Each Python or JavaScript exception that the modelled code can raise on some input is an `Err`.
The source's loops are methods. Each is proved equal to a specification function over the prefix it has read.
The source's promises are lemmas about those functions.
Specification functions such as Normalizer.PrepareEdges, GraphCheck.EndpointScan, GraphCheck.SizeScan, GraphCheck.TypeScan, GraphCheck.WeightedOf, GraphCheck.Flags, Sanitizer.DropOpeningFence, Sanitizer.DropClosingFence, Sanitizer.CutObject, JsValue.JsString and JsValue.JsNumber have no row of their own. What they promise is stated in the rows of the lemmas and loop methods about them.

Points of the code's behaviour that the model keeps:

- `centrality` is the degree of a node over the kept edges. Parallel edges each count, and a self-loop counts twice.
- A dict node whose id is None or missing still gets a centrality: the degree looked up under `"None"` or `""`.
- `_add_degree_and_size` has a second hard failure besides non-list `nodes`/`edges`. It is a kept edge whose `relation` is not a dict: `"label_en" not in rel` raises for None or a number, and indexing raises for a string or list that contains `"label"`.
- `total_characters` counts the nodes that are dicts.
- An edge gets a generated id when its id is falsy: `0`, `false`, `""` and `[]` as well as a missing id.
- The fence removal drops three backticks, an alphanumeric tag and the white space after it.
- A NaN weight passes the clamp unchanged, so the weight lies in [0, 1] only when it is not NaN.
- Dropped edges are not logged anywhere.

## Model

| member | source | states |
|---|---|---|
| Sanitizer.ExtractJsonText | nodal/backend.py:111-112 | an empty reply gives the empty string |
| Sanitizer.SkipAlnum | nodal/backend.py:115 | the fence tag skipped is the longest run of ASCII letters and digits |
| Sanitizer.ExtractCutsOutermostBraces | nodal/backend.py:113-121 | when the trimmed, unfenced text has a `{` before a later `}`, the result is exactly the text from the first `{` to the last `}`, and it is brace-delimited |
| Sanitizer.ExtractKeepsTextWithoutObject | nodal/backend.py:111-121 | when no `{` precedes a `}`, the result is the trimmed, unfenced text itself |
| Sanitizer.FencedUnfenced | nodal/backend.py:114-116 | a fenced block with an alphanumeric tag and white space around a braced body unfences to that body |
| Sanitizer.OpeningFenceDropped | nodal/backend.py:115 | the opening substitution removes exactly the backticks, the tag and the white space after it |
| Sanitizer.ExtractFencedBlock | nodal/backend.py:111-121 | a reply fenced in backticks gives exactly the braced object inside |
| Sanitizer.ExtractObjectFromProse | nodal/backend.py:111-121 | prose without braces around a braced object gives exactly that object |
| Sanitizer.CutAt | nodal/backend.py:117-120 | the cut is the slice between the first `{` and the last `}` |
| Sanitizer.ExtractFixesBraced | nodal/backend.py:111-121 | a brace-delimited text is returned unchanged |
| Sanitizer.ExtractIdempotent | nodal/backend.py:111-121 | re-applying the sanitizer to a brace-delimited result changes nothing |
| Json.FalsyValues | nodal/backend.py:92 | `not x` holds exactly for None, False, 0, 0.0, `""`, `[]` and `{}` |
| Json.PyStrIds | nodal/backend.py:134-135 | `str()` keeps a string, prints an int in decimal, and prints an integral float with `.0` |
| Json.PyStrIntInjective | nodal/backend.py:151-155 | different ints never give the same string id |
| PyFloat.ToFloatRejectsWord | nodal/backend.py:103-106 | the weight text "abc" does not convert, which is the path to the 0.5 default |
| PyFloat.ToFloatRejectsText | nodal/backend.py:103-106 | any text holding, after stripping, a character no decimal literal has, and not spelling `inf`, `infinity` or `nan` after its sign, does not convert |
| PyFloat.ToFloat | nodal/backend.py:104 | `float(x)` raises exactly for None, a list, a dict, an int too large for a float, or unparsable text; a float passes through; an int or bool gives a finite float of the same value |
| PyFloat.ParseFloatText | nodal/backend.py:104 | blank text does not convert, and text that converts to a finite float holds a digit |
| PyFloat.ParseFloatTextDecimal | nodal/backend.py:104 | text whose stripped form starts with a digit is read as an unsigned decimal literal |
| Normalizer.Backfill | nodal/backend.py:136-141 | when `key_en` is absent and `key` is present, both `key_en` and `key_original` become `key`; otherwise nothing changes; no other field changes |
| Normalizer.BackfillAllComplete | nodal/backend.py:136-141 | after the backfills, every `*_en` field whose plain field exists is present, for any list of key triples |
| Normalizer.BackfillAllValues | nodal/backend.py:136-141 | with distinct keys, each backfill takes effect: where `key_en` was absent and `key` present, `key_en` and `key_original` both equal `key`; elsewhere both are as before |
| Normalizer.BackfillNode | nodal/backend.py:136-141 | the `label` and `description` backfills of a node both take effect in that sense |
| Normalizer.BackfillRelation | nodal/backend.py:160-168 | the `label`, `description` and `type` backfills of a relation all take effect in that sense |
| Normalizer.BackfillAllKeeps | nodal/backend.py:160-168 | no key other than the `*_en`/`*_original` ones written appears, disappears or changes |
| Normalizer.CoerceNode | nodal/backend.py:132-135 | a dict node with a non-None id gets `str(id)` as its id; any other node is unchanged |
| Normalizer.KeptEdge | nodal/backend.py:147-155 | a kept edge is a dict whose source and target are stored as strings that are node ids; no other field changes |
| Normalizer.PrepareRelation | nodal/backend.py:159-168 | the relation backfill changes only the relation, or raises the relation TypeError |
| Normalizer.FinishNode | nodal/backend.py:170-179 | a dict node gains exactly `centrality` and `visual` and keeps every other key and value; its `visual` dict has the keys of the old one (none when it was absent or not a dict) plus `size`, and the old keys other than `size` keep their values; a non-dict node is untouched |
| Normalizer.WithEdgeId | nodal/backend.py:92-93 | a dict edge ends with a truthy id: its own when truthy, else `e<i>` |
| Normalizer.ClampUnit | nodal/backend.py:103-108 | a failed `float()` gives 0.5, a value below 0 gives 0.0, one above 1 gives 1.0, any other value (NaN included) is kept; so the result is NaN exactly when the input is, and otherwise lies in [0, 1] |
| Normalizer.ClampEdge | nodal/backend.py:96-109 | a dict edge keeps every key except `visual`, whose dict (its own, or a fresh one) keeps every key except `weight`, and `weight` becomes the clamped float of the old weight; any other value is returned unchanged |
| Normalizer.ClampExamples | nodal/backend.py:102-108 | a weight of `"abc"` becomes 0.5 and a weight of 1.7 becomes 1.0 |
| Normalizer.EnsureEdgeIds | nodal/backend.py:90-93 | the loop keeps the edge count and gives the edge at position k (from 1) the id `e<k>` when its id is falsy |
| Normalizer.ClampWeights | nodal/backend.py:95-109 | the loop keeps the edge count and clamps the edge at each position as ClampEdge states |
| Normalizer.AddDegreeAndSize | nodal/backend.py:123-189 | the whole pass, loops as written, returns the normalised graph or the exception raised |
| Normalizer.CoerceNodes | nodal/backend.py:131-141 | the node loop coerces every node and collects the node ids in order |
| Normalizer.CoerceOne | nodal/backend.py:132-141 | one node's coercion and the id it contributes |
| Normalizer.KeepEdges | nodal/backend.py:143-168 | the edge loop keeps exactly the prepared edges, and its Counter holds each id's degree over them |
| Normalizer.CountEndpoints | nodal/backend.py:157-158 | `degree[s] += 1; degree[t] += 1` adds one per matching endpoint |
| Normalizer.KeepOne | nodal/backend.py:147-155 | one edge's keep-or-drop decision |
| Normalizer.SizeNodes | nodal/backend.py:170-179 | the second node loop finishes every node from the Counter |
| Normalizer.DegreeAppend | nodal/backend.py:157-158 | a kept edge adds its incidence to every degree |
| Normalizer.PrepareEdgesFailsFrom | nodal/backend.py:146-168 | the first exception in the edge loop is the loop's result |
| Normalizer.PrepareEdgesFails | nodal/backend.py:159-168 | the edge pass fails exactly when some kept edge has a relation that cannot be backfilled |
| Normalizer.PrepareEdgesError | nodal/backend.py:159-168 | every edge-pass failure is the relation TypeError |
| Normalizer.NormalizeFails | nodal/backend.py:123-129 | the pass fails only for a non-dict input, non-list `nodes`/`edges`, or a kept edge with a bad relation, each exactly when it happens |
| Normalizer.Normalize | nodal/backend.py:123-189 | a result is a dict of exactly the four keys; it read list `nodes` and `edges`, returns as many nodes and at most as many edges, counts the dict nodes as `total_characters`, and passes `detected_language` on, defaulting to `"English"` |
| Normalizer.DictRelationBackfilled | nodal/backend.py:159-168 | a dict relation is accepted, its three backfills take effect with the plain field's value, and every other key keeps its value |
| Normalizer.PrepareEdgesKeeps | nodal/backend.py:146-168 | the k-th kept edge is the input edge at the k-th kept position, with string endpoints and its relation backfilled; it joins two node ids, and the endpoint pairs are those of the input edges between node ids, in order |
| Normalizer.KeptIndices | nodal/backend.py:146-155 | the kept positions increase strictly, each holds an edge the loop keeps, and every such position is listed |
| Normalizer.PrepareEdgesAtMost | nodal/backend.py:146-155 | the loop keeps at most as many edges as it reads |
| Normalizer.DegreeOfOutEdges | nodal/backend.py:181-182 | numbering and clamping the edges changes no degree |
| Normalizer.DegreeSum | nodal/backend.py:144-158 | over distinct ids, degrees sum to twice the number of edges |
| Normalizer.NormalizedDegreeSum | nodal/backend.py:143-188 | with distinct node ids, the degrees of the ids the nodes declare sum to twice the number of output edges |
| Normalizer.CentralityOfOutNode | nodal/backend.py:172-174 | a returned node's `centrality` is the degree of the id it declares when it is a dict whose id is not None, and it has none when it is not a dict |
| Normalizer.CentralityPrefix | nodal/backend.py:170-174 | when each node's centrality is the degree of its declared id, the centralities of the first i nodes sum to the degrees of their declared ids |
| Normalizer.NormalizedCentralitySum | nodal/backend.py:143-188 | when every dict node has an id that is not None and the ids are distinct, the `centrality` fields of the returned nodes sum to twice the number of returned edges |
| Normalizer.OutEdgeEndpoints | nodal/backend.py:181-182 | the output edge keeps every field except `id` and `visual` |
| Normalizer.OutNode | nodal/backend.py:132-179 | a dict node gets `centrality` = its degree over the output edges and a `visual` dict with `size = 15 + 5·centrality`, whose other keys (from an existing `visual` dict) keep their values; with a non-None id it gets `str(id)` as id, each label/description backfill takes effect, and every key other than `id`, `centrality`, `visual` and the written `*_en`/`*_original` keys keeps its value; without one every key but `centrality` and `visual` keeps its value; a non-dict node is unchanged |
| Normalizer.DictNodeOut | nodal/backend.py:132-179 | both passes over one dict node give the result OutNode describes |
| Normalizer.OutEdge | nodal/backend.py:181-182 | an output edge has a truthy id (its own when truthy, else `e<k+1>`) and as weight the clamped float of its own weight, so NaN or in [0, 1] |
| Normalizer.GeneratedIdsDistinct | nodal/backend.py:93 | generated ids of different positions differ |
| Normalizer.WithEdgeIdIdempotent | nodal/backend.py:92-93 | numbering twice changes nothing |
| Normalizer.ClampUnitIdempotent | nodal/backend.py:102-108 | clamping twice changes nothing |
| Normalizer.ClampUnitKeepsUnit | nodal/backend.py:107-108 | a weight already in [0, 1] is kept |
| Normalizer.ClampEdgeIdempotent | nodal/backend.py:96-109 | clamping an edge twice changes nothing |
| Normalizer.CountDictsSameShape | nodal/backend.py:186 | `total_characters` is the same before and after the node passes |
| GraphCheck.NodeIds | work_logs/A/json_check.py:17 | the id list has one entry per node, its `id` or None; a non-dict node raises |
| GraphCheck.HashKey | work_logs/A/json_check.py:18 | exactly lists and dicts are unhashable |
| GraphCheck.HashKeyPythonEquality | work_logs/A/json_check.py:18 | `True`, `1` and `1.0` are one key, equal numbers always are, and a string never shares a key with a non-string |
| GraphCheck.KeySet | work_logs/A/json_check.py:18 | the node set holds exactly the ids' keys; an unhashable id raises |
| GraphCheck.CountMatches | work_logs/A/json_check.py:24 | the declared total matches exactly when it is a number equal to the node count |
| GraphCheck.Bump | work_logs/A/json_check.py:40-42 | a Counter increment adds one to that key only |
| GraphCheck.ScanEndpoints | work_logs/A/json_check.py:29-42 | the endpoint loop computes the missing-endpoint list and the degree Counter |
| GraphCheck.EndpointScanErrSticks | work_logs/A/json_check.py:32-34 | an exception ends the loop with that exception |
| GraphCheck.EndpointScanFails | work_logs/A/json_check.py:32-34 | the loop fails exactly when some edge is not a dict or has an unhashable endpoint |
| GraphCheck.EndpointScanDegree | work_logs/A/json_check.py:39-42 | a node id's degree is the number of edge endpoints equal to it; other keys have none |
| GraphCheck.EndpointScanRecords | work_logs/A/json_check.py:35-38 | every endpoint outside the node set is recorded with its side, value and edge id |
| GraphCheck.EndpointScanRecordSound | work_logs/A/json_check.py:35-38 | every record names a real endpoint of some edge that is outside the node set |
| GraphCheck.Expected | work_logs/A/json_check.py:65 | the expected size is `6·centrality + 10` |
| GraphCheck.CheckSizes | work_logs/A/json_check.py:57-67 | the size loop computes the size errors and the centrality map |
| GraphCheck.SizeScanErrSticks | work_logs/A/json_check.py:60-64 | an exception ends the loop with that exception |
| GraphCheck.SizeScanFails | work_logs/A/json_check.py:60-64 | the loop fails exactly when a node's visual is not a dict or its centrality is not a number |
| GraphCheck.SizeScanReports | work_logs/A/json_check.py:64-67 | a node is reported exactly when its size differs from `6·centrality + 10` |
| GraphCheck.SizeScanCentrality | work_logs/A/json_check.py:58-63 | every node id is in the centrality map, with a numeric value |
| GraphCheck.SizeScanLastWins | work_logs/A/json_check.py:63 | the map holds the centrality of the last node with that id |
| GraphCheck.SizeRuleKept | work_logs/A/json_check.py:64-69 | nodes that obey the rule give no size errors |
| GraphCheck.SizeErrorHasNode | work_logs/A/json_check.py:66-67 | every size error comes from some node |
| GraphCheck.Rows | work_logs/A/json_check.py:85-98 | one row per node id |
| GraphCheck.BuildRows | work_logs/A/json_check.py:85-98 | the row loop builds exactly those rows |
| GraphCheck.DiffBigMeaning | work_logs/A/json_check.py:92-93 | `DIFF_BIG` exactly when the absolute difference of degree and centrality is at least 5 |
| GraphCheck.RatioOddMeaning | work_logs/A/json_check.py:90-95 | for positive c, `RATIO_ODD` exactly when d ≥ 2c or 2d ≤ c; always for negative or infinite c; never for zero or NaN |
| GraphCheck.ZeroCentralityMeaning | work_logs/A/json_check.py:96-97 | `CENTRALITY_ZERO_BUT_HAS_EDGES` exactly when c is 0 and d > 0 |
| GraphCheck.ConsistentRowUnflagged | work_logs/A/json_check.py:86-98 | a node whose centrality equals its degree has difference 0 and no flags |
| GraphCheck.RowsClean | work_logs/A/json_check.py:101 | when every centrality equals the degree, no sorted row has a flag |
| GraphCheck.RowsAt | work_logs/A/json_check.py:86-88 | row i carries the degree and centrality looked up for id i |
| GraphCheck.ReportRowsSorted | work_logs/A/json_check.py:101 | the report has one row per node, ordered by absolute difference, descending |
| GraphCheck.CountTypes | work_logs/A/json_check.py:109-116 | the type loop computes the type Counter and the colour sets |
| GraphCheck.TypeScanErrSticks | work_logs/A/json_check.py:112-116 | an exception ends the loop with that exception |
| GraphCheck.TypeScanFails | work_logs/A/json_check.py:113-114 | the loop fails exactly when some edge's relation or visual cannot be read, or a key is unhashable |
| GraphCheck.TypeScanKeys | work_logs/A/json_check.py:115-116 | the Counter's key list has no repeats, and the Counter and the colour map have the same types |
| GraphCheck.TypeScanFirstSeen | work_logs/A/json_check.py:112-121 | the Counter's key order lists exactly the types some edge has, in the order of each type's first edge |
| GraphCheck.FirstOfType | work_logs/A/json_check.py:112-115 | the position found holds an edge of the type and no earlier edge has it, or there is no such edge |
| GraphCheck.FirstSeenExtend | work_logs/A/json_check.py:115 | counting one more edge appends its type to a first-seen order exactly when the type is new |
| GraphCheck.TypeScanCounts | work_logs/A/json_check.py:115 | each type's count is its number of edges, with a missing type counted as `UNKNOWN` |
| GraphCheck.TypeScanColorAt | work_logs/A/json_check.py:116 | every edge's colour (default `#999999`) is in its type's colour set |
| GraphCheck.TypeScanColorFrom | work_logs/A/json_check.py:116 | every colour in a type's set comes from an edge of that type |
| GraphCheck.MixedTypesMembers | work_logs/A/json_check.py:178 | a type is listed as mixed exactly when its colour set has more than one member |
| GraphCheck.MixedMeaning | work_logs/A/json_check.py:109-117 | a type is mixed exactly when two of its edges carry different colours |
| GraphCheck.CollectWeighted | work_logs/A/json_check.py:185-197 | the weight loop collects exactly the edges with a top-level `weight` |
| GraphCheck.WeightedOfMeaning | work_logs/A/json_check.py:187-197 | an entry is listed exactly when it is the entry of some edge that has a `weight` key |
| GraphCheck.WeightReportSorted | work_logs/A/json_check.py:202 | the weight report is in descending weight order, holds the same entries, and keeps the input order for equal weights |
| GraphCheck.SortWeights | work_logs/A/json_check.py:202 | the sort raises only TypeError and only for two or more entries, never for comparable weights, and otherwise gives the same entries in descending order |
| GraphCheck.NumericWeightsDescend | work_logs/A/json_check.py:202 | numeric weights always sort, from the heaviest to the lightest |
| GraphCheck.Check | work_logs/A/json_check.py:13-205 | the checking part of the script, its loops as written, gives the report or the exception that ends the script, including the TypeError of printing a None, list or dict weight |
| GraphCheck.CheckGraph | work_logs/A/json_check.py:13-205 | a report read list `nodes` and `edges`, can print its degrees and weights, and lists its weights heaviest first |
| GraphCheck.NullWeightFails | work_logs/A/json_check.py:204-205 | a graph whose one edge has a null weight ends with the format error at the weight print |
| StableSort.SortStable | work_logs/A/json_check.py:101 | elements with equal keys keep their input order |
| StableSort.Sort | work_logs/A/json_check.py:202 | `sorted(..., reverse=True)` gives descending order and the same elements, counted with multiplicity |
| StableSort.SortMembers | work_logs/A/json_check.py:202 | the sorted list has the same members as the input |
| StableSort.LessTransitive | work_logs/A/json_check.py:101 | the order on sort keys is transitive |
| StableSort.LessTotal | work_logs/A/json_check.py:101 | two keys neither of which is smaller are equal |
| StableSort.LessIrreflexive | work_logs/A/json_check.py:101 | no key is smaller than itself |
| JsValue.Prop | Frontend/src/components/GraphViewer2D.jsx:14 | a property is defined exactly when the value is an object holding it |
| JsValue.Or | Frontend/src/components/GraphViewer2D.jsx:15 | `a \|\| b` is truthy exactly when one of them is, and is a when a is truthy |
| JsValue.JsFalsyValues | Frontend/src/components/GraphViewer2D.jsx:18 | `!val` holds exactly for undefined, null, false, 0, NaN and `""`; an empty array or object is truthy, unlike in Python |
| JsValue.JsStringIds | Frontend/src/components/GraphViewer2D.jsx:20 | `String()` keeps a string, prints an int as Python does, and prints an integral float like the int, without `.0` |
| JsValue.JsNumberOfValues | Yixin_Beining_Frontend/src/components/GraphViewer.jsx:20 | an integer and its string compare as the same number; a missing chapter is NaN and a null one is 0 |
| JsValue.Setting | Frontend/src/components/GraphViewer2D.jsx:29 | `(v && v.k) ? v.k : d` is the property when v and the property are truthy, else d, and it is truthy when d is |
| JsValue.KeyOf | Frontend/src/components/GraphViewer2D.jsx:42 | integers are set members by numeric value |
| JsValue.KeyOfSeparatesTypes | Frontend/src/components/GraphViewer2D.jsx:48 | a number never matches a string in a Set |
| JsValue.KeyOfNumbersByValue | Frontend/src/components/GraphViewer2D.jsx:48 | an integer and an equal float are the same Set member |
| JsValue.IntegerString | Frontend/src/components/GraphViewer2D.jsx:20 | `String(i)` of an integer below 10^21 is its decimal digits |
| JsValue.NumberOfString | Yixin_Beining_Frontend/src/components/GraphViewer.jsx:20 | a chapter written as an integer string compares as that integer |
| JsValue.NumAtMostMeaning | Yixin_Beining_Frontend/src/components/GraphViewer.jsx:20 | `a <= b` holds exactly when neither is NaN and a < b or a = b |
| JsValue.NumAtMostTransitive | Yixin_Beining_Frontend/src/components/GraphViewer.jsx:20 | `<=` on numbers chains |
| JsValue.NumLessWeaken | Yixin_Beining_Frontend/src/components/GraphViewer.jsx:23 | what is greater than a later chapter is greater than an earlier one |
| Text.JsTrim | Frontend/src/components/GraphViewer2D.jsx:20 | `trim()` leaves no white space at either end |
| Text.JsTrimNoop | Frontend/src/components/GraphViewer2D.jsx:20 | text without white space at its ends trims to itself |
| Text.JsTrimKeeps | Frontend/src/components/GraphViewer2D.jsx:20 | trim removes only the white space before the first and after the last other character |
| Text.JsTrimAllSpace | Frontend/src/components/GraphViewer2D.jsx:20 | text made of white space trims to the empty string |
| Converter2D.DataObject | Frontend/src/components/GraphViewer2D.jsx:11-12 | the default export is used when truthy; the data object is falsy (the error view) exactly when the module is |
| Converter2D.NodeSource | Frontend/src/components/GraphViewer2D.jsx:14 | nodes are `nodes` when truthy, else the empty list |
| Converter2D.EdgeSource | Frontend/src/components/GraphViewer2D.jsx:15 | edges are `edges`, else `links`, else the empty list |
| Converter2D.ExtractId | Frontend/src/components/GraphViewer2D.jsx:17-21 | a falsy value gives null; an object gives its truthy `id`, else its truthy `name`, else null; anything else gives `String(value).trim()`: its string form with the white space at both ends removed |
| Converter2D.ExtractIdKeepsCleanString | Frontend/src/components/GraphViewer2D.jsx:20 | a non-empty string without surrounding white space is its own id |
| Converter2D.ExtractIdBlankString | Frontend/src/components/GraphViewer2D.jsx:18-20 | a blank string id becomes `""`, not null |
| Converter2D.ExtractIdInteger | Frontend/src/components/GraphViewer2D.jsx:20 | a non-zero integer id becomes its decimal string |
| Converter2D.ExtractIdAgain | Frontend/src/components/GraphViewer2D.jsx:17-21 | extracting a non-empty extracted string again changes nothing; an empty one turns into null |
| Converter2D.NodeFor | Frontend/src/components/GraphViewer2D.jsx:23-32 | `id == name == extractId(node.id)`, the display name is `node.label`, and size and colour are always truthy |
| Converter2D.NodeStyle | Frontend/src/components/GraphViewer2D.jsx:29-32 | size is `visual.size` when truthy, else 20; colour is `visual.color` when truthy, else `#2f4554` |
| Converter2D.Nodes | Frontend/src/components/GraphViewer2D.jsx:23-40 | exactly one chart node per data node, in order; a null node throws |
| Converter2D.IdSet | Frontend/src/components/GraphViewer2D.jsx:42 | the id set holds exactly the chart nodes' ids |
| Converter2D.LinkFor | Frontend/src/components/GraphViewer2D.jsx:50-59 | a link's endpoints are the extracted ids, and its colour and width are always truthy |
| Converter2D.LinkStyle | Frontend/src/components/GraphViewer2D.jsx:53-58 | the label is `relation.label`, else `""`; the colour is `visual.color`, else `#999`; the width is `visual.weight`, else 2 |
| Converter2D.Links | Frontend/src/components/GraphViewer2D.jsx:45-64 | there are never more links than edges; a throw is a TypeError |
| Converter2D.LinksErrSticks | Frontend/src/components/GraphViewer2D.jsx:45-47 | a throw on one edge ends the conversion |
| Converter2D.LinksFail | Frontend/src/components/GraphViewer2D.jsx:45-47 | the conversion throws exactly when some edge is null |
| Converter2D.LinksSound | Frontend/src/components/GraphViewer2D.jsx:48-64 | every link is the link of some edge whose endpoints are both node ids |
| Converter2D.LinkEndpointsAreNodes | Frontend/src/components/GraphViewer2D.jsx:48 | every link's endpoints are node ids |
| Converter2D.LinksPrefix | Frontend/src/components/GraphViewer2D.jsx:45-64 | the links of the first edges are a prefix of all the links, so edge order is kept |
| Converter2D.LinkOfJoiningEdge | Frontend/src/components/GraphViewer2D.jsx:48-64 | every edge joining two node ids is drawn, right after the links of the edges before it |
| Converter2D.ConvertLinks | Frontend/src/components/GraphViewer2D.jsx:43-64 | the link loop gives exactly those links, and `validCount` ends equal to their number |
| Converter2D.Convert | Frontend/src/components/GraphViewer2D.jsx:11-64 | the error view shows exactly when the module is falsy; a converted view read array nodes and edges, and its `validCount` is its number of links |
| Converter2D.Render | Frontend/src/components/GraphViewer2D.jsx:11-64 | the data step as written, with the link loop, gives that conversion |
| Converter2D.ConvertMeaning | Frontend/src/components/GraphViewer2D.jsx:23-64 | one chart node per data node with the extracted id, and only links between chart node ids |
| ChapterFilter.Filter | Yixin_Beining_Frontend/src/components/GraphViewer.jsx:20-27 | a filter never returns more elements than it is given |
| ChapterFilter.FilterFails | Yixin_Beining_Frontend/src/components/GraphViewer.jsx:20-27 | a filter throws exactly when its callback throws on some element |
| ChapterFilter.FilterMembers | Yixin_Beining_Frontend/src/components/GraphViewer.jsx:20-27 | a filter keeps exactly the elements its callback accepts, unchanged |
| ChapterFilter.FilterIsAccepted | Yixin_Beining_Frontend/src/components/GraphViewer.jsx:20-27 | a filter that does not throw returns the accepted elements in input order, as read front to back |
| ChapterFilter.AcceptedAppend | Yixin_Beining_Frontend/src/components/GraphViewer.jsx:20-27 | one more element at the end adds itself to the accepted elements exactly when the callback accepts it |
| ChapterFilter.FilterCounts | Yixin_Beining_Frontend/src/components/GraphViewer.jsx:20-27 | each accepted value occurs in the result as often as in the input, and a rejected one not at all |
| ChapterFilter.FilterAgain | Yixin_Beining_Frontend/src/components/GraphViewer.jsx:19-28 | filtering with a narrower test is filtering the wider result again |
| ChapterFilter.NodeTest | Yixin_Beining_Frontend/src/components/GraphViewer.jsx:20 | a node passes exactly when `node.chapter <= chapter`; a null node throws |
| ChapterFilter.EndpointId | Yixin_Beining_Frontend/src/components/GraphViewer.jsx:24-25 | an endpoint's id is its truthy `.id`, else the endpoint itself; a null or missing endpoint throws |
| ChapterFilter.IdsOf | Yixin_Beining_Frontend/src/components/GraphViewer.jsx:21 | the id set holds exactly the visible nodes' ids |
| ChapterFilter.EdgeTest | Yixin_Beining_Frontend/src/components/GraphViewer.jsx:23 | an edge of a later chapter is rejected before its endpoints are read |
| ChapterFilter.Visible | Yixin_Beining_Frontend/src/components/GraphViewer.jsx:19-28 | the scene's nodes are the filtered nodes, and its links are the edges filtered against their ids |
| ChapterFilter.FilterData | Yixin_Beining_Frontend/src/components/GraphViewer.jsx:20-22 | the memo succeeds only on array `nodes` and `edges` |
| ChapterFilter.VisibleNodes | Yixin_Beining_Frontend/src/components/GraphViewer.jsx:20 | the visible nodes are exactly the data nodes with `chapter <= chapter`, unchanged |
| ChapterFilter.VisibleNodesAreObjects | Yixin_Beining_Frontend/src/components/GraphViewer.jsx:20 | a visible node is an object with a chapter |
| ChapterFilter.VisibleLinks | Yixin_Beining_Frontend/src/components/GraphViewer.jsx:21-26 | the visible links are exactly the edges that are not of a later chapter and whose endpoint ids are both visible node ids |
| ChapterFilter.LaterEdgeHidden | Yixin_Beining_Frontend/src/components/GraphViewer.jsx:23 | an edge of a later chapter is never visible |
| ChapterFilter.VisibleLinkJoinsVisibleNodes | Yixin_Beining_Frontend/src/components/GraphViewer.jsx:24-26 | a visible link's endpoint ids are ids of visible nodes |
| ChapterFilter.Monotone | Yixin_Beining_Frontend/src/components/GraphViewer.jsx:19-28 | a scene that can be shown at a later chapter can be shown at every earlier one, and the earlier scene is the later one filtered again: a subsequence of its nodes and links, in order |
| ChapterFilter.Unpinned | Yixin_Beining_Frontend/src/components/GraphViewer.jsx:65-67 | `fx`, `fy` and `fz` become null and every other property is unchanged |
| ChapterFilter.UnpinVisible | Yixin_Beining_Frontend/src/components/GraphViewer.jsx:63-69 | the reset keeps the number of data nodes |
| ChapterFilter.UnpinnedKeeps | Yixin_Beining_Frontend/src/components/GraphViewer.jsx:65-67 | unpinning changes neither chapter nor id, so no visibility |
| ChapterFilter.MapUnpinned | Yixin_Beining_Frontend/src/components/GraphViewer.jsx:64-68 | every listed node is unpinned, in order |
| ChapterFilter.ShownAreObjects | Yixin_Beining_Frontend/src/components/GraphViewer.jsx:64 | every node the reset visits is an object |
| ChapterFilter.FilterUnpinned | Yixin_Beining_Frontend/src/components/GraphViewer.jsx:63-69 | after the reset the filter shows the previously visible nodes, unpinned, in order |
| ChapterFilter.IdsOfUnpinned | Yixin_Beining_Frontend/src/components/GraphViewer.jsx:21 | unpinning leaves the visible id set unchanged |
| ChapterFilter.UnpinKeepsScene | Yixin_Beining_Frontend/src/components/GraphViewer.jsx:63-69 | after the reset the memo shows the same nodes, unpinned, and the same links |
| ChapterFilter.Story.constructor | Yixin_Beining_Frontend/src/components/GraphViewer.jsx:7 | the story holds the imported nodes and edges |
| ChapterFilter.Story.Unpin | Yixin_Beining_Frontend/src/components/GraphViewer.jsx:63-69 | the reset loop unpins every visible node, leaves every other node and all edges as they were |

## Left out

- HTTP endpoints, CORS, the language-model client, logging, PDF/DOCX extraction and the prompt strings in `nodal/backend.py` are not part of this model: they are I/O, network or text without behaviour.
- The timeline classification and per-phase assembly in the request handlers of `nodal/backend.py` are not part of this model: the normaliser starts from one parsed graph.
- `json.loads` is not modelled. The normaliser and the checker start from a parsed JSON value.
- Python's in-place mutation of the parsed dicts is modelled as value updates. A parsed document shares no sub-objects, so no aliasing is lost.
- Floats are exact reals: rounding to binary64 is not modelled. A parsed `0.1` is exactly one tenth, `-0.0` is the same value as `0.0`, and the weight text `"1e-500"` stays a tiny positive weight where `float()` gives 0.0. `str()` of a non-integral float, of an integral float of magnitude at least 10^16 (which Python prints as, for example, `1e+16`), and of a list or dict, is a fixed marker. So distinct ids such as 1.5 and 2.5 both become `"<float>"`. An edge from 1.5 to 3.5 is then kept by Normalizer.Normalize, while `nodal/backend.py:155` drops it, because Python's `"3.5"` is not a node id.
- BackfillAllComplete: states only that each `*_en` field is present, because it holds for any list of key triples; the values written are stated by Normalizer.BackfillAllValues, Normalizer.BackfillNode and Normalizer.BackfillRelation.
- PyFloat.ToFloat: underscores in numeric literals and non-ASCII digits, which `float()` accepts, are treated as unparsable.
- The checker's printing is kept only where it can raise: a format specification such as `:25s`, `:6d` or the `:<5` of the weight print (a TypeError for a None, list or dict weight) that raises ends the script. GraphCheck.Check reports that as one FormatError, without telling the ValueError from the TypeError.
- The checker's plotting code is not modelled, and neither is the order of `degree.most_common()`. An exception raised inside the plotting code, which runs before the type summary, would end the script earlier than the model says.
- GraphCheck.HashKey: dict keys and set members are normalised, so `True`, `1` and `1.0` are one key, as in Python. NaN keys are equal to each other, unlike Python, where distinct NaN objects are distinct keys.
- StableSort.Less: NaN sort keys rank below every other number. Python's order is undefined there.
- GraphCheck.SortWeights: a weight list whose entries mix numbers and strings, or that holds lists or dicts, is a TypeError. Sorting lists by their contents is not modelled.
- GraphCheck.Rows: the flags are kept as a list. The script joins them with commas.
- JsValue.JsString: `String()` of an array, and of a non-integral number or one of magnitude at least 10^21, is a fixed marker. No array id ever reaches it, because `extractId` reads arrays as objects.
- JsValue.StringNumber: `Number()` of a string reads only white space, optionally signed decimal digits and `Infinity`. Decimals, exponents and hexadecimal literals read as NaN.
- JsValue.JsNumber: `Number()` of an array (for example, `[]` is 0) is modelled as NaN.
- JsValue.KeyOf: a Set compares objects by identity; the model compares them by contents. Ids are normally strings or numbers, for which the two agree.
- JsValue.Prop: property reads see only the object's own JSON fields. Prototype properties are not modelled; none of the keys the components read is one.
- The front-ends' rendering is not modelled: ECharts and three.js settings, label formatters, camera movement, force simulation, hover state and window measurement.
- Converter2D.ConvertLinks: the callback's map-to-null followed by `.filter` is modelled as one loop that appends only the links.
- ChapterFilter.Story.Unpin: the reset in the source walks the memo's node list, which holds the same objects as the data. The model walks the data's nodes and unpins exactly those the memo shows.
- ChapterFilter.Story.Unpin: the camera move and the simulation reheat around the unpinning, and the guard on a mounted graph, are not modelled.
