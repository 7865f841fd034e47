/**
  Queries over the tables against queries over the document map: the joins, ranges, subqueries and
  orders select and order exactly what direct evaluation does, whatever the digests are.
 */
module DocumentQueries {
  import opened Outcomes
  import opened JsonValues
  import opened StringOrder
  import opened NamespaceTexts
  import opened DocumentFields
  import opened DocumentTables
  import opened Listings

  datatype Tables = Tables(
    namespaces: map<Digest, NamespaceRow>,
    paths: map<Digest, seq<PathRow>>,
    documents: map<DocumentId, DocumentRow>,
    fields: map<DocumentId, FieldRows>)

  ghost predicate InStep(codec: Codec, t: Tables, present: set<Path>, docs: Documents) {
    && NamespacesInStep(codec, t.namespaces, t.paths, present)
    && DocumentsInStep(codec, t.documents, t.fields, docs)
    && LivesIn(docs, present)
  }

  // ---------------------------------------------------------------- decoding rows

  /** The identity stored with a row. */
  function DecodedKey(t: Tables, id: DocumentId): DocumentKey
    requires id in t.documents && id.0 in t.namespaces
  {
    DocumentKey(DecodePath(t.namespaces[id.0].text), Unhex(t.documents[id].name))
  }

  lemma RowDecodes(codec: Codec, t: Tables, present: set<Path>, docs: Documents, k: DocumentKey)
    requires InStep(codec, t, present, docs) && k in docs
    ensures
      var id := IdOf(codec, k);
      && id in t.documents && id.0 in t.namespaces && id in t.fields
      && DecodedKey(t, id) == k
      && t.documents[id] == RowOf(k, docs[k])
      && Indexes(codec, t.fields[id], docs[k].value)
      && t.namespaces[id.0] == NamespaceRow(PathText(k.path), |k.path|)
      && id.0 in t.paths && t.paths[id.0] == PathRows(k.path)
      && IsPath(k.path)
  {
    hide PathText, Hex, PathRows, Indexes, DecodePath, Unhex;
    assert k.path in present;
    PathRoundTrip(k.path);
    UnhexHex(k.name);
  }

  lemma IdDecodes(codec: Codec, t: Tables, present: set<Path>, docs: Documents, id: DocumentId)
    requires InStep(codec, t, present, docs) && id in t.documents
    ensures id.0 in t.namespaces && DecodedKey(t, id) in docs && IdOf(codec, DecodedKey(t, id)) == id
  {
    hide InStep, DecodedKey;
    var k := DocumentBehind(codec, t, present, docs, id);
    RowDecodes(codec, t, present, docs, k);
  }

  lemma DocumentBehind(codec: Codec, t: Tables, present: set<Path>, docs: Documents, id: DocumentId) returns (k: DocumentKey)
    requires InStep(codec, t, present, docs) && id in t.documents
    ensures k in docs && IdOf(codec, k) == id
  {
    assert NamesDocument(codec, docs, id);
    k :| k in docs && IdOf(codec, k) == id;
  }

  // ---------------------------------------------------------------- get

  datatype Corruption = IdentityCollision | FieldCollision

  /** Look a document up by digests and compare its full identity. */
  function Get(codec: Codec, t: Tables, key: DocumentKey): Outcome<Option<Document>, Corruption> {
    var id := IdOf(codec, key);
    if id !in t.documents then Ok(None)
    else if id.0 !in t.namespaces || DecodedKey(t, id) != key then Err(IdentityCollision)
    else
      var row := t.documents[id];
      Ok(Some(Document(row.value, row.createdAt, row.updatedAt)))
  }

  /** Another of these documents has the key's digests. */
  ghost predicate KeyCollides(codec: Codec, key: DocumentKey, among: set<DocumentKey>) {
    exists other :: other in among && other != key && IdOf(codec, other) == IdOf(codec, key)
  }

  /** It answers for the document map, or meets a document whose digests collide with the key's. */
  lemma GetIsExact(codec: Codec, t: Tables, present: set<Path>, docs: Documents, key: DocumentKey)
    requires InStep(codec, t, present, docs)
    ensures
      match Get(codec, t, key)
      case Ok(None) => key !in docs
      case Ok(Some(document)) => key in docs && document == docs[key]
      case Err(_) => key !in docs
    ensures Get(codec, t, key).Err? <==> KeyCollides(codec, key, docs.Keys)
  {
    hide InStep;
    var id := IdOf(codec, key);
    forall other | other in docs && IdOf(codec, other) == id ensures id in t.documents && id.0 in t.namespaces && DecodedKey(t, id) == other {
      RowDecodes(codec, t, present, docs, other);
    }
    if key in docs {
      RowDecodes(codec, t, present, docs, key);
    } else if id in t.documents {
      IdDecodes(codec, t, present, docs, id);
    }
  }

  // ---------------------------------------------------------------- search

  datatype Search = Search(prefix: Path, filters: seq<Filter>, limit: nat, offset: nat)

  predicate IsValidSearch(codec: Codec, search: Search) {
    IsPath(search.prefix) && forall i :: 0 <= i < |search.filters| ==> IsValidFilter(codec, search.filters[i])
  }

  /** The WHERE clause on a document row, its namespace row and its field rows. */
  predicate RowMatches(codec: Codec, t: Tables, search: Search, id: DocumentId)
    requires IsValidSearch(codec, search)
  {
    && id in t.documents && id.0 in t.namespaces
    && (search.prefix == [] || InPrefixRange(t.namespaces[id.0].text, PathText(search.prefix)))
    && forall i :: 0 <= i < |search.filters| ==> FilterExpression(codec, Lookup(t.fields, id, map[]), search.filters[i])
  }

  /** Direct evaluation: under the prefix, and every filter holds. */
  predicate DocumentMatches(codec: Codec, docs: Documents, search: Search, k: DocumentKey)
    requires IsValidSearch(codec, search)
  {
    && k in docs
    && search.prefix <= k.path
    && forall i :: 0 <= i < |search.filters| ==> FilterHolds(codec, docs[k].value, search.filters[i])
  }

  lemma RowMatchesDocument(codec: Codec, t: Tables, present: set<Path>, docs: Documents, search: Search, k: DocumentKey)
    requires InStep(codec, t, present, docs) && IsValidSearch(codec, search) && k in docs
    ensures RowMatches(codec, t, search, IdOf(codec, k)) <==> DocumentMatches(codec, docs, search, k)
  {
    hide InStep, InPrefixRange, FilterExpression, FilterHolds, IsValidFilter, PathText, PathRows, DecodedKey, RowOf, Indexes;
    RowDecodes(codec, t, present, docs, k);
    if search.prefix != [] {
      PrefixRangeIsTuplePrefix(search.prefix, k.path);
    }
    forall i | 0 <= i < |search.filters|
      ensures FilterExpression(codec, t.fields[IdOf(codec, k)], search.filters[i]) <==> FilterHolds(codec, docs[k].value, search.filters[i])
    {
      FilterExpressionIsExact(codec, t.fields[IdOf(codec, k)], docs[k].value, search.filters[i]);
    }
  }

  /** The ORDER BY columns: newest first, then namespace text, then key text. */
  datatype SortKey = SortKey(updatedAt: int, text: string, name: string)

  predicate SortAtMost(a: SortKey, b: SortKey) {
    || a.updatedAt > b.updatedAt
    || (a.updatedAt == b.updatedAt && if a.text != b.text then AtMost(a.text, b.text) else AtMost(a.name, b.name))
  }

  lemma SortOrderIsTotal(a: SortKey, b: SortKey, c: SortKey)
    ensures SortAtMost(a, b) || SortAtMost(b, a)
    ensures SortAtMost(a, b) && SortAtMost(b, c) ==> SortAtMost(a, c)
  {
    hide AtMost;
    OrderIsTotal(a.text, b.text);
    OrderIsTotal(a.name, b.name);
    OrderIsTotal(b.text, c.text);
    if SortAtMost(a, b) && SortAtMost(b, c) && a.updatedAt == b.updatedAt == c.updatedAt {
      if a.text != b.text && b.text != c.text {
        OrderIsTransitive(a.text, b.text, c.text);
      } else if a.text == b.text && b.text == c.text {
        OrderIsTransitive(a.name, b.name, c.name);
      }
    }
  }

  function SortKeyOf(t: Tables, id: DocumentId): SortKey {
    var row := Lookup(t.documents, id, DocumentRow("", map[], 0, 0));
    SortKey(row.updatedAt, Lookup(t.namespaces, id.0, NamespaceRow("", 0)).text, row.name)
  }

  predicate RowAtMost(t: Tables, a: DocumentId, b: DocumentId) {
    SortAtMost(SortKeyOf(t, a), SortKeyOf(t, b))
  }

  /** Direct order: newest first, then namespace as a tuple, then key. */
  predicate DocumentAtMost(docs: Documents, k: DocumentKey, l: DocumentKey) {
    && k in docs && l in docs
    && (|| docs[k].updatedAt > docs[l].updatedAt
        || (&& docs[k].updatedAt == docs[l].updatedAt
            && if k.path != l.path then PathAtMost(k.path, l.path) else k.name == l.name || LabelLess(k.name, l.name)))
  }

  lemma RowOrderIsDocumentOrder(codec: Codec, t: Tables, present: set<Path>, docs: Documents, k: DocumentKey, l: DocumentKey)
    requires InStep(codec, t, present, docs) && k in docs && l in docs
    ensures RowAtMost(t, IdOf(codec, k), IdOf(codec, l)) <==> DocumentAtMost(docs, k, l)
  {
    assert AtMost("", "");
    hide InStep, PathText, PathRows, DecodedKey, Indexes, AtMost, Hex;
    RowDecodes(codec, t, present, docs, k);
    RowDecodes(codec, t, present, docs, l);
    PathTextIsInjective(k.path, l.path);
    TextOrderIsPathOrder(k.path, l.path);
    CompareHex(k.name, l.name, "", "");
    assert Hex(k.name) + "" == Hex(k.name) && Hex(l.name) + "" == Hex(l.name);
    HexIsInjective(k.name, l.name);
    OrderIsTotal(Hex(k.name), Hex(l.name));
  }

  function MatchingRows(codec: Codec, t: Tables, search: Search): set<DocumentId>
    requires IsValidSearch(codec, search)
  {
    set id | id in t.documents && RowMatches(codec, t, search, id)
  }

  function MatchingDocuments(codec: Codec, docs: Documents, search: Search): set<DocumentKey>
    requires IsValidSearch(codec, search)
  {
    set k | k in docs && DocumentMatches(codec, docs, search, k)
  }

  datatype Item = Item(key: DocumentKey, document: Document)

  function ItemAt(t: Tables, id: DocumentId): Item
    requires id in t.documents && id.0 in t.namespaces
  {
    var row := t.documents[id];
    Item(DecodedKey(t, id), Document(row.value, row.createdAt, row.updatedAt))
  }

  function ItemsAt(t: Tables, ids: seq<DocumentId>): seq<Item>
    requires forall id :: id in ids ==> id in t.documents && id.0 in t.namespaces
  {
    seq(|ids|, i requires 0 <= i < |ids| => ItemAt(t, ids[i]))
  }

  function ItemsOf(docs: Documents, keys: seq<DocumentKey>): seq<Item>
    requires forall k :: k in keys ==> k in docs
  {
    seq(|keys|, i requires 0 <= i < |keys| => Item(keys[i], docs[keys[i]]))
  }

  /** Direct evaluation of a search: the matching documents in order, then the page. */
  ghost predicate IsSearchAnswer(codec: Codec, docs: Documents, search: Search, items: seq<Item>)
    requires IsValidSearch(codec, search)
  {
    exists keys ::
      && IsListing(keys, MatchingDocuments(codec, docs, search), (k, l) => DocumentAtMost(docs, k, l))
      && items == Slice(ItemsOf(docs, keys), search.offset, search.limit)
  }

  function DecodedKeys(t: Tables, ids: seq<DocumentId>): seq<DocumentKey>
    requires forall id :: id in ids ==> id in t.documents && id.0 in t.namespaces
  {
    seq(|ids|, i requires 0 <= i < |ids| => DecodedKey(t, ids[i]))
  }

  lemma ItemAtIsItem(codec: Codec, t: Tables, present: set<Path>, docs: Documents, id: DocumentId)
    requires InStep(codec, t, present, docs) && id in t.documents
    ensures id.0 in t.namespaces && DecodedKey(t, id) in docs && IdOf(codec, DecodedKey(t, id)) == id
    ensures ItemAt(t, id) == Item(DecodedKey(t, id), docs[DecodedKey(t, id)])
  {
    hide InStep, DecodedKey;
    IdDecodes(codec, t, present, docs, id);
    RowDecodes(codec, t, present, docs, DecodedKey(t, id));
  }

  lemma SearchListingIsDirect(codec: Codec, t: Tables, present: set<Path>, docs: Documents, search: Search, ids: seq<DocumentId>)
    requires InStep(codec, t, present, docs) && IsValidSearch(codec, search)
    requires IsListing(ids, MatchingRows(codec, t, search), (a, b) => RowAtMost(t, a, b))
    ensures forall id :: id in ids ==> id in t.documents && id.0 in t.namespaces
    ensures IsSearchAnswer(codec, docs, search, Slice(ItemsAt(t, ids), search.offset, search.limit))
  {
    hide InStep, DecodedKey, RowMatches, DocumentMatches, RowAtMost, DocumentAtMost, ItemAt, IdOf, IsValidSearch;
    forall id | id in ids
      ensures id in t.documents && id.0 in t.namespaces && DecodedKey(t, id) in docs && IdOf(codec, DecodedKey(t, id)) == id
      ensures ItemAt(t, id) == Item(DecodedKey(t, id), docs[DecodedKey(t, id)])
    {
      ItemAtIsItem(codec, t, present, docs, id);
    }
    var keys := DecodedKeys(t, ids);
    DecodedListing(codec, t, present, docs, search, ids, keys);
    assert ItemsAt(t, ids) == ItemsOf(docs, keys);
  }

  lemma DecodedListing(
    codec: Codec, t: Tables, present: set<Path>, docs: Documents, search: Search, ids: seq<DocumentId>, keys: seq<DocumentKey>)
    requires InStep(codec, t, present, docs) && IsValidSearch(codec, search)
    requires IsListing(ids, MatchingRows(codec, t, search), (a, b) => RowAtMost(t, a, b))
    requires |keys| == |ids| && forall i :: 0 <= i < |ids| ==> keys[i] in docs && IdOf(codec, keys[i]) == ids[i]
    ensures IsListing(keys, MatchingDocuments(codec, docs, search), (k, l) => DocumentAtMost(docs, k, l))
  {
    hide InStep, RowMatches, DocumentMatches, RowAtMost, DocumentAtMost, IdOf, IsValidSearch;
    forall i | 0 <= i < |keys| ensures keys[i] in MatchingDocuments(codec, docs, search) {
      assert ids[i] in MatchingRows(codec, t, search);
      RowMatchesDocument(codec, t, present, docs, search, keys[i]);
    }
    forall k | k in MatchingDocuments(codec, docs, search) ensures k in keys {
      RowMatchesDocument(codec, t, present, docs, search, k);
      RowDecodes(codec, t, present, docs, k);
      assert IdOf(codec, k) in ids;
      var i :| 0 <= i < |ids| && ids[i] == IdOf(codec, k);
      RowDecodes(codec, t, present, docs, keys[i]);
    }
    forall i, j | 0 <= i < j < |keys| ensures keys[i] != keys[j] && DocumentAtMost(docs, keys[i], keys[j]) {
      assert ids[i] != ids[j] && RowAtMost(t, ids[i], ids[j]);
      RowOrderIsDocumentOrder(codec, t, present, docs, keys[i], keys[j]);
    }
  }

  /** Run a search on the tables. */
  method RunSearch(codec: Codec, t: Tables, search: Search, ghost present: set<Path>, ghost docs: Documents) returns (items: seq<Item>)
    requires InStep(codec, t, present, docs) && IsValidSearch(codec, search)
    ensures IsSearchAnswer(codec, docs, search, items)
  {
    hide InStep, IsValidSearch, RowMatches, IsSearchAnswer, DecodedKey, SortKeyOf;
    var order := (a, b) => RowAtMost(t, a, b);
    forall a, b, c ensures order(a, b) || order(b, a)
                   ensures order(a, b) && order(b, c) ==> order(a, c)
    {
      SortOrderIsTotal(SortKeyOf(t, a), SortKeyOf(t, b), SortKeyOf(t, c));
    }
    hide RowAtMost;
    var ids := ListInOrder(MatchingRows(codec, t, search), order);
    SearchListingIsDirect(codec, t, present, docs, search, ids);
    items := Slice(ItemsAt(t, ids), search.offset, search.limit);
  }

  // ---------------------------------------------------------------- listing namespaces

  datatype Condition = Condition(isPrefix: bool, labels: Path)

  datatype ListNamespaces = ListNamespaces(conditions: seq<Condition>, maxDepth: Option<nat>, limit: nat, offset: nat)

  /** The label that matches any other. */
  const Wildcard: Label := [42]

  /** The depth at which a condition's label is expected, counted from one. */
  function ConditionDepth(condition: Condition, depth: nat, i: nat): nat
    requires i < |condition.labels| <= depth
  {
    if condition.isPrefix then i + 1 else depth - |condition.labels| + i + 1
  }

  predicate RowHas(depth: nat, rows: seq<PathRow>, condition: Condition, i: nat)
    requires i < |condition.labels| <= depth
  {
    var d := ConditionDepth(condition, depth, i);
    condition.labels[i] == Wildcard || (d < |rows| && rows[d].component == Hex(condition.labels[i]))
  }

  predicate RowSatisfies(row: NamespaceRow, rows: seq<PathRow>, condition: Condition) {
    && row.depth >= |condition.labels|
    && forall i :: 0 <= i < |condition.labels| ==> RowHas(row.depth, rows, condition, i)
  }

  /** Labels are matched from the start of the namespace, or from its end; an asterisk matches any label. */
  predicate PathHas(path: Path, condition: Condition, i: nat)
    requires i < |condition.labels| <= |path|
  {
    var wanted := condition.labels[i];
    wanted == ['*' as int] || wanted == if condition.isPrefix then path[i] else path[|path| - |condition.labels|..][i]
  }

  predicate PathSatisfies(path: Path, condition: Condition) {
    |path| >= |condition.labels| && forall i :: 0 <= i < |condition.labels| ==> PathHas(path, condition, i)
  }

  lemma RowHasPath(path: Path, condition: Condition, i: nat)
    requires i < |condition.labels| <= |path|
    ensures RowHas(|path|, PathRows(path), condition, i) <==> PathHas(path, condition, i)
  {
    hide PathText, Hex;
    var d := ConditionDepth(condition, |path|, i);
    assert PathRows(path)[d].component == Hex(path[d - 1]);
    HexIsInjective(path[d - 1], condition.labels[i]);
  }

  lemma RowSatisfiesPath(path: Path, condition: Condition)
    ensures RowSatisfies(NamespaceRow(PathText(path), |path|), PathRows(path), condition) <==> PathSatisfies(path, condition)
  {
    hide PathText, PathRows, RowHas, PathHas;
    forall i | 0 <= i < |condition.labels| <= |path|
      ensures RowHas(|path|, PathRows(path), condition, i) <==> PathHas(path, condition, i)
    {
      RowHasPath(path, condition, i);
    }
  }

  /** Namespaces with a document that satisfy every condition. */
  predicate NamespaceMatches(t: Tables, query: ListNamespaces, d: Digest) {
    && d in t.namespaces && d in t.paths
    && (exists id :: id in t.documents && id.0 == d)
    && forall i :: 0 <= i < |query.conditions| ==> RowSatisfies(t.namespaces[d], t.paths[d], query.conditions[i])
  }

  predicate PathMatches(docs: Documents, query: ListNamespaces, path: Path) {
    path in PathsOf(docs) && forall i :: 0 <= i < |query.conditions| ==> PathSatisfies(path, query.conditions[i])
  }

  /** The selected column: the whole text, or the prefix at the bounded depth. */
  function SelectedText(t: Tables, query: ListNamespaces, d: Digest): string {
    if d !in t.namespaces || d !in t.paths then ""
    else if query.maxDepth.None? then t.namespaces[d].text
    else
      var depth := if t.namespaces[d].depth <= query.maxDepth.value then t.namespaces[d].depth else query.maxDepth.value;
      if depth < |t.paths[d]| then t.paths[d][depth].prefix else ""
  }

  function Truncated(query: ListNamespaces, path: Path): Path {
    if query.maxDepth.None? || |path| <= query.maxDepth.value then path else path[..query.maxDepth.value]
  }

  function SelectedTexts(t: Tables, query: ListNamespaces): set<string> {
    set d | d in t.namespaces && NamespaceMatches(t, query, d) :: SelectedText(t, query, d)
  }

  function SelectedPaths(docs: Documents, query: ListNamespaces): set<Path> {
    set p | p in PathsOf(docs) && PathMatches(docs, query, p) :: Truncated(query, p)
  }

  /** Direct evaluation of a listing: conditions on whole namespaces, truncation afterwards, tuple order, then the page. */
  ghost predicate IsListAnswer(docs: Documents, query: ListNamespaces, answer: seq<Path>) {
    exists paths :: IsListing(paths, SelectedPaths(docs, query), (p, q) => PathAtMost(p, q)) && answer == Slice(paths, query.offset, query.limit)
  }

  lemma NamespaceRowIsPath(codec: Codec, t: Tables, present: set<Path>, docs: Documents, query: ListNamespaces, path: Path)
    requires InStep(codec, t, present, docs) && path in PathsOf(docs)
    ensures IsPath(path) && PathId(codec, path) in t.namespaces
    ensures NamespaceMatches(t, query, PathId(codec, path)) <==> PathMatches(docs, query, path)
    ensures SelectedText(t, query, PathId(codec, path)) == PathText(Truncated(query, path))
  {
    hide InStep, PathText, Hex, DecodedKey, Indexes, RowSatisfies, PathSatisfies;
    var k :| k in docs && k.path == path;
    RowDecodes(codec, t, present, docs, k);
    assert IdOf(codec, k) in t.documents && IdOf(codec, k).0 == PathId(codec, path);
    forall i | 0 <= i < |query.conditions|
      ensures RowSatisfies(NamespaceRow(PathText(path), |path|), PathRows(path), query.conditions[i]) <==> PathSatisfies(path, query.conditions[i])
    {
      RowSatisfiesPath(path, query.conditions[i]);
    }
    assert path[..|path|] == path;
  }

  lemma MatchingNamespaceIsPath(codec: Codec, t: Tables, present: set<Path>, docs: Documents, query: ListNamespaces, d: Digest)
    returns (path: Path)
    requires InStep(codec, t, present, docs) && NamespaceMatches(t, query, d)
    ensures path in PathsOf(docs) && PathId(codec, path) == d
  {
    hide InStep, DecodedKey;
    var id :| id in t.documents && id.0 == d;
    IdDecodes(codec, t, present, docs, id);
    path := DecodedKey(t, id).path;
  }

  /** The selected texts are the texts of the namespaces that direct evaluation selects. */
  lemma SelectedTextsAreExact(codec: Codec, t: Tables, present: set<Path>, docs: Documents, query: ListNamespaces)
    requires InStep(codec, t, present, docs)
    ensures forall p :: p in SelectedPaths(docs, query) ==> IsPath(p)
    ensures SelectedTexts(t, query) == TextsOf(SelectedPaths(docs, query))
  {
    hide InStep, NamespaceMatches, PathMatches, SelectedText, PathText, PathsOf, PathId;
    var texts := TextsOf(SelectedPaths(docs, query));
    forall q | q in SelectedPaths(docs, query) ensures IsPath(q) && PathText(q) in SelectedTexts(t, query) {
      var p :| p in PathsOf(docs) && PathMatches(docs, query, p) && Truncated(query, p) == q;
      NamespaceRowIsPath(codec, t, present, docs, query, p);
      assert SelectedText(t, query, PathId(codec, p)) in SelectedTexts(t, query);
    }
    forall text | text in SelectedTexts(t, query) ensures text in texts {
      var d :| d in t.namespaces && NamespaceMatches(t, query, d) && SelectedText(t, query, d) == text;
      var p := MatchingNamespaceIsPath(codec, t, present, docs, query, d);
      NamespaceRowIsPath(codec, t, present, docs, query, p);
      assert Truncated(query, p) in SelectedPaths(docs, query);
    }
  }

  function TextsOf(paths: set<Path>): set<string> {
    set p | p in paths :: PathText(p)
  }

  function DecodedPaths(texts: seq<string>): seq<Path> {
    seq(|texts|, i requires 0 <= i < |texts| => DecodePath(texts[i]))
  }

  lemma ListListingIsDirect(texts: seq<string>, selected: set<Path>)
    requires forall p :: p in selected ==> IsPath(p)
    requires IsListing(texts, TextsOf(selected), (a, b) => AtMost(a, b))
    ensures IsListing(DecodedPaths(texts), selected, (p, q) => PathAtMost(p, q))
  {
    hide PathText, IsPath, DecodePath, AtMost, PathAtMost;
    var paths := DecodedPaths(texts);
    forall i | 0 <= i < |texts| ensures paths[i] in selected && PathText(paths[i]) == texts[i] {
      assert texts[i] in TextsOf(selected);
      var p :| p in selected && PathText(p) == texts[i];
      PathRoundTrip(p);
    }
    forall p | p in selected ensures p in paths {
      PathRoundTrip(p);
      assert PathText(p) in texts;
      var i :| 0 <= i < |texts| && texts[i] == PathText(p);
      assert paths[i] == p;
    }
    forall i, j | 0 <= i < j < |paths| ensures paths[i] != paths[j] && PathAtMost(paths[i], paths[j]) {
      assert texts[i] != texts[j] && AtMost(texts[i], texts[j]);
      TextOrderIsPathOrder(paths[i], paths[j]);
    }
  }

  /** Run a listing on the tables. */
  method RunList(codec: Codec, t: Tables, query: ListNamespaces, ghost present: set<Path>, ghost docs: Documents) returns (answer: seq<Path>)
    requires InStep(codec, t, present, docs)
    ensures IsListAnswer(docs, query, answer)
  {
    hide InStep, SelectedTexts, SelectedPaths, PathText, DecodePath, IsPath;
    SelectedTextsAreExact(codec, t, present, docs, query);
    var order := (a, b) => AtMost(a, b);
    forall a, b, c ensures order(a, b) || order(b, a)
                   ensures order(a, b) && order(b, c) ==> order(a, c)
    {
      OrderIsTotal(a, b);
      if AtMost(a, b) && AtMost(b, c) {
        OrderIsTransitive(a, b, c);
      }
    }
    hide AtMost, PathAtMost;
    var texts := ListInOrder(SelectedTexts(t, query), order);
    ListListingIsDirect(texts, SelectedPaths(docs, query));
    answer := Slice(DecodedPaths(texts), query.offset, query.limit);
  }

  // ---------------------------------------------------------------- answers are determined

  lemma LabelOrderIsStrict(a: Label, b: Label)
    requires (a == b || LabelLess(a, b)) && (b == a || LabelLess(b, a))
    ensures a == b
  {
    hide LabelLess, Hex, AtMost;
    CompareHex(a, b, "", "");
    CompareHex(b, a, "", "");
    assert Hex(a) + "" == Hex(a) && Hex(b) + "" == Hex(b);
    OrderIsTotal(Hex(a), Hex(b));
    HexIsInjective(a, b);
  }

  lemma PathOrderIsStrict(a: Path, b: Path)
    requires IsPath(a) && IsPath(b) && PathAtMost(a, b) && PathAtMost(b, a)
    ensures a == b
  {
    hide PathAtMost, PathText, AtMost, IsPath;
    TextOrderIsPathOrder(a, b);
    TextOrderIsPathOrder(b, a);
    OrderIsTotal(PathText(a), PathText(b));
    PathTextIsInjective(a, b);
  }

  /** Direct evaluation of a search has one answer. */
  lemma SearchAnswerIsUnique(codec: Codec, docs: Documents, search: Search, a: seq<Item>, b: seq<Item>)
    requires IsValidSearch(codec, search) && forall k :: k in docs ==> IsPath(k.path)
    requires IsSearchAnswer(codec, docs, search, a) && IsSearchAnswer(codec, docs, search, b)
    ensures a == b
  {
    hide IsValidSearch, DocumentMatches, IsPath, LabelLess, PathAtMost;
    var order := (k, l) => DocumentAtMost(docs, k, l);
    var x :| IsListing(x, MatchingDocuments(codec, docs, search), (k, l) => DocumentAtMost(docs, k, l))
             && a == Slice(ItemsOf(docs, x), search.offset, search.limit);
    var y :| IsListing(y, MatchingDocuments(codec, docs, search), (k, l) => DocumentAtMost(docs, k, l))
             && b == Slice(ItemsOf(docs, y), search.offset, search.limit);
    forall k, l | DocumentAtMost(docs, k, l) && DocumentAtMost(docs, l, k) ensures k == l {
      if k.path != l.path {
        PathOrderIsStrict(k.path, l.path);
      } else {
        LabelOrderIsStrict(k.name, l.name);
      }
    }
    ListingIsUnique(x, y, MatchingDocuments(codec, docs, search), order);
  }

  /** Direct evaluation of a listing has one answer. */
  lemma ListAnswerIsUnique(docs: Documents, query: ListNamespaces, a: seq<Path>, b: seq<Path>)
    requires forall k :: k in docs ==> IsPath(k.path)
    requires IsListAnswer(docs, query, a) && IsListAnswer(docs, query, b)
    ensures a == b
  {
    var order := (p, q) => PathAtMost(p, q);
    forall p | p in SelectedPaths(docs, query) ensures IsPath(p) {
    }
    hide PathAtMost, IsPath, SelectedPaths;
    var x :| IsListing(x, SelectedPaths(docs, query), (p, q) => PathAtMost(p, q)) && a == Slice(x, query.offset, query.limit);
    var y :| IsListing(y, SelectedPaths(docs, query), (p, q) => PathAtMost(p, q)) && b == Slice(y, query.offset, query.limit);
    forall p, q | p in SelectedPaths(docs, query) && q in SelectedPaths(docs, query) && PathAtMost(p, q) && PathAtMost(q, p) ensures p == q {
      PathOrderIsStrict(p, q);
    }
    ListingIsUnique(x, y, SelectedPaths(docs, query), order);
  }
}
