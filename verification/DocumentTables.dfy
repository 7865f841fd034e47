/**
  The four tables of the document store and the document map they stand for. Rows are found by
  digests that may collide, so every row also stores the full identity.
 */
module DocumentTables {
  import opened Outcomes
  import opened JsonValues
  import opened NamespaceTexts
  import opened DocumentFields

  datatype DocumentKey = DocumentKey(path: Path, name: Label)

  datatype Document = Document(value: map<string, Json>, createdAt: int, updatedAt: int)

  type Documents = map<DocumentKey, Document>

  datatype NamespaceRow = NamespaceRow(text: string, depth: nat)

  /** One row per depth of a namespace, found by position. */
  datatype PathRow = PathRow(prefix: string, component: string)

  datatype DocumentRow = DocumentRow(name: string, value: map<string, Json>, createdAt: int, updatedAt: int)

  type DocumentId = (Digest, Digest)

  function PathId(codec: Codec, path: Path): Digest {
    codec.textDigest(PathText(path))
  }

  function IdOf(codec: Codec, key: DocumentKey): DocumentId {
    (PathId(codec, key.path), codec.keyDigest(key.name))
  }

  function PathRows(path: Path): seq<PathRow> {
    seq(|path| + 1, d requires 0 <= d <= |path| => PathRow(PathText(path[..d]), if d == 0 then "" else Hex(path[d - 1])))
  }

  function RowOf(key: DocumentKey, document: Document): DocumentRow {
    DocumentRow(Hex(key.name), document.value, document.createdAt, document.updatedAt)
  }

  predicate NamesPath(codec: Codec, present: set<Path>, id: Digest) {
    exists p :: p in present && PathId(codec, p) == id
  }

  predicate NamesDocument(codec: Codec, docs: Documents, id: DocumentId) {
    exists k :: k in docs && IdOf(codec, k) == id
  }

  /** The rows under this digest are the namespace's own. */
  predicate HasRows(namespaces: map<Digest, NamespaceRow>, paths: map<Digest, seq<PathRow>>, id: Digest, p: Path) {
    && id in namespaces && namespaces[id] == NamespaceRow(PathText(p), |p|)
    && id in paths && paths[id] == PathRows(p)
  }

  /** The namespace tables hold exactly these namespaces. */
  ghost predicate NamespacesInStep(
    codec: Codec, namespaces: map<Digest, NamespaceRow>, paths: map<Digest, seq<PathRow>>, present: set<Path>)
  {
    && (forall p :: p in present ==> IsPath(p) && HasRows(namespaces, paths, PathId(codec, p), p))
    && (forall d :: d in namespaces ==> NamesPath(codec, present, d))
    && paths.Keys == namespaces.Keys
  }

  /** The document and field tables hold exactly these documents; a document without fields has no field rows. */
  ghost predicate DocumentsInStep(
    codec: Codec, documents: map<DocumentId, DocumentRow>, fields: map<DocumentId, FieldRows>, docs: Documents)
  {
    && (forall k :: k in docs ==> IdOf(codec, k) in documents && documents[IdOf(codec, k)] == RowOf(k, docs[k]))
    && (forall k :: k in docs ==> IdOf(codec, k) in fields && Indexes(codec, fields[IdOf(codec, k)], docs[k].value))
    && (forall id :: id in documents ==> NamesDocument(codec, docs, id))
    && fields.Keys == documents.Keys
  }

  ghost predicate LivesIn(docs: Documents, present: set<Path>) {
    forall k :: k in docs ==> k.path in present
  }

  function PathsOf(docs: Documents): set<Path> {
    set k | k in docs :: k.path
  }

  // ---------------------------------------------------------------- identities

  lemma StoredPathIsUnique(
    codec: Codec, namespaces: map<Digest, NamespaceRow>, paths: map<Digest, seq<PathRow>>, present: set<Path>, p: Path, q: Path)
    requires NamespacesInStep(codec, namespaces, paths, present) && p in present && q in present
    requires PathId(codec, p) == PathId(codec, q)
    ensures p == q
  {
    hide PathText, PathRows;
    PathTextIsInjective(p, q);
  }

  // ---------------------------------------------------------------- changes to one document

  lemma AlsoStored(codec: Codec, docs: Documents, key: DocumentKey, document: Document, other: DocumentId)
    requires NamesDocument(codec, docs, other) || other == IdOf(codec, key)
    ensures NamesDocument(codec, docs[key := document], other)
  {
    hide IdOf;
    assert key in docs[key := document];
    if NamesDocument(codec, docs, other) {
      var k :| k in docs && IdOf(codec, k) == other;
      assert k in docs[key := document];
    }
  }

  lemma DocumentStored(
    codec: Codec, documents: map<DocumentId, DocumentRow>, fields: map<DocumentId, FieldRows>, docs: Documents,
    key: DocumentKey, document: Document, rows: FieldRows)
    requires DocumentsInStep(codec, documents, fields, docs) && Indexes(codec, rows, document.value)
    requires forall l :: l in docs && IdOf(codec, l) == IdOf(codec, key) ==> l == key
    ensures
      var id := IdOf(codec, key);
      DocumentsInStep(codec, documents[id := RowOf(key, document)], fields[id := rows], docs[key := document])
  {
    hide Indexes, RowOf, IdOf, NamesDocument;
    var id := IdOf(codec, key);
    var stored, all := documents[id := RowOf(key, document)], docs[key := document];
    assert fields[id := rows].Keys == stored.Keys;
    forall other | other in stored ensures NamesDocument(codec, all, other) {
      AlsoStored(codec, docs, key, document, other);
    }
  }

  lemma StillNamed(codec: Codec, docs: Documents, key: DocumentKey, other: DocumentId)
    requires NamesDocument(codec, docs, other) && other != IdOf(codec, key)
    ensures NamesDocument(codec, docs - {key}, other)
  {
    var k :| k in docs && IdOf(codec, k) == other;
    assert k in docs - {key};
  }

  lemma DocumentRemoved(
    codec: Codec, documents: map<DocumentId, DocumentRow>, fields: map<DocumentId, FieldRows>, docs: Documents, key: DocumentKey)
    requires DocumentsInStep(codec, documents, fields, docs)
    requires forall l :: l in docs && IdOf(codec, l) == IdOf(codec, key) ==> l == key
    ensures
      var id := IdOf(codec, key);
      DocumentsInStep(codec, documents - {id}, fields - {id}, docs - {key})
  {
    hide Indexes, RowOf, IdOf, NamesDocument;
    var id := IdOf(codec, key);
    assert (fields - {id}).Keys == (documents - {id}).Keys;
    forall other | other in documents - {id} ensures NamesDocument(codec, docs - {key}, other) {
      StillNamed(codec, docs, key, other);
    }
  }

  // ---------------------------------------------------------------- namespaces

  lemma AlsoNamed(codec: Codec, present: set<Path>, path: Path, d: Digest)
    requires NamesPath(codec, present, d) || d == PathId(codec, path)
    ensures NamesPath(codec, present + {path}, d)
  {
    hide PathId;
    assert path in present + {path};
    if NamesPath(codec, present, d) {
      var p :| p in present && PathId(codec, p) == d;
      assert p in present + {path};
    }
  }

  lemma NamespaceAdded(
    codec: Codec, namespaces: map<Digest, NamespaceRow>, paths: map<Digest, seq<PathRow>>, present: set<Path>, path: Path)
    requires NamespacesInStep(codec, namespaces, paths, present) && IsPath(path) && PathId(codec, path) !in namespaces
    ensures
      var id := PathId(codec, path);
      NamespacesInStep(codec, namespaces[id := NamespaceRow(PathText(path), |path|)], paths[id := PathRows(path)], present + {path})
  {
    hide IsPath, PathRows, PathText, PathId, NamesPath;
    var id := PathId(codec, path);
    var added, extended := namespaces[id := NamespaceRow(PathText(path), |path|)], paths[id := PathRows(path)];
    assert extended.Keys == added.Keys;
    forall p | p in present ensures HasRows(added, extended, PathId(codec, p), p) {
      assert HasRows(namespaces, paths, PathId(codec, p), p);
    }
    forall d | d in added ensures NamesPath(codec, present + {path}, d) {
      AlsoNamed(codec, present, path, d);
    }
  }

  lemma NamespaceDropped(
    codec: Codec, namespaces: map<Digest, NamespaceRow>, paths: map<Digest, seq<PathRow>>, present: set<Path>, path: Path)
    requires NamespacesInStep(codec, namespaces, paths, present) && path in present
    ensures
      var id := PathId(codec, path);
      NamespacesInStep(codec, namespaces - {id}, paths - {id}, present - {path})
  {
    hide IsPath, PathRows, PathText, PathId;
    var id := PathId(codec, path);
    forall p | p in present && PathId(codec, p) == id ensures p == path {
      StoredPathIsUnique(codec, namespaces, paths, present, p, path);
    }
    assert (paths - {id}).Keys == (namespaces - {id}).Keys;
    forall d | d in namespaces - {id} ensures NamesPath(codec, present - {path}, d) {
      var p :| p in present && PathId(codec, p) == d;
      assert p in present - {path};
    }
    hide NamesPath;
  }

  // ---------------------------------------------------------------- writes

  datatype Write = Write(key: DocumentKey, value: Option<map<string, Json>>)

  function CreatedAt(docs: Documents, key: DocumentKey, now: int): int {
    if key in docs then docs[key].createdAt else now
  }

  /** One write: a deletion, or a replacement that keeps the first creation time. */
  function Written(docs: Documents, write: Write, now: int): Documents {
    match write.value
    case None => docs - {write.key}
    case Some(value) => docs[write.key := Document(value, CreatedAt(docs, write.key, now), now)]
  }

  /** The documents with the writes of the keys in `applied` taken over, each on top of the original ones. */
  function Overridden(docs: Documents, writes: map<DocumentKey, Option<map<string, Json>>>, applied: set<DocumentKey>, now: int): Documents
    requires applied <= writes.Keys
  {
    map k | k in docs.Keys + applied && (k in applied ==> writes[k].Some?) ::
      if k in applied then Document(writes[k].value, CreatedAt(docs, k, now), now) else docs[k]
  }

  lemma OverriddenNext(docs: Documents, writes: map<DocumentKey, Option<map<string, Json>>>, applied: set<DocumentKey>, now: int, key: DocumentKey)
    requires applied <= writes.Keys && key in writes && key !in applied
    ensures Overridden(docs, writes, applied + {key}, now) == Written(Overridden(docs, writes, applied, now), Write(key, writes[key]), now)
  {
  }

  lemma OverriddenNothing(docs: Documents, writes: map<DocumentKey, Option<map<string, Json>>>, now: int)
    ensures Overridden(docs, writes, {}, now) == docs
  {
  }
}
