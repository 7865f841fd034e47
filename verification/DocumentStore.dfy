/**
  The document store: batches that lock namespaces, read one snapshot, apply the last write of every
  key and drop namespaces left empty. A batch that meets corruption changes nothing.
 */
module DocumentStore {
  import opened Outcomes
  import opened JsonValues
  import opened NamespaceTexts
  import opened DocumentFields
  import opened DocumentTables
  import opened DocumentQueries

  datatype Operation =
    | GetOp(key: DocumentKey)
    | SearchOp(search: Search)
    | ListOp(query: ListNamespaces)
    | PutOp(write: Write)

  datatype Result = GotDocument(found: Option<Document>) | FoundItems(items: seq<Item>) | ListedPaths(paths: seq<Path>) | NoResult

  predicate IsValidOperation(codec: Codec, op: Operation) {
    match op
    case GetOp(key) => IsPath(key.path)
    case SearchOp(search) => IsValidSearch(codec, search)
    case ListOp(query) => true
    case PutOp(write) => IsPath(write.key.path)
  }

  type Writes = map<DocumentKey, Option<map<string, Json>>>

  /** The last write of every key. */
  function LatestWrites(operations: seq<Operation>): Writes {
    if operations == [] then map[]
    else
      var earlier := LatestWrites(operations[..|operations| - 1]);
      match operations[|operations| - 1]
      case PutOp(write) => earlier[write.key := write.value]
      case _ => earlier
  }

  /** The documents after a batch. */
  function AfterBatch(docs: Documents, operations: seq<Operation>, now: int): Documents {
    var writes := LatestWrites(operations);
    Overridden(docs, writes, writes.Keys, now)
  }

  /** The result is what direct evaluation on these documents gives. */
  ghost predicate IsAnswer(codec: Codec, docs: Documents, op: Operation, result: Result)
    requires IsValidOperation(codec, op)
  {
    match op
    case GetOp(key) => result == GotDocument(if key in docs then Some(docs[key]) else None)
    case SearchOp(search) => result.FoundItems? && IsSearchAnswer(codec, docs, search, result.items)
    case ListOp(query) => result.ListedPaths? && IsListAnswer(docs, query, result.paths)
    case PutOp(_) => result == NoResult
  }

  /** No two identities share a digest. */
  ghost predicate IsCollisionFree(codec: Codec) {
    && (forall a, b :: codec.textDigest(a) == codec.textDigest(b) ==> a == b)
    && (forall a, b :: codec.keyDigest(a) == codec.keyDigest(b) ==> a == b)
    && (forall a, b :: codec.fieldDigest(a) == codec.fieldDigest(b) ==> a == b)
  }

  /** Another of these namespaces has the path's digest. */
  ghost predicate PathCollides(codec: Codec, path: Path, among: set<Path>) {
    exists q :: q in among && q != path && PathId(codec, q) == PathId(codec, path)
  }

  function ChangedPaths(writes: Writes): set<Path> {
    set k | k in writes :: k.path
  }

  /** The write's key collides with another key, or its value has two fields of one digest. */
  ghost predicate WriteCollides(codec: Codec, key: DocumentKey, value: Option<map<string, Json>>, among: set<DocumentKey>) {
    KeyCollides(codec, key, among) || (value.Some? && FieldsCollide(codec, value.value))
  }

  /** Two distinct identities among the stored documents and those the batch touches share a digest. */
  ghost predicate MeetsCollision(codec: Codec, docs: Documents, operations: seq<Operation>) {
    var writes := LatestWrites(operations);
    || (exists p :: p in ChangedPaths(writes) && PathCollides(codec, p, PathsOf(docs) + ChangedPaths(writes)))
    || ReadsCollision(codec, docs, operations)
    || (exists k :: k in writes && WriteCollides(codec, k, writes[k], docs.Keys + writes.Keys))
  }

  ghost predicate ReadsCollision(codec: Codec, docs: Documents, operations: seq<Operation>) {
    exists i :: 0 <= i < |operations| && operations[i].GetOp? && KeyCollides(codec, operations[i].key, docs.Keys)
  }

  lemma {:induction false} WrittenPathsAreValid(codec: Codec, operations: seq<Operation>)
    requires forall i :: 0 <= i < |operations| ==> IsValidOperation(codec, operations[i])
    ensures forall k :: k in LatestWrites(operations) ==> IsPath(k.path)
  {
    if operations != [] {
      WrittenPathsAreValid(codec, operations[..|operations| - 1]);
      assert IsValidOperation(codec, operations[|operations| - 1]);
    }
  }

  class Store {
    const codec: Codec
    var namespaces: map<Digest, NamespaceRow>
    var paths: map<Digest, seq<PathRow>>
    var documents: map<DocumentId, DocumentRow>
    var fields: map<DocumentId, FieldRows>

    constructor (codec: Codec)
      ensures this.codec == codec && Holds({}, map[])
    {
      this.codec := codec;
      namespaces, paths, documents, fields := map[], map[], map[], map[];
    }

    ghost function Rows(): Tables
      reads this
    {
      Tables(namespaces, paths, documents, fields)
    }

    /** The tables are the projections of these documents and of the namespaces now present. */
    ghost predicate Holds(present: set<Path>, docs: Documents)
      reads this
    {
      InStep(codec, Rows(), present, docs)
    }

    /** Find or insert the namespace's rows; false when another namespace has its digest. */
    method LockNamespace(path: Path, ghost present: set<Path>, ghost docs: Documents) returns (ok: bool)
      requires Holds(present, docs) && IsPath(path)
      modifies this`namespaces, this`paths
      ensures ok ==> Holds(present + {path}, docs)
      ensures ok <==> !PathCollides(codec, path, present)
    {
      var id := PathId(codec, path);
      forall q | q in present && PathId(codec, q) == id ensures id in namespaces && namespaces[id].text == PathText(q) && (PathText(q) == PathText(path) <==> q == path) {
        PathTextIsInjective(q, path);
      }
      if id in namespaces {
        ghost var p := PathBehind(codec, Rows(), present, docs, id);
        ok := namespaces[id].text == PathText(path);
        assert ok ==> present + {path} == present;
        return;
      }
      NamespaceAdded(codec, namespaces, paths, present, path);
      hide NamespacesInStep, DocumentsInStep;
      namespaces := namespaces[id := NamespaceRow(PathText(path), |path|)];
      paths := paths[id := PathRows(path)];
      return true;
    }

    /** Replace or delete one document with its field rows. */
    method Put(write: Write, now: int, ghost present: set<Path>, ghost docs: Documents) returns (ok: bool)
      requires Holds(present, docs) && write.key.path in present
      modifies this`documents, this`fields
      ensures ok ==> Holds(present, Written(docs, write, now))
      ensures ok <==> !WriteCollides(codec, write.key, write.value, docs.Keys)
    {
      hide NamespacesInStep, DocumentsInStep, Indexes, FieldsCollide;
      var id := IdOf(codec, write.key);
      ghost var t := Rows();
      if id in documents && Unhex(documents[id].name) != write.key.name {
        NameCollides(codec, t, present, docs, write.key);
        return false;
      }
      SameIdIsSameKey(codec, t, present, docs, write.key);
      fields := fields - {id};
      if write.value.None? {
        DocumentRemoved(codec, t.documents, t.fields, docs, write.key);
        documents := documents - {id};
        return true;
      }
      var value := write.value.value;
      KnownCreation(codec, t, present, docs, write.key, now);
      var createdAt := if id in documents then documents[id].createdAt else now;
      documents := documents[id := DocumentRow(Hex(write.key.name), value, createdAt, now)];
      var rows := BuildRows(codec, value);
      if rows.None? {
        return false;
      }
      DocumentStored(codec, t.documents, t.fields, docs, write.key, Document(value, createdAt, now), rows.value);
      fields := fields[id := rows.value];
      assert fields == t.fields[id := rows.value];
      return true;
    }

    /** Remove the rows of a namespace that has no document left. */
    method DropIfEmpty(path: Path, ghost present: set<Path>, ghost docs: Documents)
      requires Holds(present, docs) && path in present
      modifies this`namespaces, this`paths
      ensures Holds(if path in PathsOf(docs) then present else present - {path}, docs)
    {
      var id := PathId(codec, path);
      DocumentsUnder(codec, Rows(), present, docs, path);
      if !exists d :: d in documents && d.0 == id {
        NamespaceDropped(codec, namespaces, paths, present, path);
        paths := paths - {id};
        namespaces := namespaces - {id};
      }
    }

    method LockAll(locked: set<Path>, ghost present: set<Path>, ghost docs: Documents) returns (ok: bool)
      requires Holds(present, docs) && forall p :: p in locked ==> IsPath(p)
      modifies this`namespaces, this`paths
      ensures ok ==> Holds(present + locked, docs)
      ensures ok <==> forall p :: p in locked ==> !PathCollides(codec, p, present + locked)
    {
      hide InStep, IsPath;
      var remaining := locked;
      assert present + (locked - remaining) == present;
      while remaining != {}
        invariant remaining <= locked && Holds(present + (locked - remaining), docs)
        decreases remaining
      {
        var p :| p in remaining;
        ok := LockNamespace(p, present + (locked - remaining), docs);
        if !ok {
          MorePathsCollide(codec, p, present + (locked - remaining), present + locked);
          return;
        }
        assert present + (locked - (remaining - {p})) == present + (locked - remaining) + {p};
        remaining := remaining - {p};
      }
      assert present + (locked - remaining) == present + locked;
      HeldPathsDoNotCollide(codec, Rows(), present + locked, docs);
      return true;
    }

    method PutAll(writes: Writes, now: int, ghost present: set<Path>, ghost docs: Documents) returns (ok: bool)
      requires Holds(present, docs) && forall k :: k in writes ==> k.path in present
      modifies this`documents, this`fields
      ensures ok ==> Holds(present, Overridden(docs, writes, writes.Keys, now))
      ensures !ok ==> exists k :: k in writes && WriteCollides(codec, k, writes[k], docs.Keys + writes.Keys)
    {
      hide InStep, Overridden, Written;
      OverriddenNothing(docs, writes, now);
      var remaining := writes.Keys;
      assert writes.Keys - remaining == {};
      while remaining != {}
        invariant remaining <= writes.Keys && Holds(present, Overridden(docs, writes, writes.Keys - remaining, now))
        decreases remaining
      {
        var k :| k in remaining;
        ghost var applied := writes.Keys - remaining;
        ok := Put(Write(k, writes[k]), now, present, Overridden(docs, writes, applied, now));
        if !ok {
          MoreKeysCollide(codec, docs, writes, applied, now, k);
          return;
        }
        OverriddenNext(docs, writes, applied, now, k);
        assert writes.Keys - (remaining - {k}) == applied + {k};
        remaining := remaining - {k};
      }
      assert writes.Keys - remaining == writes.Keys;
      return true;
    }

    method DropAllEmpty(changed: set<Path>, ghost present: set<Path>, ghost docs: Documents)
      requires Holds(present, docs) && changed <= present
      modifies this`namespaces, this`paths
      ensures Holds(present - (changed - PathsOf(docs)), docs)
    {
      hide InStep, PathsOf;
      var remaining := changed;
      ghost var left := present;
      while remaining != {}
        invariant remaining <= changed && Holds(left, docs) && left == present - ((changed - remaining) - PathsOf(docs))
        decreases remaining
      {
        var p :| p in remaining;
        DropIfEmpty(p, left, docs);
        left := if p in PathsOf(docs) then left else left - {p};
        remaining := remaining - {p};
      }
      assert left == present - (changed - PathsOf(docs));
    }

    method Read(operations: seq<Operation>, ghost present: set<Path>, ghost docs: Documents) returns (r: Outcome<seq<Result>, Corruption>)
      requires Holds(present, docs) && forall i :: 0 <= i < |operations| ==> IsValidOperation(codec, operations[i])
      ensures r.Ok? ==> |r.value| == |operations| && forall i :: 0 <= i < |operations| ==> IsAnswer(codec, docs, operations[i], r.value[i])
      ensures r.Err? <==> ReadsCollision(codec, docs, operations)
    {
      hide InStep, IsSearchAnswer, IsListAnswer, IsPath, IsValidSearch, KeyCollides;
      var results: seq<Result> := [];
      var t := Tables(namespaces, paths, documents, fields);
      var i := 0;
      while i < |operations|
        invariant 0 <= i == |results| <= |operations|
        invariant forall j :: 0 <= j < i ==> IsAnswer(codec, docs, operations[j], results[j])
        invariant forall j :: 0 <= j < i && operations[j].GetOp? ==> !KeyCollides(codec, operations[j].key, docs.Keys)
      {
        var result := NoResult;
        assert IsValidOperation(codec, operations[i]);
        match operations[i] {
          case GetOp(key) =>
            GetIsExact(codec, t, present, docs, key);
            var found := Get(codec, t, key);
            if found.Err? {
              return Err(found.error);
            }
            result := GotDocument(found.value);
          case SearchOp(search) =>
            var items := RunSearch(codec, t, search, present, docs);
            result := FoundItems(items);
          case ListOp(query) =>
            var listed := RunList(codec, t, query, present, docs);
            result := ListedPaths(listed);
          case PutOp(_) =>
        }
        results := results + [result];
        i := i + 1;
      }
      return Ok(results);
    }

    /** The statements of a batch inside its transaction. */
    method RunStatements(operations: seq<Operation>, now: int, ghost docs: Documents) returns (r: Outcome<seq<Result>, Corruption>)
      requires Holds(PathsOf(docs), docs) && forall i :: 0 <= i < |operations| ==> IsValidOperation(codec, operations[i])
      modifies this
      ensures r.Ok? ==>
                && Holds(PathsOf(AfterBatch(docs, operations, now)), AfterBatch(docs, operations, now))
                && |r.value| == |operations|
                && forall i :: 0 <= i < |operations| ==> IsAnswer(codec, docs, operations[i], r.value[i])
      ensures r.Err? ==> MeetsCollision(codec, docs, operations)
    {
      hide InStep, IsAnswer, PathsOf, IsValidOperation, IsPath, LatestWrites, Overridden, PathCollides, WriteCollides, ReadsCollision;
      var writes := LatestWrites(operations);
      WrittenPathsAreValid(codec, operations);
      var changed := ChangedPaths(writes);
      var ok := LockAll(changed, PathsOf(docs), docs);
      if !ok {
        return Err(IdentityCollision);
      }
      ghost var present := PathsOf(docs) + changed;
      r := Read(operations, present, docs);
      if r.Err? {
        return;
      }
      ok := PutAll(writes, now, present, docs);
      if !ok {
        return Err(IdentityCollision);
      }
      DropAllEmpty(changed, present, AfterBatch(docs, operations, now));
      PathsAfterBatch(docs, operations, now);
    }

    /**
      A committed batch leaves the projections of the overridden documents and answers from the old
      ones; a batch that meets corruption is rolled back.
     */
    method Batch(operations: seq<Operation>, now: int, ghost docs: Documents) returns (r: Outcome<seq<Result>, Corruption>)
      requires Holds(PathsOf(docs), docs) && forall i :: 0 <= i < |operations| ==> IsValidOperation(codec, operations[i])
      modifies this
      ensures r.Ok? ==>
                && Holds(PathsOf(AfterBatch(docs, operations, now)), AfterBatch(docs, operations, now))
                && |r.value| == |operations|
                && forall i :: 0 <= i < |operations| ==> IsAnswer(codec, docs, operations[i], r.value[i])
      ensures r.Err? ==> Rows() == old(Rows())
      ensures r.Err? ==> MeetsCollision(codec, docs, operations)
    {
      hide InStep, IsAnswer, PathsOf, IsValidOperation, LatestWrites, Overridden, MeetsCollision;
      var wereNamespaces, werePaths, wereDocuments, wereFields := namespaces, paths, documents, fields;
      r := RunStatements(operations, now, docs);
      if r.Err? {
        namespaces, paths, documents, fields := wereNamespaces, werePaths, wereDocuments, wereFields;
      }
    }
  }

  // ---------------------------------------------------------------- identities behind rows

  lemma PathBehind(codec: Codec, t: Tables, present: set<Path>, docs: Documents, id: Digest) returns (p: Path)
    requires InStep(codec, t, present, docs) && id in t.namespaces
    ensures p in present && PathId(codec, p) == id && t.namespaces[id].text == PathText(p) && IsPath(p)
  {
    assert NamesPath(codec, present, id);
    p :| p in present && PathId(codec, p) == id;
  }

  lemma MorePathsCollide(codec: Codec, path: Path, among: set<Path>, more: set<Path>)
    requires PathCollides(codec, path, among) && among <= more
    ensures PathCollides(codec, path, more)
  {
  }

  lemma HeldPathsDoNotCollide(codec: Codec, t: Tables, present: set<Path>, docs: Documents)
    requires InStep(codec, t, present, docs)
    ensures forall p :: p in present ==> !PathCollides(codec, p, present)
  {
    forall p, q | p in present && q in present && PathId(codec, p) == PathId(codec, q) ensures p == q {
      StoredPathIsUnique(codec, t.namespaces, t.paths, present, p, q);
    }
  }

  lemma MoreKeysCollide(codec: Codec, docs: Documents, writes: Writes, applied: set<DocumentKey>, now: int, k: DocumentKey)
    requires applied <= writes.Keys && k in writes
    requires WriteCollides(codec, k, writes[k], Overridden(docs, writes, applied, now).Keys)
    ensures WriteCollides(codec, k, writes[k], docs.Keys + writes.Keys)
  {
    hide FieldsCollide;
    if KeyCollides(codec, k, Overridden(docs, writes, applied, now).Keys) {
      var other :| other in Overridden(docs, writes, applied, now).Keys && other != k && IdOf(codec, other) == IdOf(codec, k);
      assert other in docs.Keys + writes.Keys;
    }
  }

  /** A stored row under the key's digests with another name belongs to a colliding document. */
  lemma NameCollides(codec: Codec, t: Tables, present: set<Path>, docs: Documents, key: DocumentKey)
    requires InStep(codec, t, present, docs) && IdOf(codec, key) in t.documents && key.path in present
    requires Unhex(t.documents[IdOf(codec, key)].name) != key.name
    ensures KeyCollides(codec, key, docs.Keys)
  {
    hide InStep;
    var k := DocumentBehind(codec, t, present, docs, IdOf(codec, key));
    RowDecodes(codec, t, present, docs, k);
    assert k.name != key.name;
  }

  /** Digests that never collide meet no collision. */
  lemma CollisionFreeMeetsNone(codec: Codec, docs: Documents, operations: seq<Operation>)
    requires IsCollisionFree(codec) && (forall k :: k in docs ==> IsPath(k.path))
    requires forall i :: 0 <= i < |operations| ==> IsValidOperation(codec, operations[i])
    ensures !MeetsCollision(codec, docs, operations)
  {
    WrittenPathsAreValid(codec, operations);
    hide LatestWrites;
    var writes := LatestWrites(operations);
    forall p, q: Path | IsPath(p) && IsPath(q) && PathId(codec, p) == PathId(codec, q) ensures p == q {
      PathTextIsInjective(p, q);
    }
    forall i | 0 <= i < |operations| && operations[i].GetOp? ensures IsPath(operations[i].key.path) {
      assert IsValidOperation(codec, operations[i]);
    }
    hide PathId, IsValidOperation, IsPath;
  }

  /** The stored document found under a key's digests, when it has the key's name, is the key's own. */
  lemma SameIdIsSameKey(codec: Codec, t: Tables, present: set<Path>, docs: Documents, key: DocumentKey)
    requires InStep(codec, t, present, docs) && key.path in present
    requires IdOf(codec, key) in t.documents ==> Unhex(t.documents[IdOf(codec, key)].name) == key.name
    ensures forall l :: l in docs && IdOf(codec, l) == IdOf(codec, key) ==> l == key
    ensures IdOf(codec, key) in t.documents <==> key in docs
  {
    forall l | l in docs && IdOf(codec, l) == IdOf(codec, key) ensures l == key {
      RowDecodes(codec, t, present, docs, l);
      StoredPathIsUnique(codec, t.namespaces, t.paths, present, l.path, key.path);
    }
    hide InStep;
    if IdOf(codec, key) in t.documents {
      var k := DocumentBehind(codec, t, present, docs, IdOf(codec, key));
    }
    if key in docs {
      RowDecodes(codec, t, present, docs, key);
    }
  }

  lemma KnownCreation(codec: Codec, t: Tables, present: set<Path>, docs: Documents, key: DocumentKey, now: int)
    requires InStep(codec, t, present, docs) && key.path in present
    requires IdOf(codec, key) in t.documents ==> Unhex(t.documents[IdOf(codec, key)].name) == key.name
    ensures CreatedAt(docs, key, now) ==
            if IdOf(codec, key) in t.documents then t.documents[IdOf(codec, key)].createdAt else now
  {
    hide InStep;
    SameIdIsSameKey(codec, t, present, docs, key);
    if key in docs {
      RowDecodes(codec, t, present, docs, key);
    }
  }

  /** The last write decides: a key written last with a value holds it, and keeps the creation time it had. */
  lemma {:induction false} LastWriteWins(docs: Documents, operations: seq<Operation>, now: int, i: nat)
    requires i < |operations| && operations[i].PutOp?
    requires forall j :: i < j < |operations| && operations[j].PutOp? ==> operations[j].write.key != operations[i].write.key
    ensures
      var write, after := operations[i].write, AfterBatch(docs, operations, now);
      match write.value
      case None => write.key !in after
      case Some(value) => write.key in after && after[write.key] == Document(value, if write.key in docs then docs[write.key].createdAt else now, now)
  {
    LatestWriteAt(operations, i);
  }

  lemma {:induction false} LatestWriteAt(operations: seq<Operation>, i: nat)
    requires i < |operations| && operations[i].PutOp?
    requires forall j :: i < j < |operations| && operations[j].PutOp? ==> operations[j].write.key != operations[i].write.key
    ensures operations[i].write.key in LatestWrites(operations)
    ensures LatestWrites(operations)[operations[i].write.key] == operations[i].write.value
    decreases |operations|
  {
    if i < |operations| - 1 {
      LatestWriteAt(operations[..|operations| - 1], i);
    }
  }

  /** A key without a write keeps its document. */
  lemma {:induction false} UnwrittenIsKept(docs: Documents, operations: seq<Operation>, now: int, key: DocumentKey)
    requires forall j :: 0 <= j < |operations| && operations[j].PutOp? ==> operations[j].write.key != key
    ensures
      var after := AfterBatch(docs, operations, now);
      (key in after <==> key in docs) && (key in docs ==> after[key] == docs[key])
  {
    NoLatestWrite(operations, key);
  }

  lemma {:induction false} NoLatestWrite(operations: seq<Operation>, key: DocumentKey)
    requires forall j :: 0 <= j < |operations| && operations[j].PutOp? ==> operations[j].write.key != key
    ensures key !in LatestWrites(operations)
    decreases |operations|
  {
    if operations != [] {
      NoLatestWrite(operations[..|operations| - 1], key);
    }
  }

  /** A namespace has a document row exactly when it has a document. */
  lemma DocumentsUnder(codec: Codec, t: Tables, present: set<Path>, docs: Documents, path: Path)
    requires InStep(codec, t, present, docs) && path in present
    ensures (exists d :: d in t.documents && d.0 == PathId(codec, path)) <==> path in PathsOf(docs)
  {
    if d :| d in t.documents && d.0 == PathId(codec, path) {
      var k := DocumentBehind(codec, t, present, docs, d);
      StoredPathIsUnique(codec, t.namespaces, t.paths, present, k.path, path);
      assert k.path in PathsOf(docs);
    }
    if path in PathsOf(docs) {
      var k :| k in docs && k.path == path;
      RowDecodes(codec, t, present, docs, k);
      assert IdOf(codec, k).0 == PathId(codec, path);
    }
  }

  /** After the empty ones are dropped, the namespaces present are those of the documents. */
  lemma PathsAfterBatch(docs: Documents, operations: seq<Operation>, now: int)
    ensures
      var changed := ChangedPaths(LatestWrites(operations));
      var after := AfterBatch(docs, operations, now);
      PathsOf(docs) + changed - (changed - PathsOf(after)) == PathsOf(after)
  {
    hide LatestWrites;
    var writes := LatestWrites(operations);
    var changed := ChangedPaths(writes);
    var after := AfterBatch(docs, operations, now);
    forall p | p in PathsOf(docs) && p !in changed ensures p in PathsOf(after) {
      var k :| k in docs && k.path == p;
      assert k in after;
    }
    forall p | p in PathsOf(after) ensures p in PathsOf(docs) + changed {
      var k :| k in after && k.path == p;
    }
  }
}
