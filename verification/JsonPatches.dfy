/** JSON Pointer (RFC 6901): escaping of keys when a pointer is written, and reading it back. */
module JsonPointers {
  import opened Outcomes

  /** `text.replace(c, instead)` for a single character. */
  function ReplaceChar(text: string, c: char, instead: string): string {
    if text == "" then "" else (if text[0] == c then instead else [text[0]]) + ReplaceChar(text[1..], c, instead)
  }

  function EscapeKey(key: string): string {
    ReplaceChar(ReplaceChar(key, '~', "~0"), '/', "~1")
  }

  /** Every `~` followed by `mark` becomes `c`, from left to right. */
  function ReplaceMark(text: string, mark: char, c: char): string {
    if text == "" then ""
    else if |text| > 1 && text[0] == '~' && text[1] == mark then [c] + ReplaceMark(text[2..], mark, c)
    else [text[0]] + ReplaceMark(text[1..], mark, c)
  }

  /** Section 4 of RFC 6901: first `~1`, then `~0`. */
  function UnescapeToken(token: string): string {
    ReplaceMark(ReplaceMark(token, '1', '/'), '0', '~')
  }

  lemma {:induction false} ReplaceConcatenated(first: string, second: string, c: char, instead: string)
    ensures ReplaceChar(first + second, c, instead) == ReplaceChar(first, c, instead) + ReplaceChar(second, c, instead)
  {
    if first == "" {
      assert first + second == second;
    } else {
      assert (first + second)[1..] == first[1..] + second;
      ReplaceConcatenated(first[1..], second, c, instead);
    }
  }

  /** How one character of a key is written. */
  function EscapedChar(c: char): string {
    if c == '~' then "~0" else if c == '/' then "~1" else [c]
  }

  lemma EscapeFirst(key: string)
    requires key != ""
    ensures EscapeKey(key) == EscapedChar(key[0]) + EscapeKey(key[1..])
  {
    var first := if key[0] == '~' then "~0" else [key[0]];
    ReplaceConcatenated(first, ReplaceChar(key[1..], '~', "~0"), '/', "~1");
    assert ReplaceChar("", '/', "~1") == "";
    assert "~0"[1..] == "0" && "0"[1..] == "" && [key[0]][1..] == "";
    assert ReplaceChar("0", '/', "~1") == "0";
  }

  lemma {:induction false} UnmarkSlashes(key: string)
    ensures ReplaceMark(EscapeKey(key), '1', '/') == ReplaceChar(key, '~', "~0")
  {
    if key != "" {
      var c, rest := key[0], EscapeKey(key[1..]);
      UnmarkSlashes(key[1..]);
      EscapeFirst(key);
      if c == '~' {
        assert ("~0" + rest)[1..] == "0" + rest && ("0" + rest)[1..] == rest;
        assert ReplaceMark("0" + rest, '1', '/') == "0" + ReplaceMark(rest, '1', '/');
      } else if c == '/' {
        assert ("~1" + rest)[2..] == rest;
      } else {
        assert ([c] + rest)[1..] == rest;
      }
    }
  }

  lemma {:induction false} UnmarkTildes(key: string)
    ensures ReplaceMark(ReplaceChar(key, '~', "~0"), '0', '~') == key
  {
    if key != "" {
      var c, rest := key[0], key[1..];
      UnmarkTildes(rest);
      var escaped, tail := ReplaceChar(key, '~', "~0"), ReplaceChar(rest, '~', "~0");
      if c == '~' {
        assert escaped == "~0" + tail && escaped[2..] == tail;
      } else {
        assert escaped == [c] + tail && escaped[1..] == tail;
      }
    }
  }

  /** Reading an escaped key gives the key back. */
  lemma EscapeRoundTrip(key: string)
    ensures UnescapeToken(EscapeKey(key)) == key
  {
    UnmarkSlashes(key);
    UnmarkTildes(key);
  }

  lemma {:induction false} ReplacedCharIsGone(text: string, c: char, instead: string)
    requires c !in instead
    ensures c !in ReplaceChar(text, c, instead)
  {
    if text != "" {
      ReplacedCharIsGone(text[1..], c, instead);
    }
  }

  /** `text.split("/")`. */
  function SplitTokens(text: string): seq<string> {
    if text == "" then [""]
    else
      var rest := SplitTokens(text[1..]);
      if text[0] == '/' then [""] + rest
      else if rest == [] then [[text[0]]]
      else [[text[0]] + rest[0]] + rest[1..]
  }

  lemma {:induction false} SplitAfterToken(token: string, rest: string)
    requires '/' !in token && (rest == "" || rest[0] == '/')
    ensures SplitTokens(token + rest) == [token] + if rest == "" then [] else SplitTokens(rest[1..])
  {
    if token == "" {
      assert token + rest == rest;
    } else {
      assert (token + rest)[1..] == token[1..] + rest;
      SplitAfterToken(token[1..], rest);
      assert token == [token[0]] + token[1..];
    }
  }

  /** The pointer to a member reached through these keys. */
  function WritePointer(keys: seq<string>): string {
    if keys == [] then "" else "/" + EscapeKey(keys[0]) + WritePointer(keys[1..])
  }

  /** Section 3 of RFC 6901; None for text that is no pointer. */
  function ReadPointer(text: string): Option<seq<string>> {
    if text == "" then Some([])
    else if text[0] != '/' then None
    else
      var tokens := SplitTokens(text[1..]);
      Some(seq(|tokens|, i requires 0 <= i < |tokens| => UnescapeToken(tokens[i])))
  }

  lemma {:induction false} SplitPointer(keys: seq<string>)
    requires keys != []
    ensures SplitTokens(WritePointer(keys)[1..]) == seq(|keys|, i requires 0 <= i < |keys| => EscapeKey(keys[i]))
  {
    var first, rest := EscapeKey(keys[0]), WritePointer(keys[1..]);
    assert WritePointer(keys)[1..] == first + rest;
    ReplacedCharIsGone(ReplaceChar(keys[0], '~', "~0"), '/', "~1");
    SplitAfterToken(first, rest);
    if |keys| > 1 {
      SplitPointer(keys[1..]);
    }
  }

  /** Reading a written pointer gives its keys back. */
  lemma PointerRoundTrip(keys: seq<string>)
    ensures ReadPointer(WritePointer(keys)) == Some(keys)
  {
    if keys != [] {
      SplitPointer(keys);
      forall i | 0 <= i < |keys| ensures UnescapeToken(EscapeKey(keys[i])) == keys[i] {
        EscapeRoundTrip(keys[i]);
      }
      assert ReadPointer(WritePointer(keys)).value == keys;
    }
  }
}

/**
  JSON Patch (RFC 6902): the patch the adapter computes between two root states, and the client that
  applies it.
 */
module JsonPatches {
  import opened Outcomes
  import opened JsonValues
  import opened StringOrder
  import opened JsonPointers

  datatype PatchOperation =
    | Add(path: string, value: Json)
    | Remove(path: string)
    | Replace(path: string, value: Json)

  // ---------------------------------------------------------------- the adapter's patch

  function Removals(keys: seq<string>, path: string): seq<PatchOperation> {
    seq(|keys|, i requires 0 <= i < |keys| => Remove(path + "/" + EscapeKey(keys[i])))
  }

  predicate AllIn(keys: seq<string>, fields: map<string, Json>) {
    forall k :: k in keys ==> k in fields
  }

  function Additions(keys: seq<string>, fields: map<string, Json>, path: string): seq<PatchOperation>
    requires AllIn(keys, fields)
  {
    seq(|keys|, i requires 0 <= i < |keys| => Add(path + "/" + EscapeKey(keys[i]), fields[keys[i]]))
  }

  /** Remove what is gone, add what is new, descend into what both have, each in key order. */
  function JsonPatch(previous: Json, current: Json, path: string): seq<PatchOperation>
    decreases previous, 1, 0
  {
    if JsonValuesEqual(previous, current) then []
    else if previous.Object? && current.Object? then
      var was, next := previous.fields, current.fields;
      Removals(SortedKeys(was.Keys - next.Keys), path)
      + Additions(SortedKeys(next.Keys - was.Keys), next, path)
      + Descents(previous, current, SortedKeys(was.Keys * next.Keys), path)
    else [Replace(path, current)]
  }

  function Descents(previous: Json, current: Json, keys: seq<string>, path: string): seq<PatchOperation>
    requires previous.Object? && current.Object?
    requires AllIn(keys, previous.fields) && AllIn(keys, current.fields)
    decreases previous, 0, |keys|
  {
    if keys == [] then []
    else
      JsonPatch(previous.fields[keys[0]], current.fields[keys[0]], path + "/" + EscapeKey(keys[0]))
      + Descents(previous, current, keys[1..], path)
  }

  // ---------------------------------------------------------------- the client

  /** The target of an operation, reached through object members. */
  datatype Edit = Put(value: Json, needsTarget: bool) | Drop

  /** Sections 4.1 to 4.3 of RFC 6902 on object members and the whole document; None is a failure. */
  function EditAt(document: Json, keys: seq<string>, edit: Edit): Option<Json>
    decreases |keys|
  {
    if keys == [] then if edit.Put? then Some(edit.value) else None
    else if !document.Object? then None
    else
      var fields := document.fields;
      if |keys| == 1 then
        match edit
        case Put(value, needsTarget) =>
          if needsTarget && keys[0] !in fields then None else Some(Object(fields[keys[0] := value]))
        case Drop => if keys[0] !in fields then None else Some(Object(fields - {keys[0]}))
      else if keys[0] !in fields then None
      else
        match EditAt(fields[keys[0]], keys[1..], edit)
        case None => None
        case Some(inner) => Some(Object(fields[keys[0] := inner]))
  }

  function EditOf(operation: PatchOperation): Edit {
    match operation
    case Add(_, value) => Put(value, false)
    case Remove(_) => Drop
    case Replace(_, value) => Put(value, true)
  }

  function ApplyOperation(document: Json, operation: PatchOperation): Option<Json> {
    match ReadPointer(operation.path)
    case None => None
    case Some(keys) => EditAt(document, keys, EditOf(operation))
  }

  /** Operations are applied in order; the first failure fails the patch. */
  function ApplyPatch(document: Json, operations: seq<PatchOperation>): Option<Json>
    decreases |operations|
  {
    if operations == [] then Some(document)
    else
      match ApplyOperation(document, operations[0])
      case None => None
      case Some(next) => ApplyPatch(next, operations[1..])
  }

  lemma {:induction false} ApplyConcatenated(document: Json, first: seq<PatchOperation>, second: seq<PatchOperation>)
    ensures ApplyPatch(document, first + second) ==
            match ApplyPatch(document, first)
            case None => None
            case Some(middle) => ApplyPatch(middle, second)
    decreases |first|
  {
    if first == [] {
      assert first + second == second;
    } else {
      assert (first + second)[1..] == first[1..] + second;
      match ApplyOperation(document, first[0])
      case None =>
      case Some(next) => ApplyConcatenated(next, first[1..], second);
    }
  }

  // ---------------------------------------------------------------- documents seen through a prefix

  /** The member at the end of these keys. */
  ghost function MemberAt(document: Json, keys: seq<string>): Option<Json>
    decreases |keys|
  {
    if keys == [] then Some(document)
    else if document.Object? && keys[0] in document.fields then MemberAt(document.fields[keys[0]], keys[1..])
    else None
  }

  /** The document with that member replaced. */
  ghost function WithMember(document: Json, keys: seq<string>, value: Json): Json
    requires MemberAt(document, keys).Some?
    decreases |keys|
  {
    if keys == [] then value
    else Object(document.fields[keys[0] := WithMember(document.fields[keys[0]], keys[1..], value)])
  }

  lemma {:induction false} MemberReplaced(document: Json, keys: seq<string>, value: Json)
    requires MemberAt(document, keys).Some?
    ensures MemberAt(WithMember(document, keys, value), keys) == Some(value)
    ensures forall other :: WithMember(WithMember(document, keys, value), keys, other) == WithMember(document, keys, other)
    decreases |keys|
  {
    if keys != [] {
      MemberReplaced(document.fields[keys[0]], keys[1..], value);
      forall other
        ensures WithMember(WithMember(document, keys, value), keys, other) == WithMember(document, keys, other)
      {
        var key, inner := keys[0], WithMember(document.fields[keys[0]], keys[1..], value);
        assert document.fields[key := inner][key := WithMember(inner, keys[1..], other)]
            == document.fields[key := WithMember(inner, keys[1..], other)];
      }
    }
  }

  lemma {:induction false} MemberUnchanged(document: Json, keys: seq<string>, value: Json)
    requires MemberAt(document, keys) == Some(value)
    ensures WithMember(document, keys, value) == document
    decreases |keys|
  {
    if keys != [] {
      MemberUnchanged(document.fields[keys[0]], keys[1..], value);
      assert document.fields[keys[0] := document.fields[keys[0]]] == document.fields;
    }
  }

  /** An edit below a member changes that member and nothing else. */
  lemma {:induction false} EditBelow(document: Json, keys: seq<string>, more: seq<string>, edit: Edit)
    requires MemberAt(document, keys).Some? && (more != [] || (edit.Put? && edit.needsTarget))
    ensures EditAt(document, keys + more, edit) ==
            match EditAt(MemberAt(document, keys).value, more, edit)
            case None => None
            case Some(inner) => Some(WithMember(document, keys, inner))
    decreases |keys|
  {
    if keys == [] {
      assert keys + more == more;
    } else {
      assert (keys + more)[1..] == keys[1..] + more;
      EditBelow(document.fields[keys[0]], keys[1..], more, edit);
    }
  }

  /** One operation on a member of the object at `keys`. */
  lemma ApplyToMember(document: Json, keys: seq<string>, key: string, operation: PatchOperation)
    requires operation.path == WritePointer(keys) + "/" + EscapeKey(key)
    requires MemberAt(document, keys).Some?
    ensures ApplyOperation(document, operation) ==
            match EditAt(MemberAt(document, keys).value, [key], EditOf(operation))
            case None => None
            case Some(inner) => Some(WithMember(document, keys, inner))
  {
    PointerExtends(keys, key);
    PointerRoundTrip(keys + [key]);
    EditBelow(document, keys, [key], EditOf(operation));
  }

  lemma {:induction false} PointerExtends(keys: seq<string>, key: string)
    ensures WritePointer(keys + [key]) == WritePointer(keys) + "/" + EscapeKey(key)
  {
    if keys == [] {
      assert keys + [key] == [key] && [key][1..] == [];
    } else {
      assert (keys + [key])[1..] == keys[1..] + [key];
      PointerExtends(keys[1..], key);
    }
  }

  // ---------------------------------------------------------------- applying the adapter's patch

  lemma DroppedFirst(fields: map<string, Json>, keys: seq<string>)
    requires keys != [] && IsSorted(keys) && AllIn(keys, fields)
    ensures AllIn(keys[1..], fields - {keys[0]})
    ensures fields - {keys[0]} - (set k | k in keys[1..]) == fields - (set k | k in keys)
  {
    hide AtMost;
    assert forall k :: k in keys <==> k == keys[0] || k in keys[1..] by {
      assert keys == [keys[0]] + keys[1..];
    }
  }

  lemma {:induction false} ApplyRemovals(document: Json, keys: seq<string>, removed: seq<string>, fields: map<string, Json>)
    requires MemberAt(document, keys) == Some(Object(fields))
    requires IsSorted(removed) && AllIn(removed, fields)
    ensures ApplyPatch(document, Removals(removed, WritePointer(keys))) ==
            Some(WithMember(document, keys, Object(fields - (set k | k in removed))))
    decreases |removed|
  {
    hide AtMost, WithMember, MemberAt;
    var operations := Removals(removed, WritePointer(keys));
    if removed == [] {
      MemberUnchanged(document, keys, Object(fields));
      assert fields - (set k | k in removed) == fields;
    } else {
      ApplyToMember(document, keys, removed[0], operations[0]);
      var smaller := fields - {removed[0]};
      DroppedFirst(fields, removed);
      MemberReplaced(document, keys, Object(smaller));
      assert operations[1..] == Removals(removed[1..], WritePointer(keys));
      ApplyRemovals(WithMember(document, keys, Object(smaller)), keys, removed[1..], smaller);
    }
  }

  /** `fields` with the members of `source` named by `keys`. */
  ghost function Copied(fields: map<string, Json>, keys: seq<string>, source: map<string, Json>): map<string, Json>
    requires AllIn(keys, source)
  {
    map k | k in fields.Keys + (set x | x in keys) :: if k in keys then source[k] else fields[k]
  }

  lemma CopiedNothing(fields: map<string, Json>, source: map<string, Json>)
    ensures Copied(fields, [], source) == fields
  {
  }

  lemma CopiedFirst(fields: map<string, Json>, keys: seq<string>, source: map<string, Json>)
    requires keys != [] && AllIn(keys, source)
    ensures AllIn(keys[1..], source)
    ensures Copied(fields[keys[0] := source[keys[0]]], keys[1..], source) == Copied(fields, keys, source)
  {
    assert forall k :: k in keys <==> k == keys[0] || k in keys[1..] by {
      assert keys == [keys[0]] + keys[1..];
    }
  }

  /** Dropping what is gone, copying what is new and then what both have leaves exactly the new fields. */
  lemma CopiedEverything(was: map<string, Json>, next: map<string, Json>, removed: seq<string>, added: seq<string>, common: seq<string>)
    requires forall k :: k in removed <==> k in was.Keys - next.Keys
    requires forall k :: k in added <==> k in next.Keys - was.Keys
    requires forall k :: k in common <==> k in was.Keys * next.Keys
    ensures AllIn(removed, was) && AllIn(added, next) && AllIn(common, was) && AllIn(common, next)
    ensures
      var grown := Copied(was - (set k | k in removed), added, next);
      && AllIn(common, grown)
      && (forall k :: k in common ==> grown[k] == was[k])
      && Copied(grown, common, next) == next
  {
  }

  lemma {:induction false} ApplyAdditions(
    document: Json, keys: seq<string>, added: seq<string>, fields: map<string, Json>, source: map<string, Json>)
    requires MemberAt(document, keys) == Some(Object(fields))
    requires AllIn(added, source)
    ensures ApplyPatch(document, Additions(added, source, WritePointer(keys))) ==
            Some(WithMember(document, keys, Object(Copied(fields, added, source))))
    decreases |added|
  {
    hide Copied;
    var operations := Additions(added, source, WritePointer(keys));
    if added == [] {
      MemberUnchanged(document, keys, Object(fields));
      CopiedNothing(fields, source);
    } else {
      ApplyToMember(document, keys, added[0], operations[0]);
      var larger := fields[added[0] := source[added[0]]];
      MemberReplaced(document, keys, Object(larger));
      assert operations[1..] == Additions(added[1..], source, WritePointer(keys));
      ApplyAdditions(WithMember(document, keys, Object(larger)), keys, added[1..], larger, source);
      CopiedFirst(fields, added, source);
    }
  }

  /** A patch computed for a member turns that member, and only it, from `previous` into `current`. */
  lemma {:induction false} ApplyPatchBelow(document: Json, keys: seq<string>, previous: Json, current: Json)
    requires MemberAt(document, keys) == Some(previous)
    ensures ApplyPatch(document, JsonPatch(previous, current, WritePointer(keys))) == Some(WithMember(document, keys, current))
    decreases previous, 2, 0
  {
    EqualMeansIdentical(previous, current);
    if previous == current {
      MemberUnchanged(document, keys, previous);
    } else if previous.Object? && current.Object? {
      ApplyObjectPatch(document, keys, previous, current);
    } else {
      PointerRoundTrip(keys);
      EditBelow(document, keys, [], Put(current, true));
      assert keys + [] == keys;
    }
  }

  lemma {:induction false} ApplyObjectPatch(document: Json, keys: seq<string>, previous: Json, current: Json)
    requires MemberAt(document, keys) == Some(previous) && previous.Object? && current.Object? && previous != current
    ensures ApplyPatch(document, JsonPatch(previous, current, WritePointer(keys))) == Some(WithMember(document, keys, current))
    decreases previous, 1, 0
  {
    hide Copied, Removals, Additions, Descents, WithMember, MemberAt, ApplyPatch, JsonValuesEqual;
    var was, next, path := previous.fields, current.fields, WritePointer(keys);
    var removed, added, common := SortedKeys(was.Keys - next.Keys), SortedKeys(next.Keys - was.Keys), SortedKeys(was.Keys * next.Keys);
    EqualMeansIdentical(previous, current);
    CopiedEverything(was, next, removed, added, common);
    ApplyRemovals(document, keys, removed, was);
    var kept := was - (set k | k in removed);
    var first := WithMember(document, keys, Object(kept));
    MemberReplaced(document, keys, Object(kept));
    ApplyAdditions(first, keys, added, kept, next);
    var grown := Copied(kept, added, next);
    var second := WithMember(first, keys, Object(grown));
    MemberReplaced(first, keys, Object(grown));
    ApplyDescents(second, keys, previous, current, common, grown);
    ApplyConcatenated(document, Removals(removed, path), Additions(added, next, path));
    ApplyConcatenated(document, Removals(removed, path) + Additions(added, next, path), Descents(previous, current, common, path));
  }

  lemma {:induction false} ApplyDescents(
    document: Json, keys: seq<string>, previous: Json, current: Json, common: seq<string>, fields: map<string, Json>)
    requires previous.Object? && current.Object? && MemberAt(document, keys) == Some(Object(fields))
    requires IsSorted(common)
    requires AllIn(common, previous.fields) && AllIn(common, current.fields) && AllIn(common, fields)
    requires forall k :: k in common ==> fields[k] == previous.fields[k]
    ensures ApplyPatch(document, Descents(previous, current, common, WritePointer(keys))) ==
            Some(WithMember(document, keys, Object(Copied(fields, common, current.fields))))
    decreases previous, 0, |common|
  {
    hide Copied, JsonPatch, WithMember, MemberAt;
    if common == [] {
      MemberUnchanged(document, keys, Object(fields));
      CopiedNothing(fields, current.fields);
    } else {
      var key := common[0];
      PointerExtends(keys, key);
      MemberBelow(document, keys, key);
      ApplyPatchBelow(document, keys + [key], previous.fields[key], current.fields[key]);
      var updated := fields[key := current.fields[key]];
      WithMemberBelow(document, keys, key, current.fields[key]);
      var next := WithMember(document, keys, Object(updated));
      MemberReplaced(document, keys, Object(updated));
      ApplyDescents(next, keys, previous, current, common[1..], updated);
      ApplyConcatenated(document, JsonPatch(previous.fields[key], current.fields[key], WritePointer(keys) + "/" + EscapeKey(key)),
                        Descents(previous, current, common[1..], WritePointer(keys)));
      CopiedFirst(fields, common, current.fields);
    }
  }

  lemma {:induction false} MemberBelow(document: Json, keys: seq<string>, key: string)
    requires MemberAt(document, keys).Some? && MemberAt(document, keys).value.Object?
    requires key in MemberAt(document, keys).value.fields
    ensures MemberAt(document, keys + [key]) == Some(MemberAt(document, keys).value.fields[key])
    decreases |keys|
  {
    if keys == [] {
      assert keys + [key] == [key] && [key][1..] == [];
    } else {
      assert (keys + [key])[1..] == keys[1..] + [key];
      MemberBelow(document.fields[keys[0]], keys[1..], key);
    }
  }

  lemma {:induction false} WithMemberBelow(document: Json, keys: seq<string>, key: string, value: Json)
    requires MemberAt(document, keys).Some? && MemberAt(document, keys).value.Object?
    requires MemberAt(document, keys + [key]).Some?
    ensures WithMember(document, keys + [key], value) ==
            WithMember(document, keys, Object(MemberAt(document, keys).value.fields[key := value]))
    decreases |keys|
  {
    if keys == [] {
      assert keys + [key] == [key] && [key][1..] == [];
    } else {
      assert (keys + [key])[1..] == keys[1..] + [key];
      WithMemberBelow(document.fields[keys[0]], keys[1..], key, value);
    }
  }

  /** Applying the patch to the previous state gives the current one. */
  lemma PatchIsExact(previous: Json, current: Json)
    ensures ApplyPatch(previous, JsonPatch(previous, current, "")) == Some(current)
  {
    ApplyPatchBelow(previous, [], previous, current);
  }

  /** The patch is empty exactly when there is nothing to change. */
  lemma PatchIsEmptyForEqualStates(previous: Json, current: Json)
    ensures JsonPatch(previous, current, "") == [] <==> previous == current
  {
    PatchIsExact(previous, current);
    EqualMeansIdentical(previous, current);
  }
}

/** The root state a client rebuilds from snapshots and deltas. */
module StateReplica {
  import opened Outcomes
  import opened JsonValues
  import opened JsonPatches

  datatype StateEvent = StateSnapshot(snapshot: Json) | StateDelta(delta: seq<PatchOperation>)

  /** One values frame: the graph's state, where it comes from, and whether it publishes interrupts. */
  datatype Frame = Frame(isRoot: bool, data: map<string, Json>, publishesInterrupts: bool)

  const MessageStateKey := "messages"

  /** Messages have their own channel, and private keys are never published. */
  function VisibleState(data: map<string, Json>, private: set<string>): map<string, Json> {
    map k | k in data && k != MessageStateKey && k !in private :: data[k]
  }

  /** What the adapter remembers, and the events it publishes for a frame. */
  datatype Published = Published(previous: Option<Json>, events: seq<StateEvent>)

  function EmitState(previous: Option<Json>, private: set<string>, frame: Frame): Published {
    var fields := VisibleState(frame.data, private);
    var current := Object(fields);
    if !frame.isRoot then Published(previous, [])
    else if frame.publishesInterrupts then Published(Some(current), [StateSnapshot(current)])
    else if previous.None? && fields == map[] then Published(None, [])
    else if previous.None? then Published(Some(current), [StateSnapshot(current)])
    else
      var operations := JsonPatch(previous.value, current, "");
      Published(Some(current), if operations == [] then [] else [StateDelta(operations)])
  }

  /** The client's state; a delta without a baseline, or one that fails, is an error. */
  function Receive(replica: Option<Json>, event: StateEvent): Outcome<Option<Json>, StateEvent> {
    match event
    case StateSnapshot(snapshot) => Ok(Some(snapshot))
    case StateDelta(delta) =>
      if replica.None? then Err(event)
      else
        match ApplyPatch(replica.value, delta)
        case None => Err(event)
        case Some(next) => Ok(Some(next))
  }

  function ReceiveAll(replica: Option<Json>, events: seq<StateEvent>): Outcome<Option<Json>, StateEvent>
    decreases |events|
  {
    if events == [] then Ok(replica)
    else
      match Receive(replica, events[0])
      case Err(event) => Err(event)
      case Ok(next) => ReceiveAll(next, events[1..])
  }

  function EmitAll(previous: Option<Json>, private: set<string>, frames: seq<Frame>): Published
    decreases |frames|
  {
    if frames == [] then Published(previous, [])
    else
      var first := EmitState(previous, private, frames[0]);
      var rest := EmitAll(first.previous, private, frames[1..]);
      Published(rest.previous, first.events + rest.events)
  }

  lemma {:induction false} ReceiveConcatenated(replica: Option<Json>, first: seq<StateEvent>, second: seq<StateEvent>)
    ensures ReceiveAll(replica, first + second) ==
            match ReceiveAll(replica, first)
            case Err(event) => Err(event)
            case Ok(middle) => ReceiveAll(middle, second)
    decreases |first|
  {
    if first == [] {
      assert first + second == second;
    } else {
      assert (first + second)[1..] == first[1..] + second;
      match Receive(replica, first[0])
      case Err(_) =>
      case Ok(next) => ReceiveConcatenated(next, first[1..], second);
    }
  }

  lemma FrameKeepsReplicaExact(previous: Option<Json>, private: set<string>, frame: Frame)
    ensures
      var published := EmitState(previous, private, frame);
      && ReceiveAll(previous, published.events) == Ok(published.previous)
      && (published.previous != previous ==> published.events != [])
  {
    var current := Object(VisibleState(frame.data, private));
    if previous.Some? {
      PatchIsExact(previous.value, current);
      PatchIsEmptyForEqualStates(previous.value, current);
    }
  }

  /** Over any run of frames the client holds exactly the adapter's last root state, and no event fails. */
  lemma {:induction false} ReplicaStaysExact(previous: Option<Json>, private: set<string>, frames: seq<Frame>)
    ensures
      var published := EmitAll(previous, private, frames);
      ReceiveAll(previous, published.events) == Ok(published.previous)
    decreases |frames|
  {
    if frames != [] {
      var first := EmitState(previous, private, frames[0]);
      FrameKeepsReplicaExact(previous, private, frames[0]);
      ReplicaStaysExact(first.previous, private, frames[1..]);
      ReceiveConcatenated(previous, first.events, EmitAll(first.previous, private, frames[1..]).events);
    }
  }

  /** The visible state of the last root frame, if there was one. */
  function LastRootState(frames: seq<Frame>, private: set<string>): Option<map<string, Json>>
    decreases |frames|
  {
    if frames == [] then None
    else if frames[|frames| - 1].isRoot then Some(VisibleState(frames[|frames| - 1].data, private))
    else LastRootState(frames[..|frames| - 1], private)
  }

  /**
    From the start of a run the client holds the visible part of the last root frame; it holds nothing
    only while every root frame so far was visibly empty.
   */
  lemma {:induction false} ClientHoldsTheLastRootState(private: set<string>, frames: seq<Frame>)
    ensures
      var replica := ReceiveAll(None, EmitAll(None, private, frames).events);
      var last := LastRootState(frames, private);
      && replica.Ok?
      && match replica.value
         case Some(state) => last.Some? && state == Object(last.value)
         case None => forall i :: 0 <= i < |frames| && frames[i].isRoot ==> VisibleState(frames[i].data, private) == map[]
  {
    ReplicaStaysExact(None, private, frames);
    RememberedState(private, frames);
  }

  /** The fields of a frame that a client may see: neither messages nor private ones. */
  ghost predicate IsSeen(state: Json, data: map<string, Json>, private: set<string>) {
    && state.Object?
    && (forall k :: k in state.fields <==> k in data && k != "messages" && k !in private)
    && (forall k :: k in state.fields ==> state.fields[k] == data[k])
  }

  predicate IsLastRoot(frames: seq<Frame>, i: nat) {
    i < |frames| && frames[i].isRoot && forall j :: i < j < |frames| ==> !frames[j].isRoot
  }

  lemma {:induction false} LastRootIsLast(frames: seq<Frame>, private: set<string>) returns (i: nat)
    requires LastRootState(frames, private).Some?
    ensures IsLastRoot(frames, i) && IsSeen(Object(LastRootState(frames, private).value), frames[i].data, private)
    decreases |frames|
  {
    var n := |frames| - 1;
    if frames[n].isRoot {
      return n;
    }
    i := LastRootIsLast(frames[..n], private);
    assert frames[..n][i] == frames[i];
  }

  /** After any run of frames a client has seen no message and no private key: it holds the other fields of the last root frame. */
  lemma ClientSeesNothingPrivate(private: set<string>, frames: seq<Frame>)
    ensures
      var replica := ReceiveAll(None, EmitAll(None, private, frames).events);
      && replica.Ok?
      && match replica.value
         case Some(state) => exists i: nat :: IsLastRoot(frames, i) && IsSeen(state, frames[i].data, private)
         case None => forall i :: 0 <= i < |frames| && frames[i].isRoot ==> forall k :: k in frames[i].data ==> k == "messages" || k in private
  {
    ClientHoldsTheLastRootState(private, frames);
    if LastRootState(frames, private).Some? {
      var i := LastRootIsLast(frames, private);
    }
    forall i, k | 0 <= i < |frames| && VisibleState(frames[i].data, private) == map[] && k in frames[i].data
      ensures k == "messages" || k in private
    {
      assert k !in VisibleState(frames[i].data, private);
    }
    hide ReceiveAll, EmitAll, VisibleState, LastRootState;
  }

  lemma {:induction false} RememberedState(private: set<string>, frames: seq<Frame>)
    ensures
      var last := LastRootState(frames, private);
      match EmitAll(None, private, frames).previous
      case Some(state) => last.Some? && state == Object(last.value)
      case None => forall i :: 0 <= i < |frames| && frames[i].isRoot ==> VisibleState(frames[i].data, private) == map[]
    decreases |frames|
  {
    if frames != [] {
      var front := frames[..|frames| - 1];
      RememberedState(private, front);
      EmitLast(None, private, frames);
      assert forall i :: 0 <= i < |front| ==> front[i] == frames[i];
    }
  }

  lemma {:induction false} EmitLast(previous: Option<Json>, private: set<string>, frames: seq<Frame>)
    requires frames != []
    ensures
      var last := |frames| - 1;
      EmitAll(previous, private, frames).previous ==
      EmitState(EmitAll(previous, private, frames[..last]).previous, private, frames[last]).previous
    decreases |frames|
  {
    if |frames| > 1 {
      var next := EmitState(previous, private, frames[0]).previous;
      EmitLast(next, private, frames[1..]);
      assert frames[1..][..|frames| - 2] == frames[..|frames| - 1][1..];
    }
  }
}
