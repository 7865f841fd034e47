/**
  The field index of the document store: exact typed equality keys, the number column that range
  filters compare, and the filter expression over index rows.
 */
module DocumentFields {
  import opened Outcomes
  import opened JsonValues
  import opened StringOrder

  type Digest = nat

  /** The digests, which may collide, and the rounding of integers to binary64, which may overflow. */
  datatype Codec = Codec(
    textDigest: string -> Digest,
    keyDigest: seq<int> -> Digest,
    fieldDigest: string -> Digest,
    valueDigest: EqualityKey -> Digest,
    toFloat: int -> Option<real>)

  // ---------------------------------------------------------------- exact typed equality

  /** The value that is serialized as an equality key; numbers are exact ratios. */
  datatype EqualityKey =
    | NullKey
    | BoolKey(truth: bool)
    | NumberKey(ratio: real)
    | TextKey(text: string)
    | ArrayKey(items: seq<EqualityKey>)
    | ObjectKey(members: seq<(string, EqualityKey)>)

  function KeyOf(value: Json): EqualityKey {
    match value
    case Null => NullKey
    case Bool(truth) => BoolKey(truth)
    case Int(whole) => NumberKey(whole as real)
    case Float(number) => NumberKey(number)
    case Text(text) => TextKey(text)
    case Array(items) => ArrayKey(seq(|items|, i requires 0 <= i < |items| => KeyOf(items[i])))
    case Object(fields) =>
      var keys := SortedKeys(fields.Keys);
      ObjectKey(seq(|keys|, i requires 0 <= i < |keys| => (keys[i], KeyOf(fields[keys[i]]))))
  }

  predicate IsNumber(value: Json) {
    value.Int? || value.Float?
  }

  function ExactNumber(value: Json): real
    requires IsNumber(value)
  {
    if value.Int? then value.whole as real else value.number
  }

  /** Equality that separates booleans, numbers and text but not integers from equal floats. */
  predicate SameValue(a: Json, b: Json) {
    if IsNumber(a) && IsNumber(b) then ExactNumber(a) == ExactNumber(b)
    else
      match (a, b)
      case (Object(l), Object(r)) => l.Keys == r.Keys && forall k :: k in l ==> SameValue(l[k], r[k])
      case (Array(l), Array(r)) => |l| == |r| && forall i :: 0 <= i < |l| ==> SameValue(l[i], r[i])
      case _ => a == b
  }

  /** Equal keys mean equal values, and the other way around. */
  lemma {:induction false} KeysAreExact(a: Json, b: Json)
    ensures KeyOf(a) == KeyOf(b) <==> SameValue(a, b)
    decreases a, 1
  {
    match (a, b)
    case (Object(l), Object(r)) => ObjectKeysAreExact(a, b);
    case (Array(l), Array(r)) => ArrayKeysAreExact(a, b);
    case _ =>
  }

  lemma {:induction false} ArrayKeysAreExact(a: Json, b: Json)
    requires a.Array? && b.Array?
    ensures KeyOf(a) == KeyOf(b) <==> SameValue(a, b)
    decreases a, 0
  {
    var l, r := a.items, b.items;
    var x, y := KeyOf(a).items, KeyOf(b).items;
    if |l| == |r| {
      forall i | 0 <= i < |l| ensures x[i] == y[i] <==> SameValue(l[i], r[i]) {
        KeysAreExact(l[i], r[i]);
      }
      if SameValue(a, b) {
        assert x == y;
      }
    } else {
      assert |x| != |y|;
    }
  }

  lemma {:induction false} ObjectKeysAreExact(a: Json, b: Json)
    requires a.Object? && b.Object?
    ensures KeyOf(a) == KeyOf(b) <==> SameValue(a, b)
    decreases a, 0
  {
    hide IsSorted, SortedKeys;
    var l, r := a.fields, b.fields;
    var p, q := SortedKeys(l.Keys), SortedKeys(r.Keys);
    var x, y := KeyOf(a).members, KeyOf(b).members;
    if KeyOf(a) == KeyOf(b) {
      assert p == q by {
        assert forall i :: 0 <= i < |p| ==> p[i] == x[i].0 && q[i] == y[i].0;
      }
      assert l.Keys == r.Keys;
      forall k | k in l ensures SameValue(l[k], r[k]) {
        var i :| 0 <= i < |p| && p[i] == k;
        assert x[i].1 == KeyOf(l[k]) && y[i].1 == KeyOf(r[k]);
        KeysAreExact(l[k], r[k]);
      }
    }
    if SameValue(a, b) {
      assert p == q;
      forall i | 0 <= i < |p| ensures x[i] == y[i] {
        assert p[i] in l.Keys;
        KeysAreExact(l[p[i]], r[p[i]]);
      }
      assert x == y;
    }
  }

  // ---------------------------------------------------------------- index rows

  /** The number columns: nothing, a rounded value, or a value beyond the binary64 range. */
  datatype Rounded = NotNumber | Finite(value: real) | AboveAll | BelowAll

  function RoundedNumber(codec: Codec, value: Json): Rounded {
    match value
    case Int(whole) =>
      (match codec.toFloat(whole)
       case Some(rounded) => Finite(rounded)
       case None => if whole > 0 then AboveAll else BelowAll)
    case Float(number) => Finite(number)
    case _ => NotNumber
  }

  datatype FieldRow = FieldRow(field: string, valueId: Digest, value: EqualityKey, number: Rounded)

  function RowFor(codec: Codec, field: string, value: Json): FieldRow {
    FieldRow(field, codec.valueDigest(KeyOf(value)), KeyOf(value), RoundedNumber(codec, value))
  }

  /** The rows of one document, under the digests of its fields. */
  type FieldRows = map<Digest, FieldRow>

  predicate FieldsCollide(codec: Codec, value: map<string, Json>) {
    exists f, g :: f in value && g in value && f != g && codec.fieldDigest(f) == codec.fieldDigest(g)
  }

  /** The rows index every field of the document and nothing else. */
  predicate Indexes(codec: Codec, rows: FieldRows, value: map<string, Json>) {
    && (forall f :: f in value ==> codec.fieldDigest(f) in rows && rows[codec.fieldDigest(f)] == RowFor(codec, f, value[f]))
    && (forall d :: d in rows ==> rows[d].field in value && codec.fieldDigest(rows[d].field) == d)
  }

  /** Build the rows field by field; None when two fields have one digest. */
  method BuildRows(codec: Codec, value: map<string, Json>) returns (built: Option<FieldRows>)
    ensures built.Some? <==> !FieldsCollide(codec, value)
    ensures built.Some? ==> Indexes(codec, built.value, value)
  {
    hide RowFor;
    var rows: FieldRows := map[];
    var remaining := value.Keys;
    while remaining != {}
      invariant remaining <= value.Keys
      invariant forall f :: f in value && f !in remaining ==>
                  codec.fieldDigest(f) in rows && rows[codec.fieldDigest(f)] == RowFor(codec, f, value[f])
      invariant forall d :: d in rows ==> rows[d].field in value && rows[d].field !in remaining && codec.fieldDigest(rows[d].field) == d
      invariant forall f, g :: f in value && g in value && f !in remaining && g !in remaining && f != g ==>
                  codec.fieldDigest(f) != codec.fieldDigest(g)
      decreases remaining
    {
      var field :| field in remaining;
      var d := codec.fieldDigest(field);
      if d in rows {
        assert FieldsCollide(codec, value) by {
          assert rows[d].field != field && codec.fieldDigest(rows[d].field) == codec.fieldDigest(field);
        }
        return None;
      }
      RowNamesField(codec, field, value[field]);
      rows, remaining := rows[d := RowFor(codec, field, value[field])], remaining - {field};
    }
    return Some(rows);
  }

  lemma RowNamesField(codec: Codec, field: string, value: Json)
    ensures RowFor(codec, field, value).field == field
  {
  }

  // ---------------------------------------------------------------- filters

  datatype Comparison = Eq | Ne | Gt | Gte | Lt | Lte

  datatype Filter = Filter(field: string, comparison: Comparison, value: Json)

  /** Ordering operands must be numbers that fit binary64. */
  predicate IsValidFilter(codec: Codec, filter: Filter) {
    filter.comparison.Eq? || filter.comparison.Ne? || AsReal(codec, filter.value).Some?
  }

  /** The number as binary64 has it, if it has it. */
  function AsReal(codec: Codec, value: Json): Option<real> {
    match value
    case Float(number) => Some(number)
    case Int(whole) => codec.toFloat(whole)
    case _ => None
  }

  predicate Exceeds(number: Rounded, operand: real, orEqual: bool) {
    number.AboveAll? || (number.Finite? && (number.value > operand || (orEqual && number.value == operand)))
  }

  predicate FallsBelow(number: Rounded, operand: real, orEqual: bool) {
    number.BelowAll? || (number.Finite? && (number.value < operand || (orEqual && number.value == operand)))
  }

  predicate ComparisonHolds(codec: Codec, row: FieldRow, filter: Filter)
    requires IsValidFilter(codec, filter)
  {
    var key := KeyOf(filter.value);
    match filter.comparison
    case Eq => row.valueId == codec.valueDigest(key) && row.value == key
    case Ne => !(row.valueId == codec.valueDigest(key) && row.value == key)
    case Gt => Exceeds(row.number, RoundedNumber(codec, filter.value).value, false)
    case Gte => Exceeds(row.number, RoundedNumber(codec, filter.value).value, true)
    case Lt => FallsBelow(row.number, RoundedNumber(codec, filter.value).value, false)
    case Lte => FallsBelow(row.number, RoundedNumber(codec, filter.value).value, true)
  }

  /** The correlated subquery: some index row of the document has the field and satisfies the comparison. */
  predicate FilterExpression(codec: Codec, rows: FieldRows, filter: Filter)
    requires IsValidFilter(codec, filter)
  {
    exists d :: d in rows && d == codec.fieldDigest(filter.field) && rows[d].field == filter.field && ComparisonHolds(codec, rows[d], filter)
  }

  /** The filter on the document itself: the field is there and compares. */
  predicate FilterHolds(codec: Codec, value: map<string, Json>, filter: Filter)
    requires IsValidFilter(codec, filter)
  {
    && filter.field in value
    && var item := value[filter.field];
    match filter.comparison
    case Eq => SameValue(item, filter.value)
    case Ne => !SameValue(item, filter.value)
    case _ => OrderHolds(codec, item, filter.comparison, filter.value)
  }

  /** Two numbers compare as they are rounded; an integer beyond binary64 lies beyond every operand on its side. */
  predicate OrderHolds(codec: Codec, item: Json, comparison: Comparison, operand: Json)
    requires AsReal(codec, operand).Some?
  {
    match AsReal(codec, item)
    case Some(number) => Compares(number, comparison, AsReal(codec, operand).value)
    case None => item.Int? && if item.whole > 0 then comparison in {Gt, Gte} else comparison in {Lt, Lte}
  }

  predicate Compares(a: real, comparison: Comparison, b: real) {
    match comparison
    case Eq => a == b
    case Ne => a != b
    case Gt => a > b
    case Gte => a >= b
    case Lt => a < b
    case Lte => a <= b
  }

  /** Whatever collides, the subquery decides the filter on the document. */
  lemma FilterExpressionIsExact(codec: Codec, rows: FieldRows, value: map<string, Json>, filter: Filter)
    requires Indexes(codec, rows, value) && IsValidFilter(codec, filter)
    ensures FilterExpression(codec, rows, filter) <==> FilterHolds(codec, value, filter)
  {
    var d := codec.fieldDigest(filter.field);
    if filter.field in value {
      KeysAreExact(value[filter.field], filter.value);
      assert rows[d] == RowFor(codec, filter.field, value[filter.field]);
      assert FilterExpression(codec, rows, filter) <==> ComparisonHolds(codec, rows[d], filter);
    }
  }

  /** The order filters on numbers, through the index and directly, are the order of the rounded reals. */
  lemma OrderFiltersCompareNumbers(codec: Codec, rows: FieldRows, value: map<string, Json>, filter: Filter)
    requires Indexes(codec, rows, value) && IsValidFilter(codec, filter) && !filter.comparison.Eq? && !filter.comparison.Ne?
    ensures FilterExpression(codec, rows, filter) <==> FilterHolds(codec, value, filter)
    ensures filter.field !in value ==> !FilterExpression(codec, rows, filter)
    ensures
      filter.field in value ==>
        var item, operand := value[filter.field], AsReal(codec, filter.value).value;
        var number := if item.Float? then Some(item.number) else if item.Int? then codec.toFloat(item.whole) else None;
        FilterExpression(codec, rows, filter) <==>
          match filter.comparison
          case Gt => (number.Some? && number.value > operand) || (item.Int? && number.None? && item.whole > 0)
          case Gte => (number.Some? && number.value >= operand) || (item.Int? && number.None? && item.whole > 0)
          case Lt => (number.Some? && number.value < operand) || (item.Int? && number.None? && item.whole <= 0)
          case Lte => (number.Some? && number.value <= operand) || (item.Int? && number.None? && item.whole <= 0)
          case _ => false
  {
    FilterExpressionIsExact(codec, rows, value, filter);
    hide FilterExpression;
  }
}
