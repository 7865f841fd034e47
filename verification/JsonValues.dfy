/** JSON values and the comparison that never confuses booleans, integers and floats. */
module JsonValues {

  datatype Json =
    | Null
    | Bool(truth: bool)
    | Int(whole: int)
    | Float(number: real)
    | Text(text: string)
    | Array(items: seq<Json>)
    | Object(fields: map<string, Json>)

  /** The recursive comparison: same type, same keys or length, equal parts. */
  predicate JsonValuesEqual(left: Json, right: Json) {
    match (left, right)
    case (Object(l), Object(r)) => l.Keys == r.Keys && forall k :: k in l ==> JsonValuesEqual(l[k], r[k])
    case (Array(l), Array(r)) => |l| == |r| && forall i :: 0 <= i < |l| ==> JsonValuesEqual(l[i], r[i])
    case _ => left == right
  }

  /** It is identity of values. */
  lemma {:induction false} EqualMeansIdentical(left: Json, right: Json)
    ensures JsonValuesEqual(left, right) <==> left == right
  {
    match (left, right)
    case (Object(l), Object(r)) =>
      forall k | k in l && k in r ensures JsonValuesEqual(l[k], r[k]) <==> l[k] == r[k] {
        EqualMeansIdentical(l[k], r[k]);
      }
      if JsonValuesEqual(left, right) {
        assert l == r;
      }
    case (Array(l), Array(r)) =>
      if |l| == |r| {
        forall i | 0 <= i < |l| ensures JsonValuesEqual(l[i], r[i]) <==> l[i] == r[i] {
          EqualMeansIdentical(l[i], r[i]);
        }
        if JsonValuesEqual(left, right) {
          assert l == r;
        }
      }
    case _ =>
  }
}

/** Code point order on strings and the sorted listing of a set of keys. */
module StringOrder {

  predicate AtMost(a: string, b: string) {
    a == "" || (b != "" && (a[0] < b[0] || (a[0] == b[0] && AtMost(a[1..], b[1..]))))
  }

  lemma {:induction false} OrderIsTotal(a: string, b: string)
    ensures AtMost(a, b) || AtMost(b, a)
    ensures AtMost(a, b) && AtMost(b, a) ==> a == b
  {
    if a != "" && b != "" && a[0] == b[0] {
      OrderIsTotal(a[1..], b[1..]);
      assert a == [a[0]] + a[1..] && b == [b[0]] + b[1..];
    }
  }

  lemma {:induction false} OrderIsTransitive(a: string, b: string, c: string)
    requires AtMost(a, b) && AtMost(b, c)
    ensures AtMost(a, c)
  {
    if a != "" && a[0] == b[0] == c[0] {
      OrderIsTransitive(a[1..], b[1..], c[1..]);
    }
  }

  predicate IsSorted(keys: seq<string>) {
    forall i, j :: 0 <= i < j < |keys| ==> keys[i] != keys[j] && AtMost(keys[i], keys[j])
  }

  /** `sorted(keys)` of a set: each key once, in order. */
  function SortedKeys(keys: set<string>): (r: seq<string>)
    ensures IsSorted(r) && forall k :: k in r <==> k in keys
  {
    if keys == {} then []
    else
      LeastExists(keys);
      LeastIsUnique(keys);
      var least :| least in keys && IsLeast(keys, least);
      [least] + SortedKeys(keys - {least})
  }

  predicate IsLeast(keys: set<string>, key: string) {
    key in keys && forall k :: k in keys ==> AtMost(key, k)
  }

  lemma LeastIsUnique(keys: set<string>)
    ensures forall a, b :: IsLeast(keys, a) && IsLeast(keys, b) ==> a == b
  {
    forall a, b | IsLeast(keys, a) && IsLeast(keys, b) ensures a == b {
      OrderIsTotal(a, b);
    }
  }

  lemma {:induction false} LeastExists(keys: set<string>)
    requires keys != {}
    ensures exists least :: IsLeast(keys, least)
    decreases keys
  {
    var key :| key in keys;
    OrderIsTotal(key, key);
    if keys != {key} {
      var others := keys - {key};
      LeastExists(others);
      var least :| IsLeast(others, least);
      OrderIsTotal(least, key);
      if AtMost(least, key) {
        assert IsLeast(keys, least);
      } else {
        forall k | k in keys ensures AtMost(key, k) {
          if k != key {
            OrderIsTransitive(key, least, k);
          }
        }
        assert IsLeast(keys, key);
      }
    } else {
      assert IsLeast(keys, key);
    }
  }
}
