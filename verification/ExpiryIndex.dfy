/**
  Terminal expiry: a dictionary owns the current deadline of every thread, and a heap of entries,
  some of them stale, finds the next one due. The heap library is taken by its contract: a multiset
  whose least entry can be read and removed.
 */
module ExpiryIndex {
  import opened Outcomes
  import opened StringOrder
  import opened Listings

  type Key = (string, string)

  datatype Entry = Entry(deadline: real, key: Key)

  predicate KeyAtMost(a: Key, b: Key) {
    if a.0 != b.0 then AtMost(a.0, b.0) else AtMost(a.1, b.1)
  }

  /** Tuple order: deadline first, then key. */
  predicate EntryAtMost(a: Entry, b: Entry) {
    a.deadline < b.deadline || (a.deadline == b.deadline && KeyAtMost(a.key, b.key))
  }

  lemma EntryOrderIsTotal(a: Entry, b: Entry, c: Entry)
    ensures EntryAtMost(a, b) || EntryAtMost(b, a)
    ensures EntryAtMost(a, b) && EntryAtMost(b, c) ==> EntryAtMost(a, c)
  {
    hide AtMost;
    OrderIsTotal(a.key.0, b.key.0);
    OrderIsTotal(a.key.1, b.key.1);
    OrderIsTotal(b.key.0, c.key.0);
    if EntryAtMost(a, b) && EntryAtMost(b, c) && a.deadline == b.deadline == c.deadline {
      if a.key.0 != b.key.0 && b.key.0 != c.key.0 {
        OrderIsTransitive(a.key.0, b.key.0, c.key.0);
      } else if a.key.0 == b.key.0 == c.key.0 {
        OrderIsTransitive(a.key.1, b.key.1, c.key.1);
      }
    }
  }

  predicate IsLeastEntry(heap: multiset<Entry>, entry: Entry) {
    entry in heap && forall e :: e in heap ==> EntryAtMost(entry, e)
  }

  lemma LeastEntryExists(heap: multiset<Entry>)
    requires heap != multiset{}
    ensures exists entry :: IsLeastEntry(heap, entry)
  {
    var entries := set e | e in heap;
    var some :| some in heap;
    assert some in entries;
    forall a, b, c ensures EntryAtMost(a, b) || EntryAtMost(b, a)
                   ensures EntryAtMost(a, b) && EntryAtMost(b, c) ==> EntryAtMost(a, c)
    {
      EntryOrderIsTotal(a, b, c);
    }
    hide EntryAtMost;
    var order := (a: Entry, b: Entry) => EntryAtMost(a, b);
    FirstExists(entries, order);
    var first :| IsFirst(entries, first, order);
    forall e | e in heap ensures EntryAtMost(first, e) {
      assert e in entries;
    }
    assert IsLeastEntry(heap, first);
  }

  /** Every current deadline has an entry. */
  predicate Covers(heap: multiset<Entry>, deadlines: map<Key, real>) {
    forall k :: k in deadlines ==> Entry(deadlines[k], k) in heap
  }

  /** One entry per current deadline. */
  function Entries(deadlines: map<Key, real>): set<Entry> {
    set k | k in deadlines :: Entry(deadlines[k], k)
  }

  lemma EntriesWithout(deadlines: map<Key, real>, k: Key)
    requires k in deadlines
    ensures Entries(deadlines) == Entries(deadlines - {k}) + {Entry(deadlines[k], k)}
    ensures Entry(deadlines[k], k) !in Entries(deadlines - {k})
    ensures |deadlines - {k}| == |deadlines| - 1
  {
    var rest := deadlines - {k};
    assert rest.Keys == deadlines.Keys - {k};
    forall e | e in Entries(deadlines) ensures e == Entry(deadlines[k], k) || e in Entries(rest) {
      assert e.key == k || e.key in rest;
    }
    forall e | e in Entries(rest) ensures e in Entries(deadlines) {
      assert e.key in deadlines;
    }
  }

  lemma {:induction false} EntriesSize(deadlines: map<Key, real>)
    ensures |Entries(deadlines)| == |deadlines|
    decreases |deadlines|
  {
    if deadlines != map[] {
      var k :| k in deadlines;
      EntriesWithout(deadlines, k);
      EntriesSize(deadlines - {k});
    }
  }

  lemma CompactedHeap(deadlines: map<Key, real>)
    ensures |multiset(Entries(deadlines))| == |deadlines| && Covers(multiset(Entries(deadlines)), deadlines)
  {
    EntriesSize(deadlines);
    forall k | k in deadlines ensures Entry(deadlines[k], k) in Entries(deadlines) {
    }
  }

  /** The key is due and comes first among all the current deadlines. */
  ghost predicate IsFirstDue(deadlines: map<Key, real>, now: real, key: Key) {
    && key in deadlines && deadlines[key] <= now
    && forall k :: k in deadlines ==> EntryAtMost(Entry(deadlines[key], key), Entry(deadlines[k], k))
  }

  class Index {
    var deadlines: map<Key, real>
    var heap: multiset<Entry>

    ghost predicate Valid()
      reads this
    {
      Covers(heap, deadlines)
    }

    constructor ()
      ensures Valid() && deadlines == map[] && heap == multiset{}
    {
      deadlines, heap := map[], multiset{};
    }

    /** Set or clear a deadline, and compact the heap when stale entries outnumber current ones. */
    method Set(key: Key, deadline: Option<real>)
      requires Valid()
      modifies this
      ensures Valid()
      ensures deadlines == if deadline.Some? then old(deadlines)[key := deadline.value] else old(deadlines) - {key}
      ensures |heap| <= 2 * |deadlines| + 64
    {
      if deadline.None? {
        deadlines := deadlines - {key};
      } else {
        deadlines := deadlines[key := deadline.value];
        heap := heap + multiset{Entry(deadline.value, key)};
      }
      if |heap| > 2 * |deadlines| + 64 {
        CompactedHeap(deadlines);
        heap := multiset(Entries(deadlines));
      }
    }

    /** Remove and return the least current deadline that is due; stale entries are thrown away. */
    method PopDue(now: real) returns (found: Option<Key>)
      requires Valid()
      modifies this
      ensures Valid() && |heap| <= old(|heap|)
      ensures found.None? ==> deadlines == old(deadlines) && forall k :: k in deadlines ==> deadlines[k] > now
      ensures found.Some? ==> IsFirstDue(old(deadlines), now, found.value) && deadlines == old(deadlines) - {found.value}
    {
      hide KeyAtMost;
      while heap != multiset{}
        invariant Valid() && deadlines == old(deadlines) && |heap| <= old(|heap|)
        decreases |heap|
      {
        LeastEntryExists(heap);
        var least :| least in heap && IsLeastEntry(heap, least);
        if least.deadline > now {
          break;
        }
        ghost var before := heap;
        heap := heap - multiset{least};
        assert forall e :: e in before && e != least ==> e in heap;
        if least.key in deadlines && deadlines[least.key] == least.deadline {
          assert IsFirstDue(deadlines, now, least.key);
          deadlines := deadlines - {least.key};
          return Some(least.key);
        }
      }
      return None;
    }
  }
}
