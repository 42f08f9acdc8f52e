/** std::map with integer keys, as used by the biomorph database, the
    configuration store and the named object buffer: a sequence of entries
    kept in strictly increasing key order, so iteration runs in key order
    and no key occurs twice. */
module OrderedMap {
  import opened Wrappers

  datatype Entry<V> = Entry(key: nat, value: V)

  /** Strictly increasing keys; in particular no key occurs twice. */
  predicate Sorted<V>(s: seq<Entry<V>>) {
    forall i, j :: 0 <= i < j < |s| ==> s[i].key < s[j].key
  }

  function Keys<V>(s: seq<Entry<V>>): set<nat> {
    set i | 0 <= i < |s| :: s[i].key
  }

  /** map::find: the position of the entry with this key, or None (end()). */
  function Find<V>(s: seq<Entry<V>>, k: nat): (r: Option<nat>)
    ensures r.Some? ==> r.value < |s| && s[r.value].key == k
    ensures r.None? <==> k !in Keys(s)
  {
    if |s| == 0 then None
    else if s[0].key == k then Some(0)
    else
      match Find(s[1..], k)
      case None =>
        assert Keys(s) == {s[0].key} + Keys(s[1..]) by {
          forall x | x in Keys(s) ensures x in {s[0].key} + Keys(s[1..]) {
            var i :| 0 <= i < |s| && s[i].key == x;
            if i > 0 { assert s[1..][i - 1].key == x; }
          }
        }
        None
      case Some(i) =>
        assert s[1..][i].key == k;
        Some(i + 1)
  }

  /** In a sorted map the entry found is the only one with that key. */
  lemma FindUnique<V>(s: seq<Entry<V>>, k: nat, j: nat)
    requires Sorted(s) && j < |s| && s[j].key == k
    ensures Find(s, k) == Some(j)
  {
    assert k in Keys(s);
  }

  /** lower_bound: the number of entries whose key is below k, which in a
      sorted map is where an entry with key k belongs. */
  function LowerBound<V>(s: seq<Entry<V>>, k: nat): (p: nat)
    requires Sorted(s)
    ensures p <= |s|
    ensures forall i :: 0 <= i < p ==> s[i].key < k
    ensures forall i :: p <= i < |s| ==> k <= s[i].key
  {
    if |s| == 0 || k <= s[0].key then 0 else 1 + LowerBound(s[1..], k)
  }

  /** map::insert: adds Entry(k, v) at its ordered place when k is absent;
      when k is present the map is returned unchanged (insert never
      overwrites). */
  function Insert<V>(s: seq<Entry<V>>, k: nat, v: V): (r: seq<Entry<V>>)
    requires Sorted(s)
    ensures k in Keys(s) ==> r == s
    ensures k !in Keys(s) ==> |r| == |s| + 1
  {
    if Find(s, k).Some? then s
    else
      var p := LowerBound(s, k);
      s[..p] + [Entry(k, v)] + s[p..]
  }

  /** The shape of an insertion of an absent key: the entries below the
      lower bound, the new entry, then the rest. */
  lemma InsertLayout<V>(s: seq<Entry<V>>, k: nat, v: V)
    requires Sorted(s) && k !in Keys(s)
    ensures var p := LowerBound(s, k); var r := Insert(s, k, v);
      && (forall i :: 0 <= i < p ==> r[i] == s[i])
      && r[p] == Entry(k, v)
      && (forall i :: p <= i < |s| ==> r[i + 1] == s[i] && k < s[i].key)
  {
    var p := LowerBound(s, k);
    var r := Insert(s, k, v);
    assert r == s[..p] + [Entry(k, v)] + s[p..];
    forall i | p <= i < |s|
      ensures r[i + 1] == s[i] && k < s[i].key
    {
      assert s[i].key != k;
      assert r[i + 1] == s[p..][i - p];
    }
  }

  /** Insertion keeps the keys strictly increasing. */
  lemma InsertSorted<V>(s: seq<Entry<V>>, k: nat, v: V)
    requires Sorted(s)
    ensures Sorted(Insert(s, k, v))
  {
    if k !in Keys(s) {
      var p := LowerBound(s, k);
      var r := Insert(s, k, v);
      InsertLayout(s, k, v);
      forall a, b | 0 <= a < b < |r|
        ensures r[a].key < r[b].key
      {
        if b <= p {
        } else if a <= p {
          assert r[b] == s[b - 1];
        } else {
          assert r[a] == s[a - 1] && r[b] == s[b - 1];
        }
      }
    }
  }

  /** Insertion adds exactly the key k. */
  lemma InsertKeys<V>(s: seq<Entry<V>>, k: nat, v: V)
    requires Sorted(s)
    ensures Keys(Insert(s, k, v)) == Keys(s) + {k}
  {
    InsertAddsNoOtherKey(s, k, v);
    InsertKeepsKeys(s, k, v);
  }

  lemma InsertAddsNoOtherKey<V>(s: seq<Entry<V>>, k: nat, v: V)
    requires Sorted(s)
    ensures forall x :: x in Keys(Insert(s, k, v)) ==> x in Keys(s) || x == k
  {
    var r := Insert(s, k, v);
    InsertOnlyAdds(s, k, v);
    forall x | x in Keys(r)
      ensures x in Keys(s) || x == k
    {
      var j :| 0 <= j < |r| && r[j].key == x;
      if r[j] in s {
        var i :| 0 <= i < |s| && s[i] == r[j];
      }
    }
  }

  lemma InsertKeepsKeys<V>(s: seq<Entry<V>>, k: nat, v: V)
    requires Sorted(s)
    ensures forall x :: x in Keys(s) || x == k ==> x in Keys(Insert(s, k, v))
  {
    var r := Insert(s, k, v);
    InsertContents(s, k, v);
    forall x | x in Keys(s) || x == k
      ensures x in Keys(r)
    {
      if x in Keys(s) {
        var i :| 0 <= i < |s| && s[i].key == x;
        var j :| 0 <= j < |r| && r[j] == s[i];
      } else {
        assert Find(r, k).Some?;
      }
    }
  }

  /** Insertion keeps every existing entry with its value, and an absent
      key is then found with the new value. */
  lemma InsertContents<V>(s: seq<Entry<V>>, k: nat, v: V)
    requires Sorted(s)
    ensures forall i :: 0 <= i < |s| ==> s[i] in Insert(s, k, v)
    ensures k !in Keys(s) ==>
      (Find(Insert(s, k, v), k).Some? && Insert(s, k, v)[Find(Insert(s, k, v), k).value].value == v)
  {
    if k !in Keys(s) {
      var p := LowerBound(s, k);
      var r := Insert(s, k, v);
      InsertLayout(s, k, v);
      InsertSorted(s, k, v);
      FindUnique(r, k, p);
      forall i | 0 <= i < |s|
        ensures s[i] in r
      {
        if i < p {
          assert r[i] == s[i];
        } else {
          assert r[i + 1] == s[i];
        }
      }
    }
  }

  /** Insertion adds nothing but the new entry. */
  lemma InsertOnlyAdds<V>(s: seq<Entry<V>>, k: nat, v: V)
    requires Sorted(s)
    ensures forall i :: 0 <= i < |Insert(s, k, v)| ==> Insert(s, k, v)[i] in s || Insert(s, k, v)[i] == Entry(k, v)
  {
    if k !in Keys(s) {
      var p := LowerBound(s, k);
      var r := Insert(s, k, v);
      InsertLayout(s, k, v);
      forall i | 0 <= i < |r|
        ensures r[i] in s || r[i] == Entry(k, v)
      {
        if i > p {
          assert r[i] == s[i - 1];
        }
      }
    }
  }

  /** map::erase at a position: the entries before it stay where they
      are and the ones after it move down by one. */
  function RemoveAt<T>(s: seq<T>, i: nat): (r: seq<T>)
    requires i < |s|
    ensures |r| == |s| - 1
    ensures forall j :: 0 <= j < i ==> r[j] == s[j]
    ensures forall j :: i <= j < |r| ==> r[j] == s[j + 1]
  {
    s[..i] + s[i + 1..]
  }

  lemma RemoveAtSorted<V>(s: seq<Entry<V>>, i: nat)
    requires Sorted(s) && i < |s|
    ensures Sorted(RemoveAt(s, i))
    ensures s[i].key !in Keys(RemoveAt(s, i))
  {
    var r := RemoveAt(s, i);
    forall a, b | 0 <= a < b < |r| ensures r[a].key < r[b].key {
      var a' := if a < i then a else a + 1;
      var b' := if b < i then b else b + 1;
      assert r[a] == s[a'] && r[b] == s[b'];
    }
    forall j | 0 <= j < |r|
      ensures r[j].key != s[i].key
    {
      var j' := if j < i then j else j + 1;
      assert r[j] == s[j'];
    }
  }
}
