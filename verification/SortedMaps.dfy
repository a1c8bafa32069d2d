/** Maps from text keys kept in ascending key order, as the source's ordered
    maps iterate them. Two maps with the same bindings are equal values. */
module SortedMaps {

  import opened Results

  datatype Entry<+V> = Entry(key: string, value: V)

  /** Lexicographic order by code point, a proper prefix being smaller. */
  predicate Less(a: string, b: string)
  {
    b != [] && (a == [] || a[0] < b[0] || (a[0] == b[0] && Less(a[1..], b[1..])))
  }

  predicate Ascending<V>(s: seq<Entry<V>>)
  {
    forall i, j :: 0 <= i < j < |s| ==> Less(s[i].key, s[j].key)
  }

  type SortedMap<+V> = s: seq<Entry<V>> | Ascending(s) witness []

  /** `a` ends, or has the smaller character, where the two first differ. */
  predicate SmallerAt(a: string, b: string, k: nat)
  {
    k <= |a| && k < |b| && a[..k] == b[..k] && (k == |a| || a[k] < b[k])
  }

  lemma {:induction false} LessExact(a: string, b: string)
    ensures Less(a, b) <==> exists k: nat :: SmallerAt(a, b, k)
    decreases |a|
  {
    if a == [] || b == [] {
      assert b != [] ==> SmallerAt(a, b, 0);
    } else {
      LessExact(a[1..], b[1..]);
      if a[0] < b[0] { assert SmallerAt(a, b, 0); }
      if k: nat :| SmallerAt(a[1..], b[1..], k) {
        assert a[0] == b[0] ==> SmallerAt(a, b, k + 1) by {
          if a[0] == b[0] { assert a[..k+1] == [a[0]] + a[1..][..k] && b[..k+1] == [b[0]] + b[1..][..k]; }
        }
      }
      if k: nat :| SmallerAt(a, b, k) {
        if k > 0 {
          assert a[..k][0] == a[0] && b[..k][0] == b[0];
          assert a[1..][..k-1] == a[..k][1..] && b[1..][..k-1] == b[..k][1..];
          assert SmallerAt(a[1..], b[1..], k - 1);
        }
      }
    }
  }

  lemma {:induction false} LessIrreflexive(a: string)
    ensures !Less(a, a)
    decreases |a|
  {
    if a != [] { LessIrreflexive(a[1..]); }
  }

  lemma {:induction false} LessTransitive(a: string, b: string, c: string)
    requires Less(a, b) && Less(b, c)
    ensures Less(a, c)
    decreases |a|
  {
    if a != [] && a[0] == b[0] && b[0] == c[0] {
      LessTransitive(a[1..], b[1..], c[1..]);
    }
  }

  lemma {:induction false} LessTotal(a: string, b: string)
    ensures a == b || Less(a, b) || Less(b, a)
    decreases |a|
  {
    if a != [] && b != [] && a[0] == b[0] {
      LessTotal(a[1..], b[1..]);
      assert a == [a[0]] + a[1..] && b == [b[0]] + b[1..];
    }
  }

  function Lookup<V>(m: SortedMap<V>, key: string): Option<V>
  {
    if m == [] then None
    else if m[0].key == key then Some(m[0].value)
    else Lookup(m[1..], key)
  }

  /** Insert or overwrite, keeping the keys ascending. */
  function Insert<V>(m: SortedMap<V>, key: string, value: V): (r: SortedMap<V>)
    ensures forall k :: 0 <= k < |r| ==>
              r[k].key == key || (exists j :: 0 <= j < |m| && m[j].key == r[k].key)
    decreases |m|
  {
    if m == [] then [Entry(key, value)]
    else if m[0].key == key then m[0 := Entry(key, value)]
    else if Less(key, m[0].key) then
      InsertFrontAscending(m, key, value);
      [Entry(key, value)] + m
    else
      LessTotal(key, m[0].key);
      var rest := Insert(m[1..], key, value);
      ConsAscending(m, key, rest);
      [m[0]] + rest
  }

  lemma InsertFrontAscending<V>(m: SortedMap<V>, key: string, value: V)
    requires m != [] && Less(key, m[0].key)
    ensures Ascending([Entry(key, value)] + m)
  {
    forall j | 0 < j < |m| ensures Less(key, m[j].key) {
      LessTransitive(key, m[0].key, m[j].key);
    }
  }

  lemma ConsAscending<V>(m: SortedMap<V>, key: string, rest: SortedMap<V>)
    requires m != [] && Less(m[0].key, key)
    requires forall k :: 0 <= k < |rest| ==>
               rest[k].key == key || (exists j :: 0 <= j < |m[1..]| && m[1..][j].key == rest[k].key)
    ensures Ascending([m[0]] + rest)
  {
  }

  /** Inserting keys in ascending order rebuilds the map entry by entry. */
  lemma {:induction false} InsertLast<V>(m: SortedMap<V>, e: Entry<V>)
    requires Ascending(m + [e])
    ensures Insert(m, e.key, e.value) == m + [e]
    decreases |m|
  {
    if m != [] {
      assert (m + [e])[|m|] == e && (m + [e])[0] == m[0];
      assert Less(m[0].key, e.key);
      LessIrreflexive(e.key);
      if Less(e.key, m[0].key) {
        LessTransitive(e.key, m[0].key, e.key);
      }
      assert m[1..] + [e] == (m + [e])[1..];
      InsertLast(m[1..], e);
    }
  }

  lemma {:induction false} LookupInserted<V>(m: SortedMap<V>, key: string, value: V)
    ensures Lookup(Insert(m, key, value), key) == Some(value)
    decreases |m|
  {
    if m != [] && m[0].key != key {
      if !Less(key, m[0].key) {
        LessTotal(key, m[0].key);
        var rest := Insert(m[1..], key, value);
        assert ([m[0]] + rest)[1..] == rest;
        LookupInserted(m[1..], key, value);
      }
    }
  }

  lemma {:induction false} LookupEntry<V>(m: SortedMap<V>, i: nat)
    requires i < |m|
    ensures Lookup(m, m[i].key) == Some(m[i].value)
    decreases i
  {
    if i > 0 {
      LessIrreflexive(m[0].key);
      LookupEntry(m[1..], i - 1);
    }
  }

  lemma AscendingPrefix<V>(p: seq<Entry<V>>, q: seq<Entry<V>>)
    requires Ascending(p + q)
    ensures Ascending(p)
  {
    hide Less;
    forall i, j | 0 <= i < j < |p| ensures Less(p[i].key, p[j].key) {
      assert (p + q)[i] == p[i] && (p + q)[j] == p[j];
    }
  }
}
