/** `std::map<std::string, V>` as the program uses it: a sequence of entries
    kept in ascending key order, so that iterating it visits keys in the order
    `std::string` comparison gives. */
module StdMap {

  import opened Basics

  /** `std::string` ordering: lexicographic on character codes, a proper
      prefix before any extension of it. */
  predicate Less(a: string, b: string)
    decreases |a|
  {
    if |a| == 0 then |b| > 0
    else if |b| == 0 then false
    else if a[0] != b[0] then a[0] < b[0]
    else Less(a[1..], b[1..])
  }

  lemma {:induction false} LessIrreflexive(a: string)
    ensures !Less(a, a)
    decreases |a|
  {
    if |a| > 0 {
      LessIrreflexive(a[1..]);
    }
  }

  lemma {:induction false} LessTotal(a: string, b: string)
    ensures a == b || Less(a, b) || Less(b, a)
    decreases |a|
  {
    if |a| > 0 && |b| > 0 && a[0] == b[0] {
      LessTotal(a[1..], b[1..]);
      if a[1..] == b[1..] {
        assert a == [a[0]] + a[1..] && b == [b[0]] + b[1..];
      }
    }
  }

  lemma {:induction false} LessTransitive(a: string, b: string, c: string)
    requires Less(a, b) && Less(b, c)
    ensures Less(a, c)
    decreases |a|
  {
    if |a| > 0 && a[0] == b[0] && b[0] == c[0] {
      LessTransitive(a[1..], b[1..], c[1..]);
    }
  }

  lemma LessAsymmetric(a: string, b: string)
    requires Less(a, b)
    ensures !Less(b, a)
  {
    if Less(b, a) {
      LessTransitive(a, b, a);
      LessIrreflexive(a);
    }
  }

  datatype Entry<V> = Entry(key: string, value: V)

  /** Keys strictly ascending: what a `std::map` iteration yields. */
  predicate Sorted<V>(m: seq<Entry<V>>) {
    forall i, j :: 0 <= i < j < |m| ==> Less(m[i].key, m[j].key)
  }

  /** The keys present. */
  function Keys<V>(m: seq<Entry<V>>): set<string> {
    if |m| == 0 then {} else {m[0].key} + Keys(m[1..])
  }

  /** A key is present exactly when some entry carries it. */
  lemma {:induction false} KeysAt<V>(m: seq<Entry<V>>, k: string)
    ensures k in Keys(m) <==> exists i :: 0 <= i < |m| && m[i].key == k
  {
    if |m| > 0 {
      KeysAt(m[1..], k);
      if k in Keys(m[1..]) {
        var i :| 0 <= i < |m| - 1 && m[1..][i].key == k;
        assert m[i + 1].key == k;
      }
      if k != m[0].key && exists i :: 0 <= i < |m| && m[i].key == k {
        var i :| 0 <= i < |m| && m[i].key == k;
        assert m[1..][i - 1].key == k;
      }
    }
  }

  /** `find`: the value stored under `k`, if any. */
  function Get<V>(m: seq<Entry<V>>, k: string): Option<V> {
    if |m| == 0 then None
    else if m[0].key == k then Some(m[0].value)
    else Get(m[1..], k)
  }

  /** `find` succeeds exactly for the keys present, and returns an entry's value. */
  lemma {:induction false} GetFound<V>(m: seq<Entry<V>>, k: string)
    ensures Get(m, k).Some? <==> k in Keys(m)
    ensures Get(m, k).Some? ==> exists i :: 0 <= i < |m| && m[i] == Entry(k, Get(m, k).value)
  {
    if |m| > 0 && m[0].key != k {
      GetFound(m[1..], k);
      if Get(m, k).Some? {
        var i :| 0 <= i < |m| - 1 && m[1..][i] == Entry(k, Get(m, k).value);
        assert m[i + 1] == m[1..][i];
      }
    }
  }

  /** In a sorted map the entry at position `i` is what `find` returns for its key. */
  lemma {:induction false} GetAt<V>(m: seq<Entry<V>>, i: int)
    requires Sorted(m) && 0 <= i < |m|
    ensures Get(m, m[i].key) == Some(m[i].value)
  {
    if i > 0 {
      assert Less(m[0].key, m[i].key);
      LessIrreflexive(m[0].key);
      assert m[1..][i - 1] == m[i];
      GetAt(m[1..], i - 1);
    }
  }

  /** A sorted map extended at the front by a smaller key stays sorted. */
  lemma SortedCons<V>(e: Entry<V>, m: seq<Entry<V>>)
    requires Sorted(m) && forall i :: 0 <= i < |m| ==> Less(e.key, m[i].key)
    ensures Sorted([e] + m)
  {
    var r := [e] + m;
    forall i, j | 0 <= i < j < |r|
      ensures Less(r[i].key, r[j].key)
    {
      if i > 0 {
        assert r[i] == m[i - 1] && r[j] == m[j - 1];
      }
    }
  }

  /** `m[k] = v`: insert or assign, keeping the keys ascending. */
  function Put<V>(m: seq<Entry<V>>, k: string, v: V): seq<Entry<V>> {
    if |m| == 0 then [Entry(k, v)]
    else if m[0].key == k then [Entry(k, v)] + m[1..]
    else if Less(k, m[0].key) then [Entry(k, v)] + m
    else [m[0]] + Put(m[1..], k, v)
  }

  /** `Put` keeps a map ordered, adds `k` to its keys and nothing else, and
      grows it by one entry exactly when `k` is new. */
  lemma {:induction false} PutSorted<V>(m: seq<Entry<V>>, k: string, v: V)
    requires Sorted(m)
    ensures Sorted(Put(m, k, v))
    ensures Keys(Put(m, k, v)) == Keys(m) + {k}
    ensures |Put(m, k, v)| == if k in Keys(m) then |m| else |m| + 1
  {
    if |m| == 0 {
    } else if m[0].key == k {
      KeysCons(m[0], m[1..]);
      KeysCons(Entry(k, v), m[1..]);
      PutReplacesHead(m, v);
    } else if Less(k, m[0].key) {
      KeysCons(Entry(k, v), m);
      PutBelowHead(m, k);
      SortedCons(Entry(k, v), m);
    } else {
      LessTotal(k, m[0].key);
      SortedTail(m);
      PutSorted(m[1..], k, v);
      PutAbove(m, k, v);
    }
  }

  lemma KeysCons<V>(e: Entry<V>, m: seq<Entry<V>>)
    ensures Keys([e] + m) == {e.key} + Keys(m)
  {
    assert ([e] + m)[1..] == m;
  }

  lemma PutAbove<V>(m: seq<Entry<V>>, k: string, v: V)
    requires Sorted(m) && |m| > 0 && Less(m[0].key, k)
    requires Sorted(Put(m[1..], k, v)) && Keys(Put(m[1..], k, v)) == Keys(m[1..]) + {k}
    requires |Put(m[1..], k, v)| == if k in Keys(m[1..]) then |m| - 1 else |m|
    ensures Sorted(Put(m, k, v)) && Keys(Put(m, k, v)) == Keys(m) + {k}
    ensures |Put(m, k, v)| == if k in Keys(m) then |m| else |m| + 1
  {
    var rest := Put(m[1..], k, v);
    LessIrreflexive(k);
    LessAsymmetric(m[0].key, k);
    assert Put(m, k, v) == [m[0]] + rest;
    KeysCons(m[0], rest);
    KeysCons(m[0], m[1..]);
    assert m == [m[0]] + m[1..];
    PutAboveHead(m, k, rest);
    SortedCons(m[0], rest);
  }

  lemma SortedTail<V>(m: seq<Entry<V>>)
    requires Sorted(m) && |m| > 0
    ensures Sorted(m[1..])
    ensures forall i :: 0 <= i < |m| - 1 ==> Less(m[0].key, m[1..][i].key)
    ensures m[0].key !in Keys(m[1..])
  {
    LessIrreflexive(m[0].key);
    KeysAt(m[1..], m[0].key);
  }

  lemma PutReplacesHead<V>(m: seq<Entry<V>>, v: V)
    requires Sorted(m) && |m| > 0
    ensures Sorted([Entry(m[0].key, v)] + m[1..])
  {
    SortedTail(m);
    SortedCons(Entry(m[0].key, v), m[1..]);
  }

  lemma PutBelowHead<V>(m: seq<Entry<V>>, k: string)
    requires Sorted(m) && |m| > 0 && Less(k, m[0].key)
    ensures forall j :: 0 <= j < |m| ==> Less(k, m[j].key)
    ensures k !in Keys(m)
  {
    forall j | 0 <= j < |m|
      ensures Less(k, m[j].key)
    {
      if j > 0 { LessTransitive(k, m[0].key, m[j].key); }
    }
    LessIrreflexive(k);
  }

  lemma PutAboveHead<V>(m: seq<Entry<V>>, k: string, rest: seq<Entry<V>>)
    requires Sorted(m) && |m| > 0 && Less(m[0].key, k)
    requires Keys(rest) == Keys(m[1..]) + {k}
    ensures forall i :: 0 <= i < |rest| ==> Less(m[0].key, rest[i].key)
  {
    SortedTail(m);
    forall i | 0 <= i < |rest|
      ensures Less(m[0].key, rest[i].key)
    {
      var key := rest[i].key;
      KeysAt(rest, key);
      if key != k {
        KeysAt(m[1..], key);
        var j :| 0 <= j < |m[1..]| && m[1..][j].key == key;
      }
    }
  }

  /** What `Put` stores is what `Get` finds, and no other key changes. */
  lemma {:induction false} GetPut<V>(m: seq<Entry<V>>, k: string, v: V, k': string)
    requires Sorted(m)
    ensures Get(Put(m, k, v), k) == Some(v)
    ensures k' != k ==> Get(Put(m, k, v), k') == Get(m, k')
  {
    if |m| > 0 && m[0].key != k && !Less(k, m[0].key) {
      GetPut(m[1..], k, v, k');
    }
  }

  /** The entries whose value satisfies `keep`, in their original order. */
  function Filter<V>(m: seq<Entry<V>>, keep: V -> bool): (r: seq<Entry<V>>)
    ensures |r| <= |m|
    ensures forall i :: 0 <= i < |r| ==> keep(r[i].value) && exists j :: 0 <= j < |m| && r[i] == m[j]
    ensures Sorted(m) ==> Sorted(r)
  {
    if |m| == 0 then []
    else
      var rest := Filter(m[1..], keep);
      if keep(m[0].value) then [m[0]] + rest else rest
  }

  /** Filtering drops exactly the entries that fail the test. */
  lemma {:induction false} FilterKeeps<V>(m: seq<Entry<V>>, keep: V -> bool, k: string)
    requires Sorted(m)
    ensures Get(Filter(m, keep), k) == (if Get(m, k).Some? && keep(Get(m, k).value) then Get(m, k) else None)
    ensures |Filter(m, keep)| == |m| <==> forall i :: 0 <= i < |m| ==> keep(m[i].value)
  {
    if |m| > 0 {
      assert Sorted(m[1..]);
      FilterKeeps(m[1..], keep, k);
      if m[0].key == k {
        forall i | 0 <= i < |m| - 1
          ensures m[1..][i].key != k
        {
          assert Less(m[0].key, m[i + 1].key);
          LessIrreflexive(k);
        }
        GetFound(m[1..], k);
        assert Get(m[1..], k).None?;
      }
      if |Filter(m, keep)| == |m| {
        assert keep(m[0].value);
      }
      if forall i :: 0 <= i < |m| ==> keep(m[i].value) {
        assert forall i :: 0 <= i < |m| - 1 ==> keep(m[1..][i].value);
      }
    }
  }

  /** Filtering with a test every entry passes gives the map back unchanged. */
  lemma {:induction false} FilterAllKept<V>(m: seq<Entry<V>>, keep: V -> bool)
    requires forall i :: 0 <= i < |m| ==> keep(m[i].value)
    ensures Filter(m, keep) == m
  {
    if |m| > 0 {
      var rest := m[1..];
      assert m == [m[0]] + rest;
      assert forall i :: 0 <= i < |rest| ==> keep(rest[i].value) by {
        forall i | 0 <= i < |rest|
          ensures keep(rest[i].value)
        {
          assert rest[i] == m[i + 1];
        }
      }
      FilterAllKept(rest, keep);
    }
  }
}
