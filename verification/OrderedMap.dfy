/** A JavaScript `Map` (or an object used as a dictionary): a list of entries in
    insertion order.  Setting a present key keeps its place; setting a new key
    appends.  The same entry lists, with repeated keys allowed, also serve as the
    named-entry arrays of a kubeconfig. */
module OrderedMaps {
  import opened Wrappers
  import Sequences

  datatype Entry<K, V> = Entry(key: K, value: V)

  type Entries<K, V> = seq<Entry<K, V>>

  function Keys<K, V(==)>(m: Entries<K, V>): set<K> {
    set e | e in m :: e.key
  }

  ghost predicate Unique<K, V>(m: Entries<K, V>) {
    forall i, j :: 0 <= i < j < |m| ==> m[i].key != m[j].key
  }

  /** First entry with the key, as `Array.find` and a map lookup return it. */
  function Find<K(==), V>(m: Entries<K, V>, k: K): (r: Option<V>)
    ensures r.Some? <==> k in Keys(m)
    ensures r.Some? ==> Entry(k, r.value) in m
  {
    if m == [] then None
    else if m[0].key == k then
      assert m[0] in m;
      Some(m[0].value)
    else
      var rest := Find(m[1..], k);
      assert Keys(m) == {m[0].key} + Keys(m[1..]);
      rest
  }

  function Set<K(==), V>(m: Entries<K, V>, k: K, v: V): Entries<K, V> {
    if m == [] then [Entry(k, v)]
    else if m[0].key == k then [Entry(k, v)] + m[1..]
    else [m[0]] + Set(m[1..], k, v)
  }

  function Without<K, V>(m: Entries<K, V>, ks: set<K>): Entries<K, V> {
    if m == [] then []
    else if m[0].key in ks then Without(m[1..], ks)
    else [m[0]] + Without(m[1..], ks)
  }

  /** The entries that carry one key, in order. */
  function Named<K(==), V>(m: Entries<K, V>, k: K): Entries<K, V> {
    if m == [] then []
    else if m[0].key == k then [m[0]] + Named(m[1..], k)
    else Named(m[1..], k)
  }

  /** `new Map()` filled by `set` from a list: the first occurrence of a key fixes
      its place, the last one its value. */
  function FromList<K(==), V>(xs: Entries<K, V>): Entries<K, V> {
    if xs == [] then []
    else
      var n := |xs| - 1;
      Set(FromList(xs[..n]), xs[n].key, xs[n].value)
  }

  // ---------- Keys ----------

  lemma KeysConcat<K, V>(a: Entries<K, V>, b: Entries<K, V>)
    ensures Keys(a + b) == Keys(a) + Keys(b)
  {
  }

  lemma {:induction false} SetKeys<K, V>(m: Entries<K, V>, k: K, v: V)
    ensures Keys(Set(m, k, v)) == Keys(m) + {k}
    ensures Entry(k, v) in Set(m, k, v)
  {
    if m == [] {
    } else if m[0].key == k {
      assert m == [m[0]] + m[1..];
      KeysConcat([m[0]], m[1..]);
      KeysConcat([Entry(k, v)], m[1..]);
    } else {
      SetKeys(m[1..], k, v);
      assert m == [m[0]] + m[1..];
      KeysConcat([m[0]], m[1..]);
      KeysConcat([m[0]], Set(m[1..], k, v));
    }
  }

  /** The keys in their order. */
  function KeySeq<K, V>(m: Entries<K, V>): (r: seq<K>)
    ensures |r| == |m| && forall i :: 0 <= i < |r| ==> r[i] == m[i].key
  {
    seq(|m|, i requires 0 <= i < |m| => m[i].key)
  }

  /** Setting a key keeps its place, or appends it. */
  lemma {:induction false} SetInPlace<K, V>(m: Entries<K, V>, k: K, v: V)
    ensures KeySeq(Set(m, k, v)) == KeySeq(m) + if k in Keys(m) then [] else [k]
  {
    if m != [] {
      SetInPlace(m[1..], k, v);
      assert m == [m[0]] + m[1..];
      KeysConcat([m[0]], m[1..]);
      KeySeqCons(m[0], m[1..]);
      if m[0].key == k {
        KeySeqCons(Entry(k, v), m[1..]);
        assert KeySeq(m) + [] == KeySeq(m);
      } else {
        KeySeqCons(m[0], Set(m[1..], k, v));
        Sequences.AppendAssoc([m[0].key], KeySeq(m[1..]), if k in Keys(m[1..]) then [] else [k]);
      }
    }
  }

  lemma KeySeqCons<K, V>(e: Entry<K, V>, m: Entries<K, V>)
    ensures KeySeq([e] + m) == [e.key] + KeySeq(m)
  {
  }

  lemma {:induction false} WithoutKeys<K, V>(m: Entries<K, V>, ks: set<K>)
    ensures Keys(Without(m, ks)) == Keys(m) - ks
    ensures forall e :: e in m && e.key !in ks ==> e in Without(m, ks)
    ensures forall e :: e in Without(m, ks) ==> e in m && e.key !in ks
  {
    if m != [] {
      WithoutKeys(m[1..], ks);
      assert m == [m[0]] + m[1..];
      KeysConcat([m[0]], m[1..]);
      KeysConcat([m[0]], Without(m[1..], ks));
    }
  }

  lemma {:induction false} FromListKeys<K, V>(xs: Entries<K, V>)
    ensures Keys(FromList(xs)) == Keys(xs)
  {
    if xs != [] {
      var n := |xs| - 1;
      FromListKeys(xs[..n]);
      SetKeys(FromList(xs[..n]), xs[n].key, xs[n].value);
      assert xs == xs[..n] + [xs[n]];
      KeysConcat(xs[..n], [xs[n]]);
    }
  }

  // ---------- Uniqueness ----------

  lemma UniqueTail<K, V>(m: Entries<K, V>)
    requires Unique(m) && m != []
    ensures Unique(m[1..]) && m[0].key !in Keys(m[1..])
  {
  }

  lemma UniqueCons<K, V>(e: Entry<K, V>, m: Entries<K, V>)
    requires Unique(m) && e.key !in Keys(m)
    ensures Unique([e] + m)
  {
  }

  lemma {:induction false} SetUnique<K, V>(m: Entries<K, V>, k: K, v: V)
    requires Unique(m)
    ensures Unique(Set(m, k, v))
  {
    if m != [] {
      UniqueTail(m);
      if m[0].key == k {
        UniqueCons(Entry(k, v), m[1..]);
      } else {
        SetUnique(m[1..], k, v);
        SetKeys(m[1..], k, v);
        UniqueCons(m[0], Set(m[1..], k, v));
      }
    }
  }

  lemma {:induction false} WithoutUnique<K, V>(m: Entries<K, V>, ks: set<K>)
    requires Unique(m)
    ensures Unique(Without(m, ks))
  {
    if m != [] {
      UniqueTail(m);
      WithoutUnique(m[1..], ks);
      WithoutKeys(m[1..], ks);
      if m[0].key !in ks {
        UniqueCons(m[0], Without(m[1..], ks));
      }
    }
  }

  lemma {:induction false} FromListUnique<K, V>(xs: Entries<K, V>)
    ensures Unique(FromList(xs))
  {
    if xs != [] {
      var n := |xs| - 1;
      FromListUnique(xs[..n]);
      SetUnique(FromList(xs[..n]), xs[n].key, xs[n].value);
    }
  }

  // ---------- Set, Without and concatenation ----------

  lemma {:induction false} SetAppends<K, V>(a: Entries<K, V>, b: Entries<K, V>, k: K, v: V)
    requires k !in Keys(a)
    ensures Set(a + b, k, v) == a + Set(b, k, v)
  {
    if a == [] {
      assert a + b == b;
    } else {
      assert a[0] in a;
      assert forall e :: e in a[1..] ==> e in a;
      SetAppends(a[1..], b, k, v);
      assert (a + b)[1..] == a[1..] + b;
    }
  }

  lemma SetNew<K, V>(m: Entries<K, V>, k: K, v: V)
    requires k !in Keys(m)
    ensures Set(m, k, v) == m + [Entry(k, v)]
  {
  }

  lemma {:induction false} WithoutConcat<K, V>(a: Entries<K, V>, b: Entries<K, V>, ks: set<K>)
    ensures Without(a + b, ks) == Without(a, ks) + Without(b, ks)
  {
    if a == [] {
      assert a + b == b && Without(a, ks) == [];
    } else {
      WithoutConcat(a[1..], b, ks);
      assert (a + b)[0] == a[0] && (a + b)[1..] == a[1..] + b;
      if a[0].key !in ks {
        assert [a[0]] + (Without(a[1..], ks) + Without(b, ks)) == ([a[0]] + Without(a[1..], ks)) + Without(b, ks);
      }
    }
  }

  lemma {:induction false} WithoutWithout<K, V>(m: Entries<K, V>, p: set<K>, q: set<K>)
    ensures Without(Without(m, p), q) == Without(m, p + q)
  {
    if m != [] {
      WithoutWithout(m[1..], p, q);
      if m[0].key !in p {
        assert ([m[0]] + Without(m[1..], p))[1..] == Without(m[1..], p);
      }
    }
  }

  lemma {:induction false} WithoutDisjoint<K, V>(m: Entries<K, V>, ks: set<K>)
    requires Keys(m) !! ks
    ensures Without(m, ks) == m
  {
    if m != [] {
      assert m[0] in m;
      assert forall e :: e in m[1..] ==> e in m;
      WithoutDisjoint(m[1..], ks);
    }
  }

  lemma {:induction false} WithoutAll<K, V>(m: Entries<K, V>, ks: set<K>)
    requires Keys(m) <= ks
    ensures Without(m, ks) == []
  {
    if m != [] {
      assert m[0] in m && m[0].key in Keys(m);
      assert forall e :: e in m[1..] ==> e in m;
      WithoutAll(m[1..], ks);
    }
  }

  /** Removing nothing is visible as an unchanged length: a removal that hits a key shortens the list. */
  lemma {:induction false} WithoutShorter<K, V>(m: Entries<K, V>, ks: set<K>)
    ensures |Without(m, ks)| <= |m|
    ensures !(Keys(m) !! ks) ==> |Without(m, ks)| < |m|
  {
    if m != [] {
      WithoutShorter(m[1..], ks);
      assert m == [m[0]] + m[1..];
      KeysConcat([m[0]], m[1..]);
    }
  }

  lemma {:induction false} SetWithout<K, V>(m: Entries<K, V>, k: K, v: V, ks: set<K>)
    requires Unique(m)
    ensures Without(Set(m, k, v), ks) == if k in ks then Without(m, ks) else Set(Without(m, ks), k, v)
  {
    if m != [] {
      var rest := m[1..];
      UniqueTail(m);
      if m[0].key == k {
        assert ([Entry(k, v)] + rest)[1..] == rest;
        if k !in ks {
          assert Without(m, ks)[1..] == Without(rest, ks);
        }
      } else {
        SetWithout(rest, k, v, ks);
        assert ([m[0]] + Set(rest, k, v))[1..] == Set(rest, k, v);
        if m[0].key !in ks {
          assert Without(m, ks)[1..] == Without(rest, ks);
        }
      }
    }
  }

  lemma WithoutSnoc<K, V>(xs: Entries<K, V>, last: Entry<K, V>, ks: set<K>)
    ensures Without(xs + [last], ks) == Without(xs, ks) + if last.key in ks then [] else [last]
  {
    WithoutConcat(xs, [last], ks);
  }

  lemma FromListSnoc<K, V>(xs: Entries<K, V>, last: Entry<K, V>)
    ensures FromList(xs + [last]) == Set(FromList(xs), last.key, last.value)
  {
  }

  lemma {:induction false} FromListWithout<K, V>(xs: Entries<K, V>, ks: set<K>)
    ensures FromList(Without(xs, ks)) == Without(FromList(xs), ks)
  {
    if xs != [] {
      var n := |xs| - 1;
      var last := xs[n];
      FromListWithout(xs[..n], ks);
      assert xs == xs[..n] + [last];
      WithoutSnoc(xs[..n], last, ks);
      FromListUnique(xs[..n]);
      SetWithout(FromList(xs[..n]), last.key, last.value, ks);
      if last.key in ks {
        assert Without(xs, ks) == Without(xs[..n], ks);
      } else {
        FromListSnoc(Without(xs[..n], ks), last);
      }
    }
  }

  lemma {:induction false} FromListConcat<K, V>(a: Entries<K, V>, b: Entries<K, V>)
    requires Keys(a) !! Keys(b)
    ensures FromList(a + b) == FromList(a) + FromList(b)
  {
    if b == [] {
      assert a + b == a;
      assert FromList(a) + [] == FromList(a);
    } else {
      var init, last := b[..|b| - 1], b[|b| - 1];
      assert b == init + [last];
      assert last in b && last.key in Keys(b);
      KeysConcat(init, [last]);
      FromListConcat(a, init);
      FromListKeys(a);
      Sequences.AppendAssoc(a, init, [last]);
      FromListSnoc(a + init, last);
      FromListSnoc(init, last);
      SetAppends(FromList(a), FromList(init), last.key, last.value);
    }
  }

  lemma {:induction false} FromListOfUnique<K, V>(xs: Entries<K, V>)
    requires Unique(xs)
    ensures FromList(xs) == xs
  {
    if xs != [] {
      var n := |xs| - 1;
      FromListOfUnique(xs[..n]);
      forall e | e in xs[..n] ensures e.key != xs[n].key {
        var i :| 0 <= i < n && xs[i] == e;
      }
      SetNew(xs[..n], xs[n].key, xs[n].value);
      assert xs == xs[..n] + [xs[n]];
    }
  }

  // ---------- Lookup by name ----------

  lemma {:induction false} NamedConcat<K, V>(a: Entries<K, V>, b: Entries<K, V>, k: K)
    ensures Named(a + b, k) == Named(a, k) + Named(b, k)
  {
    if a == [] {
      assert a + b == b && Named(a, k) == [];
    } else {
      NamedConcat(a[1..], b, k);
      assert (a + b)[0] == a[0] && (a + b)[1..] == a[1..] + b;
      if a[0].key == k {
        assert [a[0]] + (Named(a[1..], k) + Named(b, k)) == ([a[0]] + Named(a[1..], k)) + Named(b, k);
      }
    }
  }

  lemma {:induction false} NamedAbsent<K, V>(m: Entries<K, V>, k: K)
    ensures Named(m, k) == [] <==> k !in Keys(m)
  {
    if m != [] {
      NamedAbsent(m[1..], k);
      assert m == [m[0]] + m[1..];
      KeysConcat([m[0]], m[1..]);
    }
  }

  lemma {:induction false} NamedWithout<K, V>(m: Entries<K, V>, ks: set<K>, k: K)
    ensures Named(Without(m, ks), k) == if k in ks then [] else Named(m, k)
  {
    if m != [] {
      NamedWithout(m[1..], ks, k);
      if m[0].key !in ks {
        assert ([m[0]] + Without(m[1..], ks))[1..] == Without(m[1..], ks);
      }
    }
  }

  lemma {:induction false} FindNamed<K, V>(m: Entries<K, V>, k: K)
    ensures Find(m, k) == if Named(m, k) == [] then None else Some(Named(m, k)[0].value)
  {
    if m != [] {
      FindNamed(m[1..], k);
    }
  }

  lemma {:induction false} NamedSet<K, V>(m: Entries<K, V>, k: K, v: V, n: K)
    requires Unique(m)
    ensures Named(Set(m, k, v), n) == if n == k then [Entry(k, v)] else Named(m, n)
  {
    if m != [] {
      UniqueTail(m);
      if m[0].key == k {
        assert ([Entry(k, v)] + m[1..])[1..] == m[1..];
        NamedAbsent(m[1..], k);
      } else {
        NamedSet(m[1..], k, v, n);
        assert ([m[0]] + Set(m[1..], k, v))[1..] == Set(m[1..], k, v);
        NamedAbsent(m[1..], m[0].key);
      }
    }
  }

  lemma NamedSnoc<K, V>(xs: Entries<K, V>, last: Entry<K, V>, k: K)
    ensures Named(xs + [last], k) == Named(xs, k) + if last.key == k then [last] else []
  {
    NamedConcat(xs, [last], k);
  }

  /** A map built from a list answers a lookup with the last entry of that name. */
  lemma {:induction false} NamedFromList<K, V>(xs: Entries<K, V>, k: K)
    ensures Named(FromList(xs), k) == if Named(xs, k) == [] then [] else [Named(xs, k)[|Named(xs, k)| - 1]]
  {
    if xs != [] {
      var n := |xs| - 1;
      var init, last := xs[..n], xs[n];
      NamedFromList(init, k);
      assert xs == init + [last];
      NamedSnoc(init, last, k);
      FromListSnoc(init, last);
      FromListUnique(init);
      NamedSet(FromList(init), last.key, last.value, k);
    }
  }

  lemma FindUnique<K, V>(m: Entries<K, V>, e: Entry<K, V>)
    requires Unique(m) && e in m
    ensures Find(m, e.key) == Some(e.value)
  {
  }
}
