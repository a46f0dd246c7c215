/** What the model needs of Rust's `HashMap`: its iteration visits the entries
    in an unspecified order, and the source turns what it collects into a
    `Vec` sorted by key before anything depends on the order. */
module HashMaps {
  import opened Text

  /** Keys strictly ascending, so no key occurs twice. */
  predicate KeysAscending<V>(s: seq<(string, V)>)
  {
    forall i, j :: 0 <= i < j < |s| ==> Less(s[i].0, s[j].0)
  }

  /** `s` lists exactly the entries of `m`, in ascending key order. */
  ghost predicate Lists<V>(s: seq<(string, V)>, m: map<string, V>)
  {
    && KeysAscending(s)
    && (forall i :: 0 <= i < |s| ==> s[i].0 in m && m[s[i].0] == s[i].1)
    && (forall k :: k in m ==> exists i :: 0 <= i < |s| && s[i].0 == k)
  }

  /** Puts `e` in front of the first entry whose key is greater than its own. */
  function InsertByKey<V>(s: seq<(string, V)>, e: (string, V)): seq<(string, V)>
  {
    if |s| == 0 || Less(e.0, s[0].0) then [e] + s
    else [s[0]] + InsertByKey(s[1..], e)
  }

  /** Inserting an entry with a new key into the listing of `m` gives the
      listing of `m` extended with that entry. */
  lemma {:induction false} InsertKeepsListing<V>(s: seq<(string, V)>, m: map<string, V>, k: string, v: V)
    requires Lists(s, m) && k !in m
    ensures Lists(InsertByKey(s, (k, v)), m[k := v])
    decreases |s|
  {
    if |s| == 0 || Less(k, s[0].0) {
      InsertInFront(s, m, k, v);
    } else {
      LessTotal(k, s[0].0);
      TailListing(s, m);
      InsertKeepsListing(s[1..], m - {s[0].0}, k, v);
      InsertBehindHead(s, m, k, v);
    }
  }

  /** The case where the new key precedes every key of the listing. */
  lemma InsertInFront<V>(s: seq<(string, V)>, m: map<string, V>, k: string, v: V)
    requires Lists(s, m) && k !in m
    requires |s| == 0 || Less(k, s[0].0)
    ensures Lists(InsertByKey(s, (k, v)), m[k := v])
  {
    var r := InsertByKey(s, (k, v));
    assert r == [(k, v)] + s;
    forall i, j | 0 <= i < j < |r|
      ensures Less(r[i].0, r[j].0)
    {
      if i == 0 && j > 1 {
        LessTransitive(k, s[0].0, s[j - 1].0);
      }
    }
    var mk := m[k := v];
    forall x | x in mk
      ensures exists i :: 0 <= i < |r| && r[i].0 == x
    {
      if x == k {
        assert r[0].0 == x;
      } else {
        var i :| 0 <= i < |s| && s[i].0 == x;
        assert r[i + 1].0 == x;
      }
    }
  }

  /** The case where the head of the listing stays in front: given the
      listing of the tail with the new entry, the head goes before it. */
  lemma InsertBehindHead<V>(s: seq<(string, V)>, m: map<string, V>, k: string, v: V)
    requires Lists(s, m) && k !in m && |s| > 0 && Less(s[0].0, k)
    requires Lists(InsertByKey(s[1..], (k, v)), (m - {s[0].0})[k := v])
    ensures Lists(InsertByKey(s, (k, v)), m[k := v])
  {
    LessAsymmetric(s[0].0, k);
    InsertAfterHead(s, (k, v));
    HeadBelowRest(s, m, k, v);
    var t := InsertByKey(s[1..], (k, v));
    ConsAscending(s[0], t);
    ConsEntries(s[0], t, m, k, v);
  }

  /** An entry below every key of an ascending listing can go in front. */
  lemma ConsAscending<V>(h: (string, V), t: seq<(string, V)>)
    requires KeysAscending(t)
    requires forall j :: 0 <= j < |t| ==> Less(h.0, t[j].0)
    ensures KeysAscending([h] + t)
  {
    var r := [h] + t;
    forall i, j | 0 <= i < j < |r|
      ensures Less(r[i].0, r[j].0)
    {
      if i == 0 {
        assert r[j] == t[j - 1];
      } else {
        assert r[i] == t[i - 1] && r[j] == t[j - 1];
      }
    }
  }

  /** An entry of `m` in front of a listing of the rest of `m`, with a
      new entry, lists `m` with the new entry. */
  lemma ConsEntries<V>(h: (string, V), t: seq<(string, V)>, m: map<string, V>, k: string, v: V)
    requires h.0 in m && m[h.0] == h.1 && k !in m
    requires Lists(t, (m - {h.0})[k := v]) && KeysAscending([h] + t)
    ensures Lists([h] + t, m[k := v])
  {
    var r := [h] + t;
    var mk := m[k := v];
    forall i | 0 <= i < |r|
      ensures r[i].0 in mk && mk[r[i].0] == r[i].1
    {
      if i > 0 {
        assert r[i] == t[i - 1];
      }
    }
    forall x | x in mk
      ensures exists i :: 0 <= i < |r| && r[i].0 == x
    {
      if x == h.0 {
        assert r[0].0 == x;
      } else {
        assert x in (m - {h.0})[k := v];
        var i :| 0 <= i < |t| && t[i].0 == x;
        assert r[i + 1].0 == x;
      }
    }
  }

  lemma InsertAfterHead<V>(s: seq<(string, V)>, e: (string, V))
    requires |s| > 0 && !Less(e.0, s[0].0)
    ensures InsertByKey(s, e) == [s[0]] + InsertByKey(s[1..], e)
  {
  }

  /** Every key of the tail, new key included, follows the head's key. */
  lemma HeadBelowRest<V>(s: seq<(string, V)>, m: map<string, V>, k: string, v: V)
    requires Lists(s, m) && k !in m && |s| > 0 && Less(s[0].0, k)
    requires Lists(InsertByKey(s[1..], (k, v)), (m - {s[0].0})[k := v])
    ensures forall j :: 0 <= j < |InsertByKey(s[1..], (k, v))| ==> Less(s[0].0, InsertByKey(s[1..], (k, v))[j].0)
  {
    var h := s[0].0;
    var t := InsertByKey(s[1..], (k, v));
    forall j | 0 <= j < |t|
      ensures Less(h, t[j].0)
    {
      if t[j].0 != k {
        assert t[j].0 in m - {h};
        var i :| 0 <= i < |s| && s[i].0 == t[j].0;
        assert i > 0;
      }
    }
  }

  /** Dropping the first entry of a listing lists the map without its key. */
  lemma TailListing<V>(s: seq<(string, V)>, m: map<string, V>)
    requires Lists(s, m) && |s| > 0
    ensures Lists(s[1..], m - {s[0].0})
  {
    var h := s[0].0;
    var t := s[1..];
    forall x | 0 <= x < |t|
      ensures t[x].0 in m - {h} && (m - {h})[t[x].0] == t[x].1
    {
      assert Less(s[0].0, s[x + 1].0);
      LessIrreflexive(h);
    }
    forall x | x in m - {h}
      ensures exists y :: 0 <= y < |t| && t[y].0 == x
    {
      var y :| 0 <= y < |s| && s[y].0 == x;
      assert t[y - 1].0 == x;
    }
  }

  /** Only the empty map has the empty listing. */
  lemma ListingEmpty<V>(s: seq<(string, V)>, m: map<string, V>)
    requires Lists(s, m)
    ensures |s| == 0 ==> m == map[]
    ensures |s| > 0 ==> s[0].0 in m
  {
  }

  /** The ascending listing of a map: the `Vec` the source obtains by
      collecting a map's entries and sorting them by key. */
  ghost function Listing<V>(m: map<string, V>): (s: seq<(string, V)>)
    ensures Lists(s, m)
    decreases |m|
  {
    if m == map[] then []
    else
      var k :| k in m;
      var rest := m - {k};
      assert rest.Keys == m.Keys - {k};
      assert rest[k := m[k]] == m;
      InsertKeepsListing(Listing(rest), rest, k, m[k]);
      InsertByKey(Listing(rest), (k, m[k]))
  }

  /** A map has only one ascending listing: sorting by distinct keys does not
      depend on the order in which the entries were collected. */
  lemma {:induction false} ListingUnique<V>(a: seq<(string, V)>, b: seq<(string, V)>, m: map<string, V>)
    requires Lists(a, m) && Lists(b, m)
    ensures a == b
    decreases |a|
  {
    ListingEmpty(a, m);
    ListingEmpty(b, m);
    if |a| > 0 {
      assert a[0].0 in m;
      var j :| 0 <= j < |b| && b[j].0 == a[0].0;
      var i :| 0 <= i < |a| && a[i].0 == b[0].0;
      SameHead(a, b, m, i, j);
      TailListing(a, m);
      TailListing(b, m);
      ListingUnique(a[1..], b[1..], m - {a[0].0});
      SameHeadSameTail(a, b);
    }
  }

  /** Two listings of one map start with the same entry. */
  lemma SameHead<V>(a: seq<(string, V)>, b: seq<(string, V)>, m: map<string, V>, i: nat, j: nat)
    requires Lists(a, m) && Lists(b, m)
    requires i < |a| && j < |b| && a[i].0 == b[0].0 && b[j].0 == a[0].0
    ensures a[0] == b[0]
  {
    if i > 0 && j > 0 {
      assert Less(a[0].0, b[0].0) && Less(b[0].0, a[0].0);
      LessAsymmetric(a[0].0, b[0].0);
    }
  }

  lemma SameHeadSameTail<V>(a: seq<(string, V)>, b: seq<(string, V)>)
    requires |a| > 0 && |b| > 0 && a[0] == b[0] && a[1..] == b[1..]
    ensures a == b
  {
    assert a == [a[0]] + a[1..] && b == [b[0]] + b[1..];
  }

  /** Collects the entries of `m`, visiting them in the map's unspecified
      iteration order, into a vector sorted by key (the source's `collect`
      followed by `sort`/`sort_by`). Each entry is inserted into the sorted
      prefix; the standard library's sort is not part of this model. */
  method SortByKey<V>(m: map<string, V>) returns (sorted: seq<(string, V)>)
    ensures sorted == Listing(m)
  {
    sorted := [];
    var rest := m;
    ghost var seen: map<string, V> := map[];
    while |rest| > 0
      invariant forall k :: k in rest ==> k in m && rest[k] == m[k]
      invariant forall k :: k in seen ==> k in m && seen[k] == m[k]
      invariant forall k :: k in m ==> (k in rest <==> k !in seen)
      invariant Lists(sorted, seen)
      decreases |rest|
    {
      var k :| k in rest;
      InsertKeepsListing(sorted, seen, k, rest[k]);
      sorted := InsertByKey(sorted, (k, rest[k]));
      seen := seen[k := rest[k]];
      assert (rest - {k}).Keys == rest.Keys - {k};
      rest := rest - {k};
    }
    assert seen == m;
    ListingUnique(sorted, Listing(m), m);
  }

  /** The keys of `m` in the map's unspecified iteration order (`keys()`). */
  method IterKeys<V>(m: map<string, V>) returns (keys: seq<string>)
    ensures forall k :: k in keys <==> k in m
    ensures forall i, j :: 0 <= i < j < |keys| ==> keys[i] != keys[j]
  {
    keys := [];
    var rest := m.Keys;
    while rest != {}
      invariant rest <= m.Keys
      invariant forall k :: k in keys <==> k in m && k !in rest
      invariant forall i, j :: 0 <= i < j < |keys| ==> keys[i] != keys[j]
      decreases rest
    {
      var k :| k in rest;
      keys := keys + [k];
      rest := rest - {k};
    }
  }
}
