/** Order and size of the response cache: the store is in order of last use, what a full cache gives
    up is its least recently used entry, and a larger cache never misses where a smaller one hits. */
module CacheOrder {
  import opened Cache

  // ----- recency -----

  predicate Touches<K(==), R>(l: seq<Entry<K, R>>, ev: Event<K, R>, k: K) {
    match ev
    case Get(k', ttl, now) => k' == k && GetIn(l, k', ttl, now).1.Some?
    case Set(k', _, ttl, _) => k' == k && ttl > 0.0
    case Clear => false
  }

  /** How many events had happened when `k` was last set or hit; 0 if it never was. */
  function LastUse<K(==), R>(evs: seq<Event<K, R>>, maxSize: nat, k: K): (n: nat)
    ensures n <= |evs|
  {
    if evs == [] then 0
    else if Touches(After(evs[..|evs| - 1], maxSize), evs[|evs| - 1], k) then |evs|
    else LastUse(evs[..|evs| - 1], maxSize, k)
  }

  ghost predicate OrderedBy<K, R>(l: seq<Entry<K, R>>, rank: K -> nat) {
    forall i, j :: 0 <= i < j < |l| ==> rank(l[i].key) < rank(l[j].key)
  }

  lemma RemoveOrdered<K, R>(l: seq<Entry<K, R>>, k: K, rank: K -> nat)
    requires OrderedBy(l, rank)
    ensures OrderedBy(Remove(l, k), rank) && forall e :: e in Remove(l, k) ==> e in l
  {
    if l != [] && l[0].key != k {
      assert OrderedBy(l[1..], rank);
      RemoveOrdered(l[1..], k, rank);
      var r := Remove(l, k);
      assert r[1..] == Remove(l[1..], k);
      forall i, j | 0 <= i < j < |r| ensures rank(r[i].key) < rank(r[j].key) {
        if i > 0 {
          assert r[i] == r[1..][i - 1] && r[j] == r[1..][j - 1];
        } else {
          assert r[j] in r[1..] by { assert r[1..][j - 1] == r[j]; }
          assert r[j] in l[1..];
        }
      }
    }
  }

  lemma OrderedAppend<K, R>(l: seq<Entry<K, R>>, e: Entry<K, R>, rank: K -> nat)
    requires OrderedBy(l, rank) && forall x :: x in l ==> rank(x.key) < rank(e.key)
    ensures OrderedBy(l + [e], rank)
  {
  }

  lemma Reranked<K, R>(l: seq<Entry<K, R>>, before: K -> nat, after: K -> nat)
    requires OrderedBy(l, before) && forall i :: 0 <= i < |l| ==> after(l[i].key) == before(l[i].key)
    ensures OrderedBy(l, after)
  {
  }

  lemma TouchedMovesLast<K, R>(l: seq<Entry<K, R>>, e: Entry<K, R>, before: K -> nat, after: K -> nat, n: nat)
    requires Distinct(l) && OrderedBy(l, before)
    requires forall k :: before(k) < n && after(k) == if k == e.key then n else before(k)
    ensures OrderedBy(Remove(l, e.key) + [e], after)
  {
    var rest := Remove(l, e.key);
    RemoveOrdered(l, e.key, before);
    RemoveProps(l, e.key);
    forall i | 0 <= i < |rest| ensures after(rest[i].key) == before(rest[i].key) {
      assert rest[i].key in Keys(rest);
    }
    Reranked(rest, before, after);
    OrderedAppend(rest, e, after);
  }

  lemma RecencyStep<K, R>(l: seq<Entry<K, R>>, ev: Event<K, R>, maxSize: nat, before: K -> nat, after: K -> nat, n: nat)
    requires Distinct(l) && |l| <= maxSize && OrderedBy(l, before)
    requires forall k :: before(k) < n && after(k) == if Touches(l, ev, k) then n else before(k)
    ensures OrderedBy(Apply(l, ev, maxSize), after)
  {
    match ev
    case Clear =>
    case Get(k, ttl, now) =>
      if Touches(l, ev, k) {
        TouchedMovesLast(l, Find(l, k).value, before, after, n);
      } else {
        Reranked(l, before, after);
        RemoveOrdered(l, k, after);
      }
    case Set(k, r, ttl, now) =>
      if Touches(l, ev, k) {
        TouchedMovesLast(l, Stored(ev), before, after, n);
      } else {
        Reranked(l, before, after);
      }
  }

  /** The store is in order of last use. */
  lemma {:induction false} StoreIsRecencyOrder<K, R>(evs: seq<Event<K, R>>, maxSize: nat)
    ensures OrderedBy(After(evs, maxSize), k => LastUse(evs, maxSize, k))
  {
    if evs != [] {
      var ev, init := evs[|evs| - 1], evs[..|evs| - 1];
      StoreIsRecencyOrder(init, maxSize);
      HoldsLatest(init, maxSize);
      RecencyStep(After(init, maxSize), ev, maxSize,
                  k => LastUse(init, maxSize, k), k => LastUse(evs, maxSize, k), |evs|);
    }
  }

  /** A set drops at most one entry besides the one it replaces: the first of the store, hence by
      `StoreIsRecencyOrder` the least recently used, and only when the cache is full. */
  lemma EvictsLeastRecent<K, R>(l: seq<Entry<K, R>>, ev: Event<K, R>, maxSize: nat)
    requires Distinct(l) && |l| <= maxSize && Stores(ev)
    ensures Apply(l, ev, maxSize) ==
            if ev.key !in Keys(l) && |l| == maxSize then Full(l, ev)[1..] else Full(l, ev)
    ensures ev.key !in Keys(l) && |l| == maxSize && maxSize > 0 ==> Full(l, ev)[0] == l[0]
  {
    FullProps(l, ev);
    RemoveProps(l, ev.key);
  }

  // ----- inclusion -----

  function Keep<K(==), R>(l: seq<Entry<K, R>>, ks: set<K>): seq<Entry<K, R>> {
    if l == [] then []
    else if l[0].key in ks then [l[0]] + Keep(l[1..], ks)
    else Keep(l[1..], ks)
  }

  lemma KeepAppend<K, R>(a: seq<Entry<K, R>>, b: seq<Entry<K, R>>, ks: set<K>)
    ensures Keep(a + b, ks) == Keep(a, ks) + Keep(b, ks)
  {
    if a == [] {
      assert a + b == b;
    } else {
      assert (a + b)[1..] == a[1..] + b;
      KeepAppend(a[1..], b, ks);
    }
  }

  /** Only the keys that occur matter. */
  lemma KeepAgree<K, R>(l: seq<Entry<K, R>>, ks: set<K>, ks': set<K>)
    requires Keys(l) * ks == Keys(l) * ks'
    ensures Keep(l, ks) == Keep(l, ks')
  {
    if l != [] {
      KeysSplit(l);
      assert l[0].key in Keys(l);
      assert Keys(l[1..]) * ks == Keys(l[1..]) * ks' by {
        forall k | k in Keys(l[1..]) ensures k in ks <==> k in ks' {
          assert k in Keys(l);
          assert k in Keys(l) * ks <==> k in Keys(l) * ks';
        }
      }
      assert l[0].key in Keys(l) * ks <==> l[0].key in Keys(l) * ks';
      KeepAgree(l[1..], ks, ks');
    }
  }

  lemma KeepAll<K, R>(l: seq<Entry<K, R>>, ks: set<K>)
    requires Keys(l) <= ks
    ensures Keep(l, ks) == l
  {
    if l != [] {
      KeysSplit(l);
      KeepAll(l[1..], ks);
    }
  }

  lemma KeepTwice<K, R>(l: seq<Entry<K, R>>, ks: set<K>, ks': set<K>)
    ensures Keep(Keep(l, ks), ks') == Keep(l, ks * ks')
  {
    if l != [] { KeepTwice(l[1..], ks, ks'); }
  }

  lemma KeepElems<K, R>(l: seq<Entry<K, R>>, ks: set<K>)
    ensures forall e :: e in Keep(l, ks) <==> e in l && e.key in ks
  {
    if l != [] { KeepElems(l[1..], ks); }
  }

  lemma KeepKeys<K, R>(l: seq<Entry<K, R>>, ks: set<K>)
    ensures forall i :: 0 <= i < |Keep(l, ks)| ==> Keep(l, ks)[i].key in ks
  {
  }

  lemma KeepRemove<K, R>(l: seq<Entry<K, R>>, k: K, ks: set<K>)
    requires Distinct(l)
    ensures Keep(Remove(l, k), ks) == Remove(Keep(l, ks), k)
  {
    if l == [] {
    } else if l[0].key != k {
      KeepRemove(l[1..], k, ks);
    } else if l[0].key !in ks {
      KeepKeys(l[1..], ks);
      RemoveAbsent(Keep(l[1..], ks), k);
    }
  }

  lemma RemoveAbsent<K, R>(l: seq<Entry<K, R>>, k: K)
    requires forall i :: 0 <= i < |l| ==> l[i].key != k
    ensures Remove(l, k) == l
  {
  }

  /** The small store is what the large one looks like without the keys the small one lacks, in the same
      order, and the large one has at least as much free room. */
  ghost predicate Within<K, R>(s: seq<Entry<K, R>>, small: nat, l: seq<Entry<K, R>>, large: nat) {
    && Distinct(s) && Distinct(l)
    && |s| <= small && |l| <= large
    && small - |s| <= large - |l|
    && s == Keep(l, Keys(s))
  }

  lemma WithinFind<K, R>(s: seq<Entry<K, R>>, l: seq<Entry<K, R>>, k: K)
    requires Distinct(s) && Distinct(l) && s == Keep(l, Keys(s)) && k in Keys(s)
    ensures Find(s, k).Some? && Find(l, k) == Find(s, k)
  {
    KeepElems(l, Keys(s));
    FindUnique(l, Find(s, k).value);
  }

  lemma RemoveKeeps<K, R>(s: seq<Entry<K, R>>, l: seq<Entry<K, R>>, k: K)
    requires Distinct(s) && Distinct(l) && s == Keep(l, Keys(s))
    ensures Remove(s, k) == Keep(Remove(l, k), Keys(s)) == Keep(Remove(l, k), Keys(Remove(s, k)))
  {
    RemoveProps(s, k);
    RemoveProps(l, k);
    KeepRemove(l, k, Keys(s));
    KeepAgree(Remove(l, k), Keys(s), Keys(Remove(s, k)));
  }

  lemma AppendKeeps<K, R>(s: seq<Entry<K, R>>, l: seq<Entry<K, R>>, e: Entry<K, R>)
    requires s == Keep(l, Keys(s)) && e.key !in Keys(l) && e.key !in Keys(s)
    ensures s + [e] == Keep(l + [e], Keys(s + [e]))
  {
    KeysConcat(s, [e]);
    KeysOne(e);
    var ks := Keys(s + [e]);
    KeepAppend(l, [e], ks);
    KeepAgree(l, Keys(s), ks);
  }

  lemma KeptKeys<K, R>(s: seq<Entry<K, R>>, l: seq<Entry<K, R>>)
    requires s == Keep(l, Keys(s))
    ensures Keys(s) <= Keys(l)
  {
    KeepElems(l, Keys(s));
    forall k | k in Keys(s) ensures k in Keys(l) {
      var i :| 0 <= i < |s| && s[i].key == k;
      assert s[i] in l;
    }
  }

  lemma GetKeepsWithin<K, R>(s: seq<Entry<K, R>>, small: nat, l: seq<Entry<K, R>>, large: nat, k: K, ttl: real,
                             now: real)
    requires Within(s, small, l, large)
    ensures Within(GetIn(s, k, ttl, now).0, small, GetIn(l, k, ttl, now).0, large)
    ensures GetIn(s, k, ttl, now).1.Some? ==> GetIn(l, k, ttl, now).1 == GetIn(s, k, ttl, now).1
  {
    KeptKeys(s, l);
    RemoveProps(s, k);
    RemoveProps(l, k);
    RemoveKeeps(s, l, k);
    if k in Keys(l) {
      var e := Find(l, k).value;
      if k in Keys(s) { WithinFind(s, l, k); }
      AppendDistinct(Remove(l, k), e);
      if k in Keys(s) {
        AppendDistinct(Remove(s, k), e);
        AppendKeeps(Remove(s, k), Remove(l, k), e);
      } else {
        KeepAppend(Remove(l, k), [e], Keys(s));
      }
    }
  }

  lemma TailKeeps<K, R>(s: seq<Entry<K, R>>, l: seq<Entry<K, R>>)
    requires Distinct(s) && Distinct(l) && s == Keep(l, Keys(s)) && s != []
    ensures s[1..] == Keep(l, Keys(s[1..])) == Keep(l[1..], Keys(s[1..]))
  {
    KeysSplit(s);
    var ks := Keys(s[1..]);
    KeepTwice(l, Keys(s), ks);
    assert Keys(s) * ks == ks;
    KeepAll(s[1..], ks);
    assert s[0].key !in ks;
    assert Keep(s, ks) == s[1..];
    assert l[0].key !in ks by {
      if l[0].key in Keys(s) { assert s[0] == l[0]; }
    }
  }

  lemma SetKeepsWithin<K, R>(s: seq<Entry<K, R>>, small: nat, l: seq<Entry<K, R>>, large: nat, ev: Event<K, R>)
    requires Within(s, small, l, large) && Stores(ev)
    ensures Within(Apply(s, ev, small), small, Apply(l, ev, large), large)
  {
    var k := ev.key;
    KeptKeys(s, l);
    RemoveProps(s, k);
    RemoveProps(l, k);
    FullProps(s, ev);
    FullProps(l, ev);
    RemoveKeeps(s, l, k);
    AppendKeeps(Remove(s, k), Remove(l, k), Stored(ev));
    EvictsLeastRecent(s, ev, small);
    EvictsLeastRecent(l, ev, large);
    TailKeeps(Full(s, ev), Full(l, ev));
    assert Distinct(Full(s, ev)[1..]) && Distinct(Full(l, ev)[1..]);
  }

  lemma {:induction false} AlwaysWithin<K, R>(evs: seq<Event<K, R>>, small: nat, large: nat)
    requires small <= large
    ensures Within(After(evs, small), small, After(evs, large), large)
  {
    if evs != [] {
      var ev, init := evs[|evs| - 1], evs[..|evs| - 1];
      var s, l := After(init, small), After(init, large);
      AlwaysWithin(init, small, large);
      match ev
      case Get(k, ttl, now) => GetKeepsWithin(s, small, l, large, k, ttl, now);
      case Set(k, r, ttl, now) => if Stores(ev) { SetKeepsWithin(s, small, l, large, ev); }
      case Clear =>
    }
  }

  /** Inclusion: over the same events a larger cache holds every entry a smaller one holds, and answers
      every get the smaller one answers, with the same response. */
  lemma EnlargingNeverMisses<K, R>(evs: seq<Event<K, R>>, small: nat, large: nat, k: K, ttl: real, now: real)
    requires small <= large
    ensures forall e :: e in After(evs, small) ==> e in After(evs, large)
    ensures var r := GetIn(After(evs, small), k, ttl, now).1;
            r.Some? ==> GetIn(After(evs, large), k, ttl, now).1 == r
  {
    AlwaysWithin(evs, small, large);
    KeepElems(After(evs, large), Keys(After(evs, small)));
    GetKeepsWithin(After(evs, small), small, After(evs, large), large, k, ttl, now);
  }
}
