/** The response cache of keyhub/llm/cache.py: least-recently-used with a time to live.  The ordered
    dictionary is the sequence of its entries, least recently used first. */
module Cache {
  import opened Prelude

  datatype Entry<K, R> = Entry(key: K, resp: R, expireAt: real)

  // ----- the ordered dictionary -----

  function Keys<K, R>(l: seq<Entry<K, R>>): set<K> {
    set i | 0 <= i < |l| :: l[i].key
  }

  ghost predicate Distinct<K, R>(l: seq<Entry<K, R>>) {
    forall i, j :: 0 <= i < j < |l| ==> l[i].key != l[j].key
  }

  function Find<K(==), R>(l: seq<Entry<K, R>>, k: K): (r: Option<Entry<K, R>>)
    ensures r.Some? <==> k in Keys(l)
    ensures r.Some? ==> r.value in l && r.value.key == k
  {
    if l == [] then None
    else if l[0].key == k then assert l[0].key in Keys(l); Some(l[0])
    else
      assert Keys(l) == {l[0].key} + Keys(l[1..]) by { KeysSplit(l); }
      Find(l[1..], k)
  }

  function Remove<K(==), R>(l: seq<Entry<K, R>>, k: K): (r: seq<Entry<K, R>>)
    ensures |r| <= |l|
  {
    if l == [] then [] else if l[0].key == k then l[1..] else [l[0]] + Remove(l[1..], k)
  }

  lemma KeysSplit<K, R>(l: seq<Entry<K, R>>)
    requires l != []
    ensures Keys(l) == {l[0].key} + Keys(l[1..])
  {
    assert l == [l[0]] + l[1..];
    KeysConcat([l[0]], l[1..]);
    KeysOne(l[0]);
  }

  lemma KeysOne<K, R>(e: Entry<K, R>)
    ensures Keys([e]) == {e.key}
  {
    assert [e][0].key in Keys([e]);
  }

  lemma KeysConcat<K, R>(a: seq<Entry<K, R>>, b: seq<Entry<K, R>>)
    ensures Keys(a + b) == Keys(a) + Keys(b)
  {
    forall k | k in Keys(a) + Keys(b) ensures k in Keys(a + b) {
      if k in Keys(a) {
        var i :| 0 <= i < |a| && a[i].key == k;
        assert (a + b)[i].key == k;
      } else {
        var i :| 0 <= i < |b| && b[i].key == k;
        assert (a + b)[|a| + i].key == k;
      }
    }
  }

  lemma RemoveProps<K, R>(l: seq<Entry<K, R>>, k: K)
    requires Distinct(l)
    ensures var r := Remove(l, k);
            && Distinct(r) && Keys(r) == Keys(l) - {k}
            && |r| == (if k in Keys(l) then |l| - 1 else |l|)
            && (k !in Keys(l) ==> r == l)
            && (forall e :: e in r ==> e in l)
  {
    if l != [] {
      KeysSplit(l);
      assert l[0].key !in Keys(l[1..]);
      RemoveProps(l[1..], k);
      if l[0].key != k {
        var r := Remove(l, k);
        KeysSplit(r);
        assert r[1..] == Remove(l[1..], k);
        forall i, j | 0 <= i < j < |r| ensures r[i].key != r[j].key {
          assert r[j].key in Keys(r[1..]) by { assert r[1..][j - 1] == r[j]; }
        }
      }
    }
  }

  lemma FindUnique<K, R>(l: seq<Entry<K, R>>, e: Entry<K, R>)
    requires Distinct(l) && e in l
    ensures Find(l, e.key) == Some(e)
  {
    var i :| 0 <= i < |l| && l[i] == e;
    assert e.key in Keys(l);
    var f := Find(l, e.key).value;
    var j :| 0 <= j < |l| && l[j] == f;
  }

  // ----- operations -----

  function GetIn<K(==), R>(l: seq<Entry<K, R>>, k: K, ttl: real, now: real): (seq<Entry<K, R>>, Option<R>) {
    if ttl <= 0.0 then (l, None)
    else match Find(l, k)
         case None => (l, None)
         case Some(e) => if now > e.expireAt then (Remove(l, k), None) else (Remove(l, k) + [e], Some(e.resp))
  }

  function Trim<K, R>(l: seq<Entry<K, R>>, maxSize: nat): seq<Entry<K, R>> {
    if |l| > maxSize then l[|l| - maxSize..] else l
  }

  function SetIn<K(==), R>(l: seq<Entry<K, R>>, k: K, r: R, ttl: real, now: real, maxSize: nat): seq<Entry<K, R>> {
    if ttl <= 0.0 then l else Trim(Remove(l, k) + [Entry(k, r, now + ttl)], maxSize)
  }

  class ResponseCache<K(==), R> {
    var store: seq<Entry<K, R>>
    const maxSize: nat

    constructor (maxSize: nat)
      ensures store == [] && this.maxSize == maxSize
    {
      store := [];
      this.maxSize := maxSize;
    }

    method Get(k: K, ttl: real, now: real) returns (r: Option<R>)
      modifies this
      ensures (store, r) == GetIn(old(store), k, ttl, now)
    {
      if ttl <= 0.0 { return None; }
      var item := Find(store, k);
      if item.None? { return None; }
      store := Remove(store, k);
      if now > item.value.expireAt { return None; }
      store := store + [item.value];
      r := Some(item.value.resp);
    }

    method Set(k: K, resp: R, ttl: real, now: real)
      modifies this
      ensures store == SetIn(old(store), k, resp, ttl, now, maxSize)
    {
      if ttl <= 0.0 { return; }
      store := Remove(store, k) + [Entry(k, resp, now + ttl)];
      ghost var full := store;
      while |store| > maxSize
        invariant |store| <= |full| && store == full[|full| - |store|..]
        invariant |full| > maxSize ==> |store| >= maxSize
        invariant |full| <= maxSize ==> store == full
      {
        store := store[1..];
      }
    }

    method Clear() returns (n: nat)
      modifies this
      ensures store == [] && n == |old(store)|
    {
      n := |store|;
      store := [];
    }
  }

  // ----- runs -----

  datatype Event<K, R> =
    | Get(key: K, ttl: real, now: real)
    | Set(key: K, resp: R, ttl: real, now: real)
    | Clear

  function Apply<K(==), R>(l: seq<Entry<K, R>>, ev: Event<K, R>, maxSize: nat): seq<Entry<K, R>> {
    match ev
    case Get(k, ttl, now) => GetIn(l, k, ttl, now).0
    case Set(k, r, ttl, now) => SetIn(l, k, r, ttl, now, maxSize)
    case Clear => []
  }

  function After<K(==), R>(evs: seq<Event<K, R>>, maxSize: nat): seq<Entry<K, R>> {
    if evs == [] then [] else Apply(After(evs[..|evs| - 1], maxSize), evs[|evs| - 1], maxSize)
  }

  /** The timed map: what a cache that never forgets would hold for `k`, read off the history. */
  function LastSet<K(==), R>(evs: seq<Event<K, R>>, k: K): (r: Option<Entry<K, R>>)
    ensures r.Some? ==> r.value.key == k
  {
    if evs == [] then None else
    var ev := evs[|evs| - 1];
    if ev.Clear? then None
    else if ev.Set? && ev.key == k && ev.ttl > 0.0 then Some(Entry(k, ev.resp, ev.now + ev.ttl))
    else LastSet(evs[..|evs| - 1], k)
  }

  lemma AppendDistinct<K, R>(l: seq<Entry<K, R>>, e: Entry<K, R>)
    requires Distinct(l) && e.key !in Keys(l)
    ensures Distinct(l + [e]) && Keys(l + [e]) == Keys(l) + {e.key}
  {
    KeysConcat(l, [e]);
    KeysOne(e);
    forall i | 0 <= i < |l| ensures l[i].key != e.key {}
  }

  predicate Stores<K, R>(ev: Event<K, R>) {
    ev.Set? && ev.ttl > 0.0
  }

  function Stored<K, R>(ev: Event<K, R>): Entry<K, R>
    requires Stores(ev)
  {
    Entry(ev.key, ev.resp, ev.now + ev.ttl)
  }

  /** What a storing set builds before the size is brought back under the maximum. */
  function Full<K(==), R>(l: seq<Entry<K, R>>, ev: Event<K, R>): seq<Entry<K, R>>
    requires Stores(ev)
  {
    Remove(l, ev.key) + [Stored(ev)]
  }

  lemma FullProps<K, R>(l: seq<Entry<K, R>>, ev: Event<K, R>)
    requires Distinct(l) && Stores(ev)
    ensures Distinct(Full(l, ev)) && Keys(Full(l, ev)) == Keys(l) + {ev.key}
    ensures |Full(l, ev)| == if ev.key in Keys(l) then |l| else |l| + 1
    ensures forall e :: e in Full(l, ev) ==> e == Stored(ev) || (e in l && e.key != ev.key)
  {
    RemoveProps(l, ev.key);
    AppendDistinct(Remove(l, ev.key), Stored(ev));
    forall e | e in Full(l, ev) ensures e == Stored(ev) || (e in l && e.key != ev.key) {
      if e in Remove(l, ev.key) { assert e.key in Keys(Remove(l, ev.key)); }
    }
  }

  lemma GetProps<K, R>(l: seq<Entry<K, R>>, k: K, ttl: real, now: real)
    requires Distinct(l)
    ensures var l' := GetIn(l, k, ttl, now).0;
            Distinct(l') && |l'| <= |l| && forall e :: e in l' ==> e in l
  {
    RemoveProps(l, k);
    var f := Find(l, k);
    if f.Some? { AppendDistinct(Remove(l, k), f.value); }
  }

  lemma ApplyProps<K, R>(l: seq<Entry<K, R>>, ev: Event<K, R>, maxSize: nat)
    requires Distinct(l) && |l| <= maxSize
    ensures var l' := Apply(l, ev, maxSize);
            && Distinct(l') && |l'| <= maxSize
            && forall e :: e in l' ==> if Stores(ev) then e == Stored(ev) || (e in l && e.key != ev.key)
                             else !ev.Clear? && e in l
  {
    match ev
    case Get(k, ttl, now) => GetProps(l, k, ttl, now);
    case Set(k, r, ttl, now) => if Stores(ev) { FullProps(l, ev); }
    case Clear =>
  }

  /** Everything held is what the timed map holds; the size never exceeds the maximum. */
  lemma {:induction false} HoldsLatest<K, R>(evs: seq<Event<K, R>>, maxSize: nat)
    ensures var l := After(evs, maxSize);
            Distinct(l) && |l| <= maxSize && forall e :: e in l ==> LastSet(evs, e.key) == Some(e)
  {
    if evs != [] {
      HoldsLatest(evs[..|evs| - 1], maxSize);
      ApplyProps(After(evs[..|evs| - 1], maxSize), evs[|evs| - 1], maxSize);
    }
  }

  /** A hit is the response of the most recent set of that key, not expired and not cleared since. */
  lemma HitIsLatest<K, R>(evs: seq<Event<K, R>>, maxSize: nat, k: K, ttl: real, now: real)
    ensures var r := GetIn(After(evs, maxSize), k, ttl, now).1;
            r.Some? ==> LastSet(evs, k).Some? && LastSet(evs, k).value.resp == r.value
                        && now <= LastSet(evs, k).value.expireAt
  {
    HoldsLatest(evs, maxSize);
  }

  /** With no time to live the cache is off: it answers nothing, keeps nothing and changes nothing. */
  lemma SwitchedOff<K, R>(l: seq<Entry<K, R>>, k: K, r: R, ttl: real, now: real, maxSize: nat)
    requires ttl <= 0.0
    ensures GetIn(l, k, ttl, now) == (l, None) && SetIn(l, k, r, ttl, now, maxSize) == l
  {
  }

  // ----- nothing is forgotten early -----

  function SetKeys<K, R>(evs: seq<Event<K, R>>): set<K> {
    set i | 0 <= i < |evs| && Stores(evs[i]) :: evs[i].key
  }

  /** The clock, which is a wall clock, has not been set back behind an earlier reading. */
  predicate NotSetBack<K, R>(evs: seq<Event<K, R>>, now: real) {
    forall i :: 0 <= i < |evs| && !evs[i].Clear? ==> evs[i].now <= now
  }

  lemma DistinctSize<K, R>(l: seq<Entry<K, R>>)
    requires Distinct(l)
    ensures |Keys(l)| == |l|
  {
    if l != [] {
      KeysSplit(l);
      DistinctSize(l[1..]);
    }
  }

  lemma SubsetSize<T>(a: set<T>, b: set<T>)
    requires a <= b
    ensures |a| <= |b|
  {
    assert b == a + (b - a);
  }

  lemma GetRetains<K, R>(l: seq<Entry<K, R>>, k: K, ttl: real, now: real, e: Entry<K, R>)
    requires Distinct(l) && e in l && now <= e.expireAt
    ensures e in GetIn(l, k, ttl, now).0
  {
    FindUnique(l, e);
    if e.key != k { RemoveRetains(l, k, e); }
  }

  lemma RemoveRetains<K, R>(l: seq<Entry<K, R>>, k: K, e: Entry<K, R>)
    requires e in l && e.key != k
    ensures e in Remove(l, k)
  {
    if l[0] != e && l[0].key != k {
      RemoveRetains(l[1..], k, e);
    }
  }

  lemma SetKeysSplit<K, R>(evs: seq<Event<K, R>>)
    requires evs != []
    ensures var ev := evs[|evs| - 1];
            SetKeys(evs) == SetKeys(evs[..|evs| - 1]) + if Stores(ev) then {ev.key} else {}
  {
    var ev, init := evs[|evs| - 1], evs[..|evs| - 1];
    forall x | x in SetKeys(evs) ensures x in SetKeys(init) || (Stores(ev) && x == ev.key) {
      var i :| 0 <= i < |evs| && Stores(evs[i]) && evs[i].key == x;
      if i < |init| { assert init[i] == evs[i]; }
    }
    forall x | x in SetKeys(init) ensures x in SetKeys(evs) {
      var i :| 0 <= i < |init| && Stores(init[i]) && init[i].key == x;
      assert evs[i] == init[i];
    }
  }

  lemma {:induction false} KeysWereSet<K, R>(evs: seq<Event<K, R>>, maxSize: nat)
    ensures Keys(After(evs, maxSize)) <= SetKeys(evs)
  {
    if evs != [] {
      var ev, init := evs[|evs| - 1], evs[..|evs| - 1];
      var l := After(init, maxSize);
      SetKeysSplit(evs);
      KeysWereSet(init, maxSize);
      HoldsLatest(init, maxSize);
      ApplyProps(l, ev, maxSize);
      forall e | e in After(evs, maxSize) ensures e.key in SetKeys(evs) {
        if e in l { assert e.key in Keys(l); }
      }
    }
  }

  /** One event leaves alone an entry it neither clears, replaces, evicts nor finds expired. */
  lemma StepRetains<K, R>(l: seq<Entry<K, R>>, ev: Event<K, R>, maxSize: nat, e: Entry<K, R>)
    requires Distinct(l) && e in l
    requires !ev.Clear? && (ev.Get? ==> ev.now <= e.expireAt)
    requires Stores(ev) ==> ev.key != e.key && |Full(l, ev)| <= maxSize
    ensures e in Apply(l, ev, maxSize)
  {
    if Stores(ev) {
      RemoveRetains(l, ev.key, e);
    } else if ev.Get? {
      GetRetains(l, ev.key, ev.ttl, ev.now, e);
    }
  }

  lemma {:induction false} UnexpiredIsHeld<K, R>(evs: seq<Event<K, R>>, maxSize: nat, now: real, k: K)
    requires NotSetBack(evs, now) && |SetKeys(evs)| <= maxSize
    ensures LastSet(evs, k).Some? && now <= LastSet(evs, k).value.expireAt ==>
              LastSet(evs, k).value in After(evs, maxSize)
  {
    var last := LastSet(evs, k);
    if evs != [] && last.Some? && now <= last.value.expireAt {
      var ev, init := evs[|evs| - 1], evs[..|evs| - 1];
      var l := After(init, maxSize);
      SetKeysSplit(evs);
      SubsetSize(SetKeys(init), SetKeys(evs));
      UnexpiredIsHeld(init, maxSize, now, k);
      HoldsLatest(init, maxSize);
      if Stores(ev) {
        FullProps(l, ev);
        DistinctSize(Full(l, ev));
        KeysWereSet(init, maxSize);
        SubsetSize(Keys(Full(l, ev)), SetKeys(evs));
      }
      if !(Stores(ev) && ev.key == k) { StepRetains(l, ev, maxSize, last.value); }
    }
  }

  /** As long as no more distinct keys are set than fit, the cache and the timed map answer alike. */
  lemma AnswersLikeTimedMap<K, R>(evs: seq<Event<K, R>>, maxSize: nat, k: K, ttl: real, now: real)
    requires NotSetBack(evs, now) && |SetKeys(evs)| <= maxSize && ttl > 0.0
    ensures GetIn(After(evs, maxSize), k, ttl, now).1
         == var last := LastSet(evs, k);
            if last.Some? && now <= last.value.expireAt then Some(last.value.resp) else None
  {
    HitIsLatest(evs, maxSize, k, ttl, now);
    HoldsLatest(evs, maxSize);
    UnexpiredIsHeld(evs, maxSize, now, k);
    var last := LastSet(evs, k);
    if last.Some? && now <= last.value.expireAt {
      FindUnique(After(evs, maxSize), last.value);
    }
  }
}
