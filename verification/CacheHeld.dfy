/** Exactly when the response cache of keyhub/llm/cache.py still holds a key, read off the history of gets and sets. */
module CacheHeld {
  import opened Prelude
  import opened Cache
  import opened CacheOrder

  // ----- what lies behind a key in the store -----

  function Behind<K(==), R>(l: seq<Entry<K, R>>, k: K): set<K> {
    if l == [] then {} else if l[0].key == k then Keys(l[1..]) else Behind(l[1..], k)
  }

  lemma BehindRemove<K, R>(l: seq<Entry<K, R>>, j: K, k: K)
    requires Distinct(l) && j != k && k in Keys(l)
    ensures k in Keys(Remove(l, j)) && Behind(Remove(l, j), k) == Behind(l, k) - {j}
  {
    RemoveProps(l, j);
    KeysSplit(l);
    if l[0].key == k {
      RemoveProps(l[1..], j);
    } else if l[0].key == j {
      assert j !in Keys(l[1..]);
      BehindWithin(l[1..], k);
    } else {
      BehindRemove(l[1..], j, k);
    }
  }

  lemma BehindWithin<K, R>(l: seq<Entry<K, R>>, k: K)
    ensures Behind(l, k) <= Keys(l)
  {
    if l != [] {
      KeysSplit(l);
      BehindWithin(l[1..], k);
    }
  }

  lemma BehindAppend<K, R>(l: seq<Entry<K, R>>, e: Entry<K, R>, k: K)
    requires Distinct(l) && e.key !in Keys(l)
    ensures k in Keys(l) ==> Behind(l + [e], k) == Behind(l, k) + {e.key}
    ensures k == e.key ==> Behind(l + [e], k) == {}
  {
    if l == [] {
      assert l + [e] == [e] && [e][1..] == [];
    } else {
      KeysSplit(l);
      assert (l + [e])[0] == l[0] && (l + [e])[1..] == l[1..] + [e];
      KeysConcat(l[1..], [e]);
      KeysOne(e);
      BehindAppend(l[1..], e, k);
    }
  }

  lemma BehindSize<K, R>(l: seq<Entry<K, R>>, k: K)
    requires Distinct(l) && k in Keys(l)
    ensures l[0].key == k ==> |Behind(l, k)| == |l| - 1
    ensures l[0].key != k ==> |Behind(l, k)| <= |l| - 2
  {
    KeysSplit(l);
    DistinctSize(l[1..]);
    if l[0].key != k { BehindSize(l[1..], k); }
  }

  // ----- what the history says -----

  /** A get that finds its entry expired, and removes it. */
  predicate FindsExpired<K(==), R>(l: seq<Entry<K, R>>, ev: Event<K, R>) {
    ev.Get? && ev.ttl > 0.0 && Find(l, ev.key).Some? && ev.now > Find(l, ev.key).value.expireAt
  }

  /** What one event makes of the keys that are newer than `k`. */
  function NextNewer<K(==), R>(l: seq<Entry<K, R>>, ev: Event<K, R>, k: K, before: set<K>): set<K> {
    if ev.Clear? || Touches(l, ev, k) then {}
    else if Touches(l, ev, ev.key) then before + {ev.key}
    else if FindsExpired(l, ev) then before - {ev.key}
    else before
  }

  /** The other keys that have been set or hit since `k` last was, and not been found expired since. */
  function Newer<K(==), R>(evs: seq<Event<K, R>>, maxSize: nat, k: K): set<K> {
    if evs == [] then {} else
    var init := evs[..|evs| - 1];
    NextNewer(After(init, maxSize), evs[|evs| - 1], k, Newer(init, maxSize, k))
  }

  predicate Sets<K(==), R>(ev: Event<K, R>, k: K) {
    Stores(ev) && ev.key == k
  }

  /** Since `k` was last set there have always been fewer newer keys than fit. */
  predicate Uncrowded<K(==), R>(evs: seq<Event<K, R>>, maxSize: nat, k: K) {
    evs != [] && |Newer(evs, maxSize, k)| < maxSize
    && (Sets(evs[|evs| - 1], k) || Uncrowded(evs[..|evs| - 1], maxSize, k))
  }

  /** Since `k` was last set no get of it has read a time past its expiry. */
  predicate NeverLate<K(==), R>(evs: seq<Event<K, R>>, k: K) {
    evs != [] ==>
      var ev, init := evs[|evs| - 1], evs[..|evs| - 1];
      Sets(ev, k)
      || (NeverLate(init, k)
          && (ev.Get? && ev.ttl > 0.0 && ev.key == k && LastSet(init, k).Some? ==>
                ev.now <= LastSet(init, k).value.expireAt))
  }

  /** By the history, `k` should be there. */
  predicate Lasts<K(==), R>(evs: seq<Event<K, R>>, maxSize: nat, k: K) {
    LastSet(evs, k).Some? && NeverLate(evs, k) && Uncrowded(evs, maxSize, k)
  }

  // ----- one event on the store -----

  /** Whether `k` stays, or comes, and what is then behind it. */
  ghost predicate StepIsRight<K, R>(l: seq<Entry<K, R>>, ev: Event<K, R>, maxSize: nat, k: K) {
    var l', newer := Apply(l, ev, maxSize), NextNewer(l, ev, k, Behind(l, k));
    && (k in Keys(l') <==> if ev.Clear? then false
                           else if Sets(ev, k) then maxSize > 0
                           else k in Keys(l) && |newer| < maxSize && !(FindsExpired(l, ev) && ev.key == k))
    && (k in Keys(l') ==> Behind(l', k) == newer)
  }

  lemma SetStep<K, R>(l: seq<Entry<K, R>>, ev: Event<K, R>, maxSize: nat, k: K)
    requires Distinct(l) && |l| <= maxSize && Stores(ev)
    ensures StepIsRight(l, ev, maxSize, k)
  {
    if ev.key == k {
      SetSelf(l, ev, maxSize);
    } else if k in Keys(l) {
      RemoveProps(l, ev.key);
      BehindRemove(l, ev.key, k);
      BehindAppend(Remove(l, ev.key), Stored(ev), k);
      SetOther(l, ev, maxSize, k);
    } else {
      SetAbsent(l, ev, maxSize, k);
    }
  }

  lemma SetSelf<K, R>(l: seq<Entry<K, R>>, ev: Event<K, R>, maxSize: nat)
    requires Distinct(l) && |l| <= maxSize && Stores(ev)
    ensures var l' := Apply(l, ev, maxSize);
            (ev.key in Keys(l') <==> maxSize > 0) && (maxSize > 0 ==> Behind(l', ev.key) == {})
  {
    FullProps(l, ev);
    EvictsLeastRecent(l, ev, maxSize);
    RemoveProps(l, ev.key);
    var rest, full := Remove(l, ev.key), Full(l, ev);
    BehindAppend(rest, Stored(ev), ev.key);
    if maxSize > 0 && Apply(l, ev, maxSize) != full {
      assert full[1..] == rest[1..] + [Stored(ev)];
      KeysSplit(rest);
      KeysConcat(rest[1..], [Stored(ev)]);
      KeysOne(Stored(ev));
      assert Distinct(rest[1..]);
      BehindAppend(rest[1..], Stored(ev), ev.key);
    }
  }

  lemma SetOther<K, R>(l: seq<Entry<K, R>>, ev: Event<K, R>, maxSize: nat, k: K)
    requires Distinct(l) && |l| <= maxSize && Stores(ev) && k != ev.key && k in Keys(l)
    ensures var l', newer := Apply(l, ev, maxSize), Behind(Full(l, ev), k);
            (k in Keys(l') <==> |newer| < maxSize) && (k in Keys(l') ==> Behind(l', k) == newer)
  {
    var full := Full(l, ev);
    FullProps(l, ev);
    EvictsLeastRecent(l, ev, maxSize);
    BehindSize(full, k);
    KeysSplit(full);
  }

  lemma SetAbsent<K, R>(l: seq<Entry<K, R>>, ev: Event<K, R>, maxSize: nat, k: K)
    requires Distinct(l) && |l| <= maxSize && Stores(ev) && k != ev.key && k !in Keys(l)
    ensures k !in Keys(Apply(l, ev, maxSize))
  {
    FullProps(l, ev);
    EvictsLeastRecent(l, ev, maxSize);
    KeysSplit(Full(l, ev));
  }

  /** An event that changes nothing. */
  lemma IdleStep<K, R>(l: seq<Entry<K, R>>, ev: Event<K, R>, maxSize: nat, k: K)
    requires Distinct(l) && |l| <= maxSize && !ev.Clear? && !Stores(ev)
    requires ev.Get? && ev.ttl > 0.0 ==> ev.key !in Keys(l)
    ensures StepIsRight(l, ev, maxSize, k)
  {
    if k in Keys(l) { BehindSize(l, k); }
  }

  lemma ExpiredStep<K, R>(l: seq<Entry<K, R>>, ev: Event<K, R>, maxSize: nat, k: K)
    requires Distinct(l) && |l| <= maxSize && FindsExpired(l, ev)
    ensures StepIsRight(l, ev, maxSize, k)
  {
    RemoveProps(l, ev.key);
    if k in Keys(l) && k != ev.key {
      BehindRemove(l, ev.key, k);
      BehindSize(Remove(l, ev.key), k);
    }
  }

  lemma HitStep<K, R>(l: seq<Entry<K, R>>, ev: Event<K, R>, maxSize: nat, k: K)
    requires Distinct(l) && |l| <= maxSize && ev.Get? && Touches(l, ev, ev.key)
    ensures StepIsRight(l, ev, maxSize, k)
  {
    var e := Find(l, ev.key).value;
    Moved(l, e, k);
    if k in Keys(l) { BehindSize(Remove(l, e.key) + [e], k); }
  }

  /** What moving an entry to the end does to the rest. */
  lemma Moved<K, R>(l: seq<Entry<K, R>>, e: Entry<K, R>, k: K)
    requires Distinct(l) && e in l && e.key in Keys(l)
    ensures var l' := Remove(l, e.key) + [e];
            && Distinct(l') && |l'| == |l| && Keys(l') == Keys(l)
            && (k in Keys(l) ==> Behind(l', k) == if k == e.key then {} else Behind(l, k) - {e.key} + {e.key})
  {
    var rest := Remove(l, e.key);
    RemoveProps(l, e.key);
    AppendDistinct(rest, e);
    BehindAppend(rest, e, k);
    if k in Keys(l) && k != e.key { BehindRemove(l, e.key, k); }
  }

  // ----- store and history agree -----

  /** The store and the history agree on `k`. */
  predicate AgreeOn<K(==), R>(l: seq<Entry<K, R>>, evs: seq<Event<K, R>>, maxSize: nat, k: K) {
    && (k in Keys(l) <==> Lasts(evs, maxSize, k))
    && (k in Keys(l) ==> Behind(l, k) == Newer(evs, maxSize, k))
  }

  lemma StoreStep<K, R>(l: seq<Entry<K, R>>, ev: Event<K, R>, maxSize: nat, k: K)
    requires Distinct(l) && |l| <= maxSize
    ensures StepIsRight(l, ev, maxSize, k)
  {
    if ev.Clear? {
    } else if Stores(ev) {
      SetStep(l, ev, maxSize, k);
    } else if ev.Get? && Touches(l, ev, ev.key) {
      HitStep(l, ev, maxSize, k);
    } else if FindsExpired(l, ev) {
      ExpiredStep(l, ev, maxSize, k);
    } else {
      IdleStep(l, ev, maxSize, k);
    }
  }

  /** How the history's verdict changes with one event. */
  lemma LastsStep<K, R>(evs: seq<Event<K, R>>, maxSize: nat, k: K)
    requires evs != []
    ensures var ev, init := evs[|evs| - 1], evs[..|evs| - 1];
            Lasts(evs, maxSize, k)
            <==> if ev.Clear? then false
            else if Sets(ev, k) then maxSize > 0
            else Lasts(init, maxSize, k) && |Newer(evs, maxSize, k)| < maxSize
                 && !(ev.Get? && ev.ttl > 0.0 && ev.key == k && ev.now > LastSet(init, k).value.expireAt)
  {
  }

  /** A key is held if and only if it has been set since the last clear, no get since has come too late for it, and
      at every moment since fewer other keys than fit had been set or hit, and not been found expired, since its
      last use.  What lies behind it in the store are those keys. */
  lemma {:induction false} HeldIff<K, R>(evs: seq<Event<K, R>>, maxSize: nat, k: K)
    ensures AgreeOn(After(evs, maxSize), evs, maxSize, k)
  {
    if evs != [] {
      var ev, init := evs[|evs| - 1], evs[..|evs| - 1];
      var l := After(init, maxSize);
      HeldIff(init, maxSize, k);
      HoldsLatest(init, maxSize);
      StoreStep(l, ev, maxSize, k);
      LastsStep(evs, maxSize, k);
    }
  }

  lemma {:induction false} InTime<K, R>(evs: seq<Event<K, R>>, now: real, k: K)
    requires NotSetBack(evs, now) && LastSet(evs, k).Some? && now <= LastSet(evs, k).value.expireAt
    ensures NeverLate(evs, k)
  {
    if !Sets(evs[|evs| - 1], k) { InTime(evs[..|evs| - 1], now, k); }
  }

  /** The cache answers like the timed map for every key that has not been crowded out, and misses every key that
      has: however many keys are in use. */
  lemma AnswersExactly<K, R>(evs: seq<Event<K, R>>, maxSize: nat, k: K, ttl: real, now: real)
    requires NotSetBack(evs, now) && ttl > 0.0
    ensures GetIn(After(evs, maxSize), k, ttl, now).1
         == var last := LastSet(evs, k);
            if last.Some? && now <= last.value.expireAt && Uncrowded(evs, maxSize, k) then Some(last.value.resp)
            else None
  {
    HeldIff(evs, maxSize, k);
    HoldsLatest(evs, maxSize);
    var last := LastSet(evs, k);
    Answer(After(evs, maxSize), k, ttl, now, last);
    if last.Some? && now <= last.value.expireAt { InTime(evs, now, k); }
    assert last.Some? && now <= last.value.expireAt ==> (Lasts(evs, maxSize, k) <==> Uncrowded(evs, maxSize, k));
  }

  lemma Answer<K, R>(l: seq<Entry<K, R>>, k: K, ttl: real, now: real, last: Option<Entry<K, R>>)
    requires ttl > 0.0 && forall e :: e in l && e.key == k ==> last == Some(e)
    ensures GetIn(l, k, ttl, now).1
         == if k in Keys(l) && last.Some? && now <= last.value.expireAt then Some(last.value.resp) else None
  {
  }
}
