/** Why serial numbers must determine expiry: what goes wrong for every pair of licences that share one. */
module SerialReuse {
  import opened Licenses
  import opened RegistryStates
  import opened Traces
  import Heaps

  function ReuseRun(a: License, b: License, f: string, g: string, t: Time): seq<Step> {
    [AddStep(a, None, t), LookupStep(f, t), AddStep(b, None, t), LookupStep(g, t)]
  }

  function AfterFirst(ttl: Ttl, a: License, f: string, t: Time): State {
    Lookup(Alone(ttl, a), f, t).state
  }

  function AfterSecond(s: State, b: License, g: string, t: Time): State {
    Lookup(Add(s, b, None), g, t).state
  }

  lemma {:induction false} ReuseRunStates(ttl: Ttl, a: License, b: License, f: string, g: string, t: Time)
    ensures Run(Empty(ttl, map[], None), ReuseRun(a, b, f, g, t)) == AfterSecond(AfterFirst(ttl, a, f, t), b, g, t)
  {
    var s := Empty(ttl, map[], None);
    var tr := ReuseRun(a, b, f, g, t);
    assert Init(tr) == tr[..3] && Init(tr[..3]) == tr[..2] && Init(tr[..2]) == tr[..1] && Init(tr[..1]) == [];
    assert Run(s, tr[..1]) == Add(s, a, None);
    assert Run(s, tr[..2]) == AfterFirst(ttl, a, f, t);
    assert Run(s, tr[..3]) == Add(AfterFirst(ttl, a, f, t), b, None);
  }

  /** Once `a` has gone through `f`, its copy under `g` is stale, and no heap holds anything else. */
  lemma {:induction false} FirstEviction(ttl: Ttl, a: License, f: string, g: string, t: Time)
    requires f != g && f in a.features && g in a.features && Expired(a, ttl, t)
    ensures var s := AfterFirst(ttl, a, f, t);
      && s.ttl == ttl && HeapsOrdered(s) && a.id !in s.store
      && a in Elems(s.queues, g) && forall k, e :: e in Elems(s.queues, k) ==> e == a
  {
    AloneExpires(ttl, a, f, t);
  }

  /** The heaps still serve `l`, which is live, but the store has lost it. */
  predicate ServesUnstored(s: State, f: string, t: Time, l: License) {
    Lookup(s, f, t).license == Some(l) && Live(s, l, t) && l.id !in s.store
  }

  /** A heap of copies of `a`, which has expired, and of `b`, which has not, has `b` for an answer. */
  lemma {:induction false} LookupFindsLive(s: State, f: string, t: Time, a: License, b: License)
    requires HeapsOrdered(s) && Expired(a, s.ttl, t) && Live(s, b, t) && b in Elems(s.queues, f)
    requires forall e :: e in Elems(s.queues, f) ==> e == a || e == b
    ensures b in Elems(Lookup(s, f, t).state.queues, f) && Lookup(s, f, t).license == Some(b)
    decreases if f in s.queues then |s.queues[f]| else 0
  {
    var root := s.queues[f][0];
    assert root in Elems(s.queues, f);
    if root == a {
      EvictElems(s, f, f);
      LookupFindsLive(Evict(s, f), f, t, a, b);
    }
  }

  /** The stale `a` is at the root of `g` unless `b` is there too and preferred. */
  lemma {:induction false} RootUnderReuse(s: State, a: License, b: License, g: string)
    requires HeapsOrdered(s) && a in Elems(s.queues, g) && a.notAfter < b.notAfter
    requires forall e :: e in Elems(s.queues, g) ==> e == a || e == b
    ensures s.queues[g][0] == if b in Elems(s.queues, g) && Less(b, a) then b else a
  {
    var q := s.queues[g];
    assert q[0] in Elems(s.queues, g);
    var i: nat :| i < |q| && q[i] == a;
    Heaps.RootIsLeast(q, i);
    if b in Elems(s.queues, g) {
      var j: nat :| j < |q| && q[j] == b;
      Heaps.RootIsLeast(q, j);
    }
  }

  /** Popping the stale copy of `a` takes the live licence `b` out of the store under the shared serial. */
  lemma {:induction false} SecondEviction(s: State, a: License, b: License, g: string, t: Time)
    requires HeapsOrdered(s) && a.id == b.id && a.notAfter < b.notAfter && a.id !in s.store
    requires a in Elems(s.queues, g) && forall e :: e in Elems(s.queues, g) ==> e == a
    requires Expired(a, s.ttl, t) && !Expired(b, s.ttl, t)
    ensures b.id !in AfterSecond(s, b, g, t).store <==> g !in b.features || !Less(b, a)
  {
    var s3 := Add(s, b, None);
    AddElems(s, b, None, g);
    RootUnderReuse(s3, a, b, g);
    if s3.queues[g][0] == a {
      EvictElems(s3, g, g);
      LookupShrinks(Evict(s3, g), g, t);
      assert Lookup(s3, g, t) == Lookup(Evict(s3, g), g, t);
    }
  }

  /** Whatever the store says, the heap of `h` still has `b`. */
  lemma {:induction false} StillServed(s: State, a: License, b: License, g: string, h: string, t: Time)
    requires HeapsOrdered(s) && a.id == b.id && a.id !in s.store && h in b.features
    requires forall k, e :: e in Elems(s.queues, k) ==> e == a
    requires Expired(a, s.ttl, t) && !Expired(b, s.ttl, t)
    ensures AfterSecond(s, b, g, t).ttl == s.ttl && Lookup(AfterSecond(s, b, g, t), h, t).license == Some(b)
  {
    var s3 := Add(s, b, None);
    AddElems(s, b, None, g);
    AddElems(s, b, None, h);
    LookupShrinks(s3, g, t);
    if g == h {
      LookupFindsLive(s3, g, t, a, b);
    }
    LookupFindsLive(AfterSecond(s, b, g, t), h, t, a, b);
  }

  /**
   * Let two licences share a serial, and let `a`, which lists `f` and `g`, end before `b` does. At the last instant
   * of `b`, add and look up `a` under `f`, add `b`, look up `g`: the heaps serve `b` under every feature it lists,
   * and the store has lost it exactly if `b` does not list `g` or is not preferred to `a`.
   */
  lemma {:induction false} SharedSerialBreaksScan(ttl: Ttl, a: License, b: License, f: string, g: string, h: string)
    requires a.id == b.id && a.notAfter < b.notAfter
    requires f != g && f in a.features && g in a.features && h in b.features
    ensures var t := b.notAfter - ttl;
      ServesUnstored(Run(Empty(ttl, map[], None), ReuseRun(a, b, f, g, t)), h, t, b) <==>
      g !in b.features || !Less(b, a)
  {
    var t := b.notAfter - ttl;
    ReuseRunStates(ttl, a, b, f, g, t);
    FirstEviction(ttl, a, f, g, t);
    assert Expired(a, ttl, t) && !Expired(b, ttl, t);
    hide Run, ReuseRun, AfterFirst, AfterSecond, Less, Lookup, HeapsOrdered, Elems, Expired, Until;
    var s1 := AfterFirst(ttl, a, f, t);
    SecondEviction(s1, a, b, g, t);
    StillServed(s1, a, b, g, h, t);
  }
}
