/** Reconciling settles: with a stopped clock, one pass that acquires what is missing is enough. */
module Fixpoint {
  import opened Licenses
  import opened Heaps
  import opened RegistryStates
  import opened HubPasses

  /** All clock readings of the pass are `t`. */
  ghost predicate Frozen(turns: seq<Turn>, t: Time) {
    forall i :: 0 <= i < |turns| ==> turns[i].lookupAt == t && turns[i].parseAt == t
  }

  /** Whatever a turn has to acquire is active, lists the feature asked for and is good for the hub's ttl. */
  ghost predicate GoodAcquisition(decode: Decoder, s: State, tn: Turn, t: Time) {
    Lookup(s, tn.feature, t).license.None? ==>
      var l := Acquired(decode, tn);
      l.Some? && tn.feature in l.value.features && Live(s, l.value, t)
  }

  ghost predicate GoodAcquisitions(decode: Decoder, s: State, turns: seq<Turn>, t: Time) {
    forall k :: 0 <= k < |turns| ==> GoodAcquisition(decode, RegAfter(decode, s, turns[..k]), turns[k], t)
  }

  ghost predicate AllGenuine(decode: Decoder, s: State) {
    forall id :: id in s.store ==> Genuine(decode, s.store[id].license)
  }

  /** A lookup of `f` would succeed at once, without evicting anything. */
  predicate RootLive(s: State, f: string, t: Time) {
    f in s.queues && s.queues[f] != [] && Live(s, s.queues[f][0], t)
  }

  function Root(s: State, f: string): Option<License> {
    if f in s.queues && s.queues[f] != [] then Some(s.queues[f][0]) else None
  }

  ghost predicate RootsLive(s: State, turns: seq<Turn>, t: Time) {
    forall k :: 0 <= k < |turns| ==> RootLive(s, turns[k].feature, t)
  }

  lemma {:induction false} TiesEndTogether(a: License, b: License)
    requires !Less(a, b) && !Less(b, a)
    ensures a.notAfter == b.notAfter
  {
  }

  lemma {:induction false} LookupKeepsOtherRoots(s: State, f: string, g: string, t: Time)
    requires RootLive(s, g, t)
    ensures RootLive(Lookup(s, f, t).state, g, t)
    decreases if f in s.queues then |s.queues[f]| else 0
  {
    if f in s.queues && s.queues[f] != [] && Expired(s.queues[f][0], s.ttl, t) {
      LookupKeepsOtherRoots(Evict(s, f), f, g, t);
    }
  }

  /** Adding a live licence cannot bring an expired one to the root: it would have to tie with a live root. */
  lemma {:induction false} AddKeepsRoots(s: State, l: License, c: Option<Contract>, g: string, t: Time)
    requires HeapsOrdered(s) && Live(s, l, t) && RootLive(s, g, t)
    ensures RootLive(Add(s, l, c), g, t)
  {
    if l.id !in s.store {
      AddElems(s, l, c, g);
      var s' := Add(s, l, c);
      var root := s.queues[g][0];
      assert root in Elems(s.queues, g);
      assert root in Elems(s'.queues, g);
      var root' := s'.queues[g][0];
      assert root' in Elems(s'.queues, g);
      if root' != l {
        assert root' in Elems(s.queues, g);
        var k: nat :| k < |s.queues[g]| && s.queues[g][k] == root';
        var k': nat :| k' < |s'.queues[g]| && s'.queues[g][k'] == root;
        RootIsLeast(s.queues[g], k);
        RootIsLeast(s'.queues[g], k');
        TiesEndTogether(root, root');
      }
    }
  }

  lemma {:induction false} AddedIsRoot(s: State, l: License, c: Option<Contract>, f: string, t: Time)
    requires HeapsOrdered(s) && Live(s, l, t) && l.id !in s.store
    requires Elems(s.queues, f) == multiset{} && f in l.features
    ensures RootLive(Add(s, l, c), f, t)
  {
    AddElems(s, l, c, f);
    var s' := Add(s, l, c);
    assert l in Elems(s'.queues, f);
    assert s'.queues[f][0] in Elems(s'.queues, f);
  }

  lemma {:induction false} ServeKeepsInv(decode: Decoder, s: State, tn: Turn, t: Time)
    requires UniqueSerials(decode) && Inv(s, t, SerialExpiry(decode)) && t <= tn.lookupAt
    ensures Inv(Serve(decode, s, tn).state, tn.lookupAt, SerialExpiry(decode))
    ensures AllGenuine(decode, s) ==> AllGenuine(decode, Serve(decode, s, tn).state)
  {
    hide Inv, UniqueSerials, SerialExpiry;
    var expiry, a := SerialExpiry(decode), Lookup(s, tn.feature, tn.lookupAt);
    InvLater(s, t, tn.lookupAt, expiry);
    LookupKeepsInv(s, tn.feature, tn.lookupAt, expiry);
    var l := Acquired(decode, tn);
    if a.license.None? && l.Some? {
      SerialDeterminesExpiry(decode, l.value);
      AddKeepsInv(a.state, l.value, tn.attempt.outcome.contract, tn.lookupAt, expiry);
    }
  }

  /** A licence that would serve a feature the registry cannot serve is not in the registry. */
  lemma {:induction false} MissedIsNotStored(decode: Decoder, s: State, f: string, t: Time, l: License)
    requires UniqueSerials(decode) && Inv(s, t, SerialExpiry(decode)) && AllGenuine(decode, s)
    requires Lookup(s, f, t).license.None? && Genuine(decode, l) && f in l.features && Live(s, l, t)
    ensures l.id !in Lookup(s, f, t).state.store
  {
    LookupAnswersLikeScan(s, f, t, SerialExpiry(decode));
    LookupKeepsInv(s, f, t, SerialExpiry(decode));
    if l.id in s.store {
      var stored := s.store[l.id].license;
      assert Genuine(decode, stored) && stored.id == l.id;
      assert SameCertificate(stored, l);
      assert !Servable(s, f, t, stored);
    }
  }

  lemma {:induction false} ServeMakesRootsLive(decode: Decoder, s: State, tn: Turn, t: Time, g: string)
    requires UniqueSerials(decode) && Inv(s, t, SerialExpiry(decode)) && AllGenuine(decode, s)
    requires tn.lookupAt == t && tn.parseAt == t && s.ttl == HUB_TTL
    requires GoodAcquisition(decode, s, tn, t)
    requires g == tn.feature || RootLive(s, g, t)
    ensures RootLive(Serve(decode, s, tn).state, g, t)
  {
    var f, a := tn.feature, Lookup(s, tn.feature, t);
    LookupEnds(s, f, t);
    LookupKeepsInv(s, f, t, SerialExpiry(decode));
    if g != f {
      LookupKeepsOtherRoots(s, f, g, t);
    }
    if a.license.None? {
      var l := Acquired(decode, tn).value;
      MissedIsNotStored(decode, s, f, t, l);
      if g == f {
        AddedIsRoot(a.state, l, tn.attempt.outcome.contract, f, t);
      } else {
        AddKeepsRoots(a.state, l, tn.attempt.outcome.contract, g, t);
      }
    }
  }

  lemma {:induction false} TurnMakesRootsLive(decode: Decoder, s: State, turns: seq<Turn>, tn: Turn, t: Time)
    requires UniqueSerials(decode) && Inv(s, t, SerialExpiry(decode)) && AllGenuine(decode, s)
    requires tn.lookupAt == t && tn.parseAt == t && s.ttl == HUB_TTL && GoodAcquisition(decode, s, tn, t)
    requires RootsLive(s, turns, t)
    ensures RootsLive(Serve(decode, s, tn).state, turns + [tn], t)
  {
    hide Inv, AllGenuine, RootLive, GoodAcquisition, UniqueSerials, Serve, SerialExpiry;
    forall k | 0 <= k < |turns + [tn]|
      ensures RootLive(Serve(decode, s, tn).state, (turns + [tn])[k].feature, t)
    {
      ServeMakesRootsLive(decode, s, tn, t, (turns + [tn])[k].feature);
    }
  }

  lemma {:induction false} PassMakesRootsLive(decode: Decoder, s: State, turns: seq<Turn>, t: Time)
    requires UniqueSerials(decode) && Inv(s, t, SerialExpiry(decode)) && AllGenuine(decode, s) && s.ttl == HUB_TTL
    requires Frozen(turns, t) && GoodAcquisitions(decode, s, turns, t)
    ensures Inv(RegAfter(decode, s, turns), t, SerialExpiry(decode)) && AllGenuine(decode, RegAfter(decode, s, turns))
    ensures RootsLive(RegAfter(decode, s, turns), turns, t)
    decreases |turns|
  {
    hide Inv, AllGenuine, RootLive, GoodAcquisition, UniqueSerials, Serve, SerialExpiry;
    if turns != [] {
      var n := |turns| - 1;
      GoodAcquisitionsPrefix(decode, s, turns, n, t);
      PassMakesRootsLive(decode, s, turns[..n], t);
      RegAfterKeepsTtl(decode, s, turns[..n]);
      var before := RegAfter(decode, s, turns[..n]);
      ServeKeepsInv(decode, before, turns[n], t);
      TurnMakesRootsLive(decode, before, turns[..n], turns[n], t);
      assert turns == turns[..n] + [turns[n]];
    }
  }

  lemma {:induction false} GoodAcquisitionsPrefix(decode: Decoder, s: State, turns: seq<Turn>, n: nat, t: Time)
    requires n <= |turns| && GoodAcquisitions(decode, s, turns, t)
    ensures GoodAcquisitions(decode, s, turns[..n], t)
  {
    assert forall k :: 0 <= k < n ==> turns[..n][..k] == turns[..k];
  }

  /** Each turn of the pass finds a live root when it looks its feature up. */
  ghost predicate RootsLast(s: State, turns: seq<Turn>) {
    forall k :: 0 <= k < |turns| ==> RootLive(s, turns[k].feature, turns[k].lookupAt)
  }

  /** Then every turn is served from its root, so the pass acquires nothing and changes nothing in the registry. */
  lemma {:induction false} SettledPass(decode: Decoder, s: State, turns: seq<Turn>)
    requires RootsLast(s, turns)
    ensures RegAfter(decode, s, turns) == s
    ensures forall k :: 0 <= k < |turns| ==>
      && Lookup(s, turns[k].feature, turns[k].lookupAt) == Answer(s, Root(s, turns[k].feature))
      && Serve(decode, s, turns[k]) == Answer(s, Root(s, turns[k].feature))
    decreases |turns|
  {
    if turns != [] {
      SettledPass(decode, s, turns[..|turns| - 1]);
    }
  }

  predicate SameFeatures(one: seq<Turn>, two: seq<Turn>) {
    |one| == |two| && forall k :: 0 <= k < |one| ==> one[k].feature == two[k].feature
  }

  lemma {:induction false} SettledShips(decode: Decoder, s: State, one: seq<Turn>, two: seq<Turn>)
    requires RootsLast(s, one) && RootsLast(s, two) && SameFeatures(one, two)
    ensures Shipped(decode, s, one) == Shipped(decode, s, two)
    decreases |one|
  {
    if one != [] {
      var n := |one| - 1;
      SettledShips(decode, s, one[..n], two[..n]);
      SettledPass(decode, s, one);
      SettledPass(decode, s, one[..n]);
      SettledPass(decode, s, two[..n]);
      SettledPass(decode, s, two);
    }
  }

  /** Shipping the same licences again writes the same Secret. */
  lemma {:induction false} ShippingTwiceIsOnce(before: map<string, Bytes>, ls: seq<License>,
          once: map<string, Bytes>, twice: map<string, Bytes>)
    requires HoldsLastShipped(before, ls, once) && HoldsLastShipped(once, ls, twice)
    ensures once == twice
  {
    forall plan
      ensures plan in once <==> plan in twice
      ensures plan in once ==> once[plan] == twice[plan]
    {
      assert LastUnder(ls, plan).Some? || LastUnder(ls, plan).None?;
    }
  }

  // ---------- Any number of passes ----------

  /** Passes one after another, each over the registry and the Secret that the one before it left. */
  function RunPasses(decode: Decoder, s: State, data: map<string, Bytes>, passes: seq<seq<Turn>>): Pass
    decreases |passes|
  {
    if passes == [] then StartPass(s, data)
    else
      var n := |passes| - 1;
      var before := RunPasses(decode, s, data, passes[..n]);
      RunPass(decode, StartPass(before.reg, before.data), passes[n])
  }

  /** Each pass looks up the same features as `first`, and every root that it meets is live when it does. */
  ghost predicate Repeats(s: State, first: seq<Turn>, passes: seq<seq<Turn>>) {
    forall m :: 0 <= m < |passes| ==>
      SameFeatures(first, passes[m]) && AfterEpoch(passes[m]) && RootsLast(s, passes[m])
  }

  /** One more pass over a settled registry writes the Secret that the first has written. */
  lemma {:induction false} SettledPassRepeats(decode: Decoder, s: State, data: map<string, Bytes>, one: seq<Turn>,
          two: seq<Turn>)
    requires s.ttl == HUB_TTL && AfterEpoch(one) && AfterEpoch(two)
    requires SameFeatures(one, two) && RootsLast(s, one) && RootsLast(s, two)
    ensures var p1 := RunPass(decode, StartPass(s, data), one);
      var p2 := RunPass(decode, StartPass(s, p1.data), two);
      p1.reg == s && p2.reg == s && p2.data == p1.data
  {
    hide HoldsLastShipped, IsEarliest, RootLive, Serve;
    var p1 := RunPass(decode, StartPass(s, data), one);
    SettledPass(decode, s, one);
    SettledPass(decode, s, two);
    SettledShips(decode, s, one, two);
    PassShips(decode, s, data, one);
    PassShips(decode, s, p1.data, two);
    ShippingTwiceIsOnce(data, Shipped(decode, s, one), p1.data, RunPass(decode, StartPass(s, p1.data), two).data);
  }

  /** Over a settled registry all passes leave the registry as it is and write the Secret that the first wrote. */
  lemma {:induction false} SettledPasses(decode: Decoder, s: State, data: map<string, Bytes>, passes: seq<seq<Turn>>)
    requires s.ttl == HUB_TTL && passes != [] && Repeats(s, passes[0], passes)
    ensures var end := RunPasses(decode, s, data, passes);
      end.reg == s && end.data == RunPass(decode, StartPass(s, data), passes[0]).data
    decreases |passes|
  {
    hide RunPass, RootsLast, AfterEpoch, SameFeatures;
    var n := |passes| - 1;
    assert RunPasses(decode, s, data, passes[..0]) == StartPass(s, data);
    SettledPassRepeats(decode, s, data, passes[0], passes[n]);
    if n > 0 {
      assert passes[..n][0] == passes[0];
      SettledPasses(decode, s, data, passes[..n]);
    }
  }

  /** The pass looks every feature up no later than the deadline of the root that it has in the registry, if any. */
  ghost predicate BeforeDeadlines(s: State, turns: seq<Turn>) {
    forall k :: 0 <= k < |turns| && Root(s, turns[k].feature).Some? ==>
      turns[k].lookupAt <= Root(s, turns[k].feature).value.notAfter - s.ttl
  }

  lemma {:induction false} RootsLastBeforeDeadlines(s: State, first: seq<Turn>, turns: seq<Turn>, t: Time)
    requires RootsLive(s, first, t) && SameFeatures(first, turns) && BeforeDeadlines(s, turns)
    ensures RootsLast(s, turns)
  {
    forall k | 0 <= k < |turns|
      ensures RootLive(s, turns[k].feature, turns[k].lookupAt)
    {
      assert RootLive(s, first[k].feature, t);
    }
  }

  lemma {:induction false} FirstPassSettles(decode: Decoder, s: State, data: map<string, Bytes>, t: Time,
          first: seq<Turn>)
    requires UniqueSerials(decode) && Inv(s, t, SerialExpiry(decode)) && AllGenuine(decode, s)
    requires s.ttl == HUB_TTL && t > 0 && Frozen(first, t) && GoodAcquisitions(decode, s, first, t)
    ensures var p1 := RunPass(decode, StartPass(s, data), first);
      p1.reg.ttl == HUB_TTL && RootsLive(p1.reg, first, t)
  {
    hide Inv, AllGenuine, RootLive, GoodAcquisitions, UniqueSerials, Serve, SerialExpiry, HoldsLastShipped, IsEarliest;
    PassShips(decode, s, data, first);
    PassMakesRootsLive(decode, s, first, t);
    RegAfterKeepsTtl(decode, s, first);
  }

  /** Each of the passes looks up the features of `first`, none later than the deadline of the root it meets. */
  ghost predicate InDeadlines(s: State, first: seq<Turn>, passes: seq<seq<Turn>>) {
    forall m :: 0 <= m < |passes| ==>
      SameFeatures(first, passes[m]) && AfterEpoch(passes[m]) && BeforeDeadlines(s, passes[m])
  }

  /**
   * With the clock stopped, let one pass acquire good licences wherever it finds none. Any number of passes after it,
   * until the deadline of one of the licences served comes, find every feature in the registry, so that they acquire
   * nothing; they leave the registry as it is, and all write the Secret that the first of them wrote.
   */
  lemma {:induction false} ReconcileSettles(decode: Decoder, s: State, data: map<string, Bytes>, t: Time,
          first: seq<Turn>, passes: seq<seq<Turn>>)
    requires UniqueSerials(decode) && Inv(s, t, SerialExpiry(decode)) && AllGenuine(decode, s)
    requires s.ttl == HUB_TTL && t > 0 && Frozen(first, t) && GoodAcquisitions(decode, s, first, t)
    requires passes != [] && InDeadlines(RunPass(decode, StartPass(s, data), first).reg, first, passes)
    ensures var p1 := RunPass(decode, StartPass(s, data), first);
      var end := RunPasses(decode, p1.reg, p1.data, passes);
      && (forall m, k: nat :: 0 <= m < |passes| && k < |passes[m]| ==>
            FindsInRegistry(decode, p1.reg, passes[m], k))
      && end.reg == p1.reg
      && end.data == RunPass(decode, StartPass(p1.reg, p1.data), passes[0]).data
  {
    hide Inv, AllGenuine, RootsLive, Frozen, GoodAcquisitions, UniqueSerials, RunPass, BeforeDeadlines, RootsLast;
    hide AfterEpoch, FindsInRegistry;
    FirstPassSettles(decode, s, data, t, first);
    var p1 := RunPass(decode, StartPass(s, data), first);
    forall m | 0 <= m < |passes|
      ensures RootsLast(p1.reg, passes[m])
    {
      RootsLastBeforeDeadlines(p1.reg, first, passes[m], t);
    }
    forall m, k: nat | 0 <= m < |passes| && k < |passes[m]|
      ensures FindsInRegistry(decode, p1.reg, passes[m], k)
    {
      SettledFinds(decode, p1.reg, passes[m], k);
    }
    assert Repeats(p1.reg, passes[0], passes);
    SettledPasses(decode, p1.reg, p1.data, passes);
  }

  /** Turn `k` of a pass is served by what the registry holds when it has its turn. */
  ghost predicate FindsInRegistry(decode: Decoder, s: State, turns: seq<Turn>, k: nat)
    requires k < |turns|
  {
    Lookup(RegAfter(decode, s, turns[..k]), turns[k].feature, turns[k].lookupAt).license.Some?
  }

  lemma {:induction false} SettledFinds(decode: Decoder, s: State, turns: seq<Turn>, k: nat)
    requires RootsLast(s, turns) && k < |turns|
    ensures FindsInRegistry(decode, s, turns, k)
  {
    SettledPass(decode, s, turns[..k]);
    assert RootLive(s, turns[k].feature, turns[k].lookupAt);
  }
}
