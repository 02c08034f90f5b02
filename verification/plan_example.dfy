/** Two features under one plan, worked out: a request that is claimed and acquired for, and never granted. */
module PlanExample {
  import opened Licenses
  import opened RegistryStates
  import opened Syncer
  import opened HubPasses
  import opened Fixpoint
  import opened Renewal
  import opened Deliveries
  import opened EndToEnd
  import SyncOrder
  import Acquirer
  import Claims
  import ClaimCodec

  /** A licence for "f" and one for "g", the second under whatever plan; neither lists both features. */
  const ONE := License("1", ["f"], "", "p", 0, 10 * HUB_TTL, Active, "one")

  function Two(plan: string): License {
    License("2", ["g"], "", plan, 0, 10 * HUB_TTL, Active, "two")
  }

  function Decode(plan: string): Decoder {
    data => if data == "one" then Some(ONE) else if data == "two" then Some(Two(plan)) else None
  }

  // ---------- The claim ----------

  const FEATURES := ["f", "g"]

  /** One request for both features, which misses the claim and creates it. */
  const ACTIONS: seq<Claims.Action> := [Claims.Arrive(FEATURES), Claims.ReadMissing(0), Claims.Write(0)]

  lemma {:induction false} SortedFeatures()
    ensures ClaimCodec.SortNames(FEATURES) == FEATURES
  {
    assert FEATURES[1..] == ["g"] && ["g"][1..] == [];
    assert ClaimCodec.SortNames(["g"]) == ["g"];
  }

  lemma {:induction false} RequestIsAnswered()
    ensures AnsweredBy(ACTIONS, 3, 0, FEATURES) && ClaimCodec.Split(ClaimAfter(ACTIONS)) == FEATURES
  {
    var empty := Claims.NO_CLAIM;
    assert ACTIONS[..3] == ACTIONS && ACTIONS[..2][..1] == ACTIONS[..1] && ACTIONS[..1][..0] == [];
    assert Claims.Interleave(empty, ACTIONS[..1]) ==
           Claims.Cluster([], [Claims.Request(FEATURES, Claims.Started)]);
    assert Claims.Interleave(empty, ACTIONS[..2]) ==
           Claims.Cluster([], [Claims.Request(FEATURES, Claims.HasRead(Claims.Missing))]);
    assert Claims.Interleave(empty, ACTIONS) ==
           Claims.Cluster([Claims.CreatedValue(FEATURES)], [Claims.Request(FEATURES, Claims.Answered)]);
    SortedFeatures();
    Claims.CreateDecodes(FEATURES);
  }

  // ---------- The pass ----------

  function Remote(): nat -> Attempt {
    i => Attempt(Issued(if i == 0 then "one" else "two", None), false)
  }

  function ThePass(): HubPass {
    HubPass(Empty(HUB_TTL, map[], None), 1, [Turn("f", 1, Remote()(0), 1), Turn("g", 1, Remote()(1), 1)])
  }

  function WithOne(): State {
    Add(Empty(HUB_TTL, map[], None), ONE, None)
  }

  function WithBoth(plan: string): State {
    Add(WithOne(), Two(plan), None)
  }

  lemma {:induction false} DecodeIsUnique(plan: string)
    ensures UniqueSerials(Decode(plan)) && Genuine(Decode(plan), ONE) && Genuine(Decode(plan), Two(plan))
  {
    assert "one"[0] != "two"[0] && ONE.id[0] != Two(plan).id[0];
    forall l | Genuine(Decode(plan), l)
      ensures l == ONE || l == Two(plan)
    {
    }
  }

  lemma {:induction false} Queues(plan: string)
    ensures WithOne().queues == map["f" := [ONE]]
    ensures WithBoth(plan).queues == map["f" := [ONE], "g" := [Two(plan)]]
    ensures WithBoth(plan).ttl == HUB_TTL
  {
    assert "f"[0] != "g"[0] && ONE.id[0] != Two(plan).id[0];
    assert ONE.features[1..] == [] && Two(plan).features[1..] == [];
    assert Enqueue(map[], ONE, ONE.features) == Enqueue(EnqueueFor(map[], ONE, "f"), ONE, []);
    assert Enqueue(WithOne().queues, Two(plan), Two(plan).features) ==
           Enqueue(EnqueueFor(WithOne().queues, Two(plan), "g"), Two(plan), []);
  }

  lemma {:induction false} TurnsServe(plan: string)
    ensures Serve(Decode(plan), ThePass().state, ThePass().turns[0]) == Answer(WithOne(), Some(ONE))
    ensures Serve(Decode(plan), WithOne(), ThePass().turns[1]) == Answer(WithBoth(plan), Some(Two(plan)))
  {
    Queues(plan);
    assert "f"[0] != "g"[0] && "one"[0] != "two"[0];
  }

  lemma {:induction false} PassShipsBoth(plan: string)
    ensures RegAfter(Decode(plan), ThePass().state, ThePass().turns) == WithBoth(plan)
    ensures Shipped(Decode(plan), ThePass().state, ThePass().turns) == [ONE, Two(plan)]
    ensures ServedAt(Decode(plan), ThePass().state, ThePass().turns, 0) == Some(ONE)
    ensures ServedAt(Decode(plan), ThePass().state, ThePass().turns, 1) == Some(Two(plan))
  {
    TurnsServe(plan);
    var decode, s, turns := Decode(plan), ThePass().state, ThePass().turns;
    hide Serve, WithOne, WithBoth;
    assert turns[..1][..0] == [] && turns[..0] == [];
    assert RegAfter(decode, s, turns[..1]) == WithOne();
    assert Shipped(decode, s, turns[..1]) == [ONE];
  }

  lemma {:induction false} HubIsReady(plan: string)
    ensures HubReady(Decode(plan), ThePass())
  {
    hide SerialExpiry;
  }

  lemma {:induction false} BothServe(plan: string)
    ensures TurnServes(Decode(plan), ThePass(), 0, "f") && TurnServes(Decode(plan), ThePass(), 1, "g")
  {
    PassShipsBoth(plan);
    hide ServedAt, Decode;
  }

  /** Everything that can be asked of the hub is met, and both turns serve a licence for what they ask. */
  lemma {:induction false} PassIsHonest(plan: string)
    ensures UniqueSerials(Decode(plan)) && HubReady(Decode(plan), ThePass())
    ensures Acquirer.TurnsFor(ThePass().turns, ClaimCodec.Split(ClaimAfter(ACTIONS)), Remote())
    ensures HonestFor(Decode(plan), ThePass(), FEATURES)
    ensures TurnServes(Decode(plan), ThePass(), 0, "f") && TurnServes(Decode(plan), ThePass(), 1, "g")
  {
    DecodeIsUnique(plan);
    RequestIsAnswered();
    HubIsReady(plan);
    BothServe(plan);
    HonestTurns(plan);
    hide HonestTurn, HubReady, TurnServes, UniqueSerials, Decode, AnsweredBy, ClaimAfter;
  }

  lemma {:induction false} HonestTurns(plan: string)
    ensures HonestTurn(Decode(plan), ThePass(), 0) && HonestTurn(Decode(plan), ThePass(), 1)
  {
    assert "one"[0] != "two"[0];
  }

  function SecretData(plan: string): map<string, Bytes> {
    map["p" := "one"][plan := "two"]
  }

  lemma {:induction false} PassWrites(plan: string)
    ensures PassEnd(Decode(plan), ThePass(), map[]).reg == WithBoth(plan)
    ensures PassEnd(Decode(plan), ThePass(), map[]).data == SecretData(plan)
  {
    PassShipsBoth(plan);
    var s, turns := ThePass().state, ThePass().turns;
    PassShips(Decode(plan), s, map[], turns);
    ShippedWrites(plan, map[], PassEnd(Decode(plan), ThePass(), map[]).data);
  }

  lemma {:induction false} ShippedWrites(plan: string, before: map<string, Bytes>, after: map<string, Bytes>)
    requires HoldsLastShipped(before, [ONE, Two(plan)], after) && before.Keys <= {"p", plan}
    ensures after == SecretData(plan)
  {
    var ls := [ONE, Two(plan)];
    assert ls[..1] == [ONE] && ls[..1][..0] == [];
    forall key
      ensures LastUnder(ls, key) == if key == plan then Some(Two(plan)) else if key == "p" then Some(ONE) else None
    {
      assert LastUnder(ls[..1], key) == if key == "p" then Some(ONE) else None;
    }
  }

  // ---------- Later passes ----------

  /** A pass for the same features while both licences are good for the hub. */
  ghost predicate WhileGood(turns: seq<Turn>) {
    SameFeatures(ThePass().turns, turns) && AfterEpoch(turns) &&
    forall k :: 0 <= k < |turns| ==> turns[k].lookupAt <= 9 * HUB_TTL
  }

  lemma {:induction false} WhileGoodRootsLast(plan: string, turns: seq<Turn>)
    requires WhileGood(turns)
    ensures RootsLast(WithBoth(plan), turns)
    ensures Shipped(Decode(plan), WithBoth(plan), turns) == [ONE, Two(plan)]
  {
    Queues(plan);
    var s, decode := WithBoth(plan), Decode(plan);
    assert "f"[0] != "g"[0];
    assert turns[0].feature == "f" && turns[1].feature == "g";
    assert RootLive(s, "f", turns[0].lookupAt) && RootLive(s, "g", turns[1].lookupAt);
    TwoSettledTurns(plan, s, turns);
  }

  lemma {:induction false} TwoSettledTurns(plan: string, s: State, turns: seq<Turn>)
    requires RootsLast(s, turns) && |turns| == 2
    requires Root(s, turns[0].feature) == Some(ONE) && Root(s, turns[1].feature) == Some(Two(plan))
    ensures Shipped(Decode(plan), s, turns) == [ONE, Two(plan)]
  {
    var decode := Decode(plan);
    hide Lookup, Serve, RootLive, Root;
    SettledPass(decode, s, turns);
    assert RootsLast(s, turns[..1]);
    SettledPass(decode, s, turns[..1]);
    assert turns[..1][..0] == [] && turns[..0] == [] && turns[..1][0] == turns[0];
    assert RegAfter(decode, s, turns[..1]) == s;
    assert ServedAt(decode, s, turns[..1], 0) == Some(ONE);
    assert ServedAt(decode, s, turns, 1) == Some(Two(plan));
    assert Shipped(decode, s, turns[..1]) == [ONE];
  }

  /** However many passes follow while both licences are good, they write the same Secret. */
  lemma {:induction false} LaterPassesRepeat(plan: string, passes: seq<seq<Turn>>)
    requires forall m :: 0 <= m < |passes| ==> WhileGood(passes[m])
    ensures var end := RunPasses(Decode(plan), WithBoth(plan), SecretData(plan), passes);
      end.reg == WithBoth(plan) && end.data == SecretData(plan)
    decreases |passes|
  {
    Queues(plan);
    hide WithBoth, WhileGood, RunPass, RegAfter;
    if passes != [] {
      var n := |passes| - 1;
      LaterPassesRepeat(plan, passes[..n]);
      OnePassRepeats(plan, passes[n]);
    }
  }

  lemma {:induction false} OnePassRepeats(plan: string, turns: seq<Turn>)
    requires WhileGood(turns)
    ensures var end := RunPass(Decode(plan), StartPass(WithBoth(plan), SecretData(plan)), turns);
      end.reg == WithBoth(plan) && end.data == SecretData(plan)
  {
    Queues(plan);
    hide WithBoth, RunPass, RegAfter, Shipped;
    WhileGoodRootsLast(plan, turns);
    SettledPass(Decode(plan), WithBoth(plan), turns);
    PassShips(Decode(plan), WithBoth(plan), SecretData(plan), turns);
    var end := RunPass(Decode(plan), StartPass(WithBoth(plan), SecretData(plan)), turns);
    ShippedWrites(plan, SecretData(plan), end.data);
  }

  // ---------- The spoke ----------

  /** A fresh spoke that syncs the Secret, in any order and at any readings, while it can still serve both. */
  ghost predicate FreshSync(plan: string, order: seq<string>, rs: seq<Reading>, u: Time) {
    && Ranging(SecretData(plan), {}, order) && |rs| == |order|
    && (forall i :: 0 <= i < |rs| ==> 0 <= rs[i].parsedAt <= rs[i].checkedAt <= u)
    && 0 <= u <= 10 * HUB_TTL - MIN_REMAINING_LIFE
  }

  lemma {:induction false} FreshSyncSucceeds(plan: string, files: Option<map<string, Bytes>>, order: seq<string>,
          rs: seq<Reading>, u: Time)
    requires FreshSync(plan, order, rs, u)
    ensures Sync(Decode(plan), Empty(MIN_REMAINING_LIFE, map[], files), Entries(SecretData(plan), order), rs).ok
  {
    var entries, s := Entries(SecretData(plan), order), Empty(MIN_REMAINING_LIFE, map[], files);
    SyncOrder.SyncFailsIff(Decode(plan), s, entries, rs);
    assert "one"[0] != "two"[0];
    forall i | 0 <= i < |entries|
      ensures Admit(Decode(plan), entries[i], rs[i]) != Malformed
    {
      assert order[i] in SecretData(plan);
    }
  }

  lemma {:induction false} SecretLists(plan: string, u: Time)
    requires u <= 10 * HUB_TTL - MIN_REMAINING_LIFE
    ensures Lists(Decode(plan), "one", "f", u) && !Lists(Decode(plan), "two", "f", u)
    ensures Lists(Decode(plan), "two", "g", u)
  {
    assert "one"[0] != "two"[0] && "f"[0] != "g"[0];
  }

  lemma {:induction false} EntriesAre(plan: string, order: seq<string>)
    requires Ranging(SecretData(plan), {}, order)
    ensures var entries := Entries(SecretData(plan), order);
      && "two" in entries && ("one" in entries <==> plan != "p")
      && forall e :: e in entries ==> e == "one" || e == "two"
  {
    var secret := SecretData(plan);
    var entries := Entries(secret, order);
    assert "one"[0] != "two"[0];
    assert plan in secret && plan in order;
    var i :| 0 <= i < |order| && order[i] == plan;
    assert entries[i] == "two";
    assert "p" in secret && "p" in order;
    var j :| 0 <= j < |order| && order[j] == "p";
    assert entries[j] == if plan == "p" then "two" else "one";
  }

  lemma {:induction false} SpokeServesIff(plan: string, files: Option<map<string, Bytes>>, order: seq<string>,
          rs: seq<Reading>, u: Time)
    requires FreshSync(plan, order, rs, u)
    ensures var entries := Entries(SecretData(plan), order);
      var s := Sync(Decode(plan), Empty(MIN_REMAINING_LIFE, map[], files), entries, rs).state;
      Lookup(s, "g", u).license.Some? && (Lookup(s, "f", u).license.Some? <==> plan != "p")
  {
    DecodeIsUnique(plan);
    FreshSyncSucceeds(plan, files, order, rs, u);
    SecretLists(plan, u);
    EntriesAre(plan, order);
    var decode, s0 := Decode(plan), Empty(MIN_REMAINING_LIFE, map[], files);
    var entries := Entries(SecretData(plan), order);
    hide Sync, Lookup, Lists, UniqueSerials, SecretData, SerialExpiry, Decode;
    SyncServesIff(decode, s0, 0, entries, rs, "f", u);
    SyncServesIff(decode, s0, 0, entries, rs, "g", u);
    var s := Sync(decode, s0, entries, rs).state;
    LookupFindsIff(s, "f", u, SerialExpiry(decode));
    LookupFindsIff(s, "g", u, SerialExpiry(decode));
  }

  /**
   * The request for "f" and "g" has been answered, and after the pass come any number of passes. While the spoke
   * could serve both licences, whenever it syncs the Secret, it serves "g"; it serves "f" if and only if the two
   * licences are under different plans.
   */
  lemma {:induction false} ExampleServesIff(plan: string, passes: seq<seq<Turn>>, files: Option<map<string, Bytes>>,
          order: seq<string>, rs: seq<Reading>, u: Time)
    requires forall m :: 0 <= m < |passes| ==> WhileGood(passes[m])
    requires FreshSync(plan, order, rs, u)
    ensures AnsweredBy(ACTIONS, 3, 0, FEATURES)
    ensures var decode, first := Decode(plan), PassEnd(Decode(plan), ThePass(), map[]);
      var secret := RunPasses(decode, first.reg, first.data, passes).data;
      && secret == SecretData(plan)
      && var s := Sync(decode, Empty(MIN_REMAINING_LIFE, map[], files), Entries(secret, order), rs).state;
         Lookup(s, "g", u).license.Some? && (Lookup(s, "f", u).license.Some? <==> plan != "p")
  {
    RequestIsAnswered();
    PassWrites(plan);
    LaterPassesRepeat(plan, passes);
    SpokeServesIff(plan, files, order, rs, u);
    hide Sync, Lookup, AnsweredBy, RunPasses, WhileGood, PassEnd, Decode, WithBoth;
  }
}
