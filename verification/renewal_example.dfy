/** Two rounds worked out: what `Renewal` asks of the two ends of the protocol can be met, and what a new plan does. */
module RenewalExample {
  import opened Licenses
  import opened RegistryStates
  import opened Traces
  import opened Recovery
  import opened Syncer
  import opened HubPasses
  import opened Fixpoint
  import opened Renewal

  /** A licence for one feature, and one that outlives it, under whatever plan. */
  const OLD := License("1", ["f"], "", "plan", 0, 10 * HUB_TTL, Active, "old")

  function New(plan: string): License {
    License("2", ["f"], "", plan, 0, 20 * HUB_TTL, Active, "new")
  }

  function Decode(plan: string): Decoder {
    data => if data == "old" then Some(OLD) else if data == "new" then Some(New(plan)) else None
  }

  /** The second pass runs one nanosecond after the instant for which the first is requeued. */
  const LATE: Time := 9 * HUB_TTL + 1

  function TurnAt(t: Time, data: Bytes): Turn {
    Turn("f", t, Attempt(Issued(data, None), false), t)
  }

  function First(): HubPass {
    HubPass(Empty(HUB_TTL, map[], None), 1, [TurnAt(1, "old")])
  }

  function WithOld(): State {
    Add(Empty(HUB_TTL, map[], None), OLD, None)
  }

  /** The second pass finds the registry as the first has left it. */
  function Second(): HubPass {
    HubPass(WithOld(), LATE, [TurnAt(LATE, "new")])
  }

  function Rounds(plan: string): seq<Round> {
    [Round(First(), OLD, [], SyncPass(["old"], [Reading(2, 2)])),
     Round(Second(), New(plan), [], SyncPass(["new"], [Reading(LATE, LATE)]))]
  }

  lemma {:induction false} DecodeIsUnique(plan: string)
    ensures UniqueSerials(Decode(plan)) && Genuine(Decode(plan), OLD) && Genuine(Decode(plan), New(plan))
  {
    assert "old"[0] != "new"[0] && OLD.id[0] != New(plan).id[0];
    forall l | Genuine(Decode(plan), l)
      ensures l == OLD || l == New(plan)
    {
    }
  }

  /** A pass of one turn. */
  lemma {:induction false} OneTurn(decode: Decoder, s: State, data: map<string, Bytes>, tn: Turn)
    ensures RunPass(decode, StartPass(s, data), [tn]) == TakeTurn(decode, StartPass(s, data), tn)
    ensures RegAfter(decode, s, [tn]) == Serve(decode, s, tn).state
    ensures ServedAt(decode, s, [tn], 0) == Serve(decode, s, tn).license
    ensures Shipped(decode, s, [tn]) == match Serve(decode, s, tn).license
      case None => []
      case Some(l) => if l.status == Active then [l] else []
  {
    assert [tn][..0] == [];
  }

  lemma {:induction false} LastOfOne(l: License, plan: string)
    ensures LastUnder([l], plan) == if l.planName == plan then Some(l) else None
  {
    assert [l][..0] == [];
  }

  lemma {:induction false} FirstShipsOld(plan: string)
    ensures PassDelivers(Decode(plan), First(), "f", OLD)
    ensures PassEnd(Decode(plan), First(), map[]) == Pass(WithOld(), map["plan" := "old"], 10 * HUB_TTL, [])
  {
    DecodeIsUnique(plan);
    OneTurn(Decode(plan), First().state, map[], TurnAt(1, "old"));
    LastOfOne(OLD, "plan");
  }

  lemma {:induction false} WithOldQueue()
    ensures WithOld().queues == map["f" := [OLD]]
  {
    assert OLD.features[1..] == [] && OLD.features[0] == "f";
    assert Enqueue(map[], OLD, OLD.features) == Enqueue(EnqueueFor(map[], OLD, "f"), OLD, []);
  }

  lemma {:induction false} OldIsRenewed(plan: string)
    ensures Serve(Decode(plan), WithOld(), TurnAt(LATE, "new")).license == Some(New(plan))
  {
    WithOldQueue();
    assert Evict(WithOld(), "f").queues["f"] == [];
    assert "old"[0] != "new"[0];
  }

  lemma {:induction false} SecondStarts(plan: string)
    ensures Inv(WithOld(), LATE, SerialExpiry(Decode(plan))) && AllGenuine(Decode(plan), WithOld())
  {
    DecodeIsUnique(plan);
    SerialDeterminesExpiry(Decode(plan), OLD);
    AddKeepsInv(Empty(HUB_TTL, map[], None), OLD, None, LATE, SerialExpiry(Decode(plan)));
  }

  lemma {:induction false} SecondShips(plan: string)
    ensures Shipped(Decode(plan), WithOld(), Second().turns) == [New(plan)]
    ensures PassEnd(Decode(plan), Second(), map["plan" := "old"]).data == map["plan" := "old"][plan := "new"]
  {
    OldIsRenewed(plan);
    hide Serve, Lookup, First, WithOld;
    OneTurn(Decode(plan), WithOld(), map["plan" := "old"], TurnAt(LATE, "new"));
  }

  lemma {:induction false} SecondIsReady(plan: string)
    ensures HubReady(Decode(plan), Second())
  {
    SecondStarts(plan);
    assert WithOld().ttl == HUB_TTL;
    hide Inv, AllGenuine, WithOld;
  }

  lemma {:induction false} SecondShipsNew(plan: string)
    ensures PassDelivers(Decode(plan), Second(), "f", New(plan))
  {
    SecondIsReady(plan);
    SecondShips(plan);
    LastOfOne(New(plan), plan);
    hide HubReady, PassEnd, WithOld, Shipped, LastUnder, Decode;
  }

  lemma {:induction false} SecretsAfter(plan: string)
    ensures SecretAfter(Decode(plan), map[], Rounds(plan)[..1]) == map["plan" := "old"]
    ensures SecretAfter(Decode(plan), map[], Rounds(plan)) == map["plan" := "old"][plan := "new"]
    ensures Due(Decode(plan), map[], Rounds(plan), 0) == 9 * HUB_TTL + LICENSE_ACQUISITION_BUFFER
  {
    FirstShipsOld(plan);
    SecondShips(plan);
    hide PassDelivers, PassEnd, First, Second;
    assert Rounds(plan)[..1][..0] == [] && Rounds(plan)[..0] == [] && Rounds(plan)[..2] == Rounds(plan);
  }

  /**
   * A second pass at exactly the instant for which the first was requeued is too early: it still finds the old
   * licence, writes the Secret that is there, and whenever it ends it asks for no requeue.
   */
  lemma {:induction false} ExampleAtRequeueInstant(plan: string, end: Time)
    requires 9 * HUB_TTL <= end
    ensures var first := PassEnd(Decode(plan), First(), map[]);
      var p := HubPass(first.reg, 9 * HUB_TTL, [TurnAt(9 * HUB_TTL, "new")]);
      && first.earliest - HUB_TTL == 9 * HUB_TTL
      && PassEnd(Decode(plan), p, first.data) == Pass(first.reg, first.data, first.earliest, [])
      && RequeueAfter(first.earliest, end) <= 0
  {
    FirstShipsOld(plan);
    OldIsKept(plan);
    hide First, WithOld, PassDelivers, Serve, Decode;
    OneTurn(Decode(plan), WithOld(), map["plan" := "old"], TurnAt(9 * HUB_TTL, "new"));
    assert map["plan" := "old"]["plan" := "old"] == map["plan" := "old"];
  }

  lemma {:induction false} OldIsKept(plan: string)
    ensures Serve(Decode(plan), WithOld(), TurnAt(9 * HUB_TTL, "new")) == Answer(WithOld(), Some(OLD))
  {
    WithOldQueue();
  }

  lemma {:induction false} OneSync(plan: string, data: Bytes, r: Reading, l: License)
    requires Admit(Decode(plan), data, r) == Admitted(l)
    ensures SyncSteps(Decode(plan), [data], [r]) == [AddStep(l, None, r.checkedAt)]
  {
    assert [data][..0] == [] && [r][..0] == [];
  }

  lemma {:induction false} SpokeAddsBoth(plan: string)
    ensures SpokeSteps(Decode(plan), Rounds(plan)) == [AddStep(OLD, None, 2), AddStep(New(plan), None, LATE)]
    ensures Admit(Decode(plan), "old", Reading(2, 2)) == Admitted(OLD)
    ensures Admit(Decode(plan), "new", Reading(LATE, LATE)) == Admitted(New(plan))
  {
    assert "old"[0] != "new"[0];
    OneSync(plan, "old", Reading(2, 2), OLD);
    OneSync(plan, "new", Reading(LATE, LATE), New(plan));
    hide First, Second, Admit, SyncSteps;
    var rounds := Rounds(plan);
    assert rounds[..1][..0] == [] && SpokeSteps(Decode(plan), rounds[..1]) == [AddStep(OLD, None, 2)];
  }

  /** With both licences under one plan, the rounds are in time, so `RenewalLeavesNoGap` speaks of them. */
  lemma {:induction false} ExampleRenewsInTime()
    ensures var decode, rounds := Decode("plan"), Rounds("plan");
      && UniqueSerials(decode) && RenewedInTime(decode, map[], "f", rounds)
      && Monotone(1, SpokeSteps(decode, rounds)) && AddsParsed(decode, SpokeSteps(decode, rounds))
  {
    DecodeIsUnique("plan");
    FirstShipsOld("plan");
    SecondShipsNew("plan");
    SecretsAfter("plan");
    SpokeAddsBoth("plan");
    var rounds := Rounds("plan");
    hide PassDelivers, PassEnd, UniqueSerials, SpokeSteps, First, Second, SecretAfter, Due, Parse;
    assert rounds[..2] == rounds;
    assert RoundInTime(Decode("plan"), map[], "f", rounds, 0);
    assert RoundInTime(Decode("plan"), map[], "f", rounds, 1);
  }

  /**
   * Under whatever plan the renewed licence comes: once the old one has ended, and before the new one has, a sync of
   * the Secret succeeds if and only if the plan is still the same, in any order and at any readings.
   */
  lemma {:induction false} ExampleSyncsIff(plan: string, spoke: State, order: seq<string>, rs: seq<Reading>)
    requires |order| == |rs| && Ranging(SecretAfter(Decode(plan), map[], Rounds(plan)), {}, order)
    requires forall i :: 0 <= i < |rs| ==> OLD.notAfter < rs[i].parsedAt <= New(plan).notAfter
    ensures Sync(Decode(plan), spoke, Entries(SecretAfter(Decode(plan), map[], Rounds(plan)), order), rs).ok <==>
            plan == "plan"
  {
    SecretsAfter(plan);
    SecondShips(plan);
    var secret := map["plan" := "old"];
    SyncAfterPassIff(Decode(plan), WithOld(), secret, Second().turns, spoke, order, rs);
    hide RunPass, Shipped, WithOld, SecretAfter, Rounds;
    assert "old"[0] != "new"[0];
    forall i | 0 <= i < |order|
      ensures LastUnder([New(plan)], order[i]) == if plan == order[i] then Some(New(plan)) else None
      ensures order[i] == plan || order[i] == "plan"
    {
      LastOfOne(New(plan), order[i]);
      assert order[i] in secret[plan := "new"];
    }
    assert "plan" in secret[plan := "new"];
    assert "plan" in order;
    var k :| 0 <= k < |order| && order[k] == "plan";
    assert Parse(Decode(plan), "old", rs[k].parsedAt).None?;
    if plan == "plan" {
      assert forall i :: 0 <= i < |order| ==> order[i] == plan;
    } else {
      assert !LeftoverParses(Decode(plan), [New(plan)], secret, "plan", rs[k]);
    }
  }
}
