/** From hub to spoke: a licence renewed in time leaves no instant at which the spoke cannot serve its feature. */
module Renewal {
  import opened Licenses
  import opened RegistryStates
  import opened Traces
  import opened Recovery
  import opened Syncer
  import opened HubPasses
  import opened Fixpoint
  import SyncOrder

  // ---------- The hub's side ----------

  /** A lookup keeps the root up to and including its deadline: at that very instant it is not renewed. */
  lemma {:induction false} RootKeptUntilDeadline(s: State, f: string, t: Time)
    requires f in s.queues && s.queues[f] != []
    ensures Lookup(s, f, t) == Answer(s, Some(s.queues[f][0])) <==> t <= s.queues[f][0].notAfter - s.ttl
  {
    if Expired(s.queues[f][0], s.ttl, t) {
      LookupEnds(s, f, t);
      EvictionShortens(s, f, t);
    }
  }

  lemma {:induction false} EvictionShortens(s: State, f: string, t: Time)
    requires f in s.queues
    ensures var q, q' := s.queues[f], Lookup(s, f, t).state.queues;
      f in q' && |q'[f]| <= |q| && (q != [] && Expired(q[0], s.ttl, t) ==> |q'[f]| < |q|)
    decreases |s.queues[f]|
  {
    if s.queues[f] != [] && Expired(s.queues[f][0], s.ttl, t) {
      EvictionShortens(Evict(s, f), f, t);
    }
  }

  /** A turn taken strictly after the requeue instant serves from the registry only licences that end later. */
  lemma {:induction false} LateTurnsRenew(s: State, tn: Turn, earliest: Time)
    requires s.ttl == HUB_TTL && tn.lookupAt > earliest - HUB_TTL
    ensures var l := Lookup(s, tn.feature, tn.lookupAt).license; l.Some? ==> l.value.notAfter > earliest
  {
    LookupEnds(s, tn.feature, tn.lookupAt);
  }

  /** The turns of a pass follow one another, and the pass starts no earlier than `start`. */
  ghost predicate TurnsFollow(start: Time, turns: seq<Turn>) {
    && (forall i :: 0 <= i < |turns| ==> start <= turns[i].lookupAt)
    && (forall i, j :: 0 <= i <= j < |turns| ==> turns[i].lookupAt <= turns[j].lookupAt)
  }

  lemma {:induction false} PassKeepsInv(decode: Decoder, s: State, start: Time, turns: seq<Turn>)
    requires UniqueSerials(decode) && Inv(s, start, SerialExpiry(decode)) && AllGenuine(decode, s)
    requires TurnsFollow(start, turns)
    ensures var end := if turns == [] then start else turns[|turns| - 1].lookupAt;
      Inv(RegAfter(decode, s, turns), end, SerialExpiry(decode))
    ensures AllGenuine(decode, RegAfter(decode, s, turns))
    decreases |turns|
  {
    hide Inv, AllGenuine, UniqueSerials, SerialExpiry, Serve;
    if turns != [] {
      var n := |turns| - 1;
      PassKeepsInv(decode, s, start, turns[..n]);
      ServeKeepsInv(decode, RegAfter(decode, s, turns[..n]), turns[n], if n == 0 then start else turns[n - 1].lookupAt);
    }
  }

  lemma {:induction false} ServedIsGenuine(decode: Decoder, s: State, tn: Turn, t: Time, l: License)
    requires UniqueSerials(decode) && Inv(s, t, SerialExpiry(decode)) && AllGenuine(decode, s) && t <= tn.lookupAt
    requires Serve(decode, s, tn).license == Some(l)
    ensures Genuine(decode, l)
  {
    InvLater(s, t, tn.lookupAt, SerialExpiry(decode));
    LookupAnswersLikeScan(s, tn.feature, tn.lookupAt, SerialExpiry(decode));
  }

  lemma {:induction false} ServedAtIsGenuine(decode: Decoder, s: State, start: Time, turns: seq<Turn>, k: nat,
          l: License)
    requires UniqueSerials(decode) && Inv(s, start, SerialExpiry(decode)) && AllGenuine(decode, s)
    requires TurnsFollow(start, turns) && k < |turns| && ServedAt(decode, s, turns, k) == Some(l)
    ensures Genuine(decode, l)
  {
    hide Inv, AllGenuine, UniqueSerials, SerialExpiry, Serve, RegAfter;
    var before := if k == 0 then start else turns[k - 1].lookupAt;
    PassKeepsInv(decode, s, start, turns[..k]);
    ServedIsGenuine(decode, RegAfter(decode, s, turns[..k]), turns[k], before, l);
  }

  /**
   * After a pass the Secret has an entry under the plan of whatever active licence turn `k` served, which ends no
   * earlier than the requeue time says; the entry is what the last turn under the plan served, turn `k` or a later one.
   */
  lemma {:induction false} ServedIsInSecret(decode: Decoder, s: State, data: map<string, Bytes>, turns: seq<Turn>,
          k: nat, l: License) returns (j: nat)
    requires s.ttl == HUB_TTL && AfterEpoch(turns)
    requires k < |turns| && ServedAt(decode, s, turns, k) == Some(l) && l.status == Active
    ensures k <= j && LastTurnUnder(decode, s, turns, l.planName, j)
    ensures var p := RunPass(decode, StartPass(s, data), turns);
      && p.earliest <= l.notAfter && l.planName in p.data
      && p.data[l.planName] == ServedAt(decode, s, turns, j).value.data
  {
    hide Serve, RegAfter, Shipped, RunPass, LastUnder;
    PassShips(decode, s, data, turns);
    ServedIsShipped(decode, s, turns, k, l);
    LastUnderIsServed(decode, s, turns, l.planName);
    assert ShipsUnder(decode, s, turns, l.planName, k);
    j :| LastTurnUnder(decode, s, turns, l.planName, j) &&
         ServedAt(decode, s, turns, j) == LastUnder(Shipped(decode, s, turns), l.planName);
  }

  // ---------- The spoke's side ----------

  /** `l` can be served for `f` by whatever is in the registry. */
  lemma {:induction false} StoredIsServed(s: State, f: string, t: Time, expiry: string -> Time, l: License)
    requires Inv(s, t, expiry) && Servable(s, f, t, l)
    ensures Lookup(s, f, t).license.Some?
  {
    LookupAnswersLikeScan(s, f, t, expiry);
  }

  lemma {:induction false} PrefixLaws(start: Time, tr: seq<Step>, k: nat, decode: Decoder, l: License)
    requires k <= |tr| && Monotone(start, tr) && AddsParsed(decode, tr) && UniqueSerials(decode)
    ensures Monotone(start, tr[..k]) && AddsParsed(decode, tr[..k])
    ensures Genuine(decode, l) ==> OwnsSerial(tr[..k], l)
  {
  }

  /** An added licence is in the store, perhaps read from other bytes, for as long as it is live. */
  lemma {:induction false} AddedIsStored(decode: Decoder, files: Option<map<string, Bytes>>, start: Time,
          tr: seq<Step>, i: nat, l: License, u: Time)
    requires UniqueSerials(decode) && Monotone(start, tr) && AddsParsed(decode, tr)
    requires i < |tr| && tr[i].AddStep? && tr[i].license == l
    requires TimeAfter(start, tr) <= u
    ensures var s := Run(Empty(MIN_REMAINING_LIFE, map[], files), tr);
      && s.ttl == MIN_REMAINING_LIFE && Inv(s, u, SerialExpiry(decode))
      && (TimeAfter(start, tr) <= l.notAfter - MIN_REMAINING_LIFE ==> StoredAs(s, l))
  {
    var s0, expiry := Empty(MIN_REMAINING_LIFE, map[], files), SerialExpiry(decode);
    PrefixLaws(start, tr, |tr|, decode, l);
    assert tr[..|tr|] == tr;
    AddsParsedExpiry(decode, tr);
    RunKeepsInv(s0, start, tr, expiry);
    InvLater(Run(s0, tr), TimeAfter(start, tr), u, expiry);
    AddedStaysStored(s0, start, tr, expiry, l);
  }

  /** While an added licence that lists `f` is live, `f` is served, whatever else the run has done. */
  lemma {:induction false} AddedIsServed(decode: Decoder, files: Option<map<string, Bytes>>, start: Time,
          tr: seq<Step>, k: nat, i: nat, l: License, f: string, u: Time)
    requires UniqueSerials(decode) && Monotone(start, tr) && AddsParsed(decode, tr)
    requires i < k <= |tr| && tr[i].AddStep? && tr[i].license == l && f in l.features
    requires TimeAfter(start, tr[..k]) <= u <= l.notAfter - MIN_REMAINING_LIFE
    ensures Lookup(Run(Empty(MIN_REMAINING_LIFE, map[], files), tr[..k]), f, u).license.Some?
  {
    PrefixLaws(start, tr, k, decode, l);
    AddedIsStored(decode, files, start, tr[..k], i, l, u);
    hide Inv, UniqueSerials, SerialExpiry;
    var s := Run(Empty(MIN_REMAINING_LIFE, map[], files), tr[..k]);
    StoredIsServed(s, f, u, SerialExpiry(decode), s.store[l.id].license);
  }

  /** Instant `u` lies between step `k - 1` of the run and step `k`. */
  ghost predicate During(start: Time, tr: seq<Step>, k: nat, u: Time)
    requires k <= |tr|
  {
    TimeAfter(start, tr[..k]) <= u && (k < |tr| ==> u <= tr[k].at)
  }

  ghost predicate AddsBy(tr: seq<Step>, j: nat, l: License, t: Time) {
    j < |tr| && tr[j].AddStep? && tr[j].license == l && tr[j].at <= t
  }

  ghost predicate AddedBy(tr: seq<Step>, l: License, t: Time) {
    exists j: nat :: AddsBy(tr, j, l, t)
  }

  /** `later` is added no later than the deadline of `former`, unless its own deadline is no later than that. */
  ghost predicate InTime(tr: seq<Step>, former: License, later: License) {
    later.notAfter <= former.notAfter || AddedBy(tr, later, former.notAfter - MIN_REMAINING_LIFE)
  }

  /** Each of the licences lists `f`, and each but the first is added in time after the one before. */
  ghost predicate RenewedChain(tr: seq<Step>, ls: seq<License>, f: string) {
    && (forall m :: 0 <= m < |ls| ==> f in ls[m].features)
    && forall m :: 0 < m < |ls| ==> InTime(tr, ls[m - 1], ls[m])
  }

  /**
   * The spoke serves `f` at every instant from the sync of the first of any number of licences to the deadline of the
   * last, if each is synced by the deadline of the one before it.
   */
  lemma {:induction false} NoGap(decode: Decoder, files: Option<map<string, Bytes>>, start: Time, tr: seq<Step>,
          i: nat, ls: seq<License>, f: string, k: nat, u: Time)
    requires UniqueSerials(decode) && Monotone(start, tr) && AddsParsed(decode, tr)
    requires ls != [] && RenewedChain(tr, ls, f)
    requires i < k <= |tr| && tr[i].AddStep? && tr[i].license == ls[0]
    requires During(start, tr, k, u) && u <= ls[|ls| - 1].notAfter - MIN_REMAINING_LIFE
    ensures Lookup(Run(Empty(MIN_REMAINING_LIFE, map[], files), tr[..k]), f, u).license.Some?
    decreases |ls|
  {
    var n := |ls| - 1;
    if n == 0 {
      AddedIsServed(decode, files, start, tr, k, i, ls[0], f, u);
    } else if u <= ls[n - 1].notAfter - MIN_REMAINING_LIFE {
      assert RenewedChain(tr, ls[..n], f);
      NoGap(decode, files, start, tr, i, ls[..n], f, k, u);
    } else {
      var due := ls[n - 1].notAfter - MIN_REMAINING_LIFE;
      assert InTime(tr, ls[n - 1], ls[n]);
      var j: nat :| AddsBy(tr, j, ls[n], due);
      AddedIsServed(decode, files, start, tr, k, j, ls[n], f, u);
    }
  }

  // ---------- Syncs as steps of a run ----------

  function SyncSteps(decode: Decoder, entries: seq<Bytes>, rs: seq<Reading>): seq<Step>
    requires |entries| == |rs|
    decreases |entries|
  {
    if entries == [] then []
    else
      var n := |entries| - 1;
      SyncSteps(decode, entries[..n], rs[..n]) +
      match Admit(decode, entries[n], rs[n])
      case Malformed => []
      case TooOld => []
      case Admitted(l) => [AddStep(l, None, rs[n].checkedAt)]
  }

  /** A sync in which every entry parses does to the registry what its steps do. */
  lemma {:induction false} SyncIsRun(decode: Decoder, s: State, entries: seq<Bytes>, rs: seq<Reading>)
    requires |entries| == |rs| && Sync(decode, s, entries, rs).ok
    ensures Run(s, SyncSteps(decode, entries, rs)) == Sync(decode, s, entries, rs).state
    decreases |entries|
  {
    if entries != [] {
      var n := |entries| - 1;
      SyncIsRun(decode, s, entries[..n], rs[..n]);
      var before := SyncSteps(decode, entries[..n], rs[..n]);
      match Admit(decode, entries[n], rs[n])
      case Malformed =>
      case TooOld => assert before + [] == before;
      case Admitted(l) =>
        var step := [AddStep(l, None, rs[n].checkedAt)];
        RunConcat(s, before, step);
        assert Init(step) == [];
    }
  }

  lemma {:induction false} SyncStepsAdd(decode: Decoder, entries: seq<Bytes>, rs: seq<Reading>, k: nat,
          l: License) returns (i: nat)
    requires |entries| == |rs| && k < |entries| && Admit(decode, entries[k], rs[k]) == Admitted(l)
    ensures i < |SyncSteps(decode, entries, rs)|
    ensures SyncSteps(decode, entries, rs)[i] == AddStep(l, None, rs[k].checkedAt)
    decreases |entries|
  {
    var n := |entries| - 1;
    if k == n {
      i := |SyncSteps(decode, entries[..n], rs[..n])|;
    } else {
      i := SyncStepsAdd(decode, entries[..n], rs[..n], k, l);
    }
  }

  /** The entries of a Secret, in some order, all of which parse when they are synced, the last no later than `end`. */
  ghost predicate SyncOf(decode: Decoder, data: map<string, Bytes>, entries: seq<Bytes>, rs: seq<Reading>,
          end: Time) {
    && |entries| == |rs|
    && (forall plan :: plan in data ==> data[plan] in entries)
    && (forall i :: 0 <= i < |entries| ==> Admit(decode, entries[i], rs[i]) != Malformed && rs[i].checkedAt <= end)
  }

  /** A genuine licence in a synced Secret is added, unless it is within its last five minutes when it is checked. */
  lemma {:induction false} SyncedIsAdded(decode: Decoder, data: map<string, Bytes>, entries: seq<Bytes>,
          rs: seq<Reading>, end: Time, l: License)
    returns (i: nat)
    requires SyncOf(decode, data, entries, rs, end) && Genuine(decode, l)
    requires l.planName in data && data[l.planName] == l.data && end <= l.notAfter - MIN_REMAINING_LIFE
    ensures var steps := SyncSteps(decode, entries, rs);
      i < |steps| && steps[i].AddStep? && steps[i].license == l && steps[i].at <= end
  {
    var k :| 0 <= k < |entries| && entries[k] == data[l.planName];
    assert Admit(decode, entries[k], rs[k]) == Admitted(l);
    i := SyncStepsAdd(decode, entries, rs, k, l);
  }

  // ---------- End to end ----------

  /** A hub pass: the registry it starts from, since when, and its turns. */
  datatype HubPass = HubPass(state: State, start: Time, turns: seq<Turn>)

  function PassEnd(decode: Decoder, p: HubPass, data: map<string, Bytes>): Pass {
    RunPass(decode, StartPass(p.state, data), p.turns)
  }

  /** A hub pass for a cluster, from a registry that the hub's own steps have led to. */
  ghost predicate HubReady(decode: Decoder, p: HubPass) {
    && Inv(p.state, p.start, SerialExpiry(decode)) && AllGenuine(decode, p.state) && p.state.ttl == HUB_TTL
    && AfterEpoch(p.turns) && TurnsFollow(p.start, p.turns)
  }

  /** What the pass ships last under each plan; the rest of what it ships is overwritten in the Secret. */
  function LastShipped(decode: Decoder, p: HubPass, plan: string): Option<License> {
    LastUnder(Shipped(decode, p.state, p.turns), plan)
  }

  /** The pass ships last under its plan a licence that lists `f`, in whichever turn it was served. */
  ghost predicate PassDelivers(decode: Decoder, p: HubPass, f: string, l: License) {
    HubReady(decode, p) && f in l.features && LastShipped(decode, p, l.planName) == Some(l)
  }

  lemma {:induction false} LastShippedIsGenuine(decode: Decoder, p: HubPass, plan: string)
    requires UniqueSerials(decode) && HubReady(decode, p) && LastShipped(decode, p, plan).Some?
    ensures var l := LastShipped(decode, p, plan).value; Genuine(decode, l) && l.planName == plan
  {
    var l := LastShipped(decode, p, plan).value;
    LastUnderIsServed(decode, p.state, p.turns, plan);
    hide Shipped, LastUnder, UniqueSerials, SerialExpiry, Inv, AllGenuine;
    var j: nat :| LastTurnUnder(decode, p.state, p.turns, plan, j) &&
                  ServedAt(decode, p.state, p.turns, j) == Some(l);
    ServedAtIsGenuine(decode, p.state, p.start, p.turns, j, l);
  }

  lemma {:induction false} PassDeliversShips(decode: Decoder, p: HubPass, data: map<string, Bytes>, f: string,
          l: License)
    requires UniqueSerials(decode) && PassDelivers(decode, p, f, l)
    ensures Genuine(decode, l) && f in l.features
    ensures var end := PassEnd(decode, p, data);
      l.planName in end.data && end.data[l.planName] == l.data && end.earliest <= l.notAfter
  {
    LastShippedIsGenuine(decode, p, l.planName);
    PassShips(decode, p.state, data, p.turns);
    LastUnderMeans(Shipped(decode, p.state, p.turns), l.planName);
    hide Shipped, LastUnder, UniqueSerials, SerialExpiry, Inv, AllGenuine, RunPass;
    assert l in Shipped(decode, p.state, p.turns);
  }

  /** One sync on the spoke: the Secret's entries in the order ranged over, with their readings. */
  datatype SyncPass = SyncPass(entries: seq<Bytes>, rs: seq<Reading>)

  function StepsOf(decode: Decoder, p: SyncPass): seq<Step> {
    if |p.entries| == |p.rs| then SyncSteps(decode, p.entries, p.rs) else []
  }

  /**
   * One round of the protocol: a hub pass, which ships `license` last under its plan, and the spoke's sync of the
   * Secret that it wrote, after anything else that the spoke does `before` it.
   */
  datatype Round = Round(pass: HubPass, license: License, before: seq<Step>, sync: SyncPass)

  /** The Secret after some rounds, each pass writing over what the one before it left. */
  function SecretAfter(decode: Decoder, data: map<string, Bytes>, rounds: seq<Round>): map<string, Bytes>
    decreases |rounds|
  {
    if rounds == [] then data
    else
      var n := |rounds| - 1;
      PassEnd(decode, rounds[n].pass, SecretAfter(decode, data, rounds[..n])).data
  }

  /** What the spoke's registry does in some rounds. */
  function SpokeSteps(decode: Decoder, rounds: seq<Round>): seq<Step>
    decreases |rounds|
  {
    if rounds == [] then []
    else
      var n := |rounds| - 1;
      SpokeSteps(decode, rounds[..n]) + rounds[n].before + StepsOf(decode, rounds[n].sync)
  }

  /** The acquisition buffer after the instant for which the pass of round `m` was requeued. */
  function Due(decode: Decoder, data: map<string, Bytes>, rounds: seq<Round>, m: nat): Time
    requires m < |rounds|
  {
    var requeuedFor := PassEnd(decode, rounds[m].pass, SecretAfter(decode, data, rounds[..m])).earliest;
    requeuedFor - HUB_TTL + LICENSE_ACQUISITION_BUFFER
  }

  /** Round `m` delivers `f`, and the spoke syncs its Secret no later than the round before it makes due. */
  ghost predicate RoundInTime(decode: Decoder, data: map<string, Bytes>, f: string, rounds: seq<Round>, m: nat)
    requires m < |rounds|
  {
    var r := rounds[m];
    && PassDelivers(decode, r.pass, f, r.license)
    && SyncOf(decode, SecretAfter(decode, data, rounds[..m + 1]), r.sync.entries, r.sync.rs,
         Due(decode, data, rounds, if m == 0 then 0 else m - 1))
  }

  ghost predicate RenewedInTime(decode: Decoder, data: map<string, Bytes>, f: string, rounds: seq<Round>) {
    forall m: nat :: m < |rounds| ==> RoundInTime(decode, data, f, rounds, m)
  }

  lemma {:induction false} RoundShips(decode: Decoder, data: map<string, Bytes>, f: string, rounds: seq<Round>, m: nat)
    requires UniqueSerials(decode) && m < |rounds| && RoundInTime(decode, data, f, rounds, m)
    ensures var l, secret := rounds[m].license, SecretAfter(decode, data, rounds[..m + 1]);
      && Genuine(decode, l) && f in l.features && l.planName in secret && secret[l.planName] == l.data
      && Due(decode, data, rounds, m) <= l.notAfter - MIN_REMAINING_LIFE
  {
    var r := rounds[m];
    assert rounds[..m + 1][..m] == rounds[..m];
    hide PassDelivers, PassEnd, SyncOf;
    PassDeliversShips(decode, r.pass, SecretAfter(decode, data, rounds[..m]), f, r.license);
  }

  /** The steps of each round's sync are among those of all rounds. */
  lemma {:induction false} SyncIsPart(decode: Decoder, rounds: seq<Round>, m: nat, i: nat) returns (j: nat)
    requires m < |rounds| && i < |StepsOf(decode, rounds[m].sync)|
    ensures j < |SpokeSteps(decode, rounds)| && SpokeSteps(decode, rounds)[j] == StepsOf(decode, rounds[m].sync)[i]
    ensures m == 0 ==> j < |SpokeSteps(decode, rounds[..1])|
    decreases |rounds|
  {
    hide StepsOf;
    var n := |rounds| - 1;
    if m == n {
      j := |SpokeSteps(decode, rounds[..n]) + rounds[n].before| + i;
      assert rounds[..n + 1] == rounds;
    } else {
      j := SyncIsPart(decode, rounds[..n], m, i);
      assert m == 0 ==> rounds[..n][..1] == rounds[..1];
    }
  }

  lemma {:induction false} RoundAdds(decode: Decoder, data: map<string, Bytes>, f: string, rounds: seq<Round>,
          m: nat) returns (j: nat)
    requires UniqueSerials(decode) && m < |rounds| && RoundInTime(decode, data, f, rounds, m)
    requires var end := Due(decode, data, rounds, if m == 0 then 0 else m - 1);
      end <= rounds[m].license.notAfter - MIN_REMAINING_LIFE
    ensures AddsBy(SpokeSteps(decode, rounds), j, rounds[m].license,
              Due(decode, data, rounds, if m == 0 then 0 else m - 1))
    ensures m == 0 ==> j < |SpokeSteps(decode, rounds[..1])|
  {
    RoundShips(decode, data, f, rounds, m);
    var r, secret := rounds[m], SecretAfter(decode, data, rounds[..m + 1]);
    var end := Due(decode, data, rounds, if m == 0 then 0 else m - 1);
    hide PassDelivers, SecretAfter, SpokeSteps, Due;
    j := SyncedIsAdded(decode, secret, r.sync.entries, r.sync.rs, end, r.license);
    j := SyncIsPart(decode, rounds, m, j);
  }

  function RoundLicenses(rounds: seq<Round>): seq<License> {
    seq(|rounds|, m requires 0 <= m < |rounds| => rounds[m].license)
  }

  lemma {:induction false} RoundFollowsInTime(decode: Decoder, data: map<string, Bytes>, f: string,
          rounds: seq<Round>, post: seq<Step>, m: nat)
    requires UniqueSerials(decode) && 0 < m < |rounds|
    requires RoundInTime(decode, data, f, rounds, m - 1) && RoundInTime(decode, data, f, rounds, m)
    ensures InTime(SpokeSteps(decode, rounds) + post, rounds[m - 1].license, rounds[m].license)
  {
    hide RoundInTime, SpokeSteps, Due, UniqueSerials, SecretAfter;
    var former, later := rounds[m - 1].license, rounds[m].license;
    RoundShips(decode, data, f, rounds, m - 1);
    if later.notAfter > former.notAfter {
      var j := RoundAdds(decode, data, f, rounds, m);
      assert AddsBy(SpokeSteps(decode, rounds) + post, j, later, former.notAfter - MIN_REMAINING_LIFE);
    }
  }

  lemma {:induction false} RoundsChain(decode: Decoder, data: map<string, Bytes>, f: string, rounds: seq<Round>,
          post: seq<Step>)
    requires UniqueSerials(decode) && RenewedInTime(decode, data, f, rounds)
    ensures RenewedChain(SpokeSteps(decode, rounds) + post, RoundLicenses(rounds), f)
  {
    hide RoundInTime, SpokeSteps, Due, UniqueSerials, InTime, SecretAfter;
    forall m: nat | m < |rounds|
      ensures f in rounds[m].license.features
    {
      RoundShips(decode, data, f, rounds, m);
    }
    forall m: nat | 0 < m < |rounds|
      ensures InTime(SpokeSteps(decode, rounds) + post, rounds[m - 1].license, rounds[m].license)
    {
      RoundFollowsInTime(decode, data, f, rounds, post, m);
    }
  }

  /**
   * Any number of rounds, each of which ships last under some plan a licence that lists `f`, and is synced no later
   * than the acquisition buffer after the instant for which the pass before was requeued: the spoke serves `f` at
   * every instant from the first sync to the deadline of the last round's licence, whatever else it does before,
   * between and after the syncs.
   */
  lemma {:induction false} RenewalLeavesNoGap(decode: Decoder, data: map<string, Bytes>, f: string,
          rounds: seq<Round>, post: seq<Step>, files: Option<map<string, Bytes>>, start: Time, k: nat, u: Time)
    requires UniqueSerials(decode) && rounds != [] && RenewedInTime(decode, data, f, rounds)
    requires var tr := SpokeSteps(decode, rounds) + post;
      && Monotone(start, tr) && AddsParsed(decode, tr)
      && |SpokeSteps(decode, rounds[..1])| <= k <= |tr| && During(start, tr, k, u)
    requires u <= rounds[|rounds| - 1].license.notAfter - MIN_REMAINING_LIFE
    ensures var tr := SpokeSteps(decode, rounds) + post;
      Lookup(Run(Empty(MIN_REMAINING_LIFE, map[], files), tr[..k]), f, u).license.Some?
  {
    hide UniqueSerials, SpokeSteps, Monotone, AddsParsed, During, RoundInTime, Due;
    RoundsChain(decode, data, f, rounds, post);
    RoundShips(decode, data, f, rounds, 0);
    var i := RoundAdds(decode, data, f, rounds, 0);
    NoGap(decode, files, start, SpokeSteps(decode, rounds) + post, i, RoundLicenses(rounds), f, k, u);
  }

  /**
   * What makes the second pass ship something new: looking a feature up strictly after the first pass's requeue
   * instant, the hub finds only licences that end later than the one it was requeued for, or has to acquire one.
   */
  lemma {:induction false} LatePassRenews(decode: Decoder, data: map<string, Bytes>, first: HubPass,
          second: HubPass, k: nat, l: License)
    requires second.state.ttl == HUB_TTL && k < |second.turns|
    requires second.turns[k].lookupAt > PassEnd(decode, first, data).earliest - HUB_TTL
    requires ServedAt(decode, second.state, second.turns, k) == Some(l)
    ensures l.notAfter > PassEnd(decode, first, data).earliest || Acquired(decode, second.turns[k]) == Some(l)
  {
    hide PassEnd;
    var before := RegAfter(decode, second.state, second.turns[..k]);
    RegAfterKeepsTtl(decode, second.state, second.turns[..k]);
    LateTurnsRenew(before, second.turns[k], PassEnd(decode, first, data).earliest);
  }

  // ---------- Plans that are no longer shipped ----------

  /** The licence shipped last under a plan, if there is one, parses at the reading made of its entry. */
  ghost predicate ShippedParses(decode: Decoder, ls: seq<License>, plan: string, r: Reading) {
    match LastUnder(ls, plan)
    case None => true
    case Some(l) => Parse(decode, l.data, r.parsedAt).Some?
  }

  /** What was in the Secret before the pass, under a plan that it did not ship, parses too. */
  ghost predicate LeftoverParses(decode: Decoder, ls: seq<License>, data: map<string, Bytes>, plan: string,
          r: Reading) {
    LastUnder(ls, plan).None? ==> plan in data && Parse(decode, data[plan], r.parsedAt).Some?
  }

  lemma {:induction false} EntryAfterPass(decode: Decoder, ls: seq<License>, data: map<string, Bytes>,
          secret: map<string, Bytes>, plan: string, r: Reading)
    requires HoldsLastShipped(data, ls, secret) && plan in secret
    ensures Admit(decode, secret[plan], r) != Malformed <==>
            ShippedParses(decode, ls, plan, r) && LeftoverParses(decode, ls, data, plan, r)
  {
    hide Certificate;
  }

  /**
   * The sync of a Secret that a pass has left, with its entries in any order, succeeds if and only if the licences
   * shipped last parse and so does every entry, however old, under a plan that the pass did not ship.
   */
  lemma {:induction false} SyncAfterPassIff(decode: Decoder, s: State, data: map<string, Bytes>, turns: seq<Turn>,
          spoke: State, order: seq<string>, rs: seq<Reading>)
    requires s.ttl == HUB_TTL && AfterEpoch(turns) && |order| == |rs|
    requires Ranging(RunPass(decode, StartPass(s, data), turns).data, {}, order)
    ensures var secret, ls := RunPass(decode, StartPass(s, data), turns).data, Shipped(decode, s, turns);
      Sync(decode, spoke, Entries(secret, order), rs).ok <==>
      && (forall i :: 0 <= i < |order| ==> ShippedParses(decode, ls, order[i], rs[i]))
      && (forall i :: 0 <= i < |order| ==> LeftoverParses(decode, ls, data, order[i], rs[i]))
  {
    PassShips(decode, s, data, turns);
    var secret, ls := RunPass(decode, StartPass(s, data), turns).data, Shipped(decode, s, turns);
    SyncOrder.SyncFailsIff(decode, spoke, Entries(secret, order), rs);
    hide RunPass, Shipped, HoldsLastShipped, IsEarliest, Sync, ShippedParses, LeftoverParses, Admit;
    forall i | 0 <= i < |order|
      ensures Admit(decode, Entries(secret, order)[i], rs[i]) != Malformed <==>
              ShippedParses(decode, ls, order[i], rs[i]) && LeftoverParses(decode, ls, data, order[i], rs[i])
    {
      assert order[i] in secret;
      EntryAfterPass(decode, ls, data, secret, order[i], rs[i]);
    }
  }

  /**
   * So an entry under a plan that is no longer shipped fails every sync of the Secret that ranges over it once its
   * licence has ended, whatever else the Secret holds.
   */
  lemma {:induction false} DroppedPlanBlocksSync(decode: Decoder, s: State, data: map<string, Bytes>,
          turns: seq<Turn>, plan: string, ended: License, spoke: State, order: seq<string>, rs: seq<Reading>)
    requires s.ttl == HUB_TTL && AfterEpoch(turns) && |order| == |rs|
    requires plan in data && Certificate(decode, data[plan]) == Some(ended)
    requires forall l :: l in Shipped(decode, s, turns) ==> l.planName != plan
    requires Ranging(RunPass(decode, StartPass(s, data), turns).data, {}, order)
    requires forall i :: 0 <= i < |rs| ==> ended.notAfter < rs[i].parsedAt
    ensures !Sync(decode, spoke, Entries(RunPass(decode, StartPass(s, data), turns).data, order), rs).ok
  {
    PassShips(decode, s, data, turns);
    SyncAfterPassIff(decode, s, data, turns, spoke, order, rs);
    hide RunPass, Shipped;
    LastUnderMeans(Shipped(decode, s, turns), plan);
    assert plan in order;
    var i :| 0 <= i < |order| && order[i] == plan;
    assert !LeftoverParses(decode, Shipped(decode, s, turns), data, plan, rs[i]);
  }
}
