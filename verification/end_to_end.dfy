/** A licence request from the first blank answer to the licence: claim, hub pass, Secret, sync and retry. */
module EndToEnd {
  import opened Licenses
  import opened RegistryStates
  import opened Traces
  import opened Recovery
  import opened HubPasses
  import opened Fixpoint
  import opened RequestStates
  import opened Renewal
  import opened Deliveries
  import Acquirer
  import Claims
  import ClaimCodec

  // ---------- From the request to the hub's turn ----------

  /** The claim's value after an interleaving of requests. */
  ghost function ClaimAfter(actions: seq<Claims.Action>): string {
    var history := Claims.Interleave(Claims.NO_CLAIM, actions).history;
    if history == [] then "" else history[|history| - 1]
  }

  /** Request `i` has been answered without error after the first `n` actions. */
  ghost predicate AnsweredBy(actions: seq<Claims.Action>, n: nat, i: nat, features: seq<string>) {
    n <= |actions| &&
    var c := Claims.Interleave(Claims.NO_CLAIM, actions[..n]);
    i < |c.requests| && c.requests[i] == Claims.Request(features, Claims.Answered)
  }

  /** Of an answered request, exactly the features with comma-free names have a turn in every later hub pass. */
  lemma {:induction false} AnsweredHasTurn(actions: seq<Claims.Action>, n: nat, i: nat, features: seq<string>,
          turns: seq<Turn>, remote: nat -> Attempt, f: string)
    requires AnsweredBy(actions, n, i, features) && f in features
    requires Acquirer.TurnsFor(turns, ClaimCodec.Split(ClaimAfter(actions)), remote)
    ensures (exists k :: 0 <= k < |turns| && turns[k].feature == f) <==> ClaimCodec.CommaFree(f)
  {
    Claims.AnsweredStaysClaimed(actions, n, i);
    var pieces := ClaimCodec.Split(ClaimAfter(actions));
    if ClaimCodec.CommaFree(f) {
      var k :| 0 <= k < |pieces| && pieces[k] == f;
      assert turns[k].feature == f;
    } else {
      ClaimCodec.PiecesAreCommaFree(ClaimAfter(actions));
    }
  }

  // ---------- From the hub's turn to the Secret ----------

  /** If turn `k` has to acquire a licence, then it gets one that lists the feature it asked for. */
  ghost predicate HonestTurn(decode: Decoder, p: HubPass, k: nat)
    requires k < |p.turns|
  {
    var tn := p.turns[k];
    Lookup(RegAfter(decode, p.state, p.turns[..k]), tn.feature, tn.lookupAt).license.None? ==>
      Acquired(decode, tn).Some? && tn.feature in Acquired(decode, tn).value.features
  }

  /** Turn `k` asks for `f` and serves an active licence that lists it. */
  ghost predicate TurnServes(decode: Decoder, p: HubPass, k: nat, f: string) {
    k < |p.turns| && p.turns[k].feature == f &&
    var l := ServedAt(decode, p.state, p.turns, k);
    l.Some? && f in l.value.features && l.value.status == Active
  }

  lemma {:induction false} HonestLookupServes(decode: Decoder, s: State, tn: Turn, t: Time)
    requires UniqueSerials(decode) && Inv(s, t, SerialExpiry(decode)) && AllGenuine(decode, s) && t <= tn.lookupAt
    requires Lookup(s, tn.feature, tn.lookupAt).license.None? ==>
      Acquired(decode, tn).Some? && tn.feature in Acquired(decode, tn).value.features
    ensures var l := Serve(decode, s, tn).license;
      l.Some? && tn.feature in l.value.features && l.value.status == Active
  {
    InvLater(s, t, tn.lookupAt, SerialExpiry(decode));
    LookupAnswersLikeScan(s, tn.feature, tn.lookupAt, SerialExpiry(decode));
    ServedIsGenuine(decode, s, tn, t, Serve(decode, s, tn).license.value);
  }

  lemma {:induction false} HonestTurnServes(decode: Decoder, p: HubPass, k: nat)
    requires UniqueSerials(decode) && HubReady(decode, p) && k < |p.turns| && HonestTurn(decode, p, k)
    ensures TurnServes(decode, p, k, p.turns[k].feature)
  {
    PassKeepsInv(decode, p.state, p.start, p.turns[..k]);
    hide Inv, AllGenuine, UniqueSerials, SerialExpiry, Serve, RegAfter;
    var t := if k == 0 then p.start else p.turns[k - 1].lookupAt;
    HonestLookupServes(decode, RegAfter(decode, p.state, p.turns[..k]), p.turns[k], t);
  }

  /** What a turn serves reaches the spoke at least if no later turn ships under the same plan. */
  lemma {:induction false} LastTurnDelivers(decode: Decoder, p: HubPass, k: nat, f: string)
    requires HubReady(decode, p) && TurnServes(decode, p, k, f)
    requires LastTurnUnder(decode, p.state, p.turns, ServedAt(decode, p.state, p.turns, k).value.planName, k)
    ensures PassDelivers(decode, p, f, ServedAt(decode, p.state, p.turns, k).value)
  {
    var plan := ServedAt(decode, p.state, p.turns, k).value.planName;
    LastUnderIsServed(decode, p.state, p.turns, plan);
    assert ShipsUnder(decode, p.state, p.turns, plan, k);
    hide HubReady, ServedAt, ShipsUnder, Shipped, LastUnder;
    if LastShipped(decode, p, plan).Some? {
      var j: nat :| LastTurnUnder(decode, p.state, p.turns, plan, j) &&
                    ServedAt(decode, p.state, p.turns, j) == LastShipped(decode, p, plan);
      assert j == k;
    }
  }

  // ---------- From the Secret to the answer ----------

  /** A run of the spoke's registry with a sync in it. */
  datatype SpokeRun = SpokeRun(start: Time, before: seq<Step>, sync: SyncPass, after: seq<Step>)

  function Steps(decode: Decoder, r: SpokeRun): seq<Step> {
    r.before + StepsOf(decode, r.sync) + r.after
  }

  /** The Secret is synced no later than `end`; every other licence that the spoke adds was parsed as well. */
  ghost predicate SyncedBy(decode: Decoder, secret: map<string, Bytes>, r: SpokeRun, end: Time) {
    && SyncOf(decode, secret, r.sync.entries, r.sync.rs, end)
    && Monotone(r.start, Steps(decode, r)) && AddsParsed(decode, Steps(decode, r))
  }

  /** A request made after the run asks for `f`, among other features, no later than `end`. */
  ghost predicate RetriedBy(decode: Decoder, r: SpokeRun, features: seq<string>, times: seq<Time>, f: string,
          end: Time) {
    && |times| == |features| && Ascending(TimeAfter(r.start, Steps(decode, r)), times)
    && exists j :: 0 <= j < |features| && features[j] == f && times[j] <= end
  }

  lemma {:induction false} SyncAddsTo(decode: Decoder, secret: map<string, Bytes>, r: SpokeRun, l: License)
    returns (i: nat)
    requires SyncOf(decode, secret, r.sync.entries, r.sync.rs, l.notAfter - MIN_REMAINING_LIFE) && Genuine(decode, l)
    requires l.planName in secret && secret[l.planName] == l.data
    ensures i < |Steps(decode, r)| && Steps(decode, r)[i].AddStep? && Steps(decode, r)[i].license == l
  {
    i := SyncedIsAdded(decode, secret, r.sync.entries, r.sync.rs, l.notAfter - MIN_REMAINING_LIFE, l);
    i := |r.before| + i;
  }

  /** What the hub has served and the spoke has synced is in the spoke's store for as long as it is live. */
  lemma {:induction false} SyncedIsStored(decode: Decoder, p: HubPass, data: map<string, Bytes>, f: string,
          l: License, files: Option<map<string, Bytes>>, r: SpokeRun)
    requires UniqueSerials(decode) && PassDelivers(decode, p, f, l)
    requires SyncedBy(decode, PassEnd(decode, p, data).data, r, l.notAfter - MIN_REMAINING_LIFE)
    requires TimeAfter(r.start, Steps(decode, r)) <= l.notAfter - MIN_REMAINING_LIFE
    ensures var s := Run(Empty(MIN_REMAINING_LIFE, map[], files), Steps(decode, r));
      && s.ttl == MIN_REMAINING_LIFE && Inv(s, TimeAfter(r.start, Steps(decode, r)), SerialExpiry(decode))
      && StoredAs(s, l) && f in l.features
  {
    hide PassDelivers, UniqueSerials, PassEnd, SerialExpiry, Inv, Genuine, Run, StoredAs, Monotone, AddsParsed, Steps;
    hide SyncOf;
    PassDeliversShips(decode, p, data, f, l);
    var i := SyncAddsTo(decode, PassEnd(decode, p, data).data, r, l);
    AddedIsStored(decode, files, r.start, Steps(decode, r), i, l, TimeAfter(r.start, Steps(decode, r)));
  }

  /** A stored licence that is live when its feature has its turn lets the request be granted, with it or another. */
  lemma {:induction false} StoredIsGranted(s: State, start: Time, features: seq<string>, times: seq<Time>,
          expiry: string -> Time, j: nat, l: License)
    requires Inv(s, start, expiry) && |times| == |features| && Ascending(start, times)
    requires StoredAs(s, l) && j < |features| && features[j] in l.features && times[j] <= l.notAfter - s.ttl
    ensures GetStored(s, features, times).license.Some?
  {
    GetStoredIsExact(s, start, features, times, expiry);
    assert s.store[l.id].license.id == l.id && Servable(s, features[j], times[j], s.store[l.id].license);
    hide Inv, GetStored, Servable;
  }

  lemma {:induction false} SyncedIsServed(decode: Decoder, p: HubPass, data: map<string, Bytes>, f: string,
          l: License, files: Option<map<string, Bytes>>, r: SpokeRun, features: seq<string>, times: seq<Time>)
    requires UniqueSerials(decode) && PassDelivers(decode, p, f, l)
    requires SyncedBy(decode, PassEnd(decode, p, data).data, r, l.notAfter - MIN_REMAINING_LIFE)
    requires RetriedBy(decode, r, features, times, f, l.notAfter - MIN_REMAINING_LIFE)
    ensures GetStored(Run(Empty(MIN_REMAINING_LIFE, map[], files), Steps(decode, r)), features, times).license.Some?
  {
    hide PassDelivers, UniqueSerials, SyncedBy, PassEnd, SerialExpiry, Inv, Run, GetStored, Steps, StoredAs;
    var j: nat :| j < |features| && features[j] == f && times[j] <= l.notAfter - MIN_REMAINING_LIFE;
    SyncedIsStored(decode, p, data, f, l, files, r);
    StoredIsGranted(Run(Empty(MIN_REMAINING_LIFE, map[], files), Steps(decode, r)),
      TimeAfter(r.start, Steps(decode, r)), features, times, SerialExpiry(decode), j, l);
  }

  /** Every turn for one of the features is honest. */
  ghost predicate HonestFor(decode: Decoder, p: HubPass, features: seq<string>) {
    forall k: nat :: k < |p.turns| && p.turns[k].feature in features ==> HonestTurn(decode, p, k)
  }

  lemma {:induction false} AnsweredTurnServes(actions: seq<Claims.Action>, n: nat, i: nat, features: seq<string>,
          decode: Decoder, p: HubPass, remote: nat -> Attempt, f: string) returns (k: nat)
    requires AnsweredBy(actions, n, i, features) && f in features && ClaimCodec.CommaFree(f)
    requires UniqueSerials(decode) && HubReady(decode, p) && HonestFor(decode, p, features)
    requires Acquirer.TurnsFor(p.turns, ClaimCodec.Split(ClaimAfter(actions)), remote)
    ensures TurnServes(decode, p, k, f)
  {
    AnsweredHasTurn(actions, n, i, features, p.turns, remote, f);
    k :| k < |p.turns| && p.turns[k].feature == f;
    hide HubReady, HonestTurn, UniqueSerials, TurnServes;
    HonestTurnServes(decode, p, k);
  }

  /** The pass delivers `l` for `f`, and the spoke has synced the Secret and is asked again while `l` is live. */
  ghost predicate RetriedInTime(decode: Decoder, p: HubPass, data: map<string, Bytes>, f: string, l: License,
          r: SpokeRun, features: seq<string>, times: seq<Time>) {
    && PassDelivers(decode, p, f, l)
    && SyncedBy(decode, PassEnd(decode, p, data).data, r, l.notAfter - MIN_REMAINING_LIFE)
    && RetriedBy(decode, r, features, times, f, l.notAfter - MIN_REMAINING_LIFE)
  }

  function SpokeAfter(decode: Decoder, files: Option<map<string, Bytes>>, r: SpokeRun): State {
    Run(Empty(MIN_REMAINING_LIFE, map[], files), Steps(decode, r))
  }

  lemma {:induction false} RetriedIsGranted(decode: Decoder, p: HubPass, data: map<string, Bytes>, f: string,
          l: License, files: Option<map<string, Bytes>>, r: SpokeRun, features: seq<string>, times: seq<Time>)
    requires UniqueSerials(decode) && RetriedInTime(decode, p, data, f, l, r, features, times)
    ensures |times| == |features| && GetStored(SpokeAfter(decode, files, r), features, times).license.Some?
  {
    hide PassDelivers, UniqueSerials, SyncedBy, Run, GetStored, PassEnd;
    SyncedIsServed(decode, p, data, f, l, files, r, features, times);
  }

  /**
   * A request is answered blank. In any later pass over the claim, with honest acquisitions, each of its comma-free
   * features has a turn that serves an active licence for it. If the pass delivers one for `f`, then once the spoke
   * has synced the Secret, whatever else it does, asking again while that licence is live is granted.
   */
  lemma {:induction false} AnsweredIsServed(actions: seq<Claims.Action>, n: nat, i: nat, features: seq<string>,
          decode: Decoder, p: HubPass, remote: nat -> Attempt, data: map<string, Bytes>, f: string,
          files: Option<map<string, Bytes>>)
    returns (k: nat)
    requires AnsweredBy(actions, n, i, features) && f in features && ClaimCodec.CommaFree(f)
    requires UniqueSerials(decode) && HubReady(decode, p) && HonestFor(decode, p, features)
    requires Acquirer.TurnsFor(p.turns, ClaimCodec.Split(ClaimAfter(actions)), remote)
    ensures TurnServes(decode, p, k, f)
    ensures forall l, r, times :: RetriedInTime(decode, p, data, f, l, r, features, times) ==>
      |times| == |features| && GetStored(SpokeAfter(decode, files, r), features, times).license.Some?
  {
    k := AnsweredTurnServes(actions, n, i, features, decode, p, remote, f);
    hide HubReady, HonestFor, TurnServes, RetriedInTime, UniqueSerials, SpokeAfter, GetStored, AnsweredBy;
    forall l, r, times | RetriedInTime(decode, p, data, f, l, r, features, times)
      ensures |times| == |features| && GetStored(SpokeAfter(decode, files, r), features, times).license.Some?
    {
      RetriedIsGranted(decode, p, data, f, l, files, r, features, times);
    }
  }

  /** A request is granted from the registry exactly if one of its features can be served when it has its turn. */
  lemma {:induction false} GrantedIff(s: State, start: Time, features: seq<string>, times: seq<Time>,
          expiry: string -> Time)
    requires Inv(s, start, expiry) && |times| == |features| && Ascending(start, times)
    ensures GetStored(s, features, times).license.Some? <==>
            exists j :: 0 <= j < |features| && CanServe(s, features[j], times[j])
  {
    GetStoredIsExact(s, start, features, times, expiry);
    hide Inv, GetStored, Servable;
    var r := GetStored(s, features, times).license;
    if r.Some? {
      var k: nat :| FirstServable(s, features, times, k, r.value);
      assert CanServe(s, features[k], times[k]);
    }
  }

  /**
   * The same request, exactly: after one honest pass over the claim and one sync, it is granted if and only if, for
   * one of its features, the spoke could serve it before, or some licence that the pass shipped last under its plan
   * is for it, or an entry that the pass has left in the Secret.
   */
  lemma {:induction false} AnsweredIsGrantedIff(actions: seq<Claims.Action>, n: nat, i: nat, features: seq<string>,
          decode: Decoder, p: HubPass, remote: nat -> Attempt, data: map<string, Bytes>, s: State, start: Time,
          order: seq<string>, rs: seq<Reading>, end: Time, times: seq<Time>)
    requires AnsweredBy(actions, n, i, features)
    requires UniqueSerials(decode) && HubReady(decode, p) && HonestFor(decode, p, features)
    requires Acquirer.TurnsFor(p.turns, ClaimCodec.Split(ClaimAfter(actions)), remote)
    requires SpokeReady(decode, s, start) && SyncsPass(decode, p, data, s, order, rs, end) && start <= end
    requires |times| == |features| && Ascending(end, times)
    ensures forall f :: f in features && ClaimCodec.CommaFree(f) ==> exists k: nat :: TurnServes(decode, p, k, f)
    ensures GetStored(AfterSync(decode, p, data, s, order, rs), features, times).license.Some? <==>
            exists j :: 0 <= j < |features| &&
              (CanServe(s, features[j], times[j]) || Reaches(decode, p, data, features[j], times[j]))
  {
    hide HubReady, UniqueSerials, SpokeReady, SyncsPass, AfterSync, CanServe, Reaches, Inv, GetStored, TurnServes;
    forall f | f in features && ClaimCodec.CommaFree(f)
      ensures exists k: nat :: TurnServes(decode, p, k, f)
    {
      var k := AnsweredTurnServes(actions, n, i, features, decode, p, remote, f);
    }
    var s' := AfterSync(decode, p, data, s, order, rs);
    PassReachesIff(decode, p, data, s, start, order, rs, "", end);
    GrantedIff(s', end, features, times, SerialExpiry(decode));
    forall j | 0 <= j < |features|
      ensures CanServe(s', features[j], times[j]) <==>
              CanServe(s, features[j], times[j]) || Reaches(decode, p, data, features[j], times[j])
    {
      SyncsPassLater(decode, p, data, s, order, rs, end, times[j]);
      PassReachesIff(decode, p, data, s, start, order, rs, features[j], times[j]);
    }
  }

  lemma {:induction false} SyncsPassLater(decode: Decoder, p: HubPass, data: map<string, Bytes>, s: State,
          order: seq<string>, rs: seq<Reading>, end: Time, later: Time)
    requires SyncsPass(decode, p, data, s, order, rs, end) && end <= later
    ensures SyncsPass(decode, p, data, s, order, rs, later)
  {
    hide PassEnd;
  }
}
