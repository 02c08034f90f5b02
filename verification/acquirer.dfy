/** `LicenseAcquirer`: the hub controller that keeps every managed cluster supplied with licences. */
module Acquirer {
  import opened Licenses
  import opened RegistryStates
  import opened Registries
  import opened Secrets
  import opened HubPasses
  import ClaimCodec

  /** What a reconciliation returns to the controller runtime. */
  datatype Result = Result(requeueAfter: int, failed: bool)

  datatype Claim = Claim(name: string, value: string)

  const CLUSTER_CLAIM_CLUSTER_ID := "id.k8s.io"
  const CLUSTER_CLAIM_LICENSE := "licenses.appscode.com"

  /** The last claim of a name counts. */
  function ClaimValue(claims: seq<Claim>, name: string): Option<string>
    decreases |claims|
  {
    if claims == [] then None
    else
      var n := |claims| - 1;
      if claims[n].name == name then Some(claims[n].value) else ClaimValue(claims[..n], name)
  }

  /** Claim `i` is the last of its name. */
  ghost predicate LastOfName(claims: seq<Claim>, name: string, i: nat) {
    i < |claims| && claims[i].name == name && forall j :: i < j < |claims| ==> claims[j].name != name
  }

  lemma {:induction false} ClaimValueIff(claims: seq<Claim>, name: string)
    ensures ClaimValue(claims, name).None? <==> forall i :: 0 <= i < |claims| ==> claims[i].name != name
    ensures forall v :: ClaimValue(claims, name) == Some(v) <==>
              exists i: nat :: LastOfName(claims, name, i) && claims[i].value == v
    decreases |claims|
  {
    if claims != [] {
      var n := |claims| - 1;
      ClaimValueIff(claims[..n], name);
      if claims[n].name == name {
        assert LastOfName(claims, name, n);
        assert forall i: nat :: LastOfName(claims, name, i) ==> i == n;
      } else {
        forall i: nat
          ensures LastOfName(claims, name, i) <==> LastOfName(claims[..n], name, i)
        {
          if LastOfName(claims[..n], name, i) {
            assert forall j :: i < j < n ==> claims[j] == claims[..n][j];
          }
        }
        forall v
          ensures ClaimValue(claims, name) == Some(v) <==>
                  exists i: nat :: LastOfName(claims, name, i) && claims[i].value == v
        {
          assert forall i: nat :: LastOfName(claims[..n], name, i) ==> claims[..n][i] == claims[i];
        }
      }
    }
  }

  /**
   * The claims by name: if claim `i` is the last called "id.k8s.io" and claim `j` the last called
   * "licenses.appscode.com", wherever they are among others, one names the cluster and the other lists its features.
   */
  lemma {:induction false} ClaimsAreRead(claims: seq<Claim>, i: nat, j: nat)
    requires LastOfName(claims, "id.k8s.io", i) && LastOfName(claims, "licenses.appscode.com", j)
    ensures ClusterId(Some(claims)) == claims[i].value
    ensures ClaimFeatures(claims) == ClaimCodec.Split(claims[j].value)
  {
    ClaimValueAt(claims, "id.k8s.io", i);
    ClaimValueAt(claims, "licenses.appscode.com", j);
  }

  lemma {:induction false} ClaimValueAt(claims: seq<Claim>, name: string, i: nat)
    requires LastOfName(claims, name, i)
    ensures ClaimValue(claims, name) == Some(claims[i].value)
  {
    ClaimValueIff(claims, name);
  }

  /** Without a claim called "id.k8s.io" there is no cluster to serve, and without the other no feature. */
  lemma {:induction false} MissingClaims(claims: seq<Claim>)
    ensures (forall i :: 0 <= i < |claims| ==> claims[i].name != "id.k8s.io") ==> ClusterId(Some(claims)) == ""
    ensures ClaimFeatures(claims) == [] <==> forall i :: 0 <= i < |claims| ==> claims[i].name != "licenses.appscode.com"
    ensures ClusterId(None) == ""
  {
    ClaimValueIff(claims, "id.k8s.io");
    ClaimValueIff(claims, "licenses.appscode.com");
  }

  ghost predicate TurnsOrdered(start: Time, turns: seq<Turn>, end: Time) {
    && start <= end
    && (forall i :: 0 <= i < |turns| ==> start <= turns[i].lookupAt <= turns[i].parseAt <= end)
    && (forall i, j :: 0 <= i < j < |turns| ==> turns[i].parseAt <= turns[j].lookupAt)
  }

  lemma {:induction false} TurnsOrderedExtends(start: Time, turns: seq<Turn>, mid: Time, tn: Turn, end: Time)
    requires TurnsOrdered(start, turns, mid) && mid <= tn.lookupAt <= tn.parseAt <= end
    ensures TurnsOrdered(start, turns + [tn], end)
  {
  }

  lemma {:induction false} RunPassExtends(decode: Decoder, p: Pass, turns: seq<Turn>, tn: Turn)
    ensures RunPass(decode, p, turns + [tn]) == TakeTurn(decode, RunPass(decode, p, turns), tn)
  {
    assert (turns + [tn])[..|turns|] == turns;
  }

  /** The turns ask for the features of the list in order, and get the answers of the remote service. */
  ghost predicate TurnsFor(turns: seq<Turn>, features: seq<string>, remote: nat -> Attempt) {
    |turns| == |features| &&
    forall i: nat :: i < |turns| ==> turns[i].feature == features[i] && turns[i].attempt == remote(i)
  }

  class LicenseAcquirer {
    /** Certificates are verified for one cluster. */
    const decode: string -> Decoder
    var LicenseCache: map<string, LicenseRegistry>

    /** Every cluster has a registry and a cache directory of its own. */
    ghost predicate Valid()
      reads this
    {
      && (forall cid :: cid in LicenseCache ==>
            var reg := LicenseCache[cid];
            reg.cacheDir != null && reg.rb == null && reg.ttl == HUB_TTL)
      && (forall c, d :: c in LicenseCache && d in LicenseCache && c != d ==>
            LicenseCache[c] != LicenseCache[d] && LicenseCache[c].cacheDir != LicenseCache[d].cacheDir)
    }

    constructor (decode: string -> Decoder)
      ensures Valid() && this.decode == decode && LicenseCache == map[]
    {
      this.decode := decode;
      LicenseCache := map[];
    }

    /** The objects that only cluster `cid` uses. */
    ghost function Footprint(cid: string): set<object?>
      reads this
    {
      if cid in LicenseCache then {LicenseCache[cid], LicenseCache[cid].cacheDir} else {}
    }

    /** The state from which a pass for `cid` starts; `mkdir` is what its new cache directory already holds. */
    ghost function StateOf(cid: string, mkdir: Option<map<string, Bytes>>): State
      requires Valid()
      reads this, Footprint(cid)
    {
      if cid in LicenseCache then LicenseCache[cid].Abs() else Empty(HUB_TTL, map[], mkdir)
    }

    /** `mkdir` is `None` if the cache directory of a new cluster cannot be made. */
    method GetLicenseRegistry(cid: string, mkdir: Option<map<string, Bytes>>) returns (reg: LicenseRegistry?)
      requires Valid()
      modifies this`LicenseCache
      ensures Valid()
      ensures reg == null <==> cid !in old(LicenseCache) && mkdir.None?
      ensures reg == null ==> LicenseCache == old(LicenseCache)
      ensures reg != null ==> LicenseCache == old(LicenseCache)[cid := reg]
      ensures cid in old(LicenseCache) ==> reg == old(LicenseCache[cid])
      ensures cid !in old(LicenseCache) && reg != null ==>
        fresh(reg) && fresh(reg.cacheDir) && reg.Abs() == Empty(HUB_TTL, map[], mkdir)
    {
      if cid in LicenseCache {
        reg := LicenseCache[cid];
        assert LicenseCache == LicenseCache[cid := reg];
        return;
      }
      if mkdir.None? {
        return null;
      }
      var dir := new Directory(mkdir.value, map[]);
      reg := new LicenseRegistry(dir, HUB_TTL, null);
      LicenseCache := LicenseCache[cid := reg];
    }

    /** `getNewLicense`: the remote service's certificate, parsed. */
    method GetNewLicense(cid: string, attempt: Attempt, clock: Clock) returns (l: Option<License>,
            c: Option<Contract>, parseAt: Time)
      modifies clock
      ensures old(clock.now) <= clock.now == parseAt
      ensures l == match attempt.outcome case Refused => None case Issued(data, _) => Parse(decode(cid), data, parseAt)
      ensures l.Some? ==> c == attempt.outcome.contract
    {
      c := None;
      match attempt.outcome {
        case Refused =>
          l, parseAt := None, clock.now;
        case Issued(data, contract) =>
          parseAt := clock.Read();
          l := Parse(decode(cid), data, parseAt);
          c := contract;
      }
    }

    /** The body of the loop up to the point where a licence is at hand, or not. */
    method ServeFeature(cid: string, reg: LicenseRegistry, feature: string, attempt: Attempt, clock: Clock)
      returns (l: Option<License>, ghost tn: Turn)
      requires reg.cacheDir != null && reg.rb == null
      modifies reg, reg.cacheDir, clock
      ensures tn.feature == feature && tn.attempt == attempt
      ensures old(clock.now) <= tn.lookupAt <= tn.parseAt <= clock.now
      ensures Answer(reg.Abs(), l) == Serve(decode(cid), old(reg.Abs()), tn)
    {
      l := reg.LicenseForFeature(clock, feature);
      ghost var lookupAt := clock.now;
      tn := Turn(feature, lookupAt, attempt, lookupAt);
      if l.None? {
        var c, parseAt;
        l, c, parseAt := GetNewLicense(cid, attempt, clock);
        tn := Turn(feature, lookupAt, attempt, parseAt);
        if l.Some? {
          reg.Add(l.value, c);
        }
      }
    }

    /** The loop of `reconcile`, from Secret data `data`. */
    method ServeFeatures(cid: string, reg: LicenseRegistry, features: seq<string>, data: map<string, Bytes>,
            remote: nat -> Attempt, clock: Clock)
      returns (shipped: map<string, Bytes>, earliestExpired: Time, errList: seq<string>, ghost turns: seq<Turn>)
      requires reg.cacheDir != null && reg.rb == null
      modifies reg, reg.cacheDir, clock
      ensures TurnsOrdered(old(clock.now), turns, clock.now) && TurnsFor(turns, features, remote)
      ensures Pass(reg.Abs(), shipped, earliestExpired, errList) ==
              RunPass(decode(cid), StartPass(old(reg.Abs()), data), turns)
    {
      ghost var start := StartPass(reg.Abs(), data);
      shipped, earliestExpired, errList, turns := data, 0, [], [];
      for i := 0 to |features|
        invariant |turns| == i && TurnsOrdered(old(clock.now), turns, clock.now)
        invariant TurnsFor(turns, features[..i], remote)
        invariant Pass(reg.Abs(), shipped, earliestExpired, errList) == RunPass(decode(cid), start, turns)
      {
        ghost var mid := clock.now;
        var attempt := remote(i);
        ghost var tn;
        var l;
        l, tn := ServeFeature(cid, reg, features[i], attempt, clock);
        TurnsOrderedExtends(old(clock.now), turns, mid, tn, clock.now);
        RunPassExtends(decode(cid), start, turns, tn);
        turns := turns + [tn];
        if l.None? && !attempt.invalid {
          errList := errList + [features[i]];
        }
        if l.Some? && l.value.status == Active {
          shipped := shipped[l.value.planName := l.value.data];
          if earliestExpired == 0 || earliestExpired > l.value.notAfter {
            earliestExpired := l.value.notAfter;
          }
        }
      }
      assert features[..|features|] == features;
    }

    /** The rest of `reconcile`, once the registry is at hand: serve, write the Secret, and say when to come back. */
    method ServeAndShip(cid: string, reg: LicenseRegistry, features: seq<string>, secret: Secret,
            remote: nat -> Attempt, put: bool, clock: Clock)
      returns (res: Result, ghost turns: seq<Turn>)
      requires reg.cacheDir != null && reg.rb == null
      modifies reg, reg.cacheDir, secret, clock
      ensures TurnsOrdered(old(clock.now), turns, clock.now) && TurnsFor(turns, features, remote)
      ensures var p := RunPass(decode(cid), StartPass(old(reg.Abs()), old(secret.data).GetOr(map[])), turns);
        && reg.Abs() == p.reg
        && secret.data == (if put then Some(p.data) else old(secret.data))
        && res == Result(RequeueAfter(p.earliest, clock.now), p.errors != [] || !put)
    {
      hide RunPass, TurnsOrdered, TurnsFor;
      var data, earliestExpired, errList;
      data, earliestExpired, errList, turns :=
        ServeFeatures(cid, reg, features, secret.data.GetOr(map[]), remote, clock);
      if put {
        secret.data := Some(data);
      }
      var failed := errList != [] || !put;
      if earliestExpired == 0 {
        return Result(0, failed), turns;
      }
      ghost var mid := clock.now;
      var now := clock.Read();
      TurnsLater(old(clock.now), turns, mid, now);
      return Result(Until(earliestExpired - HUB_TTL, now), failed), turns;
    }

    /**
     * `reconcile`: one pass for one cluster. `readable` and `put` are whether the API server answers the read and
     * the write of the Secret, and `remote(i)` what an acquisition in turn `i` would give.
     */
    method ReconcileCluster(cid: string, features: seq<string>, secret: Secret, readable: bool,
            mkdir: Option<map<string, Bytes>>, remote: nat -> Attempt, put: bool, clock: Clock)
      returns (res: Result, ghost turns: seq<Turn>)
      requires Valid()
      modifies this`LicenseCache, secret, clock, Footprint(cid)
      ensures Valid()
      ensures LicenseCache.Keys == old(LicenseCache).Keys + (if readable && mkdir.Some? then {cid} else {})
      ensures forall c :: c in old(LicenseCache) ==> LicenseCache[c] == old(LicenseCache[c])
      ensures forall c :: c in old(LicenseCache) && c != cid ==> LicenseCache[c].Abs() == old(LicenseCache[c].Abs())
      ensures TurnsOrdered(old(clock.now), turns, clock.now)
      ensures readable && (cid in old(LicenseCache) || mkdir.Some?) ==>
        && TurnsFor(turns, features, remote)
        && var p := RunPass(decode(cid), StartPass(old(StateOf(cid, mkdir)), old(secret.data).GetOr(map[])), turns);
           && LicenseCache[cid].Abs() == p.reg
           && secret.data == (if put then Some(p.data) else old(secret.data))
           && res == Result(RequeueAfter(p.earliest, clock.now), p.errors != [] || !put)
      ensures !(readable && (cid in old(LicenseCache) || mkdir.Some?)) ==>
        && turns == [] && secret.data == old(secret.data) && res == Result(0, true)
        && (cid in LicenseCache ==> LicenseCache[cid].Abs() == old(LicenseCache[cid].Abs()))
    {
      hide RunPass, TurnsOrdered, TurnsFor, LicenseRegistry.Abs;
      NoTurns(clock.now);
      if !readable {
        return Result(0, true), [];
      }
      var reg := GetLicenseRegistry(cid, mkdir);
      if reg == null {
        return Result(0, true), [];
      }
      assert cid in LicenseCache && LicenseCache[cid] == reg;
      res, turns := ServeAndShip(cid, reg, features, secret, remote, put, clock);
    }

    /**
     * `Reconcile`: a cluster is served once it has told its identity and its licence claim; the claim is never empty.
     * `managed` holds the claims of the managed cluster, if it could be read.
     */
    method Reconcile(managed: Option<seq<Claim>>, secret: Secret, readable: bool,
            mkdir: Option<map<string, Bytes>>, remote: nat -> Attempt, put: bool, clock: Clock)
      returns (res: Result, ghost turns: seq<Turn>)
      requires Valid()
      modifies this`LicenseCache, secret, clock, Footprint(ClusterId(managed))
      ensures Valid()
      ensures forall c :: c in old(LicenseCache) ==> c in LicenseCache && LicenseCache[c] == old(LicenseCache[c])
      ensures forall c :: c in LicenseCache && c !in old(LicenseCache) ==> c == ClusterId(managed)
      ensures forall c :: c in old(LicenseCache) && c != ClusterId(managed) ==>
        LicenseCache[c].Abs() == old(LicenseCache[c].Abs())
      ensures var cid, claim := ClusterId(managed), ClaimValue(managed.GetOr([]), CLUSTER_CLAIM_LICENSE);
        if managed.None? || cid == "" || claim.None? then
          && res == Result(0, managed.None?) && turns == [] && secret.data == old(secret.data)
          && LicenseCache == old(LicenseCache)
          && (cid in LicenseCache ==> LicenseCache[cid].Abs() == old(LicenseCache[cid].Abs()))
        else if readable && (cid in old(LicenseCache) || mkdir.Some?) then
          && TurnsFor(turns, ClaimCodec.Split(claim.value), remote) && cid in LicenseCache
          && var p := RunPass(decode(cid), StartPass(old(StateOf(cid, mkdir)), old(secret.data).GetOr(map[])), turns);
             && LicenseCache[cid].Abs() == p.reg
             && secret.data == (if put then Some(p.data) else old(secret.data))
             && res == Result(RequeueAfter(p.earliest, clock.now), p.errors != [] || !put)
        else
          && turns == [] && secret.data == old(secret.data) && res == Result(0, true)
          && (cid in old(LicenseCache) ==> LicenseCache[cid].Abs() == old(LicenseCache[cid].Abs()))
    {
      hide RunPass, TurnsFor, LicenseRegistry.Abs;
      if managed.None? {
        return Result(0, true), [];
      }
      var claims := managed.value;
      var cid, features := "", [];
      for i := 0 to |claims|
        invariant cid == ClaimValue(claims[..i], CLUSTER_CLAIM_CLUSTER_ID).GetOr("")
        invariant features == ClaimFeatures(claims[..i])
      {
        assert claims[..i + 1][..i] == claims[..i];
        if claims[i].name == CLUSTER_CLAIM_CLUSTER_ID {
          cid := claims[i].value;
        } else if claims[i].name == CLUSTER_CLAIM_LICENSE {
          features := ClaimCodec.Split(claims[i].value);
        }
      }
      assert claims[..|claims|] == claims;
      if cid != "" && |features| > 0 {
        res, turns := ReconcileCluster(cid, features, secret, readable, mkdir, remote, put, clock);
      } else {
        res, turns := Result(0, false), [];
      }
    }
  }

  function ClusterId(managed: Option<seq<Claim>>): string {
    ClaimValue(managed.GetOr([]), CLUSTER_CLAIM_CLUSTER_ID).GetOr("")
  }

  function ClaimFeatures(claims: seq<Claim>): seq<string> {
    match ClaimValue(claims, CLUSTER_CLAIM_LICENSE)
    case None => []
    case Some(value) => ClaimCodec.Split(value)
  }

  lemma {:induction false} NoTurns(now: Time)
    ensures TurnsOrdered(now, [], now)
  {
  }

  lemma {:induction false} TurnsLater(start: Time, turns: seq<Turn>, mid: Time, end: Time)
    requires TurnsOrdered(start, turns, mid) && mid <= end
    ensures TurnsOrdered(start, turns, end)
  {
  }
}
