/** The licence request API of the proxy server: `getLicense` and `Create`. */
module Requests {
  import opened Licenses
  import opened RegistryStates
  import opened Registries
  import opened HubPasses
  import opened RequestStates
  import ClaimCodec
  import Claims

  /** The spoke's licence claim behind the API server: its values so far, the last one current. */
  class ClaimStore {
    var history: seq<string>

    constructor ()
      ensures history == []
    {
      history := [];
    }

    /** An update goes through only against the current version, if the API server takes it. */
    method Update(version: nat, value: string, taken: bool) returns (ok: bool)
      modifies this
      ensures ok <==> taken && version == |old(history)| - 1
      ensures history == if ok then old(history) + [value] else old(history)
    {
      ok := taken && version == |history| - 1;
      if ok {
        history := history + [value];
      }
    }

    method Create(value: string, taken: bool) returns (ok: bool)
      modifies this
      ensures ok <==> taken && old(history) == []
      ensures history == if ok then old(history) + [value] else old(history)
    {
      ok := taken && history == [];
      if ok {
        history := history + [value];
      }
    }
  }

  class LicenseRequest {
    var features: seq<string>
    var response: Option<Bytes>

    constructor (features: seq<string>)
      ensures this.features == features && response == None
    {
      this.features := features;
      response := None;
    }
  }

  /** How a request ends; `Blank` is an empty response, which clients retry. */
  datatype Reply = BadRequest | Error | Blank | Granted(data: Bytes)

  /** Creating the claim sorts the requested features in place. */
  function FeaturesAfter(features: seq<string>, seen: Option<Claims.Snapshot>): seq<string> {
    if seen == Some(Claims.Missing) then ClaimCodec.SortNames(features) else features
  }

  /** How a request leaves registry and book, claim and its own feature list, and what it answers. */
  datatype Created = Created(state: State, reply: Reply, history: seq<string>, features: seq<string>)

  /** `Create` for a request with a user, as a function. */
  ghost function CreateEnd(decode: Decoder, s: State, user: User, features: seq<string>, times: seq<Time>,
          remote: Option<Outcome>, parseAt: Time, isSpoke: bool, history: seq<string>, api: Claims.Api): Created
    requires |times| == |features|
  {
    var g := RequestStates.GetLicense(decode, s, features, times, remote, parseAt);
    var s' := CreateState(decode, s, features, times, remote, parseAt, user);
    if g.failed then Created(s', Error, history, features)
    else
      match g.license
      case Some(l) => Created(s', Granted(l.data), history, features)
      case None =>
        if !isSpoke then Created(s', Blank, history, features)
        else
          var end := Claims.ClaimPath(history, features, api);
          Created(s', if end.answered then Blank else Error, end.history, FeaturesAfter(features, api.read))
  }

  /** The request was granted with `l`, which is stored, and its use is recorded for the user and features. */
  ghost predicate GrantedWith(end: Created, l: License, features: seq<string>, user: User) {
    && end.reply == Granted(l.data)
    && l.id in end.state.store && l.id in end.state.book && end.state.book[l.id] == Usage(features, user)
  }

  /** A request for which a licence is at hand. */
  lemma {:induction false} CreateGrants(decode: Decoder, s: State, start: Time, user: User, features: seq<string>,
          times: seq<Time>, remote: Option<Outcome>, parseAt: Time, isSpoke: bool, history: seq<string>,
          api: Claims.Api, expiry: string -> Time)
    requires Inv(s, start, expiry) && |times| == |features| && Ascending(start, times)
    requires var g := RequestStates.GetLicense(decode, s, features, times, remote, parseAt);
      !g.failed && g.license.Some?
    ensures var end := CreateEnd(decode, s, user, features, times, remote, parseAt, isSpoke, history, api);
      var g := RequestStates.GetLicense(decode, s, features, times, remote, parseAt);
      end.history == history && end.features == features && GrantedWith(end, g.license.value, features, user)
  {
    hide Inv, RequestStates.GetLicense;
    RequestRecordsStored(decode, s, start, features, times, remote, parseAt, expiry);
  }

  /** A request for which none is. */
  lemma {:induction false} CreateDoesNot(decode: Decoder, s: State, user: User, features: seq<string>,
          times: seq<Time>, remote: Option<Outcome>, parseAt: Time, isSpoke: bool, history: seq<string>,
          api: Claims.Api)
    requires |times| == |features|
    requires var g := RequestStates.GetLicense(decode, s, features, times, remote, parseAt);
      g.failed || g.license.None?
    ensures var end := CreateEnd(decode, s, user, features, times, remote, parseAt, isSpoke, history, api);
      var g := RequestStates.GetLicense(decode, s, features, times, remote, parseAt);
      if g.failed then end.reply == Error && end.history == history && end.features == features
      else if !isSpoke then end.reply == Blank && end.history == history && end.features == features
      else
        && end.history == Claims.ClaimPath(history, features, api).history
        && (end.reply == Blank <==>
             api.read.Some? &&
             (Claims.HasAll(features, api.read.value) || Claims.WriteGoesThrough(history, api)))
        && (end.reply != Blank ==> end.reply == Error)
        && (if api.read == Some(Claims.Missing) then
              ClaimCodec.Ascending(end.features) && multiset(end.features) == multiset(features)
            else end.features == features)
  {
    hide RequestStates.GetLicense, Claims.HasAll, Claims.WriteGoesThrough;
    Claims.ClaimPathMeans(history, features, api);
    ClaimCodec.SortNamesSorts(features);
    hide Claims.ClaimPath;
  }

  /**
   * How a request ends. If a requested feature can be served, it is granted with a best licence for the first such; if
   * not, it is granted with what the remote client brings, and answered with an error if that brings nothing. Without
   * a client it is answered blank, except that on a spoke the claim comes first: it is answered blank exactly if the
   * claim can be read and has every name, or takes the write, and with an error otherwise. Nothing else touches the
   * claim or the request's feature list, which is sorted if the claim was missed.
   */
  lemma {:induction false} CreateMeans(decode: Decoder, s: State, start: Time, user: User, features: seq<string>,
          times: seq<Time>, remote: Option<Outcome>, parseAt: Time, isSpoke: bool, history: seq<string>,
          api: Claims.Api, expiry: string -> Time)
    requires Inv(s, start, expiry) && |times| == |features| && Ascending(start, times)
    ensures var end := CreateEnd(decode, s, user, features, times, remote, parseAt, isSpoke, history, api);
      var parsed := Parsed(decode, remote, parseAt);
      if CanAnswer(s, features, times) then
        && end.history == history && end.features == features
        && exists l :: BestForFirst(s, features, times, l) && GrantedWith(end, l, features, user)
      else if remote.Some? then
        && end.history == history && end.features == features
        && if parsed.Some? then GrantedWith(end, parsed.value, features, user) else end.reply == Error
      else if !isSpoke then
        end.reply == Blank && end.history == history && end.features == features
      else
        && end.history == Claims.ClaimPath(history, features, api).history
        && (end.reply == Blank <==>
             api.read.Some? &&
             (Claims.HasAll(features, api.read.value) || Claims.WriteGoesThrough(history, api)))
        && (end.reply != Blank ==> end.reply == Error)
        && (if api.read == Some(Claims.Missing) then
              ClaimCodec.Ascending(end.features) && multiset(end.features) == multiset(features)
            else end.features == features)
  {
    hide Inv, RequestStates.GetLicense, CanAnswer, BestForFirst, Brought, Claims.ClaimPath, Claims.HasAll;
    hide Claims.WriteGoesThrough, CreateEnd, GrantedWith;
    GetLicenseMeans(decode, s, start, features, times, remote, parseAt, expiry);
    var g := RequestStates.GetLicense(decode, s, features, times, remote, parseAt);
    if !g.failed && g.license.Some? {
      CreateGrants(decode, s, start, user, features, times, remote, parseAt, isSpoke, history, api, expiry);
    } else {
      CreateDoesNot(decode, s, user, features, times, remote, parseAt, isSpoke, history, api);
    }
  }

  class Storage {
    const decode: Decoder
    const reg: LicenseRegistry
    const rb: RecordBook
    /** Whether there is a client for the remote licence service. */
    const hasRemote: bool

    /** The registry strikes evicted licences from the book that requests are recorded in. */
    ghost predicate Valid() {
      reg.rb == rb
    }

    constructor (decode: Decoder, hasRemote: bool, reg: LicenseRegistry, rb: RecordBook)
      requires reg.rb == rb
      ensures Valid() && this.decode == decode && this.hasRemote == hasRemote && this.reg == reg && this.rb == rb
    {
      this.decode := decode;
      this.hasRemote := hasRemote;
      this.reg := reg;
      this.rb := rb;
    }

    function Remote(acquired: Outcome): Option<Outcome> {
      if hasRemote then Some(acquired) else None
    }

    /** `acquired` is what the remote service answers if it is asked. */
    method GetLicense(features: seq<string>, acquired: Outcome, clock: Clock)
      returns (l: Option<License>, failed: bool, ghost times: seq<Time>, ghost parseAt: Time)
      requires Valid()
      modifies reg, rb, reg.cacheDir, clock
      ensures |times| == |features| && Ascending(old(clock.now), times)
      ensures old(clock.now) <= parseAt == clock.now && forall i :: 0 <= i < |times| ==> times[i] <= parseAt
      ensures Served(reg.Abs(), l, failed) ==
              RequestStates.GetLicense(decode, old(reg.Abs()), features, times, Remote(acquired), parseAt)
    {
      l, times, parseAt := GetStored(features, clock);
      if l.Some? {
        return l, false, times, parseAt;
      }
      if !hasRemote {
        return None, false, times, parseAt;
      }
      match acquired {
        case Refused => return None, true, times, parseAt;
        case Issued(data, c) =>
          var now := clock.Read();
          var license := Parse(decode, data, now);
          if license.None? {
            return None, true, times, now;
          }
          reg.Add(license.value, c);
          return license, false, times, now;
      }
    }

    /** The loop of `getLicense`; lookups not made are given the last clock reading. */
    method GetStored(features: seq<string>, clock: Clock)
      returns (l: Option<License>, ghost times: seq<Time>, ghost end: Time)
      requires Valid()
      modifies reg, rb, reg.cacheDir, clock
      ensures |times| == |features| && Ascending(old(clock.now), times)
      ensures old(clock.now) <= end == clock.now && forall i :: 0 <= i < |times| ==> times[i] <= end
      ensures Answer(reg.Abs(), l) == RequestStates.GetStored(old(reg.Abs()), features, times)
    {
      hide RequestStates.GetStored;
      ghost var s := reg.Abs();
      times := [];
      NothingMissed(s);
      for i := 0 to |features|
        invariant |times| == i && AscendingTo(old(clock.now), times, clock.now)
        invariant MissedAll(s, reg.Abs(), features[..i], times)
      {
        l := reg.LicenseForFeature(clock, features[i]);
        ghost var before := times;
        AscendingExtends(old(clock.now), times, clock.now);
        times := times + [clock.now];
        assert features[..i + 1] == features[..i] + [features[i]];
        if l.Some? {
          ghost var now := clock.now;
          ghost var rest := seq(|features| - i - 1, _ => now);
          FoundAfterMisses(s, features, before, i, now, rest);
          AscendingPads(old(clock.now), times, now, rest);
          times := times + rest;
          return l, times, clock.now;
        }
        MissedOneMore(s, features[..i], before, features[i], clock.now);
      }
      assert features[..|features|] == features;
      return None, times, clock.now;
    }

    /**
     * `Create`. `user` is `None` if the request carries no user, `isSpoke` whether a claim may be used, and `api` how
     * the API server answers about the claim.
     */
    method Create(user: Option<User>, request: LicenseRequest, isSpoke: bool, acquired: Outcome, claims: ClaimStore,
            api: Claims.Api, clock: Clock)
      returns (reply: Reply, ghost times: seq<Time>, ghost parseAt: Time)
      requires Valid() && Claims.WasClaimed(claims.history, api.read)
      modifies reg, rb, reg.cacheDir, clock, request, claims
      ensures user.None? ==>
        && reply == BadRequest && reg.Abs() == old(reg.Abs()) && claims.history == old(claims.history)
        && request.features == old(request.features)
      ensures user.Some? ==>
        && |times| == |old(request.features)| && Ascending(old(clock.now), times) && old(clock.now) <= parseAt
        && (forall i :: 0 <= i < |times| ==> times[i] <= parseAt)
        && Created(reg.Abs(), reply, claims.history, request.features) ==
           CreateEnd(decode, old(reg.Abs()), user.value, old(request.features), times, Remote(acquired), parseAt,
                     isSpoke, old(claims.history), api)
      ensures request.response == match reply
        case Granted(data) => Some(data)
        case Blank => Some("")
        case _ => old(request.response)
    {
      times, parseAt := [], clock.now;
      if user.None? {
        return BadRequest, times, parseAt;
      }
      var l, failed;
      l, failed, times, parseAt := GetLicense(request.features, acquired, clock);
      if failed {
        return Error, times, parseAt;
      } else if l.None? && isSpoke {
        reply := ClaimFeatures(request, claims, api);
      } else if l.Some? {
        rb.Record(l.value.id, request.features, user.value);
        request.response := Some(l.value.data);
        reply := Granted(l.value.data);
      } else {
        request.response := Some("");
        reply := Blank;
      }
    }

    /** The spoke's branch of `Create`: add the requested features to the claim, and answer with a blank response. */
    method ClaimFeatures(request: LicenseRequest, claims: ClaimStore, api: Claims.Api) returns (reply: Reply)
      requires Claims.WasClaimed(claims.history, api.read)
      modifies request, claims
      ensures reply == Blank || reply == Error
      ensures Claims.PathEnd(reply == Blank, claims.history) ==
              Claims.ClaimPath(old(claims.history), old(request.features), api)
      ensures reply == Blank <==>
        api.read.Some? && (Claims.HasAll(old(request.features), api.read.value)
                           || Claims.WriteGoesThrough(old(claims.history), api))
      ensures request.response == if reply == Blank then Some("") else old(request.response)
      ensures request.features == FeaturesAfter(old(request.features), api.read)
    {
      Claims.ClaimPathMeans(claims.history, request.features, api);
      if api.read.None? {
        return Error;
      }
      match api.read.value {
        case Missing =>
          request.features := ClaimCodec.SortNames(request.features);
          var ok := claims.Create(ClaimCodec.Join(request.features), api.taken);
          if !ok {
            return Error;
          }
        case Found(version, value) =>
          var curFeatures := ClaimCodec.Decode(value);
          var reqFeatures := Claims.Names(request.features);
          var extraFeatures := reqFeatures - curFeatures;
          if extraFeatures != {} {
            var list := ClaimCodec.List(curFeatures + extraFeatures);
            assert curFeatures + extraFeatures == curFeatures + reqFeatures;
            ClaimCodec.StrictListingIsUnique(list, ClaimCodec.ListOf(curFeatures + reqFeatures));
            assert !(reqFeatures <= curFeatures);
            var ok := claims.Update(version, ClaimCodec.Join(list), api.taken);
            if !ok {
              return Error;
            }
          } else {
            assert forall f :: f in reqFeatures ==> f !in extraFeatures;
            assert reqFeatures <= curFeatures;
          }
      }
      request.response := Some("");
      return Blank;
    }
  }

  ghost predicate AscendingTo(start: Time, times: seq<Time>, end: Time) {
    start <= end && Ascending(start, times) && forall i :: 0 <= i < |times| ==> times[i] <= end
  }

  lemma {:induction false} AscendingExtends(start: Time, times: seq<Time>, t: Time)
    requires exists mid :: AscendingTo(start, times, mid) && mid <= t
    ensures AscendingTo(start, times + [t], t)
  {
  }

  lemma {:induction false} AscendingPads(start: Time, times: seq<Time>, t: Time, rest: seq<Time>)
    requires AscendingTo(start, times, t) && forall i :: 0 <= i < |rest| ==> rest[i] == t
    ensures AscendingTo(start, times + rest, t)
  {
  }

  /** No feature of `features` was found, and the lookups left state `s'`. */
  ghost predicate MissedAll(s: State, s': State, features: seq<string>, times: seq<Time>) {
    |times| == |features| && RequestStates.GetStored(s, features, times) == Answer(s', None)
  }

  lemma {:induction false} NothingMissed(s: State)
    ensures MissedAll(s, s, [], [])
  {
  }

  lemma {:induction false} GetStoredConcat(s: State, one: seq<string>, oneTimes: seq<Time>, two: seq<string>,
          twoTimes: seq<Time>)
    requires |one| == |oneTimes| && |two| == |twoTimes|
    requires RequestStates.GetStored(s, one, oneTimes).license == None
    ensures RequestStates.GetStored(s, one + two, oneTimes + twoTimes) ==
            RequestStates.GetStored(RequestStates.GetStored(s, one, oneTimes).state, two, twoTimes)
    decreases one
  {
    if one == [] {
      assert one + two == two && oneTimes + twoTimes == twoTimes;
    } else {
      assert (one + two)[1..] == one[1..] + two && (oneTimes + twoTimes)[1..] == oneTimes[1..] + twoTimes;
      GetStoredConcat(Lookup(s, one[0], oneTimes[0]).state, one[1..], oneTimes[1..], two, twoTimes);
    }
  }

  lemma {:induction false} MissedOneMore(s: State, features: seq<string>, times: seq<Time>, f: string, t: Time)
    requires |times| == |features| && RequestStates.GetStored(s, features, times).license == None
    requires Lookup(RequestStates.GetStored(s, features, times).state, f, t).license == None
    ensures var s' := Lookup(RequestStates.GetStored(s, features, times).state, f, t).state;
      MissedAll(s, s', features + [f], times + [t])
  {
    GetStoredConcat(s, features, times, [f], [t]);
  }

  lemma {:induction false} FoundAfterMisses(s: State, features: seq<string>, times: seq<Time>, i: nat, t: Time,
          rest: seq<Time>)
    requires |times| == i < |features| && |rest| == |features| - i - 1
    requires RequestStates.GetStored(s, features[..i], times).license == None
    requires Lookup(RequestStates.GetStored(s, features[..i], times).state, features[i], t).license.Some?
    ensures RequestStates.GetStored(s, features, times + [t] + rest) ==
            Lookup(RequestStates.GetStored(s, features[..i], times).state, features[i], t)
  {
    GetStoredConcat(s, features[..i], times, features[i..], [t] + rest);
    assert features[..i] + features[i..] == features && times + [t] + rest == times + ([t] + rest);
  }
}
