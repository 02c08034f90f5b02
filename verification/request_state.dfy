/** Serving a licence request, as a function on the registry's state, and what it promises. */
module RequestStates {
  import opened Licenses
  import opened RegistryStates
  import opened Traces
  import opened UsageRuns
  import opened HubPasses

  /** The first requested feature that the registry can serve; `times` are the last clock readings of the lookups. */
  function GetStored(s: State, features: seq<string>, times: seq<Time>): Answer
    requires |times| == |features|
    decreases features
  {
    if features == [] then Answer(s, None)
    else
      var a := Lookup(s, features[0], times[0]);
      if a.license.Some? then a else GetStored(a.state, features[1..], times[1..])
  }

  ghost predicate Ascending(start: Time, times: seq<Time>) {
    && (forall i :: 0 <= i < |times| ==> start <= times[i])
    && (forall i, j :: 0 <= i <= j < |times| ==> times[i] <= times[j])
  }

  /** Evictions up to `t` do not change what is servable from then on. */
  lemma {:induction false} ServableAfterEvictions(s: State, s': State, t: Time, f: string, u: Time, l: License)
    requires LosesOnlyExpired(s, s', t) && t <= u
    ensures Servable(s, f, u, l) <==> Servable(s', f, u, l)
  {
  }

  /** `best` answers feature `k`, and no earlier feature could be served when it was looked up. */
  ghost predicate FirstServable(s: State, features: seq<string>, times: seq<Time>, k: nat, best: License)
    requires |times| == |features|
  {
    && k < |features|
    && (forall j, l :: 0 <= j < k ==> !Servable(s, features[j], times[j], l))
    && Servable(s, features[k], times[k], best)
    && (forall l :: Servable(s, features[k], times[k], l) ==> !Less(l, best))
  }

  lemma {:induction false} FirstServableOfRest(s: State, s': State, features: seq<string>, times: seq<Time>, k: nat,
          best: License)
    requires |times| == |features| > 0 && Ascending(times[0], times)
    requires LosesOnlyExpired(s, s', times[0])
    requires forall l :: !Servable(s, features[0], times[0], l)
    requires FirstServable(s', features[1..], times[1..], k, best)
    ensures FirstServable(s, features, times, k + 1, best)
  {
    forall j, l | 0 <= j < |features|
      ensures Servable(s, features[j], times[j], l) <==> Servable(s', features[j], times[j], l)
    {
      ServableAfterEvictions(s, s', times[0], features[j], times[j], l);
    }
    forall j, l | 0 <= j < k + 1
      ensures !Servable(s, features[j], times[j], l)
    {
      assert j > 0 ==> features[j] == features[1..][j - 1] && times[j] == times[1..][j - 1];
    }
  }

  /** `r` answers the first feature that could be served, and is missing only if none could. */
  ghost predicate ExactAnswer(s: State, features: seq<string>, times: seq<Time>, r: Option<License>)
    requires |times| == |features|
  {
    match r
    case None => forall j, l :: 0 <= j < |features| ==> !Servable(s, features[j], times[j], l)
    case Some(best) => exists k: nat :: FirstServable(s, features, times, k, best)
  }

  lemma {:induction false} ExactOfRest(s: State, s': State, features: seq<string>, times: seq<Time>,
          r: Option<License>)
    requires |times| == |features| > 0 && Ascending(times[0], times)
    requires LosesOnlyExpired(s, s', times[0])
    requires forall l :: !Servable(s, features[0], times[0], l)
    requires ExactAnswer(s', features[1..], times[1..], r)
    ensures ExactAnswer(s, features, times, r)
  {
    if r.Some? {
      var k: nat :| FirstServable(s', features[1..], times[1..], k, r.value);
      FirstServableOfRest(s, s', features, times, k, r.value);
    } else {
      forall j, l | 0 <= j < |features|
        ensures !Servable(s, features[j], times[j], l)
      {
        ServableAfterEvictions(s, s', times[0], features[j], times[j], l);
        assert j > 0 ==> features[j] == features[1..][j - 1] && times[j] == times[1..][j - 1];
      }
    }
  }

  lemma {:induction false} ExactHere(s: State, features: seq<string>, times: seq<Time>, best: License)
    requires |times| == |features| > 0
    requires Servable(s, features[0], times[0], best)
    requires forall l :: Servable(s, features[0], times[0], l) ==> !Less(l, best)
    ensures ExactAnswer(s, features, times, Some(best))
  {
    assert FirstServable(s, features, times, 0, best);
  }

  lemma {:induction false} AscendingRest(start: Time, times: seq<Time>)
    requires times != [] && Ascending(start, times)
    ensures start <= times[0] && Ascending(times[0], times) && Ascending(times[0], times[1..])
  {
  }

  /**
   * `getLicense` without a remote client is exact with respect to the store as it was before the call: it serves the
   * first requested feature that has a live licence, best first, and gives up only if none had one when its turn came.
   */
  lemma {:induction false} GetStoredIsExact(s: State, start: Time, features: seq<string>, times: seq<Time>,
          expiry: string -> Time)
    requires Inv(s, start, expiry) && |times| == |features| && Ascending(start, times)
    ensures ExactAnswer(s, features, times, GetStored(s, features, times).license)
    decreases features
  {
    hide Inv, Servable, LosesOnlyExpired, Ascending;
    if features != [] {
      var t := times[0];
      AscendingRest(start, times);
      InvLater(s, start, t, expiry);
      LookupAnswersLikeScan(s, features[0], t, expiry);
      LookupKeepsInv(s, features[0], t, expiry);
      var a := Lookup(s, features[0], t);
      if a.license.Some? {
        ExactHere(s, features, times, a.license.value);
      } else {
        GetStoredIsExact(a.state, t, features[1..], times[1..], expiry);
        ExactOfRest(s, a.state, features, times, GetStored(a.state, features[1..], times[1..]).license);
      }
    }
  }

  // ---------- The whole request ----------

  /** `remote` is `None` without a licence client; a licence it issues is judged at `parseAt`. */
  datatype Served = Served(state: State, license: Option<License>, failed: bool)

  function GetLicense(decode: Decoder, s: State, features: seq<string>, times: seq<Time>, remote: Option<Outcome>,
          parseAt: Time): Served
    requires |times| == |features|
  {
    var a := GetStored(s, features, times);
    if a.license.Some? then Served(a.state, a.license, false)
    else
      match remote
      case None => Served(a.state, None, false)
      case Some(Refused) => Served(a.state, None, true)
      case Some(Issued(data, c)) =>
        match Parse(decode, data, parseAt)
        case None => Served(a.state, None, true)
        case Some(l) => Served(Add(a.state, l, c), Some(l), false)
  }

  /** `Create` as far as the registry and the usage book go. */
  function CreateState(decode: Decoder, s: State, features: seq<string>, times: seq<Time>, remote: Option<Outcome>,
          parseAt: Time, user: User): State
    requires |times| == |features|
  {
    var g := GetLicense(decode, s, features, times, remote, parseAt);
    match g.license
    case None => g.state
    case Some(l) => Note(g.state, l.id, Usage(features, user))
  }

  /** Some requested feature can be served when it has its turn. */
  ghost predicate CanAnswer(s: State, features: seq<string>, times: seq<Time>)
    requires |times| == |features|
  {
    exists j, l :: 0 <= j < |features| && Servable(s, features[j], times[j], l)
  }

  /** What the remote client, if there is one, was issued and could parse. */
  function Parsed(decode: Decoder, remote: Option<Outcome>, parseAt: Time): Option<License> {
    match remote
    case None => None
    case Some(outcome) => Brought(decode, outcome, parseAt)
  }

  /** `l` is a best licence for the first requested feature that could be served. */
  ghost predicate BestForFirst(s: State, features: seq<string>, times: seq<Time>, l: License)
    requires |times| == |features|
  {
    exists k: nat :: FirstServable(s, features, times, k, l)
  }

  lemma {:induction false} GetStoredDropsOnly(s: State, features: seq<string>, times: seq<Time>)
    requires |times| == |features|
    ensures GetStored(s, features, times).state.store.Keys <= s.store.Keys
    decreases features
  {
    if features != [] {
      LookupDropsOnly(s, features[0], times[0]);
      GetStoredDropsOnly(Lookup(s, features[0], times[0]).state, features[1..], times[1..]);
    }
  }

  /**
   * `getLicense`, by what was in the store before the call: a best licence for the first feature that can be served;
   * failing that, what the remote client brings, which is then stored with its contract, unless its serial already was;
   * no licence and no failure without a client.
   */
  lemma {:induction false} GetLicenseMeans(decode: Decoder, s: State, start: Time, features: seq<string>,
          times: seq<Time>, remote: Option<Outcome>, parseAt: Time, expiry: string -> Time)
    requires Inv(s, start, expiry) && |times| == |features| && Ascending(start, times)
    ensures var g := GetLicense(decode, s, features, times, remote, parseAt);
      if CanAnswer(s, features, times) then
        !g.failed && g.license.Some? && BestForFirst(s, features, times, g.license.value)
      else
        && g.license == Parsed(decode, remote, parseAt)
        && (g.failed <==> remote.Some? && Parsed(decode, remote, parseAt).None?)
        && (g.license.Some? ==>
             var l := g.license.value;
             l.id in g.state.store
             && (l.id !in s.store ==> g.state.store[l.id] == Record(l, remote.value.contract)))
  {
    GetStoredIsExact(s, start, features, times, expiry);
    GetStoredDropsOnly(s, features, times);
    hide Inv, GetStored, Servable, Parse;
    var r := GetStored(s, features, times).license;
    if r.Some? {
      var k: nat :| FirstServable(s, features, times, k, r.value);
      assert Servable(s, features[k], times[k], r.value);
    }
  }

  // ---------- A request as a run of registry steps ----------

  function LookupSteps(s: State, features: seq<string>, times: seq<Time>): (steps: seq<Step>)
    requires |times| == |features|
    ensures forall i :: 0 <= i < |steps| ==> steps[i].LookupStep?
    decreases features
  {
    if features == [] then []
    else
      var a := Lookup(s, features[0], times[0]);
      [LookupStep(features[0], times[0])] +
      if a.license.Some? then [] else LookupSteps(a.state, features[1..], times[1..])
  }

  lemma {:induction false} LookupStepsRun(s: State, features: seq<string>, times: seq<Time>)
    requires |times| == |features|
    ensures Run(s, LookupSteps(s, features, times)) == GetStored(s, features, times).state
    decreases features
  {
    if features != [] {
      var first := [LookupStep(features[0], times[0])];
      var a := Lookup(s, features[0], times[0]);
      assert Init(first) == [] && Run(s, first) == a.state;
      if a.license.Some? {
        assert first + [] == first;
      } else {
        RunConcat(s, first, LookupSteps(a.state, features[1..], times[1..]));
        LookupStepsRun(a.state, features[1..], times[1..]);
      }
    }
  }

  /** The steps of a request that was issued `issued` remotely, if anything, and served `l`, if anything. */
  function RequestSteps(s: State, features: seq<string>, times: seq<Time>,
          issued: Option<(License, Option<Contract>)>, l: Option<License>, user: User, end: Time): seq<Step>
    requires |times| == |features|
  {
    LookupSteps(s, features, times) + AddSteps(issued, end) + NoteSteps(l, Usage(features, user), end)
  }

  function IssuedTo(decode: Decoder, s: State, features: seq<string>, times: seq<Time>, remote: Option<Outcome>,
          parseAt: Time): Option<(License, Option<Contract>)>
    requires |times| == |features|
  {
    if GetStored(s, features, times).license.Some? || remote.None? || remote.value.Refused? then None
    else
      match Parse(decode, remote.value.data, parseAt)
      case None => None
      case Some(l) => Some((l, remote.value.contract))
  }

  lemma {:induction false} RunOne(s: State, step: Step)
    ensures Run(s, [step]) == Exec(s, step)
  {
    assert Init([step]) == [];
  }

  /** What a request records is always in the store at that moment. */
  lemma {:induction false} RequestRecordsStored(decode: Decoder, s: State, start: Time, features: seq<string>,
          times: seq<Time>, remote: Option<Outcome>, parseAt: Time, expiry: string -> Time)
    requires Inv(s, start, expiry) && |times| == |features| && Ascending(start, times)
    ensures var g := GetLicense(decode, s, features, times, remote, parseAt);
      g.license.Some? ==> g.license.value.id in g.state.store
    decreases features
  {
    if features != [] {
      var t := times[0];
      InvLater(s, start, t, expiry);
      LookupKeepsInv(s, features[0], t, expiry);
      LookupEnds(s, features[0], t);
      var a := Lookup(s, features[0], t);
      if a.license.Some? {
        assert a.license.value in Elems(a.state.queues, features[0]);
        assert EntrySound(a.state, features[0], a.license.value, t, expiry);
      } else {
        RequestRecordsStored(decode, a.state, t, features[1..], times[1..], remote, parseAt, expiry);
      }
    }
  }

  function AddSteps(issued: Option<(License, Option<Contract>)>, at: Time): seq<Step> {
    match issued case None => [] case Some(pair) => [AddStep(pair.0, pair.1, at)]
  }

  function NoteSteps(l: Option<License>, usage: Usage, at: Time): seq<Step> {
    match l case None => [] case Some(x) => [NoteStep(x.id, usage, at)]
  }

  /** The lookups and the addition, if any, lead to the state in which the request is served. */
  lemma {:induction false} ServingIsRun(decode: Decoder, s: State, features: seq<string>, times: seq<Time>,
          remote: Option<Outcome>, parseAt: Time)
    requires |times| == |features|
    ensures var issued := IssuedTo(decode, s, features, times, remote, parseAt);
      Run(s, LookupSteps(s, features, times) + AddSteps(issued, parseAt)) ==
      GetLicense(decode, s, features, times, remote, parseAt).state
  {
    hide GetStored, LookupSteps;
    var issued := IssuedTo(decode, s, features, times, remote, parseAt);
    LookupStepsRun(s, features, times);
    RunConcat(s, LookupSteps(s, features, times), AddSteps(issued, parseAt));
    if issued.Some? {
      RunOne(GetStored(s, features, times).state, AddStep(issued.value.0, issued.value.1, parseAt));
    }
  }

  lemma {:induction false} OneNoteStored(s: State, before: seq<Step>, note: seq<Step>)
    requires forall i :: 0 <= i < |before| ==> !before[i].NoteStep?
    requires |note| <= 1 && (|note| == 1 ==> note[0].NoteStep? && note[0].id in Run(s, before).store)
    ensures NotesStored(s, before + note)
  {
    var tr := before + note;
    forall i | 0 <= i < |tr|
      ensures NoteStored(s, tr, i)
    {
      if tr[i].NoteStep? {
        assert i == |before| && tr[..i] == before;
      }
    }
  }

  /** A request that runs undisturbed is a run of registry steps that records use only of stored licences. */
  lemma {:induction false} RequestIsRun(decode: Decoder, s: State, start: Time, features: seq<string>,
          times: seq<Time>, remote: Option<Outcome>, parseAt: Time, user: User, expiry: string -> Time)
    requires Inv(s, start, expiry) && |times| == |features| && Ascending(start, times)
    ensures var g := GetLicense(decode, s, features, times, remote, parseAt);
      var issued := IssuedTo(decode, s, features, times, remote, parseAt);
      var tr := RequestSteps(s, features, times, issued, g.license, user, parseAt);
      && Run(s, tr) == CreateState(decode, s, features, times, remote, parseAt, user)
      && NotesStored(s, tr)
  {
    RequestRecordsStored(decode, s, start, features, times, remote, parseAt, expiry);
    hide Inv, GetLicense, LookupSteps, IssuedTo, NotesStored;
    var g := GetLicense(decode, s, features, times, remote, parseAt);
    var issued := IssuedTo(decode, s, features, times, remote, parseAt);
    var served := LookupSteps(s, features, times) + AddSteps(issued, parseAt);
    var noted := NoteSteps(g.license, Usage(features, user), parseAt);
    ServingIsRun(decode, s, features, times, remote, parseAt);
    RunConcat(s, served, noted);
    if g.license.Some? {
      RunOne(g.state, noted[0]);
    }
    OneNoteStored(s, served, noted);
  }
}
