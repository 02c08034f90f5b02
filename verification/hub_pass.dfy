/** One pass of the hub's `LicenseAcquirer` over a cluster's features, as functions, and what it promises. */
module HubPasses {
  import opened Licenses
  import opened RegistryStates

  /** What the remote licence service answers, and what the failure of an acquisition would be if there is one. */
  datatype Outcome = Issued(data: Bytes, contract: Option<Contract>) | Refused

  /** `invalid` tells whether a failed acquisition counts as an invalid certificate, which is not reported. */
  datatype Attempt = Attempt(outcome: Outcome, invalid: bool)

  /** One turn of the loop: when the registry and when the new certificate were judged. */
  datatype Turn = Turn(feature: string, lookupAt: Time, attempt: Attempt, parseAt: Time)

  /** The loop's variables. `earliest` is Go's zero time until a licence is shipped. */
  datatype Pass = Pass(reg: State, data: map<string, Bytes>, earliest: Time, errors: seq<string>)

  /** What the outcome of an acquisition amounts to when it is judged at `parseAt`. */
  function Brought(decode: Decoder, outcome: Outcome, parseAt: Time): Option<License> {
    match outcome
    case Refused => None
    case Issued(data, _) => Parse(decode, data, parseAt)
  }

  /** An acquisition brings a licence exactly if one is issued whose certificate is good and valid at that instant. */
  lemma {:induction false} BroughtMeans(decode: Decoder, outcome: Outcome, parseAt: Time, l: License)
    ensures Brought(decode, outcome, parseAt) == Some(l) <==>
            outcome.Issued? && Certificate(decode, outcome.data) == Some(l) && l.notBefore <= parseAt <= l.notAfter
  {
  }

  function Acquired(decode: Decoder, tn: Turn): Option<License> {
    Brought(decode, tn.attempt.outcome, tn.parseAt)
  }

  /** `LicenseForFeature`, then `getNewLicense` and `Add` if that found nothing. */
  function Serve(decode: Decoder, s: State, tn: Turn): Answer {
    var a := Lookup(s, tn.feature, tn.lookupAt);
    if a.license.Some? then a
    else
      match Acquired(decode, tn)
      case None => a
      case Some(l) => Answer(Add(a.state, l, tn.attempt.outcome.contract), Some(l))
  }

  /**
   * A turn that finds nothing stores what it acquires, with its contract, unless its serial already is stored; apart
   * from that the registry is as the lookup has left it.
   */
  lemma {:induction false} AcquiredIsStored(decode: Decoder, s: State, tn: Turn)
    ensures var found, acquired := Lookup(s, tn.feature, tn.lookupAt).license, Acquired(decode, tn);
      var a := Serve(decode, s, tn);
      && acquired == Brought(decode, tn.attempt.outcome, tn.parseAt)
      && a.license == (if found.Some? then found else acquired)
      && (found.None? && acquired.Some? ==>
           var l := acquired.value;
           l.id in a.state.store
           && (l.id !in s.store ==> a.state.store[l.id] == Record(l, tn.attempt.outcome.contract)))
      && (found.Some? || acquired.None? ==> a.state == Lookup(s, tn.feature, tn.lookupAt).state)
  {
    LookupDropsOnly(s, tn.feature, tn.lookupAt);
  }

  function ShipOne(p: Pass, l: License): Pass {
    p.(data := p.data[l.planName := l.data],
       earliest := if p.earliest == 0 || p.earliest > l.notAfter then l.notAfter else p.earliest)
  }

  function TakeTurn(decode: Decoder, p: Pass, tn: Turn): Pass {
    var a := Serve(decode, p.reg, tn);
    var p' := p.(reg := a.state);
    match a.license
    case None => if tn.attempt.invalid then p' else p'.(errors := p.errors + [tn.feature])
    case Some(l) => if l.status == Active then ShipOne(p', l) else p'
  }

  function RunPass(decode: Decoder, p: Pass, turns: seq<Turn>): Pass
    decreases |turns|
  {
    if turns == [] then p
    else TakeTurn(decode, RunPass(decode, p, turns[..|turns| - 1]), turns[|turns| - 1])
  }

  function StartPass(s: State, data: map<string, Bytes>): Pass {
    Pass(s, data, 0, [])
  }

  // ---------- The pass, seen as the list of licences it ships ----------

  function RegAfter(decode: Decoder, s: State, turns: seq<Turn>): State
    decreases |turns|
  {
    if turns == [] then s
    else Serve(decode, RegAfter(decode, s, turns[..|turns| - 1]), turns[|turns| - 1]).state
  }

  /** What turn `k` serves. */
  function ServedAt(decode: Decoder, s: State, turns: seq<Turn>, k: nat): Option<License>
    requires k < |turns|
  {
    Serve(decode, RegAfter(decode, s, turns[..k]), turns[k]).license
  }

  /** The active licences served, in order. */
  function Shipped(decode: Decoder, s: State, turns: seq<Turn>): seq<License>
    decreases |turns|
  {
    if turns == [] then []
    else
      var n := |turns| - 1;
      Shipped(decode, s, turns[..n]) +
      match ServedAt(decode, s, turns, n)
      case None => []
      case Some(l) => if l.status == Active then [l] else []
  }

  lemma {:induction false} ServedAtPrefix(decode: Decoder, s: State, turns: seq<Turn>, n: nat, k: nat)
    requires k < n <= |turns|
    ensures ServedAt(decode, s, turns[..n], k) == ServedAt(decode, s, turns, k)
  {
    assert turns[..n][..k] == turns[..k];
  }

  lemma {:induction false} ServedIsShipped(decode: Decoder, s: State, turns: seq<Turn>, k: nat, l: License)
    requires k < |turns| && ServedAt(decode, s, turns, k) == Some(l) && l.status == Active
    ensures l in Shipped(decode, s, turns)
    decreases |turns|
  {
    var n := |turns| - 1;
    if k < n {
      ServedAtPrefix(decode, s, turns, n, k);
      ServedIsShipped(decode, s, turns[..n], k, l);
    }
  }

  /** The licence shipped last under a plan. */
  function LastUnder(ls: seq<License>, plan: string): Option<License>
    decreases |ls|
  {
    if ls == [] then None
    else
      var n := |ls| - 1;
      if ls[n].planName == plan then Some(ls[n]) else LastUnder(ls[..n], plan)
  }

  ghost predicate IsLastUnder(ls: seq<License>, plan: string, i: nat) {
    i < |ls| && ls[i].planName == plan && forall j :: i < j < |ls| ==> ls[j].planName != plan
  }

  lemma {:induction false} LastUnderMeans(ls: seq<License>, plan: string)
    ensures match LastUnder(ls, plan)
      case None => forall l :: l in ls ==> l.planName != plan
      case Some(l) => exists i: nat :: IsLastUnder(ls, plan, i) && ls[i] == l
    decreases |ls|
  {
    if ls != [] {
      var n := |ls| - 1;
      LastUnderMeans(ls[..n], plan);
      if ls[n].planName == plan {
        assert IsLastUnder(ls, plan, n);
      } else if LastUnder(ls[..n], plan).Some? {
        var i: nat :| IsLastUnder(ls[..n], plan, i) && ls[..n][i] == LastUnder(ls[..n], plan).value;
        assert forall j :: i < j < n ==> ls[j] == ls[..n][j];
        assert IsLastUnder(ls, plan, i);
      }
    }
  }

  predicate ShipsUnder(decode: Decoder, s: State, turns: seq<Turn>, plan: string, j: nat)
    requires j < |turns|
  {
    var l := ServedAt(decode, s, turns, j);
    l.Some? && l.value.status == Active && l.value.planName == plan
  }

  /** From turn `from` on, nothing is shipped under the plan. */
  ghost predicate NoneUnderFrom(decode: Decoder, s: State, turns: seq<Turn>, plan: string, from: nat) {
    forall i: nat :: from <= i < |turns| ==> !ShipsUnder(decode, s, turns, plan, i)
  }

  /** Turn `j` is the last to ship anything under the plan. */
  ghost predicate LastTurnUnder(decode: Decoder, s: State, turns: seq<Turn>, plan: string, j: nat) {
    j < |turns| && ShipsUnder(decode, s, turns, plan, j) && NoneUnderFrom(decode, s, turns, plan, j + 1)
  }

  lemma {:induction false} ShipsUnderPrefix(decode: Decoder, s: State, turns: seq<Turn>, plan: string, n: nat, j: nat)
    requires j < n <= |turns|
    ensures ShipsUnder(decode, s, turns[..n], plan, j) <==> ShipsUnder(decode, s, turns, plan, j)
  {
    ServedAtPrefix(decode, s, turns, n, j);
  }

  lemma {:induction false} NoneUnderGrows(decode: Decoder, s: State, turns: seq<Turn>, plan: string, from: nat)
    requires turns != [] && NoneUnderFrom(decode, s, turns[..|turns| - 1], plan, from)
    requires !ShipsUnder(decode, s, turns, plan, |turns| - 1)
    ensures NoneUnderFrom(decode, s, turns, plan, from)
  {
    hide ShipsUnder;
    forall i: nat | from <= i < |turns|
      ensures !ShipsUnder(decode, s, turns, plan, i)
    {
      if i < |turns| - 1 {
        ShipsUnderPrefix(decode, s, turns, plan, |turns| - 1, i);
      }
    }
  }

  /** The licence shipped last under a plan is what the last turn under it served. */
  lemma {:induction false} LastUnderIsServed(decode: Decoder, s: State, turns: seq<Turn>, plan: string)
    ensures match LastUnder(Shipped(decode, s, turns), plan)
      case None => NoneUnderFrom(decode, s, turns, plan, 0)
      case Some(l) =>
        exists j: nat :: LastTurnUnder(decode, s, turns, plan, j) && ServedAt(decode, s, turns, j) == Some(l)
    decreases |turns|
  {
    if turns != [] {
      var n := |turns| - 1;
      var last := LastUnder(Shipped(decode, s, turns[..n]), plan);
      LastUnderIsServed(decode, s, turns[..n], plan);
      LastUnderGrows(decode, s, turns, plan);
      assert ShipsUnder(decode, s, turns, plan, n) ==> ServedAt(decode, s, turns, n).Some?;
      hide ShipsUnder, ServedAt, Shipped, LastUnder, NoneUnderFrom;
      if ShipsUnder(decode, s, turns, plan, n) {
        NoneUnderAtEnd(decode, s, turns, plan);
        assert LastTurnUnder(decode, s, turns, plan, n);
      } else if last.Some? {
        var j: nat :| LastTurnUnder(decode, s, turns[..n], plan, j) && ServedAt(decode, s, turns[..n], j) == last;
        NoneUnderGrows(decode, s, turns, plan, j + 1);
        ShipsUnderPrefix(decode, s, turns, plan, n, j);
        ServedAtPrefix(decode, s, turns, n, j);
        assert LastTurnUnder(decode, s, turns, plan, j);
      } else {
        NoneUnderGrows(decode, s, turns, plan, 0);
      }
    }
  }

  lemma {:induction false} NoneUnderAtEnd(decode: Decoder, s: State, turns: seq<Turn>, plan: string)
    ensures NoneUnderFrom(decode, s, turns, plan, |turns|)
  {
  }

  lemma {:induction false} LastUnderGrows(decode: Decoder, s: State, turns: seq<Turn>, plan: string)
    requires turns != []
    ensures var n := |turns| - 1;
      LastUnder(Shipped(decode, s, turns), plan) ==
      if ShipsUnder(decode, s, turns, plan, n) then ServedAt(decode, s, turns, n)
      else LastUnder(Shipped(decode, s, turns[..n]), plan)
  {
    var n := |turns| - 1;
    var ls, served := Shipped(decode, s, turns[..n]), ServedAt(decode, s, turns, n);
    if served.Some? && served.value.status == Active {
      assert (ls + [served.value])[..|ls|] == ls;
    } else {
      assert ls + [] == ls;
    }
  }

  /** The Secret data after a pass: under each plan shipped, the data of the last licence shipped with it. */
  ghost predicate HoldsLastShipped(before: map<string, Bytes>, ls: seq<License>, after: map<string, Bytes>) {
    forall plan ::
      match LastUnder(ls, plan)
      case None => (plan in after <==> plan in before) && (plan in before ==> after[plan] == before[plan])
      case Some(l) => plan in after && after[plan] == l.data
  }

  /** `e` is the end of the licence that ends first, and the zero time exactly if there is none. */
  ghost predicate IsEarliest(ls: seq<License>, e: Time) {
    && (e == 0 <==> ls == [])
    && (forall l :: l in ls ==> e <= l.notAfter)
    && (ls != [] ==> exists l :: l in ls && l.notAfter == e)
  }

  /** Every licence served was good for the clock reading it was served at, so none ends at the zero time. */
  ghost predicate AfterEpoch(turns: seq<Turn>) {
    forall i :: 0 <= i < |turns| ==> 0 < turns[i].lookupAt && 0 < turns[i].parseAt
  }

  lemma {:induction false} ServedIsGood(decode: Decoder, s: State, tn: Turn)
    ensures match Serve(decode, s, tn).license
      case None => true
      case Some(l) => l.notAfter >= tn.lookupAt + s.ttl || l.notAfter >= tn.parseAt
  {
    LookupEnds(s, tn.feature, tn.lookupAt);
  }

  lemma {:induction false} LastShippedStep(before: map<string, Bytes>, ls: seq<License>, after: map<string, Bytes>,
          l: License)
    requires HoldsLastShipped(before, ls, after)
    ensures HoldsLastShipped(before, ls + [l], after[l.planName := l.data])
  {
    assert (ls + [l])[..|ls|] == ls;
    forall plan
      ensures LastUnder(ls + [l], plan) == if l.planName == plan then Some(l) else LastUnder(ls, plan)
    {
    }
  }

  lemma {:induction false} EarliestStep(ls: seq<License>, e: Time, l: License)
    requires IsEarliest(ls, e) && l.notAfter != 0
    ensures IsEarliest(ls + [l], if e == 0 || e > l.notAfter then l.notAfter else e)
  {
    assert l in ls + [l];
    if ls != [] && e <= l.notAfter {
      var m :| m in ls && m.notAfter == e;
      assert m in ls + [l];
    }
  }

  lemma {:induction false} RegAfterKeepsTtl(decode: Decoder, s: State, turns: seq<Turn>)
    ensures RegAfter(decode, s, turns).ttl == s.ttl
    decreases |turns|
  {
    if turns != [] {
      var n := |turns| - 1;
      RegAfterKeepsTtl(decode, s, turns[..n]);
      LookupKeepsTtl(RegAfter(decode, s, turns[..n]), turns[n].feature, turns[n].lookupAt);
    }
  }

  /** The loop's registry, Secret data and requeue time, for every pass over every feature list. */
  lemma {:induction false} PassShips(decode: Decoder, s: State, data: map<string, Bytes>, turns: seq<Turn>)
    requires s.ttl == HUB_TTL && AfterEpoch(turns)
    ensures var p := RunPass(decode, StartPass(s, data), turns);
      && p.reg == RegAfter(decode, s, turns)
      && HoldsLastShipped(data, Shipped(decode, s, turns), p.data)
      && IsEarliest(Shipped(decode, s, turns), p.earliest)
    decreases |turns|
  {
    if turns != [] {
      var n := |turns| - 1;
      PassShips(decode, s, data, turns[..n]);
      RegAfterKeepsTtl(decode, s, turns[..n]);
      var p := RunPass(decode, StartPass(s, data), turns[..n]);
      ServedIsGood(decode, p.reg, turns[n]);
      var served := Serve(decode, p.reg, turns[n]).license;
      assert served == ServedAt(decode, s, turns, n);
      if served.Some? && served.value.status == Active {
        LastShippedStep(data, Shipped(decode, s, turns[..n]), p.data, served.value);
        EarliestStep(Shipped(decode, s, turns[..n]), p.earliest, served.value);
      } else {
        assert Shipped(decode, s, turns) == Shipped(decode, s, turns[..n]);
      }
    }
  }

  // ---------- Requeue ----------

  /** `Result.RequeueAfter`; the controller runtime requeues only if it is positive. */
  function RequeueAfter(earliest: Time, now: Time): int {
    if earliest == 0 then 0 else Until(earliest - HUB_TTL, now)
  }

  /**
   * At every instant before the requeue, every shipped licence has more than the hub's ttl left; and there is a
   * requeue exactly if some licence was shipped and all of them still have more than that at the last clock reading.
   */
  lemma {:induction false} RequeueIsEarlyEnough(ls: seq<License>, earliest: Time, now: Time, u: Time)
    requires IsEarliest(ls, earliest)
    ensures now <= u < now + RequeueAfter(earliest, now) ==> forall l :: l in ls ==> l.notAfter - u > HUB_TTL
    ensures RequeueAfter(earliest, now) > 0 <==> ls != [] && forall l :: l in ls ==> l.notAfter - now > HUB_TTL
  {
  }

  /** The licence whose end the pass comes back for: none that it shipped ends earlier. */
  ghost predicate EndsFirst(ls: seq<License>, l: License) {
    l in ls && forall m :: m in ls ==> l.notAfter <= m.notAfter
  }

  /**
   * The requeue is not early either: whatever is shipped, the pass comes back at the instant at which the licence that
   * ends first has exactly the hub's ttl left, up to the ends of a 64-bit duration. If nothing is, it does not ask.
   */
  lemma {:induction false} RequeueIsExact(ls: seq<License>, earliest: Time, now: Time)
    requires IsEarliest(ls, earliest)
    ensures ls == [] ==> RequeueAfter(earliest, now) == 0
    ensures ls != [] ==> exists l :: EndsFirst(ls, l)
    ensures forall l :: EndsFirst(ls, l) ==>
      var left := l.notAfter - now;
      && (MIN_DURATION <= left - HUB_TTL <= MAX_DURATION ==> left - RequeueAfter(earliest, now) == HUB_TTL)
      && (left - HUB_TTL > MAX_DURATION ==> RequeueAfter(earliest, now) == MAX_DURATION)
      && (left - HUB_TTL < MIN_DURATION ==> RequeueAfter(earliest, now) == MIN_DURATION)
  {
    if ls != [] {
      var l :| l in ls && l.notAfter == earliest;
      assert EndsFirst(ls, l);
    }
  }

  // ---------- Errors ----------

  /** Turn `k` serves nothing, for a reason other than an invalid certificate. */
  predicate TurnFails(decode: Decoder, s: State, turns: seq<Turn>, k: nat)
    requires k < |turns|
  {
    ServedAt(decode, s, turns, k).None? && !turns[k].attempt.invalid
  }

  /** The turns that fail are, in order, those listed in `where`. */
  ghost predicate FailingTurns(decode: Decoder, s: State, turns: seq<Turn>, where: seq<nat>) {
    && (forall i :: 0 <= i < |where| ==> where[i] < |turns| && TurnFails(decode, s, turns, where[i]))
    && (forall i, j :: 0 <= i < j < |where| ==> where[i] < where[j])
    && (forall k: nat :: k < |turns| && TurnFails(decode, s, turns, k) ==> k in where)
  }

  /** The features that the turns in `where` ask for. */
  function FeaturesOf(turns: seq<Turn>, where: seq<nat>): seq<string>
    requires forall i :: 0 <= i < |where| ==> where[i] < |turns|
  {
    seq(|where|, i requires 0 <= i < |where| => turns[where[i]].feature)
  }

  lemma {:induction false} TurnFailsPrefix(decode: Decoder, s: State, turns: seq<Turn>, n: nat, k: nat)
    requires k < n <= |turns|
    ensures TurnFails(decode, s, turns[..n], k) <==> TurnFails(decode, s, turns, k)
  {
    hide ServedAt;
    ServedAtPrefix(decode, s, turns, n, k);
  }

  lemma {:induction false} FailingTurnsExtend(decode: Decoder, s: State, turns: seq<Turn>, where: seq<nat>)
    requires turns != [] && FailingTurns(decode, s, turns[..|turns| - 1], where)
    ensures var n := |turns| - 1;
      FailingTurns(decode, s, turns, if TurnFails(decode, s, turns, n) then where + [n] else where)
  {
    var n := |turns| - 1;
    hide TurnFails;
    var where' := if TurnFails(decode, s, turns, n) then where + [n] else where;
    forall i | 0 <= i < |where|
      ensures TurnFails(decode, s, turns, where[i])
    {
      TurnFailsPrefix(decode, s, turns, n, where[i]);
    }
    forall k: nat | k < |turns| && TurnFails(decode, s, turns, k)
      ensures k in where'
    {
      if k < n {
        TurnFailsPrefix(decode, s, turns, n, k);
      } else {
        assert where'[|where|] == n;
      }
    }
  }

  /** The errors of a pass are the features of the turns that fail, one each, in order. */
  lemma {:induction false} PassErrors(decode: Decoder, s: State, data: map<string, Bytes>, turns: seq<Turn>)
    returns (where: seq<nat>)
    ensures RunPass(decode, StartPass(s, data), turns).reg == RegAfter(decode, s, turns)
    ensures FailingTurns(decode, s, turns, where)
    ensures RunPass(decode, StartPass(s, data), turns).errors == FeaturesOf(turns, where)
    decreases |turns|
  {
    where := [];
    if turns != [] {
      var n := |turns| - 1;
      var before := RunPass(decode, StartPass(s, data), turns[..n]);
      where := PassErrors(decode, s, data, turns[..n]);
      LastTurnErrors(decode, s, data, turns);
      FailingTurnsExtend(decode, s, turns, where);
      FeaturesExtend(turns, where);
      hide RunPass, TurnFails, RegAfter, FailingTurns, FeaturesOf;
      if TurnFails(decode, s, turns, n) {
        where := where + [n];
      }
    }
  }

  lemma {:induction false} FeaturesExtend(turns: seq<Turn>, where: seq<nat>)
    requires turns != [] && forall i :: 0 <= i < |where| ==> where[i] < |turns| - 1
    ensures var n := |turns| - 1;
      && FeaturesOf(turns, where) == FeaturesOf(turns[..n], where)
      && FeaturesOf(turns, where + [n]) == FeaturesOf(turns[..n], where) + [turns[n].feature]
  {
  }

  lemma {:induction false} LastTurnErrors(decode: Decoder, s: State, data: map<string, Bytes>, turns: seq<Turn>)
    requires turns != []
    requires RunPass(decode, StartPass(s, data), turns[..|turns| - 1]).reg == RegAfter(decode, s, turns[..|turns| - 1])
    ensures var n := |turns| - 1;
      var before, after := RunPass(decode, StartPass(s, data), turns[..n]), RunPass(decode, StartPass(s, data), turns);
      && after.reg == RegAfter(decode, s, turns)
      && after.errors == if TurnFails(decode, s, turns, n) then before.errors + [turns[n].feature] else before.errors
  {
  }
}
