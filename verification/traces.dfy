/** Whole runs of a registry: any sequence of steps made under its lock, on a clock that never goes back. */
module Traces {
  import opened Licenses
  import opened RegistryStates

  datatype Step =
    | AddStep(license: License, contract: Option<Contract>, at: Time)
    | LookupStep(feature: string, at: Time)
    | NoteStep(id: string, usage: Usage, at: Time)

  function Exec(s: State, step: Step): State {
    match step
    case AddStep(l, c, _) => Add(s, l, c)
    case LookupStep(f, t) => Lookup(s, f, t).state
    case NoteStep(id, usage, _) => Note(s, id, usage)
  }

  function Init(tr: seq<Step>): seq<Step>
    requires tr != []
  {
    tr[..|tr| - 1]
  }

  function Last(tr: seq<Step>): Step
    requires tr != []
  {
    tr[|tr| - 1]
  }

  function Run(s: State, tr: seq<Step>): State
    decreases |tr|
  {
    if tr == [] then s else Exec(Run(s, Init(tr)), Last(tr))
  }

  lemma {:induction false} RunConcat(s: State, one: seq<Step>, two: seq<Step>)
    ensures Run(s, one + two) == Run(Run(s, one), two)
    decreases |two|
  {
    if two == [] {
      assert one + two == one;
    } else {
      RunConcat(s, one, Init(two));
      assert Init(one + two) == one + Init(two);
    }
  }

  function TimeAfter(start: Time, tr: seq<Step>): Time {
    if tr == [] then start else Last(tr).at
  }

  ghost predicate Monotone(start: Time, tr: seq<Step>) {
    && (forall i :: 0 <= i < |tr| ==> start <= tr[i].at)
    && (forall i, j :: 0 <= i <= j < |tr| ==> tr[i].at <= tr[j].at)
  }

  /** Serial numbers determine when the licences added in a run end. */
  ghost predicate ExpiryBySerial(tr: seq<Step>, expiry: string -> Time) {
    forall i :: 0 <= i < |tr| && tr[i].AddStep? ==> tr[i].license.notAfter == expiry(tr[i].license.id)
  }

  lemma {:induction false} MonotoneInit(start: Time, tr: seq<Step>)
    requires tr != [] && Monotone(start, tr)
    ensures Monotone(start, Init(tr)) && start <= TimeAfter(start, Init(tr)) <= Last(tr).at
  {
  }

  lemma {:induction false} RunKeepsInv(s: State, start: Time, tr: seq<Step>, expiry: string -> Time)
    requires Inv(s, start, expiry) && Monotone(start, tr) && ExpiryBySerial(tr, expiry)
    ensures Inv(Run(s, tr), TimeAfter(start, tr), expiry)
    decreases |tr|
  {
    if tr != [] {
      MonotoneInit(start, tr);
      RunKeepsInv(s, start, Init(tr), expiry);
      var s' := Run(s, Init(tr));
      InvLater(s', TimeAfter(start, Init(tr)), Last(tr).at, expiry);
      match Last(tr)
      case AddStep(l, c, t) => AddKeepsInv(s', l, c, t, expiry);
      case LookupStep(f, t) => LookupKeepsInv(s', f, t, expiry);
      case NoteStep(id, usage, t) =>
    }
  }

  lemma {:induction false} RunKeepsTtl(s: State, tr: seq<Step>)
    ensures Run(s, tr).ttl == s.ttl
    decreases |tr|
  {
    if tr != [] {
      RunKeepsTtl(s, Init(tr));
      if Last(tr).LookupStep? {
        LookupKeepsTtl(Run(s, Init(tr)), Last(tr).feature, Last(tr).at);
      }
    }
  }

  /** In every reachable state, at every later clock reading, the heaps answer like a scan of the store. */
  lemma {:induction false} RunAnswersLikeScan(ttl: Ttl, files: Option<map<string, Bytes>>, start: Time, tr: seq<Step>,
          expiry: string -> Time, f: string, t: Time)
    requires Monotone(start, tr) && ExpiryBySerial(tr, expiry) && TimeAfter(start, tr) <= t
    ensures var s := Run(Empty(ttl, map[], files), tr);
      match Lookup(s, f, t).license
      case None => forall l :: !Servable(s, f, t, l)
      case Some(best) => Servable(s, f, t, best) && forall l :: Servable(s, f, t, l) ==> !Less(l, best)
  {
    var s := Run(Empty(ttl, map[], files), tr);
    RunKeepsInv(Empty(ttl, map[], files), start, tr, expiry);
    InvLater(s, TimeAfter(start, tr), t, expiry);
    LookupAnswersLikeScan(s, f, t, expiry);
  }

  // ---------- Licences stay until they expire ----------

  ghost predicate Adds(tr: seq<Step>, l: License) {
    exists i :: 0 <= i < |tr| && tr[i].AddStep? && tr[i].license == l
  }

  /** What the run adds under the serial of `l` is `l`, perhaps read from other bytes. */
  ghost predicate OwnsSerial(tr: seq<Step>, l: License) {
    forall i :: 0 <= i < |tr| && tr[i].AddStep? && tr[i].license.id == l.id ==> SameCertificate(tr[i].license, l)
  }

  /** The store holds `l` under its serial, perhaps read from other bytes. */
  predicate StoredAs(s: State, l: License) {
    l.id in s.store && SameCertificate(s.store[l.id].license, l)
  }

  lemma {:induction false} ExecKeepsStored(s: State, step: Step, l: License, t0: Time, expiry: string -> Time)
    requires Inv(s, t0, expiry) && t0 <= step.at
    requires step.AddStep? && step.license.id == l.id ==> SameCertificate(step.license, l)
    requires l.id in s.store ==> StoredAs(s, l)
    ensures l.id in Exec(s, step).store ==> StoredAs(Exec(s, step), l)
    ensures step.AddStep? && step.license == l ==> StoredAs(Exec(s, step), l)
    ensures StoredAs(s, l) && Live(s, l, step.at) ==> StoredAs(Exec(s, step), l)
    ensures Exec(s, step).ttl == s.ttl
  {
    if step.LookupStep? {
      InvLater(s, t0, step.at, expiry);
      LookupKeepsInv(s, step.feature, step.at, expiry);
    }
  }

  lemma {:induction false} OwnsSerialInit(tr: seq<Step>, l: License)
    requires tr != [] && OwnsSerial(tr, l)
    ensures OwnsSerial(Init(tr), l)
    ensures Last(tr).AddStep? && Last(tr).license.id == l.id ==> SameCertificate(Last(tr).license, l)
    ensures Adds(tr, l) ==> Adds(Init(tr), l) || (Last(tr).AddStep? && Last(tr).license == l)
  {
  }

  /** Whatever else happens, an added licence is stored for as long as it is live. */
  lemma {:induction false} AddedStaysStored(s: State, start: Time, tr: seq<Step>, expiry: string -> Time, l: License)
    requires Inv(s, start, expiry) && Monotone(start, tr) && ExpiryBySerial(tr, expiry)
    requires OwnsSerial(tr, l) && (l.id in s.store ==> StoredAs(s, l))
    ensures Run(s, tr).ttl == s.ttl
    ensures l.id in Run(s, tr).store ==> StoredAs(Run(s, tr), l)
    ensures (StoredAs(s, l) || Adds(tr, l)) && Live(s, l, TimeAfter(start, tr)) ==> StoredAs(Run(s, tr), l)
    decreases |tr|
  {
    if tr != [] {
      MonotoneInit(start, tr);
      OwnsSerialInit(tr, l);
      assert ExpiryBySerial(Init(tr), expiry);
      hide Inv, OwnsSerial, Adds, StoredAs, Monotone, ExpiryBySerial, Exec;
      RunKeepsInv(s, start, Init(tr), expiry);
      AddedStaysStored(s, start, Init(tr), expiry, l);
      ExecKeepsStored(Run(s, Init(tr)), Last(tr), l, TimeAfter(start, Init(tr)), expiry);
    }
  }

  ghost predicate AddsRecord(tr: seq<Step>, rec: Record) {
    exists i :: 0 <= i < |tr| && tr[i].AddStep? && Record(tr[i].license, tr[i].contract) == rec
  }

  /** What the store holds, to the byte and with its contract, was in it before the run or was added by the run. */
  lemma {:induction false} StoredWasAdded(s: State, start: Time, tr: seq<Step>, expiry: string -> Time, id: string)
    requires Inv(s, start, expiry) && Monotone(start, tr) && ExpiryBySerial(tr, expiry)
    requires id in Run(s, tr).store
    ensures (id in s.store && Run(s, tr).store[id] == s.store[id]) || AddsRecord(tr, Run(s, tr).store[id])
    decreases |tr|
  {
    hide Inv;
    if tr != [] {
      var before, rec := Run(s, Init(tr)), Run(s, tr).store[id];
      MonotoneInit(start, tr);
      RunKeepsInv(s, start, Init(tr), expiry);
      if Last(tr).LookupStep? {
        InvLater(before, TimeAfter(start, Init(tr)), Last(tr).at, expiry);
        LookupKeepsInv(before, Last(tr).feature, Last(tr).at, expiry);
      }
      if id in before.store && before.store[id] == rec {
        StoredWasAdded(s, start, Init(tr), expiry, id);
        assert AddsRecord(Init(tr), rec) ==> AddsRecord(tr, rec);
      } else {
        assert Last(tr).AddStep? && Record(Last(tr).license, Last(tr).contract) == rec;
      }
    }
  }
}
