/** What a spoke can serve after a sync, and so what of a hub pass reaches it. */
module Deliveries {
  import opened Licenses
  import opened RegistryStates
  import opened Syncer
  import opened HubPasses
  import opened Fixpoint
  import opened Renewal
  import SyncOrder

  // ---------- What a sync lets the spoke serve ----------

  /** The entry holds a certificate for `f` that a spoke may serve at `u`. */
  ghost predicate Lists(decode: Decoder, data: Bytes, f: string, u: Time) {
    match Certificate(decode, data)
    case None => false
    case Some(l) => f in l.features && u <= l.notAfter - MIN_REMAINING_LIFE
  }

  ghost predicate CanServe(s: State, f: string, u: Time) {
    exists l :: Servable(s, f, u, l)
  }

  /** Records are kept, and every new one holds the certificate of one of the entries. */
  ghost predicate SyncedFrom(decode: Decoder, s: State, entries: seq<Bytes>, s': State) {
    && s'.ttl == s.ttl
    && (forall id :: id in s.store ==> id in s'.store && s'.store[id] == s.store[id])
    && (forall id :: id in s'.store && id !in s.store ==>
          Genuine(decode, s'.store[id].license) && s'.store[id].license.data in entries)
  }

  lemma {:induction false} AddKeepsSyncedFrom(decode: Decoder, s: State, entries: seq<Bytes>, data: Bytes, s': State,
          l: License)
    requires SyncedFrom(decode, s, entries, s') && Genuine(decode, l) && l.data == data
    ensures SyncedFrom(decode, s, entries + [data], Add(s', l, None))
  {
  }

  ghost predicate AdmittedStored(decode: Decoder, data: Bytes, r: Reading, s: State) {
    match Admit(decode, data, r)
    case Malformed => true
    case TooOld => true
    case Admitted(l) => l.id in s.store
  }

  lemma {:induction false} SyncEntryStores(decode: Decoder, s: State, entries: seq<Bytes>, data: Bytes, r: Reading,
          before: State)
    requires SyncedFrom(decode, s, entries, before) && Admit(decode, data, r) != Malformed
    ensures var s' := SyncEntry(decode, Synced(before, true), data, r).state;
      && SyncedFrom(decode, s, entries + [data], s') && AdmittedStored(decode, data, r, s')
      && before.store.Keys <= s'.store.Keys
  {
    match Admit(decode, data, r)
    case Malformed => assert false;
    case TooOld =>
    case Admitted(l) =>
      assert Genuine(decode, l) && l.data == data;
      AddKeepsSyncedFrom(decode, s, entries, data, before, l);
  }

  /** A sync that succeeds, whatever its readings, stores a licence for every entry that it admits. */
  lemma {:induction false} SyncStores(decode: Decoder, s: State, entries: seq<Bytes>, rs: seq<Reading>)
    requires |entries| == |rs| && Sync(decode, s, entries, rs).ok
    ensures SyncedFrom(decode, s, entries, Sync(decode, s, entries, rs).state)
    ensures forall i :: 0 <= i < |entries| ==>
      AdmittedStored(decode, entries[i], rs[i], Sync(decode, s, entries, rs).state)
    decreases |entries|
  {
    if entries != [] {
      var n := |entries| - 1;
      var before := Sync(decode, s, entries[..n], rs[..n]);
      assert before.ok && Admit(decode, entries[n], rs[n]) != Malformed;
      SyncStores(decode, s, entries[..n], rs[..n]);
      SyncEntryStores(decode, s, entries[..n], entries[n], rs[n], before.state);
      assert entries == entries[..n] + [entries[n]];
      var s' := Sync(decode, s, entries, rs).state;
      assert s' == SyncEntry(decode, Synced(before.state, true), entries[n], rs[n]).state;
      hide Sync, SyncedFrom;
      forall i | 0 <= i < |entries|
        ensures AdmittedStored(decode, entries[i], rs[i], s')
      {
        if i < n {
          assert AdmittedStored(decode, entries[..n][i], rs[..n][i], before.state);
        }
      }
    }
  }

  lemma {:induction false} ListedIsAdmitted(decode: Decoder, data: Bytes, r: Reading, f: string, u: Time)
    requires Lists(decode, data, f, u) && Admit(decode, data, r) != Malformed && r.checkedAt <= u
    ensures Admit(decode, data, r) == Admitted(Certificate(decode, data).value)
  {
  }

  lemma {:induction false} SyncedEntryIsServable(decode: Decoder, s: State, entries: seq<Bytes>, rs: seq<Reading>,
          k: nat, f: string, u: Time)
    requires UniqueSerials(decode) && AllGenuine(decode, s) && s.ttl == MIN_REMAINING_LIFE
    requires |entries| == |rs| && Sync(decode, s, entries, rs).ok
    requires RecordsIndexed(Sync(decode, s, entries, rs).state, SerialExpiry(decode))
    requires k < |entries| && rs[k].checkedAt <= u && Lists(decode, entries[k], f, u)
    ensures CanServe(Sync(decode, s, entries, rs).state, f, u)
  {
    SyncOrder.SyncFailsIff(decode, s, entries, rs);
    SyncStores(decode, s, entries, rs);
    ListedIsAdmitted(decode, entries[k], rs[k], f, u);
    assert AdmittedStored(decode, entries[k], rs[k], Sync(decode, s, entries, rs).state);
    var l, s' := Certificate(decode, entries[k]).value, Sync(decode, s, entries, rs).state;
    var m := s'.store[l.id].license;
    hide Sync, Admit, InItsHeaps;
    assert Genuine(decode, l) && Genuine(decode, m) && m.id == l.id;
    assert SameCertificate(m, l) && Servable(s', f, u, m);
  }

  lemma {:induction false} ServableWasSynced(decode: Decoder, s: State, entries: seq<Bytes>, s': State, f: string,
          u: Time)
    requires SyncedFrom(decode, s, entries, s') && s.ttl == MIN_REMAINING_LIFE
    ensures CanServe(s, f, u) ==> CanServe(s', f, u)
    ensures CanServe(s', f, u) ==> CanServe(s, f, u) || exists data :: data in entries && Lists(decode, data, f, u)
  {
    if l :| Servable(s, f, u, l) {
      assert Servable(s', f, u, l);
    }
    if l :| Servable(s', f, u, l) {
      if l.id in s.store {
        assert Servable(s, f, u, l);
      } else {
        assert Lists(decode, l.data, f, u);
      }
    }
  }

  /**
   * After a sync that succeeds, in whatever order and at whatever readings, the spoke serves a feature if and only if
   * it could before or some entry of the Secret holds a certificate for it that is good for the spoke.
   */
  lemma {:induction false} SyncServesIff(decode: Decoder, s: State, start: Time, entries: seq<Bytes>,
          rs: seq<Reading>, f: string, u: Time)
    requires UniqueSerials(decode) && Inv(s, start, SerialExpiry(decode)) && AllGenuine(decode, s)
    requires s.ttl == MIN_REMAINING_LIFE && |entries| == |rs| && Sync(decode, s, entries, rs).ok
    requires start <= u && forall i :: 0 <= i < |rs| ==> rs[i].checkedAt <= u
    ensures var s' := Sync(decode, s, entries, rs).state;
      && Inv(s', u, SerialExpiry(decode)) && s'.ttl == s.ttl
      && (CanServe(s', f, u) <==>
          CanServe(s, f, u) || exists data :: data in entries && Lists(decode, data, f, u))
  {
    var expiry, s' := SerialExpiry(decode), Sync(decode, s, entries, rs).state;
    InvLater(s, start, u, expiry);
    SyncOrder.SyncKeepsInv(decode, s, entries, rs, u);
    SyncStores(decode, s, entries, rs);
    ServableWasSynced(decode, s, entries, s', f, u);
    assert RecordsIndexed(s', expiry);
    hide Inv, RecordsIndexed, UniqueSerials, SerialExpiry, CanServe, Lists, AllGenuine, Sync;
    if data :| data in entries && Lists(decode, data, f, u) {
      var k: nat :| k < |entries| && entries[k] == data;
      SyncedEntryIsServable(decode, s, entries, rs, k, f, u);
    }
  }

  /** A lookup finds something exactly if the scan would. */
  lemma {:induction false} LookupFindsIff(s: State, f: string, u: Time, expiry: string -> Time)
    requires Inv(s, u, expiry)
    ensures Lookup(s, f, u).license.Some? <==> CanServe(s, f, u)
  {
    LookupAnswersLikeScan(s, f, u, expiry);
  }

  // ---------- What a pass lets the spoke serve ----------

  /** The Secret that the pass leaves has under `plan` a certificate for `f` that is good for a spoke at `u`. */
  ghost predicate Delivers(decode: Decoder, p: HubPass, data: map<string, Bytes>, plan: string, f: string, u: Time) {
    match LastShipped(decode, p, plan)
    case Some(l) => f in l.features && u <= l.notAfter - MIN_REMAINING_LIFE
    case None => plan in data && Lists(decode, data[plan], f, u)
  }

  /** Some licence last shipped under its plan is for `f`, or else something that the pass has left in the Secret. */
  ghost predicate Reaches(decode: Decoder, p: HubPass, data: map<string, Bytes>, f: string, u: Time) {
    exists plan :: Delivers(decode, p, data, plan, f, u)
  }

  lemma {:induction false} SecretListsIff(decode: Decoder, p: HubPass, data: map<string, Bytes>, plan: string,
          f: string, u: Time)
    requires UniqueSerials(decode) && HubReady(decode, p)
    ensures var secret := PassEnd(decode, p, data).data;
      Delivers(decode, p, data, plan, f, u) <==> plan in secret && Lists(decode, secret[plan], f, u)
  {
    PassShips(decode, p.state, data, p.turns);
    if LastShipped(decode, p, plan).Some? {
      LastShippedIsGenuine(decode, p, plan);
    }
    hide RunPass, Shipped, Inv, AllGenuine, SerialExpiry, UniqueSerials;
  }

  lemma {:induction false} ReachesIff(decode: Decoder, p: HubPass, data: map<string, Bytes>, order: seq<string>,
          f: string, u: Time)
    requires UniqueSerials(decode) && HubReady(decode, p) && Ranging(PassEnd(decode, p, data).data, {}, order)
    ensures var entries := Entries(PassEnd(decode, p, data).data, order);
      Reaches(decode, p, data, f, u) <==> exists e :: e in entries && Lists(decode, e, f, u)
  {
    var secret := PassEnd(decode, p, data).data;
    var entries := Entries(secret, order);
    hide HubReady, UniqueSerials, PassEnd, Lists, Delivers;
    if Reaches(decode, p, data, f, u) {
      var plan :| Delivers(decode, p, data, plan, f, u);
      SecretListsIff(decode, p, data, plan, f, u);
      var i :| 0 <= i < |order| && order[i] == plan;
      assert entries[i] == secret[plan];
    }
    if e :| e in entries && Lists(decode, e, f, u) {
      var i :| 0 <= i < |entries| && entries[i] == e;
      assert order[i] in secret;
      SecretListsIff(decode, p, data, order[i], f, u);
      assert Delivers(decode, p, data, order[i], f, u);
    }
  }

  /** A sync that succeeds of the Secret that a pass has left, in any order, the last reading no later than `end`. */
  ghost predicate SyncsPass(decode: Decoder, p: HubPass, data: map<string, Bytes>, s: State, order: seq<string>,
          rs: seq<Reading>, end: Time) {
    var secret := PassEnd(decode, p, data).data;
    && Ranging(secret, {}, order) && |rs| == |order|
    && Sync(decode, s, Entries(secret, order), rs).ok
    && forall i :: 0 <= i < |rs| ==> rs[i].checkedAt <= end
  }

  function AfterSync(decode: Decoder, p: HubPass, data: map<string, Bytes>, s: State, order: seq<string>,
          rs: seq<Reading>): State
  {
    var secret := PassEnd(decode, p, data).data;
    if |rs| == |order| && forall k :: k in order ==> k in secret
    then Sync(decode, s, Entries(secret, order), rs).state else s
  }

  /** A spoke's registry. */
  ghost predicate SpokeReady(decode: Decoder, s: State, start: Time) {
    Inv(s, start, SerialExpiry(decode)) && AllGenuine(decode, s) && s.ttl == MIN_REMAINING_LIFE
  }

  /**
   * What of a hub pass reaches a spoke: after a sync of the Secret the spoke serves a feature if and only if it could
   * before, or some licence that the pass shipped last under its plan is for it, or else an entry left from before.
   * What the pass has served but shipped under a plan that it shipped again does not count.
   */
  lemma {:induction false} PassReachesIff(decode: Decoder, p: HubPass, data: map<string, Bytes>, s: State, start: Time,
          order: seq<string>, rs: seq<Reading>, f: string, u: Time)
    requires UniqueSerials(decode) && HubReady(decode, p) && SpokeReady(decode, s, start)
    requires SyncsPass(decode, p, data, s, order, rs, u) && start <= u
    ensures var s' := AfterSync(decode, p, data, s, order, rs);
      && Inv(s', u, SerialExpiry(decode)) && s'.ttl == MIN_REMAINING_LIFE
      && (CanServe(s', f, u) <==> CanServe(s, f, u) || Reaches(decode, p, data, f, u))
      && (Lookup(s', f, u).license.Some? <==> CanServe(s, f, u) || Reaches(decode, p, data, f, u))
  {
    hide HubReady, UniqueSerials, PassEnd, Lists, Reaches, CanServe, Inv, AllGenuine, SerialExpiry, Sync;
    var secret := PassEnd(decode, p, data).data;
    ReachesIff(decode, p, data, order, f, u);
    SyncServesIff(decode, s, start, Entries(secret, order), rs, f, u);
    LookupFindsIff(AfterSync(decode, p, data, s, order, rs), f, u, SerialExpiry(decode));
  }
}
