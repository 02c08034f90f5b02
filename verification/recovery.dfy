/** One crash: the cache directory that a registry keeps is enough to rebuild what it could serve. */
module Recovery {
  import opened Licenses
  import opened RegistryStates
  import opened Registries
  import opened Traces
  import opened Loader

  // ---------- From an empty directory: the files are the store ----------

  ghost predicate FilesAreStore(s: State) {
    && s.files.Some? && s.files.value.Keys == s.store.Keys
    && forall id :: id in s.store ==> s.files.value[id] == s.store[id].license.data
  }

  lemma {:induction false} LookupKeepsFilesAreStore(s: State, f: string, t: Time)
    requires FilesAreStore(s)
    ensures FilesAreStore(Lookup(s, f, t).state)
    decreases if f in s.queues then |s.queues[f]| else 0
  {
    if f in s.queues && s.queues[f] != [] && Expired(s.queues[f][0], s.ttl, t) {
      assert FilesAreStore(Evict(s, f));
      LookupKeepsFilesAreStore(Evict(s, f), f, t);
    }
  }

  /** The directory holds one file per stored licence, under its serial, and loses it on eviction. */
  lemma {:induction false} RunKeepsFilesAreStore(s: State, tr: seq<Step>)
    requires FilesAreStore(s)
    ensures FilesAreStore(Run(s, tr))
    decreases |tr|
  {
    if tr != [] {
      RunKeepsFilesAreStore(s, Init(tr));
      if Last(tr).LookupStep? {
        LookupKeepsFilesAreStore(Run(s, Init(tr)), Last(tr).feature, Last(tr).at);
      }
    }
  }

  // ---------- Across restarts: what else may be in the directory ----------

  /** Every stored licence is genuine, has started, and is in its own file. */
  ghost predicate StoreBacked(decode: Decoder, s: State, t: Time) {
    s.files.Some? && forall id :: id in s.store ==>
      var l := s.store[id].license;
      Genuine(decode, l) && l.notBefore <= t && id in s.files.value && s.files.value[id] == l.data
  }

  /** A file holds a stored licence, one that has expired, or none at all. */
  ghost predicate FileSound(decode: Decoder, s: State, data: Bytes, t: Time) {
    match Certificate(decode, data)
    case None => true
    case Some(l) => Stored(s, l) || Expired(l, s.ttl, t)
  }

  ghost predicate FilesSound(decode: Decoder, s: State, t: Time) {
    s.files.Some? && forall name :: name in s.files.value ==> FileSound(decode, s, s.files.value[name], t)
  }

  /** The directory mirrors the registry, up to leftovers that no restart would bring back. */
  ghost predicate Mirrored(decode: Decoder, s: State, t: Time) {
    StoreBacked(decode, s, t) && FilesSound(decode, s, t)
  }

  lemma {:induction false} MirroredLater(decode: Decoder, s: State, t: Time, u: Time)
    requires Mirrored(decode, s, t) && t <= u
    ensures Mirrored(decode, s, u)
  {
  }

  lemma {:induction false} AddKeepsMirrored(decode: Decoder, s: State, l: License, c: Option<Contract>, t: Time)
    requires Mirrored(decode, s, t) && Genuine(decode, l) && l.notBefore <= t
    ensures Mirrored(decode, Add(s, l, c), t)
  {
    if l.id !in s.store {
      var s' := Add(s, l, c);
      forall name | name in s'.files.value
        ensures FileSound(decode, s', s'.files.value[name], t)
      {
        if name != l.id {
          assert FileSound(decode, s, s.files.value[name], t);
        }
      }
    }
  }

  lemma {:induction false} EvictKeepsMirrored(decode: Decoder, s: State, f: string, t: Time, expiry: string -> Time)
    requires Mirrored(decode, s, t) && RecordsIndexed(s, expiry)
    requires f in s.queues && s.queues[f] != [] && Expired(s.queues[f][0], s.ttl, t)
    requires s.queues[f][0].notAfter == expiry(s.queues[f][0].id)
    ensures Mirrored(decode, Evict(s, f), t)
  {
    var root, s' := s.queues[f][0], Evict(s, f);
    forall name | name in s'.files.value
      ensures FileSound(decode, s', s'.files.value[name], t)
    {
      assert FileSound(decode, s, s.files.value[name], t);
    }
  }

  lemma {:induction false} LookupKeepsMirrored(decode: Decoder, s: State, f: string, t: Time, expiry: string -> Time)
    requires Mirrored(decode, s, t) && Inv(s, t, expiry)
    ensures Mirrored(decode, Lookup(s, f, t).state, t)
    decreases if f in s.queues then |s.queues[f]| else 0
  {
    if f in s.queues && s.queues[f] != [] && Expired(s.queues[f][0], s.ttl, t) {
      var root := s.queues[f][0];
      assert root in Elems(s.queues, f);
      assert EntrySound(s, f, root, t, expiry);
      EvictKeepsInv(s, f, t, expiry);
      EvictKeepsMirrored(decode, s, f, t, expiry);
      LookupKeepsMirrored(decode, Evict(s, f), f, t, expiry);
    }
  }

  /** Every licence added in a run was parsed, and so had started, by the time it was added. */
  ghost predicate AddsParsed(decode: Decoder, tr: seq<Step>) {
    forall i :: 0 <= i < |tr| && tr[i].AddStep? ==>
      Genuine(decode, tr[i].license) && tr[i].license.notBefore <= tr[i].at
  }

  lemma {:induction false} AddsParsedExpiry(decode: Decoder, tr: seq<Step>)
    requires UniqueSerials(decode) && AddsParsed(decode, tr)
    ensures ExpiryBySerial(tr, SerialExpiry(decode))
  {
    forall i | 0 <= i < |tr| && tr[i].AddStep?
      ensures tr[i].license.notAfter == SerialExpiry(decode)(tr[i].license.id)
    {
      SerialDeterminesExpiry(decode, tr[i].license);
    }
  }

  lemma {:induction false} RunKeepsMirrored(decode: Decoder, s: State, start: Time, tr: seq<Step>)
    requires UniqueSerials(decode) && AddsParsed(decode, tr) && Monotone(start, tr)
    requires Mirrored(decode, s, start) && Inv(s, start, SerialExpiry(decode))
    ensures Mirrored(decode, Run(s, tr), TimeAfter(start, tr))
    decreases |tr|
  {
    hide Inv;
    if tr != [] {
      var expiry, t, u := SerialExpiry(decode), TimeAfter(start, Init(tr)), Last(tr).at;
      MonotoneInit(start, tr);
      RunKeepsMirrored(decode, s, start, Init(tr));
      AddsParsedExpiry(decode, Init(tr));
      RunKeepsInv(s, start, Init(tr), expiry);
      var s' := Run(s, Init(tr));
      MirroredLater(decode, s', t, u);
      InvLater(s', t, u, expiry);
      match Last(tr)
      case AddStep(l, c, _) => AddKeepsMirrored(decode, s', l, c, u);
      case LookupStep(f, _) => LookupKeepsMirrored(decode, s', f, u, expiry);
      case NoteStep(id, usage, _) =>
    }
  }

  // ---------- Restart ----------

  /** Both registries hold the same licences, apart from those that have expired by `t`. */
  ghost predicate SameLive(s: State, s': State, t: Time) {
    s'.ttl == s.ttl && forall l :: Live(s, l, t) ==> (Stored(s, l) <==> Stored(s', l))
  }

  /** What holds after `names` have been loaded into the registry that replaces `s`. */
  ghost predicate Reloading(decode: Decoder, s: State, s': State, names: seq<string>, t: Time) {
    && s'.ttl == s.ttl && s'.files == s.files
    && (forall id :: id in s'.store ==> id in s.store && s'.store[id].license == s.store[id].license)
    && (forall name, l :: name in names && Holds(decode, s, name, l) && Stored(s, l) && Live(s, l, t) ==> Stored(s', l))
  }

  ghost predicate Holds(decode: Decoder, s: State, name: string, l: License) {
    s.files.Some? && name in s.files.value && Certificate(decode, s.files.value[name]) == Some(l)
  }

  /** A name that holds nothing new to bring back. */
  lemma {:induction false} ReloadNothing(decode: Decoder, s: State, before: State, names: seq<string>, name: string,
          t: Time)
    requires Reloading(decode, s, before, names, t)
    requires forall l :: Holds(decode, s, name, l) && Stored(s, l) && Live(s, l, t) ==> Stored(before, l)
    ensures Reloading(decode, s, before, names + [name], t)
  {
    hide Holds;
  }

  /** Adding a stored licence from its own file leaves the directory as it is. */
  lemma {:induction false} ReloadAdmitted(decode: Decoder, s: State, before: State, names: seq<string>, name: string,
          l: License, t: Time)
    requires Reloading(decode, s, before, names, t) && Holds(decode, s, name, l)
    requires Stored(s, l) && l.id in s.files.value && s.files.value[l.id] == l.data
    ensures Reloading(decode, s, Add(before, l, None), names + [name], t)
  {
    assert forall m :: Holds(decode, s, name, m) ==> m == l;
    hide Holds;
    if l.id !in before.store {
      assert s.files.value[l.id := l.data] == s.files.value;
    }
  }

  lemma {:induction false} ReloadOne(decode: Decoder, s: State, t0: Time, before: State, names: seq<string>,
          name: string, r: Reading, t: Time)
    requires Mirrored(decode, s, t0) && s.ttl == MIN_REMAINING_LIFE
    requires Reloading(decode, s, before, names, t) && name in s.files.value
    requires t0 <= r.parsedAt <= r.checkedAt <= t
    ensures var after := LoadEntry(decode, Own, map[], Loaded(before, true), name, r);
      after.ok && Reloading(decode, s, after.state, names + [name], t)
  {
    var data := s.files.value[name];
    assert FileSound(decode, s, data, t0);
    match Admit(decode, data, r)
    case Malformed => ReloadNothing(decode, s, before, names, name, t);
    case TooOld => ReloadNothing(decode, s, before, names, name, t);
    case Admitted(l) =>
      assert Certificate(decode, data) == Some(l) && Stored(s, l);
      hide Reloading, Certificate, FileSound;
      ReloadAdmitted(decode, s, before, names, name, l, t);
  }

  lemma {:induction false} ReloadAll(decode: Decoder, s: State, t0: Time, names: seq<string>, rs: seq<Reading>,
          t: Time)
    requires Mirrored(decode, s, t0) && s.ttl == MIN_REMAINING_LIFE
    requires |names| == |rs| && Ordered(t0, rs, t)
    requires forall name :: name in names ==> name in s.files.value
    ensures var loaded := Load(decode, Own, map[], Empty(s.ttl, map[], s.files), names, rs);
      loaded.ok && Reloading(decode, s, loaded.state, names, t)
    decreases |names|
  {
    if names != [] {
      var n := |names| - 1;
      ReloadAll(decode, s, t0, names[..n], rs[..n], t);
      var before := Load(decode, Own, map[], Empty(s.ttl, map[], s.files), names[..n], rs[..n]);
      ReloadOne(decode, s, t0, before.state, names[..n], names[n], rs[n], t);
      assert names == names[..n] + [names[n]];
    }
  }

  /** Loading the directory of a crashed registry brings back exactly the licences that are still live. */
  lemma {:induction false} RestartRecovers(decode: Decoder, s: State, t0: Time, names: seq<string>,
          rs: seq<Reading>, t: Time)
    requires Mirrored(decode, s, t0) && s.ttl == MIN_REMAINING_LIFE
    requires forall id :: id in s.store ==> s.store[id].license.id == id
    requires |names| == |rs| && Ordered(t0, rs, t)
    requires forall name :: name in names <==> name in s.files.value
    ensures var loaded := Load(decode, Own, map[], Empty(s.ttl, map[], s.files), names, rs);
      loaded.ok && SameLive(s, loaded.state, t) && Mirrored(decode, loaded.state, t)
  {
    ReloadAll(decode, s, t0, names, rs, t);
    var s' := Load(decode, Own, map[], Empty(s.ttl, map[], s.files), names, rs).state;
    forall l | Stored(s, l) && Live(s, l, t)
      ensures Stored(s', l)
    {
      assert l.id in names && Holds(decode, s, l.id, l);
    }
    forall name | name in s'.files.value
      ensures FileSound(decode, s', s'.files.value[name], t)
    {
      assert FileSound(decode, s, s.files.value[name], t0);
    }
  }

  /** `Less` decides between any two licences that could be served for `f`. */
  ghost predicate TotalOn(s: State, f: string, t: Time) {
    forall a, b :: Servable(s, f, t, a) && Servable(s, f, t, b) && a != b ==> Less(a, b) || Less(b, a)
  }

  /** Registries with the same live licences find the same features, and the same licence where `Less` decides. */
  lemma {:induction false} SameLiveSameAnswers(s: State, s': State, f: string, t: Time, expiry: string -> Time)
    requires Inv(s, t, expiry) && Inv(s', t, expiry) && SameLive(s, s', t)
    ensures Lookup(s, f, t).license.Some? <==> Lookup(s', f, t).license.Some?
    ensures TotalOn(s, f, t) ==> Lookup(s, f, t).license == Lookup(s', f, t).license
  {
    LookupAnswersLikeScan(s, f, t, expiry);
    LookupAnswersLikeScan(s', f, t, expiry);
    hide Inv;
    assert forall l :: Servable(s, f, t, l) <==> Servable(s', f, t, l);
  }

  lemma {:induction false} LoadKeepsInv(decode: Decoder, source: Source, specials: map<string, Special>, s: State,
          names: seq<string>, rs: seq<Reading>, t: Time)
    requires UniqueSerials(decode) && |names| == |rs| && Inv(s, t, SerialExpiry(decode))
    ensures Inv(Load(decode, source, specials, s, names, rs).state, t, SerialExpiry(decode))
    decreases |names|
  {
    hide Inv;
    if names != [] {
      var n := |names| - 1;
      LoadKeepsInv(decode, source, specials, s, names[..n], rs[..n], t);
      var before := Load(decode, source, specials, s, names[..n], rs[..n]).state;
      forall l | Genuine(decode, l)
        ensures Inv(Add(before, l, None), t, SerialExpiry(decode))
      {
        SerialDeterminesExpiry(decode, l);
        AddKeepsInv(before, l, None, t, SerialExpiry(decode));
      }
    }
  }
}
