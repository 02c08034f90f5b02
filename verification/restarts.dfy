/** Any number of lives of a proxy server over one cache directory: start up, run, crash, and start again. */
module Restarts {
  import opened Licenses
  import opened RegistryStates
  import opened Registries
  import opened Traces
  import opened Loader
  import opened Recovery
  import Locking

  /** The mounted licence directory, and how far down its listing the start got, with the readings made. */
  datatype Mount = Mount(files: map<string, Bytes>, specials: map<string, Special>, names: seq<string>,
    rs: seq<Reading>)

  /**
   * One life: the mounted directory is loaded first, if there is one, and then the cache directory, as listed by
   * `names`; the start is over at `up`, and the server then makes `run` until it crashes.
   */
  datatype Life = Life(mount: Option<Mount>, names: seq<string>, rs: seq<Reading>, up: Time, run: seq<Step>)

  ghost predicate Shaped(life: Life) {
    |life.names| == |life.rs| && (life.mount.Some? ==> |life.mount.value.names| == |life.mount.value.rs|)
  }

  function LoadMount(decode: Decoder, disk: map<string, Bytes>, life: Life): Loaded
    requires Shaped(life)
  {
    var s := Empty(MIN_REMAINING_LIFE, map[], Some(disk));
    match life.mount
    case None => Loaded(s, true)
    case Some(m) => Load(decode, Foreign(m.files), m.specials, s, m.names, m.rs)
  }

  /** The start: the cache directory is not looked into if the mounted one could not be loaded. */
  function Boot(decode: Decoder, disk: map<string, Bytes>, life: Life): Loaded
    requires Shaped(life)
  {
    var mounted := LoadMount(decode, disk, life);
    if mounted.ok then Load(decode, Own, map[], mounted.state, life.names, life.rs) else mounted
  }

  function Crashed(decode: Decoder, disk: map<string, Bytes>, life: Life): State
    requires Shaped(life)
  {
    Run(Boot(decode, disk, life).state, life.run)
  }

  /** Readings are made between the last crash and `up`, the listing is complete, and only parsed licences are added. */
  ghost predicate LifeOk(decode: Decoder, disk: map<string, Bytes>, start: Time, life: Life) {
    && Shaped(life) && Ordered(start, life.rs, life.up)
    && (life.mount.Some? ==> Ordered(start, life.mount.value.rs, life.up))
    && (LoadMount(decode, disk, life).ok ==>
          forall name :: name in life.names <==> name in LoadMount(decode, disk, life).state.files.GetOr(map[]))
    && (!Boot(decode, disk, life).ok ==> life.run == [])
    && Monotone(life.up, life.run) && AddsParsed(decode, life.run)
  }

  // ---------- What is always true of the directory ----------

  /** Every certificate in the directory is under its own serial and has started. */
  ghost predicate DiskOk(decode: Decoder, disk: map<string, Bytes>, t: Time) {
    forall name :: name in disk ==>
      match Certificate(decode, disk[name])
      case None => true
      case Some(l) => l.id == name && l.notBefore <= t
  }

  ghost predicate Backed(decode: Decoder, s: State, t: Time) {
    && StoreBacked(decode, s, t) && DiskOk(decode, s.files.value, t)
    && forall id :: id in s.store ==> s.store[id].license.id == id
  }

  lemma {:induction false} BackedLater(decode: Decoder, s: State, t: Time, u: Time)
    requires Backed(decode, s, t) && t <= u
    ensures Backed(decode, s, u)
  {
  }

  lemma {:induction false} AddKeepsBacked(decode: Decoder, s: State, l: License, c: Option<Contract>, t: Time)
    requires Backed(decode, s, t) && Genuine(decode, l) && l.notBefore <= t
    ensures Backed(decode, Add(s, l, c), t)
  {
  }

  lemma {:induction false} LookupKeepsBacked(decode: Decoder, s: State, f: string, t: Time, u: Time)
    requires Backed(decode, s, u)
    ensures Backed(decode, Lookup(s, f, t).state, u)
    decreases if f in s.queues then |s.queues[f]| else 0
  {
    if f in s.queues && s.queues[f] != [] && Expired(s.queues[f][0], s.ttl, t) {
      assert Backed(decode, Evict(s, f), u);
      LookupKeepsBacked(decode, Evict(s, f), f, t, u);
    }
  }

  /** The directory holds `l`, perhaps in other bytes. */
  ghost predicate OnDisk(decode: Decoder, files: Option<map<string, Bytes>>, l: License) {
    files.Some? && l.id in files.value &&
    var c := Certificate(decode, files.value[l.id]);
    c.Some? && SameCertificate(c.value, l)
  }

  lemma {:induction false} AddKeepsOnDisk(decode: Decoder, s: State, m: License, c: Option<Contract>, l: License)
    requires UniqueSerials(decode) && Genuine(decode, m) && Genuine(decode, l) && OnDisk(decode, s.files, l)
    ensures OnDisk(decode, Add(s, m, c).files, l)
  {
  }

  /** An eviction takes only what has expired off the directory. */
  lemma {:induction false} LookupKeepsOnDisk(decode: Decoder, s: State, f: string, t: Time, expiry: string -> Time,
          l: License)
    requires Inv(s, t, expiry) && l.notAfter == expiry(l.id) && Live(s, l, t) && OnDisk(decode, s.files, l)
    ensures OnDisk(decode, Lookup(s, f, t).state.files, l)
    decreases if f in s.queues then |s.queues[f]| else 0
  {
    if f in s.queues && s.queues[f] != [] && Expired(s.queues[f][0], s.ttl, t) {
      assert s.queues[f][0] in Elems(s.queues, f);
      assert EntrySound(s, f, s.queues[f][0], t, expiry);
      EvictKeepsInv(s, f, t, expiry);
      LookupKeepsOnDisk(decode, Evict(s, f), f, t, expiry, l);
    }
  }

  // ---------- Runs ----------

  lemma {:induction false} RunKeepsBacked(decode: Decoder, s: State, start: Time, tr: seq<Step>)
    requires AddsParsed(decode, tr) && Monotone(start, tr) && Backed(decode, s, start)
    ensures Backed(decode, Run(s, tr), TimeAfter(start, tr))
    decreases |tr|
  {
    hide Backed;
    if tr != [] {
      MonotoneInit(start, tr);
      RunKeepsBacked(decode, s, start, Init(tr));
      var before := Run(s, Init(tr));
      BackedLater(decode, before, TimeAfter(start, Init(tr)), Last(tr).at);
      match Last(tr)
      case AddStep(l, c, t) => AddKeepsBacked(decode, before, l, c, t);
      case LookupStep(f, t) => LookupKeepsBacked(decode, before, f, t, t);
      case NoteStep(id, usage, t) => NoteKeepsBacked(decode, before, id, usage, t);
    }
  }

  lemma {:induction false} NoteKeepsBacked(decode: Decoder, s: State, id: string, usage: Usage, t: Time)
    requires Backed(decode, s, t)
    ensures Backed(decode, Note(s, id, usage), t)
  {
  }

  lemma {:induction false} RunKeepsOnDisk(decode: Decoder, s: State, start: Time, tr: seq<Step>, l: License)
    requires UniqueSerials(decode) && AddsParsed(decode, tr) && Monotone(start, tr) && Genuine(decode, l)
    requires Inv(s, start, SerialExpiry(decode)) && Live(s, l, TimeAfter(start, tr)) && OnDisk(decode, s.files, l)
    ensures OnDisk(decode, Run(s, tr).files, l)
    decreases |tr|
  {
    hide Inv, OnDisk, UniqueSerials, SerialExpiry;
    if tr != [] {
      var expiry, before := SerialExpiry(decode), Run(s, Init(tr));
      MonotoneInit(start, tr);
      RunKeepsOnDisk(decode, s, start, Init(tr), l);
      AddsParsedExpiry(decode, Init(tr));
      RunKeepsInv(s, start, Init(tr), expiry);
      RunKeepsTtl(s, Init(tr));
      InvLater(before, TimeAfter(start, Init(tr)), Last(tr).at, expiry);
      SerialDeterminesExpiry(decode, l);
      match Last(tr)
      case AddStep(m, c, _) => AddKeepsOnDisk(decode, before, m, c, l);
      case LookupStep(f, t) => LookupKeepsOnDisk(decode, before, f, t, expiry, l);
      case NoteStep(_, _, _) =>
    }
  }

  // ---------- Loading ----------

  /** Where the licences of a start come from: files of the directory as it was, or files of the mounted one. */
  ghost predicate HasSource(decode: Decoder, disk: map<string, Bytes>, mount: Option<Mount>, start: Time, l: License) {
    || (l.id in disk && Certificate(decode, disk[l.id]) == Some(l) && start <= l.notAfter - MIN_REMAINING_LIFE)
    || (mount.Some? && l.data in mount.value.files.Values)
  }

  /** A registry being filled: every file it has not written itself is as it was, and every record has a source. */
  ghost predicate Filling(decode: Decoder, disk: map<string, Bytes>, mount: Option<Mount>, start: Time, s: State,
          t: Time) {
    && Backed(decode, s, t) && s.ttl == MIN_REMAINING_LIFE
    && (forall name :: name in disk ==> name in s.files.value)
    && (forall name :: name in s.files.value && name !in s.store ==>
          name in disk && s.files.value[name] == disk[name])
    && (forall id :: id in s.store ==> HasSource(decode, disk, mount, start, s.store[id].license))
  }

  lemma {:induction false} FillKeepsFilling(decode: Decoder, disk: map<string, Bytes>, mount: Option<Mount>,
          start: Time, s: State, l: License, t: Time)
    requires Filling(decode, disk, mount, start, s, t) && Genuine(decode, l) && l.notBefore <= t
    requires l.id !in s.store ==> HasSource(decode, disk, mount, start, l)
    ensures Filling(decode, disk, mount, start, Add(s, l, None), t)
  {
    AddKeepsBacked(decode, s, l, None, t);
    hide Backed, HasSource;
  }

  lemma {:induction false} LoadEntryFills(decode: Decoder, source: Source, specials: map<string, Special>,
          disk: map<string, Bytes>, mount: Option<Mount>, start: Time, s: State, name: string, r: Reading, t: Time)
    requires Filling(decode, disk, mount, start, s, t) && start <= r.parsedAt <= r.checkedAt <= t
    requires source == Own || (mount.Some? && source == Foreign(mount.value.files))
    ensures Filling(decode, disk, mount, start, LoadEntry(decode, source, specials, Loaded(s, true), name, r).state, t)
  {
    var content := Content(s, source, name);
    if name !in specials && content.Some? && Admit(decode, content.value, r).Admitted? {
      var l := Admit(decode, content.value, r).license;
      assert Genuine(decode, l) && l.data == content.value;
      if source == Own && l.id !in s.store {
        assert l.id == name;
      }
      FillKeepsFilling(decode, disk, mount, start, s, l, t);
    }
  }

  lemma {:induction false} LoadFills(decode: Decoder, source: Source, specials: map<string, Special>,
          disk: map<string, Bytes>, mount: Option<Mount>, start: Time, s: State, names: seq<string>,
          rs: seq<Reading>, t: Time)
    requires Filling(decode, disk, mount, start, s, t) && |names| == |rs| && Ordered(start, rs, t)
    requires source == Own || (mount.Some? && source == Foreign(mount.value.files))
    ensures Filling(decode, disk, mount, start, Load(decode, source, specials, s, names, rs).state, t)
    decreases |names|
  {
    hide Filling;
    if names != [] {
      var n := |names| - 1;
      LoadFills(decode, source, specials, disk, mount, start, s, names[..n], rs[..n], t);
      var before := Load(decode, source, specials, s, names[..n], rs[..n]);
      if before.ok {
        LoadEntryFills(decode, source, specials, disk, mount, start, before.state, names[n], rs[n], t);
      }
    }
  }

  lemma {:induction false} LoadKeepsOnDisk(decode: Decoder, source: Source, specials: map<string, Special>,
          s: State, names: seq<string>, rs: seq<Reading>, l: License)
    requires UniqueSerials(decode) && |names| == |rs| && Genuine(decode, l) && OnDisk(decode, s.files, l)
    ensures OnDisk(decode, Load(decode, source, specials, s, names, rs).state.files, l)
    decreases |names|
  {
    hide OnDisk, UniqueSerials;
    if names != [] {
      var n := |names| - 1;
      LoadKeepsOnDisk(decode, source, specials, s, names[..n], rs[..n], l);
      var before := Load(decode, source, specials, s, names[..n], rs[..n]).state;
      forall m | Genuine(decode, m)
        ensures OnDisk(decode, Add(before, m, None).files, l)
      {
        AddKeepsOnDisk(decode, before, m, None, l);
      }
    }
  }

  /** The certificate in file `name`, if it is still live, is stored. */
  ghost predicate Recovered(decode: Decoder, s: State, name: string, t: Time) {
    name in s.store || (s.files.Some? && name in s.files.value &&
    match Certificate(decode, s.files.value[name])
    case None => true
    case Some(l) => Expired(l, s.ttl, t))
  }

  /** A file that does not back a record is as it was before the start. */
  lemma {:induction false} DiskFileIsNamed(decode: Decoder, disk: map<string, Bytes>, mount: Option<Mount>,
          start: Time, s: State, name: string, t: Time)
    requires DiskOk(decode, disk, start) && Filling(decode, disk, mount, start, s, t)
    requires name in s.files.value && name !in s.store
    ensures match Certificate(decode, s.files.value[name])
      case None => true
      case Some(l) => l.id == name && l.notBefore <= start
  {
  }

  lemma {:induction false} AddKeepsRecovered(decode: Decoder, s: State, l: License, t: Time)
    requires s.files.Some?
    ensures var s' := Add(s, l, None);
      && l.id in s'.store && s'.files.Some? && s.files.value.Keys <= s'.files.value.Keys
      && forall other :: Recovered(decode, s, other, t) ==> Recovered(decode, s', other, t)
  {
  }

  lemma {:induction false} LoadEntryRecovers(decode: Decoder, disk: map<string, Bytes>, mount: Option<Mount>,
          start: Time, s: State, name: string, r: Reading, t: Time)
    requires DiskOk(decode, disk, start) && Filling(decode, disk, mount, start, s, t)
    requires name in s.files.value && start <= r.parsedAt <= r.checkedAt <= t
    ensures var after := LoadEntry(decode, Own, map[], Loaded(s, true), name, r);
      && after.ok && Recovered(decode, after.state, name, t)
      && s.files.value.Keys <= after.state.files.value.Keys
      && forall other :: Recovered(decode, s, other, t) ==> Recovered(decode, after.state, other, t)
  {
    var data := s.files.value[name];
    var after := LoadEntry(decode, Own, map[], Loaded(s, true), name, r).state;
    match Admit(decode, data, r)
    case Admitted(l) =>
      hide Backed, HasSource, Parse, Certificate;
      assert after == Add(s, l, None);
      AddKeepsRecovered(decode, s, l, t);
      if name !in s.store {
        DiskFileIsNamed(decode, disk, mount, start, s, name, t);
      }
    case _ =>
      assert after == s;
      if name !in s.store {
        DiskFileIsNamed(decode, disk, mount, start, s, name, t);
        hide Backed, HasSource, Filling;
      }
  }

  lemma {:induction false} OwnLoadRecovers(decode: Decoder, disk: map<string, Bytes>, mount: Option<Mount>,
          start: Time, s: State, names: seq<string>, rs: seq<Reading>, t: Time)
    requires DiskOk(decode, disk, start) && Filling(decode, disk, mount, start, s, t)
    requires |names| == |rs| && Ordered(start, rs, t)
    requires forall name :: name in names ==> name in s.files.value
    ensures var loaded := Load(decode, Own, map[], s, names, rs);
      && loaded.ok && loaded.state.files.Some? && s.files.value.Keys <= loaded.state.files.value.Keys
      && forall name :: name in names ==> Recovered(decode, loaded.state, name, t)
    decreases |names|
  {
    hide Filling, DiskOk, Recovered;
    FillingHasFiles(decode, disk, mount, start, s, t);
    if names != [] {
      var n := |names| - 1;
      OwnLoadRecovers(decode, disk, mount, start, s, names[..n], rs[..n], t);
      LoadFills(decode, Own, map[], disk, mount, start, s, names[..n], rs[..n], t);
      var before := Load(decode, Own, map[], s, names[..n], rs[..n]).state;
      LoadEntryRecovers(decode, disk, mount, start, before, names[n], rs[n], t);
      assert names == names[..n] + [names[n]];
    }
  }

  // ---------- One start ----------

  lemma {:induction false} BootFills(decode: Decoder, disk: map<string, Bytes>, start: Time, life: Life)
    requires DiskOk(decode, disk, start) && LifeOk(decode, disk, start, life)
    ensures Filling(decode, disk, life.mount, start, LoadMount(decode, disk, life).state, life.up)
    ensures Filling(decode, disk, life.mount, start, Boot(decode, disk, life).state, life.up)
  {
    var s0 := Empty(MIN_REMAINING_LIFE, map[], Some(disk));
    assert Filling(decode, disk, life.mount, start, s0, life.up);
    hide Filling, DiskOk;
    if life.mount.Some? {
      var m := life.mount.value;
      LoadFills(decode, Foreign(m.files), m.specials, disk, life.mount, start, s0, m.names, m.rs, life.up);
    }
    var mounted := LoadMount(decode, disk, life);
    if mounted.ok {
      LoadFills(decode, Own, map[], disk, life.mount, start, mounted.state, life.names, life.rs, life.up);
    }
  }

  lemma {:induction false} RecoveredAllIsMirrored(decode: Decoder, disk: map<string, Bytes>, mount: Option<Mount>,
          start: Time, s: State, t: Time)
    requires Filling(decode, disk, mount, start, s, t)
    requires forall name :: name in s.files.value ==> Recovered(decode, s, name, t)
    ensures Mirrored(decode, s, t)
  {
    forall name | name in s.files.value
      ensures FileSound(decode, s, s.files.value[name], t)
    {
      assert Recovered(decode, s, name, t);
    }
  }

  /** The files after a start are those that were listed, or back a stored licence. */
  lemma {:induction false} BootMirrors(decode: Decoder, disk: map<string, Bytes>, start: Time, life: Life)
    requires DiskOk(decode, disk, start) && LifeOk(decode, disk, start, life)
    ensures LoadMount(decode, disk, life).ok ==> Boot(decode, disk, life).ok
    ensures Boot(decode, disk, life).ok ==> Mirrored(decode, Boot(decode, disk, life).state, life.up)
  {
    BootFills(decode, disk, start, life);
    var mounted := LoadMount(decode, disk, life);
    if mounted.ok {
      FillingHasFiles(decode, disk, life.mount, start, mounted.state, life.up);
      OwnLoadRecovers(decode, disk, life.mount, start, mounted.state, life.names, life.rs, life.up);
      var s := Boot(decode, disk, life).state;
      forall name | name in s.files.value
        ensures Recovered(decode, s, name, life.up)
      {
        if name !in life.names {
          assert name !in mounted.state.files.value && name !in disk;
          assert name in s.store;
        }
      }
      hide Filling, Mirrored;
      RecoveredAllIsMirrored(decode, disk, life.mount, start, s, life.up);
    }
  }

  lemma {:induction false} FillingHasFiles(decode: Decoder, disk: map<string, Bytes>, mount: Option<Mount>,
          start: Time, s: State, t: Time)
    requires Filling(decode, disk, mount, start, s, t)
    ensures s.files.Some? && s.files.GetOr(map[]) == s.files.value && disk.Keys <= s.files.value.Keys
  {
  }

  lemma {:induction false} BootKeepsInv(decode: Decoder, disk: map<string, Bytes>, life: Life, t: Time)
    requires UniqueSerials(decode) && Shaped(life)
    ensures Inv(Boot(decode, disk, life).state, t, SerialExpiry(decode))
  {
    var s0 := Empty(MIN_REMAINING_LIFE, map[], Some(disk));
    assert Inv(s0, t, SerialExpiry(decode));
    hide Inv;
    if life.mount.Some? {
      var m := life.mount.value;
      LoadKeepsInv(decode, Foreign(m.files), m.specials, s0, m.names, m.rs, t);
    }
    LoadKeepsInv(decode, Own, map[], LoadMount(decode, disk, life).state, life.names, life.rs, t);
  }

  lemma {:induction false} BootKeepsOnDisk(decode: Decoder, disk: map<string, Bytes>, life: Life, l: License)
    requires UniqueSerials(decode) && Shaped(life) && Genuine(decode, l) && OnDisk(decode, Some(disk), l)
    ensures OnDisk(decode, Boot(decode, disk, life).state.files, l)
  {
    hide OnDisk, UniqueSerials;
    var s0 := Empty(MIN_REMAINING_LIFE, map[], Some(disk));
    if life.mount.Some? {
      var m := life.mount.value;
      LoadKeepsOnDisk(decode, Foreign(m.files), m.specials, s0, m.names, m.rs, l);
    }
    LoadKeepsOnDisk(decode, Own, map[], LoadMount(decode, disk, life).state, life.names, life.rs, l);
  }

  /** Whatever the directory holds is in a mirroring registry as long as it is live. */
  lemma {:induction false} OnDiskIsStored(decode: Decoder, s: State, l: License, t: Time)
    requires Mirrored(decode, s, t) && OnDisk(decode, s.files, l) && Live(s, l, t)
    requires forall id :: id in s.store ==> s.store[id].license.id == id
    ensures StoredAs(s, l)
  {
    assert FileSound(decode, s, s.files.value[l.id], t);
  }

  lemma {:induction false} LoadKeepsStore(decode: Decoder, source: Source, specials: map<string, Special>, s: State,
          names: seq<string>, rs: seq<Reading>, id: string)
    requires |names| == |rs| && id in s.store
    ensures var s' := Load(decode, source, specials, s, names, rs).state; id in s'.store && s'.store[id] == s.store[id]
    decreases |names|
  {
    if names != [] {
      var n := |names| - 1;
      LoadKeepsStore(decode, source, specials, s, names[..n], rs[..n], id);
    }
  }

  /** All that is listed in the mounted directory, if there is one, is a directory or a readable file. */
  ghost predicate MountReadable(life: Life) {
    life.mount.Some? ==>
      var m := life.mount.value;
      forall i :: 0 <= i < |m.names| ==> IsDirectory(m.specials, m.names[i]) || IsFile(m.specials, m.files, m.names[i])
  }

  /** Some listed file of the mounted directory brings `l`. */
  ghost predicate Mounted(decode: Decoder, life: Life, l: License)
    requires Shaped(life)
  {
    life.mount.Some? &&
    var m := life.mount.value;
    exists i: nat :: Brings(decode, m.files, m.specials, m.names, m.rs, i, l)
  }

  lemma {:induction false} MountOkIff(decode: Decoder, disk: map<string, Bytes>, life: Life)
    requires Shaped(life)
    ensures LoadMount(decode, disk, life).ok <==> MountReadable(life)
  {
    if life.mount.Some? {
      var m, s := life.mount.value, Empty(MIN_REMAINING_LIFE, map[], Some(disk));
      ForeignLoadOkIff(decode, m.files, m.specials, s, m.names, m.rs);
    }
  }

  lemma {:induction false} MountLoads(decode: Decoder, disk: map<string, Bytes>, life: Life, l: License)
    requires UniqueSerials(decode) && Shaped(life) && MountReadable(life) && Mounted(decode, life, l)
    ensures LoadMount(decode, disk, life).ok && StoredAs(LoadMount(decode, disk, life).state, l)
  {
    MountOkIff(decode, disk, life);
    var m, s := life.mount.value, Empty(MIN_REMAINING_LIFE, map[], Some(disk));
    var i: nat :| Brings(decode, m.files, m.specials, m.names, m.rs, i, l);
    ForeignLoadStores(decode, m.files, m.specials, s, m.names, m.rs, i, l);
  }

  /** What the mounted directory brings is still stored when the start is over. */
  lemma {:induction false} MountedIsStored(decode: Decoder, disk: map<string, Bytes>, life: Life, l: License)
    requires UniqueSerials(decode) && Shaped(life) && MountReadable(life) && Mounted(decode, life, l)
    ensures StoredAs(Boot(decode, disk, life).state, l)
  {
    MountLoads(decode, disk, life, l);
    hide Load, MountReadable, Mounted, LoadMount;
    LoadKeepsStore(decode, Own, map[], LoadMount(decode, disk, life).state, life.names, life.rs, l.id);
  }

  /**
   * A start succeeds exactly if all that is mounted can be read. It then has every licence that the mounted directory
   * brings and every live licence that the cache directory held, and nothing that was neither there nor mounted; and
   * the directory mirrors the registry again.
   */
  lemma {:induction false} BootRecovers(decode: Decoder, disk: map<string, Bytes>, start: Time, life: Life)
    requires UniqueSerials(decode) && DiskOk(decode, disk, start) && LifeOk(decode, disk, start, life)
    ensures var boot := Boot(decode, disk, life);
      && (boot.ok <==> MountReadable(life))
      && (forall id :: id in boot.state.store ==>
            HasSource(decode, disk, life.mount, start, boot.state.store[id].license))
      && (boot.ok ==> Mirrored(decode, boot.state, life.up))
      && (boot.ok ==> forall l :: Mounted(decode, life, l) ==> StoredAs(boot.state, l))
      && (boot.ok ==>
            forall l :: Genuine(decode, l) && OnDisk(decode, Some(disk), l) && Live(boot.state, l, life.up) ==>
              StoredAs(boot.state, l))
  {
    BootFills(decode, disk, start, life);
    BootMirrors(decode, disk, start, life);
    MountOkIff(decode, disk, life);
    var boot := Boot(decode, disk, life);
    assert forall id :: id in boot.state.store ==> boot.state.store[id].license.id == id;
    assert boot.ok <==> LoadMount(decode, disk, life).ok;
    hide Filling, Mirrored, OnDisk, StoredAs, Boot, DiskOk, LifeOk, UniqueSerials, MountReadable, Mounted, LoadMount;
    if boot.ok {
      forall l | Genuine(decode, l) && OnDisk(decode, Some(disk), l) && Live(boot.state, l, life.up)
        ensures StoredAs(boot.state, l)
      {
        BootKeepsOnDisk(decode, disk, life, l);
        OnDiskIsStored(decode, boot.state, l, life.up);
      }
      forall l | Mounted(decode, life, l)
        ensures StoredAs(boot.state, l)
      {
        MountedIsStored(decode, disk, life, l);
      }
    }
  }

  // ---------- Any number of lives ----------

  function Clock(start: Time, lives: seq<Life>): Time {
    if lives == [] then start
    else
      var life := lives[|lives| - 1];
      TimeAfter(life.up, life.run)
  }

  /** The cache directory after some lives, empty before the first. */
  ghost function Disk(decode: Decoder, lives: seq<Life>): map<string, Bytes>
    decreases |lives|
  {
    if lives == [] then map[]
    else
      var n := |lives| - 1;
      if Shaped(lives[n]) then Crashed(decode, Disk(decode, lives[..n]), lives[n]).files.GetOr(map[])
      else Disk(decode, lives[..n])
  }

  ghost predicate LivesOk(decode: Decoder, start: Time, lives: seq<Life>)
    decreases |lives|
  {
    lives == [] ||
    var n := |lives| - 1;
    LivesOk(decode, start, lives[..n]) &&
    LifeOk(decode, Disk(decode, lives[..n]), Clock(start, lives[..n]), lives[n])
  }

  /** The registry at the end of the last life. */
  ghost function LastState(decode: Decoder, lives: seq<Life>): State
    requires lives != [] && Shaped(lives[|lives| - 1])
  {
    Crashed(decode, Disk(decode, lives[..|lives| - 1]), lives[|lives| - 1])
  }

  ghost predicate LastCameUp(decode: Decoder, lives: seq<Life>)
    requires lives != [] && Shaped(lives[|lives| - 1])
  {
    Boot(decode, Disk(decode, lives[..|lives| - 1]), lives[|lives| - 1]).ok
  }

  lemma {:induction false} CrashedIsBacked(decode: Decoder, disk: map<string, Bytes>, start: Time, life: Life)
    requires DiskOk(decode, disk, start) && LifeOk(decode, disk, start, life)
    ensures Backed(decode, Crashed(decode, disk, life), TimeAfter(life.up, life.run))
    ensures Crashed(decode, disk, life).ttl == MIN_REMAINING_LIFE
  {
    BootFills(decode, disk, start, life);
    hide Boot, DiskOk, Backed;
    RunKeepsBacked(decode, Boot(decode, disk, life).state, life.up, life.run);
    RunKeepsTtl(Boot(decode, disk, life).state, life.run);
  }

  lemma {:induction false} CrashedKeepsInv(decode: Decoder, disk: map<string, Bytes>, start: Time, life: Life)
    requires UniqueSerials(decode) && LifeOk(decode, disk, start, life)
    ensures Inv(Crashed(decode, disk, life), TimeAfter(life.up, life.run), SerialExpiry(decode))
  {
    hide Inv, Boot, UniqueSerials, SerialExpiry;
    BootKeepsInv(decode, disk, life, life.up);
    AddsParsedExpiry(decode, life.run);
    RunKeepsInv(Boot(decode, disk, life).state, life.up, life.run, SerialExpiry(decode));
  }

  lemma {:induction false} CrashedIsMirrored(decode: Decoder, disk: map<string, Bytes>, start: Time, life: Life)
    requires UniqueSerials(decode) && DiskOk(decode, disk, start) && LifeOk(decode, disk, start, life)
    requires Boot(decode, disk, life).ok
    ensures Mirrored(decode, Crashed(decode, disk, life), TimeAfter(life.up, life.run))
  {
    hide Inv, UniqueSerials, SerialExpiry, DiskOk, Mirrored;
    BootMirrors(decode, disk, start, life);
    hide Boot;
    BootKeepsInv(decode, disk, life, life.up);
    RunKeepsMirrored(decode, Boot(decode, disk, life).state, life.up, life.run);
  }

  /** Whatever the lives, the directory holds certificates under their own serials only, all of which have started. */
  lemma {:induction false} LivesKeepDisk(decode: Decoder, start: Time, lives: seq<Life>)
    requires LivesOk(decode, start, lives)
    ensures DiskOk(decode, Disk(decode, lives), Clock(start, lives))
    decreases |lives|
  {
    if lives != [] {
      var n := |lives| - 1;
      LivesKeepDisk(decode, start, lives[..n]);
      hide LifeOk, DiskOk, Crashed;
      assert Shaped(lives[n]) by {
        LifeIsShaped(decode, Disk(decode, lives[..n]), Clock(start, lives[..n]), lives[n]);
      }
      CrashedIsBacked(decode, Disk(decode, lives[..n]), Clock(start, lives[..n]), lives[n]);
    }
  }

  lemma {:induction false} LifeIsShaped(decode: Decoder, disk: map<string, Bytes>, start: Time, life: Life)
    requires LifeOk(decode, disk, start, life)
    ensures Shaped(life) && start <= life.up <= TimeAfter(life.up, life.run)
  {
  }

  lemma {:induction false} CrashedKeepsOnDisk(decode: Decoder, disk: map<string, Bytes>, start: Time, life: Life,
          l: License)
    requires UniqueSerials(decode) && DiskOk(decode, disk, start) && LifeOk(decode, disk, start, life)
    requires Genuine(decode, l) && OnDisk(decode, Some(disk), l)
    requires TimeAfter(life.up, life.run) <= l.notAfter - MIN_REMAINING_LIFE
    ensures OnDisk(decode, Crashed(decode, disk, life).files, l)
  {
    BootFills(decode, disk, start, life);
    hide Boot, OnDisk, UniqueSerials, SerialExpiry, Inv, Backed;
    BootKeepsOnDisk(decode, disk, life, l);
    BootKeepsInv(decode, disk, life, life.up);
    RunKeepsOnDisk(decode, Boot(decode, disk, life).state, life.up, life.run, l);
  }

  /** A licence that the directory held after some lives is still there after any more, for as long as it is live. */
  lemma {:induction false} LivesKeepOnDisk(decode: Decoder, start: Time, lives: seq<Life>, m: nat, l: License)
    requires UniqueSerials(decode) && LivesOk(decode, start, lives) && m <= |lives| && Genuine(decode, l)
    requires OnDisk(decode, Some(Disk(decode, lives[..m])), l)
    requires Clock(start, lives) <= l.notAfter - MIN_REMAINING_LIFE
    ensures OnDisk(decode, Some(Disk(decode, lives)), l)
    decreases |lives|
  {
    hide OnDisk, UniqueSerials, LifeOk, DiskOk, Crashed;
    if m == |lives| {
      assert lives[..m] == lives;
    } else {
      var n := |lives| - 1;
      var disk, clock := Disk(decode, lives[..n]), Clock(start, lives[..n]);
      assert lives[..n][..m] == lives[..m];
      LifeIsShaped(decode, disk, clock, lives[n]);
      LivesKeepOnDisk(decode, start, lives[..n], m, l);
      LivesKeepDisk(decode, start, lives[..n]);
      CrashedKeepsOnDisk(decode, disk, clock, lives[n], l);
      OnDiskIsSome(decode, Crashed(decode, disk, lives[n]).files, l);
    }
  }

  lemma {:induction false} OnDiskIsSome(decode: Decoder, files: Option<map<string, Bytes>>, l: License)
    requires OnDisk(decode, files, l)
    ensures files.Some? && OnDisk(decode, Some(files.GetOr(map[])), l)
  {
  }

  lemma {:induction false} BackedIsOnDisk(decode: Decoder, s: State, l: License, t: Time)
    requires Backed(decode, s, t) && Stored(s, l)
    ensures Genuine(decode, l) && OnDisk(decode, s.files, l)
  {
  }

  /**
   * Any number of crashes lose nothing: a licence that was stored at the end of one life is stored again in every
   * later life that comes up, while it is live, whatever starts have failed in between.
   */
  lemma {:induction false} StoredIsRecovered(decode: Decoder, start: Time, lives: seq<Life>, m: nat, l: License,
          next: Life)
    requires UniqueSerials(decode) && LivesOk(decode, start, lives + [next]) && 0 < m <= |lives|
    requires Shaped(lives[m - 1]) && Stored(LastState(decode, lives[..m]), l)
    requires Boot(decode, Disk(decode, lives), next).ok && next.up <= l.notAfter - MIN_REMAINING_LIFE
    ensures StoredAs(Boot(decode, Disk(decode, lives), next).state, l)
  {
    var all := lives + [next];
    assert all[..|lives|] == lives && all[|lives|] == next;
    LivesPrefix(decode, start, lives, m);
    StoredIsOnDisk(decode, start, lives[..m], l);
    hide OnDisk, UniqueSerials, DiskOk, Crashed, StoredAs, Boot;
    var disk, clock := Disk(decode, lives), Clock(start, lives);
    LifeIsShaped(decode, disk, clock, next);
    LivesKeepOnDisk(decode, start, lives, m, l);
    LivesKeepDisk(decode, start, lives);
    BootRecovers(decode, disk, clock, next);
    BootTtl(decode, disk, clock, next);
  }

  lemma {:induction false} BootTtl(decode: Decoder, disk: map<string, Bytes>, start: Time, life: Life)
    requires DiskOk(decode, disk, start) && LifeOk(decode, disk, start, life)
    ensures Boot(decode, disk, life).state.ttl == MIN_REMAINING_LIFE
  {
    BootFills(decode, disk, start, life);
  }

  lemma {:induction false} LivesPrefix(decode: Decoder, start: Time, lives: seq<Life>, m: nat)
    requires LivesOk(decode, start, lives) && m <= |lives|
    ensures LivesOk(decode, start, lives[..m])
    decreases |lives|
  {
    if m == |lives| {
      assert lives[..m] == lives;
    } else {
      LivesPrefix(decode, start, lives[..|lives| - 1], m);
      assert lives[..|lives| - 1][..m] == lives[..m];
    }
  }

  lemma {:induction false} StoredIsOnDisk(decode: Decoder, start: Time, lives: seq<Life>, l: License)
    requires LivesOk(decode, start, lives) && lives != [] && Shaped(lives[|lives| - 1])
    requires Stored(LastState(decode, lives), l)
    ensures Genuine(decode, l) && OnDisk(decode, Some(Disk(decode, lives)), l)
  {
    var n := |lives| - 1;
    var disk, clock := Disk(decode, lives[..n]), Clock(start, lives[..n]);
    LivesKeepDisk(decode, start, lives[..n]);
    CrashedIsBacked(decode, disk, clock, lives[n]);
    hide Backed, OnDisk, Crashed, DiskOk, LifeOk;
    BackedIsOnDisk(decode, LastState(decode, lives), l, TimeAfter(lives[n].up, lives[n].run));
    OnDiskIsSome(decode, LastState(decode, lives).files, l);
  }

  // ---------- The next start ----------

  /** What a start brings back from a directory that a registry mirrored was in that registry, or is mounted. */
  lemma {:induction false} NothingElseComesBack(decode: Decoder, s: State, start: Time, life: Life, l: License)
    requires s.files.Some? && Mirrored(decode, s, start) && s.ttl == MIN_REMAINING_LIFE
    requires HasSource(decode, s.files.value, life.mount, start, l)
    ensures Stored(s, l) || (life.mount.Some? && l.data in life.mount.value.files.Values)
  {
    assert l.id in s.files.value ==> FileSound(decode, s, s.files.value[l.id], start);
  }

  /** Without a mounted directory a start loads the cache directory of the crashed registry, as after one crash. */
  lemma {:induction false} UnmountedRestart(decode: Decoder, s: State, start: Time, next: Life)
    requires Backed(decode, s, start) && Mirrored(decode, s, start) && s.ttl == MIN_REMAINING_LIFE
    requires LifeOk(decode, s.files.value, start, next) && next.mount.None?
    ensures var boot := Boot(decode, s.files.value, next); boot.ok && SameLive(s, boot.state, next.up)
  {
    hide Load;
    RestartRecovers(decode, s, start, next.names, next.rs, next.up);
  }

  /** A registry that stores all that is live in another finds whatever the other finds. */
  lemma {:induction false} FindsAsMuch(s: State, s': State, f: string, t: Time, expiry: string -> Time)
    requires Inv(s, t, expiry) && Inv(s', t, expiry) && s'.ttl == s.ttl
    requires forall l :: Stored(s, l) && Live(s, l, t) ==> StoredAs(s', l)
    ensures Lookup(s, f, t).license.Some? ==> Lookup(s', f, t).license.Some?
  {
    LookupAnswersLikeScan(s, f, t, expiry);
    LookupAnswersLikeScan(s', f, t, expiry);
    if Lookup(s, f, t).license.Some? {
      var l := Lookup(s, f, t).license.value;
      assert s'.store[l.id].license.id == l.id && Servable(s', f, t, s'.store[l.id].license);
    }
  }

  /**
   * After any number of lives, the last of which came up, the next start that comes up has every live licence of the
   * crashed registry, and nothing else that is not mounted; so it finds every feature that the crashed one would have.
   * Without a mounted directory it always comes up, with exactly the same live licences, and finds the same.
   */
  lemma {:induction false} CrashAndRestart(decode: Decoder, start: Time, lives: seq<Life>, next: Life, f: string,
          t: Time)
    requires UniqueSerials(decode) && LivesOk(decode, start, lives + [next]) && next.up <= t
    requires lives != [] && Shaped(lives[|lives| - 1]) && LastCameUp(decode, lives)
    ensures Shaped(next)
    ensures var s, boot := LastState(decode, lives), Boot(decode, Disk(decode, lives), next);
      && (next.mount.None? ==>
           && boot.ok && SameLive(s, boot.state, next.up)
           && (Lookup(s, f, t).license.Some? <==> Lookup(boot.state, f, t).license.Some?)
           && (TotalOn(s, f, t) ==> Lookup(s, f, t).license == Lookup(boot.state, f, t).license))
      && (boot.ok ==>
           && (forall l :: Stored(s, l) && Live(s, l, next.up) ==> StoredAs(boot.state, l))
           && (forall l :: Stored(boot.state, l) ==>
                Stored(s, l) || (next.mount.Some? && l.data in next.mount.value.files.Values))
           && (Lookup(s, f, t).license.Some? ==> Lookup(boot.state, f, t).license.Some?))
  {
    var n := |lives| - 1;
    var all := lives + [next];
    assert all[..|lives|] == lives && all[|lives|] == next;
    var disk, clock := Disk(decode, lives[..n]), Clock(start, lives[..n]);
    LifeIsShaped(decode, Disk(decode, lives), Clock(start, lives), next);
    LivesKeepDisk(decode, start, lives[..n]);
    CrashedIsBacked(decode, disk, clock, lives[n]);
    CrashedIsMirrored(decode, disk, clock, lives[n]);
    CrashedKeepsInv(decode, disk, clock, lives[n]);
    NextStart(decode, LastState(decode, lives), Clock(start, lives), next, f, t);
  }

  lemma {:induction false} NextStart(decode: Decoder, s: State, start: Time, next: Life, f: string, t: Time)
    requires UniqueSerials(decode) && Inv(s, start, SerialExpiry(decode)) && s.ttl == MIN_REMAINING_LIFE
    requires Backed(decode, s, start) && Mirrored(decode, s, start)
    requires LifeOk(decode, s.files.value, start, next) && next.up <= t
    ensures var boot := Boot(decode, s.files.value, next);
      && (next.mount.None? ==>
           && boot.ok && SameLive(s, boot.state, next.up)
           && (Lookup(s, f, t).license.Some? <==> Lookup(boot.state, f, t).license.Some?)
           && (TotalOn(s, f, t) ==> Lookup(s, f, t).license == Lookup(boot.state, f, t).license))
      && (boot.ok ==>
           && (forall l :: Stored(s, l) && Live(s, l, next.up) ==> StoredAs(boot.state, l))
           && (forall l :: Stored(boot.state, l) ==>
                Stored(s, l) || (next.mount.Some? && l.data in next.mount.value.files.Values))
           && (Lookup(s, f, t).license.Some? ==> Lookup(boot.state, f, t).license.Some?))
  {
    var boot, expiry := Boot(decode, s.files.value, next), SerialExpiry(decode);
    LifeIsShaped(decode, s.files.value, start, next);
    InvLater(s, start, t, expiry);
    BootKeepsInv(decode, s.files.value, next, t);
    BootRecovers(decode, s.files.value, start, next);
    BootTtl(decode, s.files.value, start, next);
    if next.mount.None? {
      UnmountedRestart(decode, s, start, next);
      SameLiveLater(s, boot.state, next.up, t);
      SameLiveSameAnswers(s, boot.state, f, t, expiry);
    }
    hide Inv, Boot, LifeOk, UniqueSerials, SerialExpiry, Mirrored, Lookup, SameLive, Backed;
    if boot.ok {
      forall l | Stored(s, l) && Live(s, l, next.up)
        ensures StoredAs(boot.state, l)
      {
        BackedIsOnDisk(decode, s, l, start);
        OnDiskIsSome(decode, s.files, l);
      }
      forall l | Stored(boot.state, l)
        ensures Stored(s, l) || (next.mount.Some? && l.data in next.mount.value.files.Values)
      {
        NothingElseComesBack(decode, s, start, next, l);
      }
      FindsAsMuch(s, boot.state, f, t, expiry);
    }
  }

  lemma {:induction false} SameLiveLater(s: State, s': State, t: Time, u: Time)
    requires SameLive(s, s', t) && t <= u
    ensures SameLive(s, s', u)
  {
  }

  // ---------- Callers interleaved ----------

  /** Callers ask only for the addition of licences that have been parsed, and so have started. */
  ghost predicate CallsParsed(decode: Decoder, sys: Locking.System, actions: seq<Locking.Action>) {
    forall k: nat :: k < |actions| && actions[k].Begin? && actions[k].call.AddWait? ==>
      Genuine(decode, actions[k].call.l) && actions[k].call.l.notBefore <= Locking.Behave(sys, actions[..k]).now
  }

  lemma {:induction false} CalledIsParsed(decode: Decoder, sys: Locking.System, actions: seq<Locking.Action>,
          tr: seq<Step>)
    requires CallsParsed(decode, sys, actions) && Locking.RunIsCalled(sys, actions, tr)
    ensures AddsParsed(decode, tr)
  {
    forall i | 0 <= i < |tr| && tr[i].AddStep?
      ensures Genuine(decode, tr[i].license) && tr[i].license.notBefore <= tr[i].at
    {
      var l, c, t := tr[i].license, tr[i].contract, tr[i].at;
      assert Locking.CalledBy(sys, actions, l, c, t);
      var k: nat :| Locking.CalledAt(sys, actions, l, c, t, k);
    }
  }

  lemma {:induction false} CallsAreOk(decode: Decoder, sys: Locking.System, actions: seq<Locking.Action>)
    requires UniqueSerials(decode) && CallsParsed(decode, sys, actions)
    ensures Locking.CallsOk(actions, SerialExpiry(decode))
  {
    forall k: nat | k < |actions|
      ensures Locking.CallOk(actions[k], SerialExpiry(decode))
    {
      if actions[k].Begin? && actions[k].call.AddWait? {
        SerialDeterminesExpiry(decode, actions[k].call.l);
      }
    }
  }

  lemma {:induction false} ParsedRunIsMirrored(decode: Decoder, now: Time, tr: seq<Step>, later: Time)
    requires UniqueSerials(decode) && Monotone(now, tr) && AddsParsed(decode, tr) && TimeAfter(now, tr) <= later
    ensures Mirrored(decode, Run(Empty(MIN_REMAINING_LIFE, map[], Some(map[])), tr), later)
  {
    var s0 := Empty(MIN_REMAINING_LIFE, map[], Some(map[]));
    assert Mirrored(decode, s0, now) && Inv(s0, now, SerialExpiry(decode));
    hide Mirrored, Inv, SerialExpiry, UniqueSerials;
    RunKeepsMirrored(decode, s0, now, tr);
    MirroredLater(decode, Run(s0, tr), TimeAfter(now, tr), later);
  }

  /**
   * So a server may crash amid any interleaving of its callers: whenever the registry's lock is free, its directory
   * mirrors it, and the next start finds what it would have found.
   */
  lemma {:induction false} InterleavedIsMirrored(decode: Decoder, hasBook: bool, now: Time, callers: nat,
          actions: seq<Locking.Action>)
    requires UniqueSerials(decode)
    requires var start := Locking.Start(Empty(MIN_REMAINING_LIFE, map[], Some(map[])), hasBook, now, callers);
      CallsParsed(decode, start, actions)
    ensures var start := Locking.Start(Empty(MIN_REMAINING_LIFE, map[], Some(map[])), hasBook, now, callers);
      var sys := Locking.Behave(start, actions);
      sys.regOwner.None? ==> Mirrored(decode, sys.shared, sys.now) && Inv(sys.shared, sys.now, SerialExpiry(decode))
  {
    hide Mirrored, Inv, SerialExpiry, UniqueSerials, CallsParsed, Locking.CallsOk, Locking.Behave, Locking.RunOf, Run;
    hide Locking.Start, Locking.RunIsCalled, Monotone, AddsParsed, Locking.SomeoneCanGo;
    var s0, expiry := Empty(MIN_REMAINING_LIFE, map[], Some(map[])), SerialExpiry(decode);
    var start := Locking.Start(s0, hasBook, now, callers);
    var sys, tr := Locking.Behave(start, actions), Locking.RunOf(start, actions);
    CallsAreOk(decode, start, actions);
    Locking.EveryInterleavingIsRun(MIN_REMAINING_LIFE, Some(map[]), hasBook, now, callers, actions, expiry);
    Locking.EveryInterleaving(MIN_REMAINING_LIFE, Some(map[]), hasBook, now, callers, actions, expiry);
    CalledIsParsed(decode, start, actions, tr);
    ParsedRunIsMirrored(decode, now, tr, sys.now);
    if sys.regOwner.None? {
      MirroredIgnoresBook(decode, Run(s0, tr), sys.shared, sys.now);
    }
  }

  lemma {:induction false} MirroredIgnoresBook(decode: Decoder, s: State, s': State, t: Time)
    requires Mirrored(decode, s, t) && Locking.Indexes(s) == Locking.Indexes(s')
    ensures Mirrored(decode, s', t)
  {
    assert s'.store == s.store && s'.files == s.files && s'.ttl == s.ttl;
    hide Certificate;
  }
}
