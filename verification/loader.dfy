/** `LoadDir`: a registry filled from a directory of licence files. */
module Loader {
  import opened Licenses
  import opened RegistryStates
  import opened Registries
  import opened Traces

  /** Where the files are read from: the registry's own cache directory, which it rewrites meanwhile, or another one. */
  datatype Source = Own | Foreign(files: map<string, Bytes>)

  function Content(s: State, source: Source, name: string): Option<Bytes> {
    match source
    case Own => if s.files.Some? && name in s.files.value then Some(s.files.value[name]) else None
    case Foreign(files) => if name in files then Some(files[name]) else None
  }

  datatype Loaded = Loaded(state: State, ok: bool)

  function LoadEntry(decode: Decoder, source: Source, specials: map<string, Special>, before: Loaded, name: string,
          r: Reading): Loaded {
    if !before.ok then before
    else if name in specials then
      match specials[name]
      case Subdirectory => before
      case LinkToDirectory => before
      case BrokenLink => before.(ok := false)
      case Unreadable => before.(ok := false)
    else
      match Content(before.state, source, name)
      case None => before.(ok := false)
      case Some(data) =>
        match Admit(decode, data, r)
        case Malformed => before
        case TooOld => before
        case Admitted(l) => before.(state := Add(before.state, l, None))
  }

  function Load(decode: Decoder, source: Source, specials: map<string, Special>, s: State, names: seq<string>,
          rs: seq<Reading>): Loaded
    requires |names| == |rs|
    decreases |names|
  {
    if names == [] then Loaded(s, true)
    else
      var n := |names| - 1;
      LoadEntry(decode, source, specials, Load(decode, source, specials, s, names[..n], rs[..n]), names[n], rs[n])
  }

  ghost function SourceOf(dir: Directory, reg: LicenseRegistry): Source
    reads dir
  {
    if reg.cacheDir == dir then Own else Foreign(dir.files)
  }

  /** The body of the loop, for one directory entry. */
  method LoadOne(decode: Decoder, dir: Directory, name: string, reg: LicenseRegistry, clock: Clock)
    returns (ok: bool, ghost r: Reading)
    modifies reg, reg.cacheDir, clock
    ensures old(clock.now) <= r.parsedAt <= r.checkedAt <= clock.now
    ensures Loaded(reg.Abs(), ok) ==
            LoadEntry(decode, old(SourceOf(dir, reg)), dir.specials, Loaded(old(reg.Abs()), true), name, r)
    ensures reg.cacheDir != dir ==> dir.files == old(dir.files)
  {
    r := Reading(clock.now, clock.now);
    if name in dir.specials {
      return dir.specials[name].Subdirectory? || dir.specials[name].LinkToDirectory?, r;
    }
    if name !in dir.files {
      return false, r;
    }
    var data := dir.files[name];
    var parsedAt := clock.Read();
    r := Reading(parsedAt, parsedAt);
    var license := Parse(decode, data, parsedAt);
    if license.Some? {
      var checkedAt := clock.Read();
      r := Reading(parsedAt, checkedAt);
      if Until(license.value.notAfter, checkedAt) >= MIN_REMAINING_LIFE {
        reg.Add(license.value, None);
      }
    }
    return true, r;
  }

  lemma {:induction false} LoadExtends(decode: Decoder, source: Source, specials: map<string, Special>, s: State,
          names: seq<string>, i: nat, rs: seq<Reading>, r: Reading)
    requires i < |names| && |rs| == i
    ensures Load(decode, source, specials, s, names[..i + 1], rs + [r]) ==
            LoadEntry(decode, source, specials, Load(decode, source, specials, s, names[..i], rs), names[i], r)
  {
    assert names[..i + 1][..i] == names[..i] && (rs + [r])[..i] == rs;
  }

  /**
   * Entries are tried in listing order until one cannot be read; `rs` are the clock readings made. `authority` is
   * `None` if the certificate of the authority cannot be loaded, and `listing` if the directory cannot be read.
   */
  method LoadDir(authority: Option<Decoder>, dir: Directory, listing: Option<seq<string>>, reg: LicenseRegistry,
          clock: Clock)
    returns (ok: bool, ghost rs: seq<Reading>)
    modifies reg, reg.cacheDir, clock
    ensures Ordered(old(clock.now), rs, clock.now)
    ensures authority.None? || listing.None? ==> !ok && rs == [] && reg.Abs() == old(reg.Abs())
    ensures authority.Some? && listing.Some? ==>
      && |rs| <= |listing.value| && (ok ==> |rs| == |listing.value|)
      && Loaded(reg.Abs(), ok) ==
         Load(authority.value, old(SourceOf(dir, reg)), dir.specials, old(reg.Abs()), listing.value[..|rs|], rs)
  {
    rs := [];
    if authority.None? || listing.None? {
      return false, rs;
    }
    var decode, names := authority.value, listing.value;
    ghost var s, source := reg.Abs(), SourceOf(dir, reg);
    for i := 0 to |names|
      invariant |rs| == i
      invariant Ordered(old(clock.now), rs, clock.now)
      invariant SourceOf(dir, reg) == source
      invariant Loaded(reg.Abs(), true) == Load(decode, source, dir.specials, s, names[..i], rs)
    {
      ghost var mid := clock.now;
      ghost var r;
      ok, r := LoadOne(decode, dir, names[i], reg, clock);
      OrderedExtends(old(clock.now), rs, mid, r, clock.now);
      LoadExtends(decode, source, dir.specials, s, names, i, rs, r);
      rs := rs + [r];
      if !ok {
        return;
      }
    }
    assert names[..|names|] == names;
    return true, rs;
  }

  // ---------- What a load does ----------

  predicate IsDirectory(specials: map<string, Special>, name: string) {
    name in specials && (specials[name].Subdirectory? || specials[name].LinkToDirectory?)
  }

  predicate IsFile(specials: map<string, Special>, files: map<string, Bytes>, name: string) {
    name !in specials && name in files
  }

  /** A directory other than the registry's own is loaded exactly if all that is listed is a directory or a file. */
  lemma {:induction false} ForeignLoadOkIff(decode: Decoder, files: map<string, Bytes>,
          specials: map<string, Special>, s: State, names: seq<string>, rs: seq<Reading>)
    requires |names| == |rs|
    ensures Load(decode, Foreign(files), specials, s, names, rs).ok <==>
            forall i :: 0 <= i < |names| ==> IsDirectory(specials, names[i]) || IsFile(specials, files, names[i])
    decreases |names|
  {
    if names != [] {
      var n := |names| - 1;
      ForeignLoadOkIff(decode, files, specials, s, names[..n], rs[..n]);
      var before := Load(decode, Foreign(files), specials, s, names[..n], rs[..n]);
      assert Load(decode, Foreign(files), specials, s, names, rs).ok <==>
             before.ok && (IsDirectory(specials, names[n]) || IsFile(specials, files, names[n]));
      assert forall i :: 0 <= i < n ==> names[..n][i] == names[i];
    }
  }

  /** The registry's own directory, in which files are only added meanwhile, is loaded under the same condition. */
  lemma {:induction false} OwnLoadOkIff(decode: Decoder, specials: map<string, Special>, s: State,
          names: seq<string>, rs: seq<Reading>)
    requires |names| == |rs| && s.files.Some?
    requires forall i :: 0 <= i < |names| ==> names[i] in specials || names[i] in s.files.value
    ensures var loaded := Load(decode, Own, specials, s, names, rs);
      && loaded.state.files.Some? && s.files.value.Keys <= loaded.state.files.value.Keys
      && (loaded.ok <==>
           forall i :: 0 <= i < |names| ==>
             IsDirectory(specials, names[i]) || IsFile(specials, s.files.value, names[i]))
    decreases |names|
  {
    if names != [] {
      var n := |names| - 1;
      OwnLoadOkIff(decode, specials, s, names[..n], rs[..n]);
      var before := Load(decode, Own, specials, s, names[..n], rs[..n]);
      assert Load(decode, Own, specials, s, names, rs).ok <==>
             before.ok && (IsDirectory(specials, names[n]) || IsFile(specials, s.files.value, names[n]));
      assert forall i :: 0 <= i < n ==> names[..n][i] == names[i];
    }
  }

  /** The `i`th listed file holds a certificate that is valid when it is parsed, with five minutes left when checked. */
  ghost predicate Brings(decode: Decoder, files: map<string, Bytes>, specials: map<string, Special>,
          names: seq<string>, rs: seq<Reading>, i: nat, l: License)
    requires |names| == |rs|
  {
    && i < |names| && IsFile(specials, files, names[i]) && Certificate(decode, files[names[i]]) == Some(l)
    && l.notBefore <= rs[i].parsedAt <= l.notAfter && rs[i].checkedAt <= l.notAfter - MIN_REMAINING_LIFE
  }

  lemma {:induction false} BringsExtends(decode: Decoder, files: map<string, Bytes>, specials: map<string, Special>,
          names: seq<string>, rs: seq<Reading>, i: nat, l: License)
    requires names != [] && |names| == |rs|
    ensures var n := |names| - 1;
      Brings(decode, files, specials, names, rs, i, l) <==>
      Brings(decode, files, specials, names[..n], rs[..n], i, l)
      || (i == n && Brings(decode, files, specials, names, rs, n, l))
  {
  }

  /** What one listed file does to the registry when it has its turn. */
  lemma {:induction false} ForeignEntryAdds(decode: Decoder, files: map<string, Bytes>,
          specials: map<string, Special>, names: seq<string>, rs: seq<Reading>, before: State)
    requires names != [] && |names| == |rs|
    requires var n := |names| - 1;
      IsDirectory(specials, names[n]) || IsFile(specials, files, names[n])
    ensures var n := |names| - 1;
      var s' := LoadEntry(decode, Foreign(files), specials, Loaded(before, true), names[n], rs[n]).state;
      && (forall l :: Brings(decode, files, specials, names, rs, n, l) ==> s' == Add(before, l, None))
      && ((forall l :: !Brings(decode, files, specials, names, rs, n, l)) ==> s' == before)
  {
    var n := |names| - 1;
    if IsFile(specials, files, names[n]) {
      var c := Certificate(decode, files[names[n]]);
      if c.Some? {
        ExpiredMeans(c.value, MIN_REMAINING_LIFE, rs[n].checkedAt);
      }
      if Admit(decode, files[names[n]], rs[n]).Admitted? {
        assert Brings(decode, files, specials, names, rs, n, c.value);
      }
    }
  }

  /** The licence stored under `id`, if any, was there before or is brought by a listed file. */
  ghost predicate BroughtOrKept(decode: Decoder, files: map<string, Bytes>, specials: map<string, Special>, s: State,
          names: seq<string>, rs: seq<Reading>, s': State, id: string)
    requires |names| == |rs|
  {
    if id in s.store then id in s'.store && s'.store[id] == s.store[id]
    else if id in s'.store then
      var l := s'.store[id].license;
      l.id == id && exists i: nat :: Brings(decode, files, specials, names, rs, i, l)
    else forall i: nat, l :: Brings(decode, files, specials, names, rs, i, l) ==> l.id != id
  }

  /**
   * A load of another directory, if it succeeds, keeps every record and adds one for each new serial among the
   * certificates that the listed files bring, and no other.
   */
  lemma {:induction false} ForeignLoadAdds(decode: Decoder, files: map<string, Bytes>,
          specials: map<string, Special>, s: State, names: seq<string>, rs: seq<Reading>, id: string)
    requires |names| == |rs| && Load(decode, Foreign(files), specials, s, names, rs).ok
    ensures BroughtOrKept(decode, files, specials, s, names, rs,
              Load(decode, Foreign(files), specials, s, names, rs).state, id)
    decreases |names|
  {
    if names != [] {
      var n := |names| - 1;
      var before := Load(decode, Foreign(files), specials, s, names[..n], rs[..n]);
      var after := Load(decode, Foreign(files), specials, s, names, rs);
      assert before.ok;
      ForeignLoadAdds(decode, files, specials, s, names[..n], rs[..n], id);
      ForeignLoadOkIff(decode, files, specials, s, names, rs);
      ForeignEntryAdds(decode, files, specials, names, rs, before.state);
      assert after == LoadEntry(decode, Foreign(files), specials, Loaded(before.state, true), names[n], rs[n]);
      hide Load, LoadEntry, Certificate;
      BroughtByEntry(decode, files, specials, s, names, rs, before.state, after.state, id);
    }
  }

  lemma {:induction false} BroughtByEntry(decode: Decoder, files: map<string, Bytes>, specials: map<string, Special>,
          s: State, names: seq<string>, rs: seq<Reading>, before: State, after: State, id: string)
    requires names != [] && |names| == |rs|
    requires var n := |names| - 1;
      && BroughtOrKept(decode, files, specials, s, names[..n], rs[..n], before, id)
      && (forall l :: Brings(decode, files, specials, names, rs, n, l) ==> after == Add(before, l, None))
      && ((forall l :: !Brings(decode, files, specials, names, rs, n, l)) ==> after == before)
    ensures BroughtOrKept(decode, files, specials, s, names, rs, after, id)
  {
    var n := |names| - 1;
    forall i: nat, l
      ensures Brings(decode, files, specials, names, rs, i, l) <==>
              Brings(decode, files, specials, names[..n], rs[..n], i, l)
              || (i == n && Brings(decode, files, specials, names, rs, n, l))
    {
      BringsExtends(decode, files, specials, names, rs, i, l);
    }
    hide Brings;
    if l :| Brings(decode, files, specials, names, rs, n, l) {
      assert after == Add(before, l, None);
    }
  }

  /** So every licence that a listed file brings is stored afterwards, perhaps in another encoding. */
  lemma {:induction false} ForeignLoadStores(decode: Decoder, files: map<string, Bytes>,
          specials: map<string, Special>, s: State, names: seq<string>, rs: seq<Reading>, i: nat, l: License)
    requires UniqueSerials(decode) && |names| == |rs|
    requires forall id :: id in s.store ==> Genuine(decode, s.store[id].license) && s.store[id].license.id == id
    requires Load(decode, Foreign(files), specials, s, names, rs).ok
    requires Brings(decode, files, specials, names, rs, i, l)
    ensures StoredAs(Load(decode, Foreign(files), specials, s, names, rs).state, l)
  {
    ForeignLoadAdds(decode, files, specials, s, names, rs, l.id);
    var s' := Load(decode, Foreign(files), specials, s, names, rs).state;
    var m := s'.store[l.id].license;
    hide Load;
    if l.id !in s.store {
      var k: nat :| Brings(decode, files, specials, names, rs, k, m);
    }
    assert Genuine(decode, l) && Genuine(decode, m);
  }

  /** A load that has failed goes no further: what is listed after the entry that failed it does not matter. */
  lemma {:induction false} LoadStops(decode: Decoder, source: Source, specials: map<string, Special>, s: State,
          names: seq<string>, rs: seq<Reading>, n: nat)
    requires |names| == |rs| && n <= |names| && !Load(decode, source, specials, s, names[..n], rs[..n]).ok
    ensures Load(decode, source, specials, s, names, rs) == Load(decode, source, specials, s, names[..n], rs[..n])
    decreases |names|
  {
    var m := |names| - 1;
    if n == |names| {
      assert names[..n] == names && rs[..n] == rs;
    } else {
      assert names[..m][..n] == names[..n] && rs[..m][..n] == rs[..n];
      LoadStops(decode, source, specials, s, names[..m], rs[..m], n);
    }
  }
}
