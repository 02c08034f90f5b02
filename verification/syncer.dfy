/** `LicenseSyncer`: the entries of the hub's Secret fed, in map order, into the spoke's registry. */
module Syncer {
  import opened Licenses
  import opened RegistryStates
  import opened Registries
  import opened Secrets

  datatype Synced = Synced(state: State, ok: bool)

  /** `addLicense` on one Secret entry, unless an earlier one has already failed the pass. */
  function SyncEntry(decode: Decoder, before: Synced, data: Bytes, r: Reading): Synced {
    if !before.ok then before
    else
      match Admit(decode, data, r)
      case Malformed => before.(ok := false)
      case TooOld => before
      case Admitted(l) => before.(state := Add(before.state, l, None))
  }

  function Sync(decode: Decoder, s: State, entries: seq<Bytes>, rs: seq<Reading>): Synced
    requires |entries| == |rs|
    decreases |entries|
  {
    if entries == [] then Synced(s, true)
    else
      var n := |entries| - 1;
      SyncEntry(decode, Sync(decode, s, entries[..n], rs[..n]), entries[n], rs[n])
  }

  /** A pass that has failed goes no further: what comes after the entry that failed it does not matter. */
  lemma {:induction false} SyncStops(decode: Decoder, s: State, entries: seq<Bytes>, rs: seq<Reading>, n: nat)
    requires |entries| == |rs| && n <= |entries| && !Sync(decode, s, entries[..n], rs[..n]).ok
    ensures Sync(decode, s, entries, rs) == Sync(decode, s, entries[..n], rs[..n])
    decreases |entries|
  {
    var m := |entries| - 1;
    if n == |entries| {
      assert entries[..n] == entries && rs[..n] == rs;
    } else {
      assert entries[..m][..n] == entries[..n] && rs[..m][..n] == rs[..n];
      SyncStops(decode, s, entries[..m], rs[..m], n);
    }
  }

  function Entries(data: map<string, Bytes>, order: seq<string>): seq<Bytes>
    requires forall k :: k in order ==> k in data
  {
    seq(|order|, i requires 0 <= i < |order| => data[order[i]])
  }

  lemma {:induction false} EntriesExtend(data: map<string, Bytes>, order: seq<string>, k: string)
    requires k in data && forall j :: j in order ==> j in data
    ensures forall j :: j in order + [k] ==> j in data
    ensures Entries(data, order + [k]) == Entries(data, order) + [data[k]]
  {
  }

  lemma {:induction false} SyncExtends(decode: Decoder, s: State, entries: seq<Bytes>, rs: seq<Reading>,
          data: Bytes, r: Reading)
    requires |entries| == |rs|
    ensures Sync(decode, s, entries + [data], rs + [r]) == SyncEntry(decode, Sync(decode, s, entries, rs), data, r)
  {
    assert (entries + [data])[..|entries|] == entries && (rs + [r])[..|rs|] == rs;
  }

  /** `order` lists, once each, the keys of `data` that have been ranged over; `keys` are those still to come. */
  ghost predicate Ranging(data: map<string, Bytes>, keys: set<string>, order: seq<string>) {
    && (forall k :: k in data <==> k in keys || k in order)
    && (forall k :: k in order ==> k !in keys)
    && (forall i, j :: 0 <= i < j < |order| ==> order[i] != order[j])
  }

  lemma {:induction false} RangingStep(data: map<string, Bytes>, keys: set<string>, order: seq<string>, k: string)
    requires Ranging(data, keys, order) && k in keys
    ensures Ranging(data, keys - {k}, order + [k])
  {
  }

  class LicenseSyncer {
    const decode: Decoder
    const R: LicenseRegistry

    constructor (decode: Decoder, R: LicenseRegistry)
      ensures this.decode == decode && this.R == R
    {
      this.decode := decode;
      this.R := R;
    }

    method AddLicense(data: Bytes, clock: Clock) returns (ok: bool, ghost r: Reading)
      modifies R, R.cacheDir, clock
      ensures old(clock.now) <= r.parsedAt <= r.checkedAt <= clock.now
      ensures Synced(R.Abs(), ok) == SyncEntry(decode, Synced(old(R.Abs()), true), data, r)
    {
      var parsedAt := clock.Read();
      r := Reading(parsedAt, parsedAt);
      var license := Parse(decode, data, parsedAt);
      if license.None? {
        return false, r;
      }
      var checkedAt := clock.Read();
      r := Reading(parsedAt, checkedAt);
      if Until(license.value.notAfter, checkedAt) >= MIN_REMAINING_LIFE {
        R.Add(license.value, None);
      }
      return true, r;
    }

    /**
     * `src` is what reading the hub Secret gave, if it could be read, and `patched` whether the API server
     * takes the copy; `order` is the order in which the map was ranged over, up to the first failure,
     * and `left` the keys it did not get to.
     */
    method Reconcile(src: Option<map<string, Bytes>>, dst: Secret, patched: bool, clock: Clock)
      returns (ok: bool, ghost left: set<string>, ghost order: seq<string>, ghost rs: seq<Reading>)
      modifies R, R.cacheDir, clock, dst
      ensures Ordered(old(clock.now), rs, clock.now)
      ensures src.None? ==> !ok && order == [] && R.Abs() == old(R.Abs())
      ensures src.Some? ==>
        && Ranging(src.value, left, order) && |order| == |rs|
        && var pass := Sync(decode, old(R.Abs()), Entries(src.value, order), rs);
           && R.Abs() == pass.state
           && (pass.ok ==> left == {})
           && (ok <==> pass.ok && patched)
      ensures dst.data == if ok then src else old(dst.data)
    {
      left, order, rs := {}, [], [];
      if src.None? {
        return false, left, order, rs;
      }
      var data := src.value;
      ghost var s := R.Abs();
      var keys := data.Keys;
      while keys != {}
        invariant Ranging(data, keys, order) && |order| == |rs|
        invariant Ordered(old(clock.now), rs, clock.now)
        invariant Sync(decode, s, Entries(data, order), rs) == Synced(R.Abs(), true)
        invariant dst.data == old(dst.data)
        decreases |keys|
      {
        var k :| k in keys;
        ghost var mid := clock.now;
        ghost var r;
        ok, r := AddLicense(data[k], clock);
        OrderedExtends(old(clock.now), rs, mid, r, clock.now);
        RangingStep(data, keys, order, k);
        EntriesExtend(data, order, k);
        SyncExtends(decode, s, Entries(data, order), rs, data[k], r);
        keys, order, rs := keys - {k}, order + [k], rs + [r];
        if !ok {
          left := keys;
          return;
        }
      }
      ok := patched;
      if patched {
        dst.data := Some(data);
      }
    }
  }
}
