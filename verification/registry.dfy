/** The licence registry and what it owns or shares: record book, cache directory, clock. */
module Registries {
  import opened Licenses
  import opened RegistryStates
  import opened LicenseQueues

  /** A clock that is read, and never goes back. */
  class Clock {
    var now: Time

    constructor (now: Time)
      ensures this.now == now
    {
      this.now := now;
    }

    method Read() returns (t: Time)
      modifies this
      ensures old(now) <= now == t
    {
      var passed: int :| passed >= 0;
      now := now + passed;
      t := now;
    }
  }

  /** Directory entries that are not plain files. */
  datatype Special = Subdirectory | LinkToDirectory | BrokenLink | Unreadable

  class Directory {
    var files: map<string, Bytes>
    const specials: map<string, Special>

    constructor (files: map<string, Bytes>, specials: map<string, Special>)
      ensures this.files == files && this.specials == specials
    {
      this.files := files;
      this.specials := specials;
    }

    method WriteFile(name: string, data: Bytes)
      modifies this
      ensures files == old(files)[name := data]
    {
      files := files[name := data];
    }

    method Remove(name: string)
      modifies this
      ensures files == old(files) - {name}
    {
      files := files - {name};
    }
  }

  class RecordBook {
    var reg: map<string, Usage>

    constructor ()
      ensures reg == map[]
    {
      reg := map[];
    }

    method Record(id: string, features: seq<string>, user: User)
      modifies this
      ensures reg == old(reg)[id := Usage(features, user)]
    {
      var extra := map k | k in user.extra :: user.extra[k];
      assert extra == user.extra;
      reg := reg[id := Usage(features, User(user.name, user.uid, user.groups, extra))];
    }

    method UsedBy(id: string) returns (out: Option<Usage>)
      ensures out == if id in reg then Some(reg[id]) else None
    {
      out := if id in reg then Some(reg[id]) else None;
    }

    method Delete(id: string)
      modifies this
      ensures reg == old(reg) - {id}
    {
      reg := reg - {id};
    }
  }

  class LicenseRegistry {
    var reg: map<string, seq<License>>
    var store: map<string, Record>
    const rb: RecordBook?
    const cacheDir: Directory?
    const ttl: Ttl

    ghost function Abs(): State
      reads this, rb, cacheDir
    {
      State(ttl, reg, store,
            if rb == null then map[] else rb.reg,
            if cacheDir == null then None else Some(cacheDir.files))
    }

    constructor (cacheDir: Directory?, ttl: Ttl, rb: RecordBook?)
      ensures this.cacheDir == cacheDir && this.ttl == ttl && this.rb == rb
      ensures reg == map[] && store == map[]
    {
      this.cacheDir := cacheDir;
      this.ttl := ttl;
      this.rb := rb;
      reg := map[];
      store := map[];
    }

    method Add(l: License, c: Option<Contract>)
      modifies this, cacheDir
      ensures Abs() == RegistryStates.Add(old(Abs()), l, c)
    {
      if l.id in store {
        return;
      }
      AddToStore(l, c);
      ghost var before := reg;
      for i := 0 to |l.features|
        invariant Enqueue(reg, l, l.features[i..]) == Enqueue(before, l, l.features)
        invariant Abs() == RegistryStates.AddToStore(old(Abs()), l, c).(queues := reg)
      {
        var feature := l.features[i];
        assert l.features[i..][1..] == l.features[i + 1..];
        if feature !in reg {
          reg := reg[feature := [l]];
        } else {
          var q := new LicenseQueue(reg[feature]);
          HeapPush(q, l);
          reg := reg[feature := q.items];
        }
      }
    }

    /** The clock is read anew before every eviction; the outcome is that of its last reading alone. */
    method LicenseForFeature(clock: Clock, feature: string) returns (found: Option<License>)
      modifies this, rb, cacheDir, clock
      ensures old(clock.now) <= clock.now
      ensures Answer(Abs(), found) == Lookup(old(Abs()), feature, clock.now)
    {
      if feature !in reg {
        return None;
      }
      var q := new LicenseQueue(reg[feature]);
      ghost var before := Abs();
      while q.Len() > 0
        invariant fresh(q) && feature in reg && q.items == reg[feature]
        invariant old(clock.now) <= clock.now
        invariant forall t :: clock.now <= t ==> Lookup(Abs(), feature, t) == Lookup(before, feature, t)
        decreases q.Len()
      {
        var item := q.items[0];
        var now := clock.Read();
        if Until(item.notAfter, now) < ttl {
          ghost var s := Abs();
          var _ := HeapPop(q);
          reg := reg[feature := q.items];
          RemoveFromStore(item);
          assert Abs() == Evict(s, feature);
          assert forall t :: now <= t ==> Expired(item, ttl, t);
        } else {
          return Some(item);
        }
      }
      return None;
    }

    method AddToStore(l: License, c: Option<Contract>)
      modifies this`store, cacheDir
      ensures Abs() == RegistryStates.AddToStore(old(Abs()), l, c)
    {
      store := store[l.id := Record(l, c)];
      if cacheDir != null {
        cacheDir.WriteFile(l.id, l.data);
      }
    }

    method RemoveFromStore(l: License)
      modifies this`store, rb, cacheDir
      ensures Abs() == RegistryStates.RemoveFromStore(old(Abs()), l)
    {
      store := store - {l.id};
      if rb != null {
        rb.Delete(l.id);
      }
      if cacheDir != null {
        cacheDir.Remove(l.id);
      }
    }

    method Get(id: string) returns (rec: Option<Record>)
      ensures rec == if id in store then Some(store[id]) else None
    {
      rec := if id in store then Some(store[id]) else None;
    }

    /** Every record that ends strictly after `now + ttl`, once each, best first. */
    method List(clock: Clock) returns (out: seq<Record>)
      requires forall id :: id in store ==> store[id].license.id == id
      modifies clock
      ensures old(clock.now) <= clock.now
      ensures forall i :: 0 <= i < |out| ==> IsListed(store, clock.now + ttl, out[i])
      ensures forall id :: id in store && store[id].license.notAfter > clock.now + ttl ==> store[id] in out
      ensures forall i, j :: 0 <= i < j < |out| ==> out[i].license.id != out[j].license.id
      ensures SortedRecords(out)
    {
      var now := clock.Read();
      now := now + ttl;
      out := [];
      var keys := store.Keys;
      while keys != {}
        invariant keys <= store.Keys
        invariant forall i :: 0 <= i < |out| ==> IsListed(store, now, out[i]) && out[i].license.id !in keys
        invariant forall id :: id in store && id !in keys && store[id].license.notAfter > now ==> store[id] in out
        invariant forall i, j :: 0 <= i < j < |out| ==> out[i].license.id != out[j].license.id
        decreases |keys|
      {
        var id :| id in keys;
        keys := keys - {id};
        if store[id].license.notAfter > now {
          out := out + [store[id]];
        }
      }
      ghost var unsorted := out;
      out := Sorted(out);
      SortedIsSorted(unsorted);
      SortedKeepsDistinct(unsorted);
      SortedElements(unsorted);
      forall i | 0 <= i < |out|
        ensures IsListed(store, now, out[i])
      {
        assert out[i] in out;
        assert out[i] in unsorted;
      }
    }
  }

  predicate IsListed(store: map<string, Record>, deadline: Time, rec: Record) {
    rec.license.id in store && store[rec.license.id] == rec && rec.license.notAfter > deadline
  }

  // ---------- Sorting by `Less` ----------

  ghost predicate SortedRecords(rs: seq<Record>) {
    forall i, j :: 0 <= i < j < |rs| ==> !Less(rs[j].license, rs[i].license)
  }

  function Insert(rec: Record, rs: seq<Record>): seq<Record> {
    if rs == [] || Less(rec.license, rs[0].license) then [rec] + rs
    else [rs[0]] + Insert(rec, rs[1..])
  }

  function Sorted(rs: seq<Record>): seq<Record> {
    if rs == [] then [] else Insert(rs[0], Sorted(rs[1..]))
  }

  lemma {:induction false} InsertElements(rec: Record, rs: seq<Record>)
    ensures multiset(Insert(rec, rs)) == multiset(rs) + multiset{rec}
  {
    if rs == [] || Less(rec.license, rs[0].license) {
    } else {
      InsertElements(rec, rs[1..]);
      assert rs == [rs[0]] + rs[1..];
    }
  }

  lemma {:induction false} SortedElements(rs: seq<Record>)
    ensures multiset(Sorted(rs)) == multiset(rs)
    ensures forall r :: r in Sorted(rs) <==> r in rs
  {
    if rs != [] {
      SortedElements(rs[1..]);
      InsertElements(rs[0], Sorted(rs[1..]));
      assert rs == [rs[0]] + rs[1..];
    }
    assert forall r :: r in Sorted(rs) <==> r in multiset(Sorted(rs));
  }

  lemma {:induction false} InsertKeepsSorted(rec: Record, rs: seq<Record>)
    requires SortedRecords(rs)
    ensures SortedRecords(Insert(rec, rs))
  {
    if rs == [] {
    } else if Less(rec.license, rs[0].license) {
      forall j | 0 <= j < |rs|
        ensures !Less(rs[j].license, rec.license)
      {
        LessIsStrictWeakOrder(rec.license, rs[0].license, rs[j].license);
        LessIsStrictWeakOrder(rs[0].license, rs[0].license, rec.license);
      }
    } else {
      InsertKeepsSorted(rec, rs[1..]);
      var tail := Insert(rec, rs[1..]);
      InsertElements(rec, rs[1..]);
      forall j | 0 <= j < |tail|
        ensures !Less(tail[j].license, rs[0].license)
      {
        assert tail[j] in multiset(tail);
        assert tail[j] == rec || tail[j] in rs[1..];
      }
    }
  }

  lemma {:induction false} SortedIsSorted(rs: seq<Record>)
    ensures SortedRecords(Sorted(rs))
  {
    if rs != [] {
      SortedIsSorted(rs[1..]);
      InsertKeepsSorted(rs[0], Sorted(rs[1..]));
    }
  }

  ghost predicate DistinctSerials(rs: seq<Record>) {
    forall i, j :: 0 <= i < j < |rs| ==> rs[i].license.id != rs[j].license.id
  }

  lemma {:induction false} InsertKeepsDistinct(rec: Record, rs: seq<Record>)
    requires DistinctSerials(rs) && forall r :: r in rs ==> r.license.id != rec.license.id
    ensures DistinctSerials(Insert(rec, rs))
  {
    if rs == [] || Less(rec.license, rs[0].license) {
    } else {
      InsertKeepsDistinct(rec, rs[1..]);
      var tail := Insert(rec, rs[1..]);
      InsertElements(rec, rs[1..]);
      forall j | 0 <= j < |tail|
        ensures tail[j].license.id != rs[0].license.id
      {
        assert tail[j] in multiset(tail);
        assert tail[j] == rec || tail[j] in rs[1..];
      }
    }
  }

  lemma {:induction false} SortedKeepsDistinct(rs: seq<Record>)
    requires DistinctSerials(rs)
    ensures DistinctSerials(Sorted(rs))
  {
    if rs != [] {
      SortedKeepsDistinct(rs[1..]);
      SortedElements(rs[1..]);
      InsertKeepsDistinct(rs[0], Sorted(rs[1..]));
    }
  }

  /** Of what could be served at the same clock reading a listing leaves out only what ends exactly at its deadline. */
  lemma {:induction false} ListedVersusServable(s: State, now: Time, id: string)
    requires id in s.store && s.store[id].license.id == id
    ensures IsListed(s.store, now + s.ttl, s.store[id]) <==>
            Live(s, s.store[id].license, now) && s.store[id].license.notAfter != now + s.ttl
  {
  }
}
