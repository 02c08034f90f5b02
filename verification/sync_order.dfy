/** The order in which a Secret's entries are ranged over does not matter to the registry they are synced into. */
module SyncOrder {
  import opened Licenses
  import opened RegistryStates
  import opened Syncer

  /** All of a pass judged at one clock reading. */
  function At(n: nat, t: Time): seq<Reading> {
    seq(n, _ => Reading(t, t))
  }

  function SyncAt(decode: Decoder, s: State, entries: seq<Bytes>, t: Time): Synced {
    Sync(decode, s, entries, At(|entries|, t))
  }

  ghost predicate AllParse(decode: Decoder, entries: seq<Bytes>, t: Time) {
    forall i :: 0 <= i < |entries| ==> Parse(decode, entries[i], t).Some?
  }

  /** A licence that a pass over `entries` brings into the registry. */
  ghost predicate IsNew(decode: Decoder, s: State, entries: seq<Bytes>, t: Time, l: License) {
    l.data in entries && Admit(decode, l.data, Reading(t, t)) == Admitted(l) && l.id !in s.store
  }

  lemma {:induction false} SyncAtStep(decode: Decoder, s: State, entries: seq<Bytes>, t: Time)
    requires entries != []
    ensures var n := |entries| - 1;
      SyncAt(decode, s, entries, t) == SyncEntry(decode, SyncAt(decode, s, entries[..n], t), entries[n], Reading(t, t))
  {
    assert At(|entries|, t)[..|entries| - 1] == At(|entries| - 1, t);
  }

  /** No two of the licences that a pass brings share a serial; that would take two encodings of one certificate. */
  ghost predicate OneEncodingEach(decode: Decoder, s: State, entries: seq<Bytes>, t: Time) {
    forall a, b :: IsNew(decode, s, entries, t, a) && IsNew(decode, s, entries, t, b) && a.id == b.id ==> a == b
  }

  /** What a pass does to everything but heaps and files. */
  ghost predicate StoreSynced(decode: Decoder, s: State, entries: seq<Bytes>, t: Time, s': State) {
    && s'.ttl == s.ttl && s'.book == s.book
    && (forall id :: id in s.store ==> id in s'.store && s'.store[id] == s.store[id])
    && (forall id :: id in s'.store && id !in s.store ==>
          && s'.store[id].contract == None && s'.store[id].license.id == id
          && IsNew(decode, s, entries, t, s'.store[id].license))
    && (forall l :: IsNew(decode, s, entries, t, l) ==> l.id in s'.store)
  }

  /** What a pass does to heap `f`. */
  ghost predicate HeapSynced(decode: Decoder, s: State, entries: seq<Bytes>, t: Time, s': State, f: string) {
    && HeapsOrdered(s')
    && forall e :: Elems(s'.queues, f)[e] ==
         Elems(s.queues, f)[e] + if IsNew(decode, s, entries, t, e) then Listings(e.features, f) else 0
  }

  /** What a pass does to the cache directory. */
  ghost predicate FilesSynced(decode: Decoder, s: State, entries: seq<Bytes>, t: Time, s': State) {
    match s.files
    case None => s'.files == None
    case Some(m) =>
      && s'.files.Some? && (forall name :: name in m ==> name in s'.files.value)
      && (forall l :: IsNew(decode, s, entries, t, l) ==> l.id in s'.files.value && s'.files.value[l.id] == l.data)
      && (forall name :: name in s'.files.value ==>
            || (name in m && s'.files.value[name] == m[name])
            || exists l :: IsNew(decode, s, entries, t, l) && l.id == name)
  }

  /** One more entry adds at most the licence it holds to those that are new. */
  lemma {:induction false} NewExtends(decode: Decoder, s: State, entries: seq<Bytes>, data: Bytes, t: Time,
          e: License)
    ensures IsNew(decode, s, entries + [data], t, e) <==>
            IsNew(decode, s, entries, t, e) || (e.data == data && IsNew(decode, s, [data], t, e))
  {
  }

  lemma {:induction false} StoredIsNew(decode: Decoder, s: State, entries: seq<Bytes>, data: Bytes, t: Time,
          s': State, l: License)
    requires OneEncodingEach(decode, s, entries + [data], t) && StoreSynced(decode, s, entries, t, s')
    requires IsNew(decode, s, entries + [data], t, l)
    ensures l.id in s'.store <==> IsNew(decode, s, entries, t, l)
  {
    if l.id in s'.store {
      NewExtends(decode, s, entries, data, t, s'.store[l.id].license);
    }
  }

  lemma {:induction false} SkippedKeepsSynced(decode: Decoder, s: State, entries: seq<Bytes>, data: Bytes, t: Time,
          s': State, f: string)
    requires forall e :: IsNew(decode, s, entries + [data], t, e) <==> IsNew(decode, s, entries, t, e)
    requires HeapSynced(decode, s, entries, t, s', f) && FilesSynced(decode, s, entries, t, s')
    ensures HeapSynced(decode, s, entries + [data], t, s', f)
    ensures FilesSynced(decode, s, entries + [data], t, s')
  {
    forall name | s.files.Some? && name in s'.files.value && exists l :: IsNew(decode, s, entries, t, l) && l.id == name
      ensures exists l :: IsNew(decode, s, entries + [data], t, l) && l.id == name
    {
      var l :| IsNew(decode, s, entries, t, l) && l.id == name;
      assert IsNew(decode, s, entries + [data], t, l);
    }
  }

  ghost predicate OneMoreIsNew(decode: Decoder, s: State, entries: seq<Bytes>, data: Bytes, t: Time, l: License) {
    && !IsNew(decode, s, entries, t, l)
    && forall e :: IsNew(decode, s, entries + [data], t, e) <==> IsNew(decode, s, entries, t, e) || e == l
  }

  lemma {:induction false} AddedKeepsHeapSynced(decode: Decoder, s: State, entries: seq<Bytes>, data: Bytes,
          t: Time, before: State, l: License, f: string)
    requires OneMoreIsNew(decode, s, entries, data, t, l) && l.id !in before.store
    requires HeapSynced(decode, s, entries, t, before, f)
    ensures HeapSynced(decode, s, entries + [data], t, Add(before, l, None), f)
  {
    hide IsNew;
    AddElems(before, l, None, f);
  }

  lemma {:induction false} AddedKeepsFilesSynced(decode: Decoder, s: State, entries: seq<Bytes>, data: Bytes,
          t: Time, before: State, l: License)
    requires OneMoreIsNew(decode, s, entries, data, t, l) && l.id !in before.store
    requires StoreSynced(decode, s, entries, t, before) && FilesSynced(decode, s, entries, t, before)
    ensures FilesSynced(decode, s, entries + [data], t, Add(before, l, None))
  {
    hide IsNew;
    var after := Add(before, l, None);
    if s.files.Some? {
      var m, m' := s.files.value, after.files.value;
      forall name | name in m' && !(name in m && m'[name] == m[name])
        ensures exists e :: IsNew(decode, s, entries + [data], t, e) && e.id == name
      {
        if name == l.id {
          assert IsNew(decode, s, entries + [data], t, l);
        } else {
          var e :| IsNew(decode, s, entries, t, e) && e.id == name;
          assert IsNew(decode, s, entries + [data], t, e);
        }
      }
    }
  }

  /** Which licences one more entry makes new: at most the one it holds. */
  lemma {:induction false} NewAfter(decode: Decoder, s: State, entries: seq<Bytes>, data: Bytes, t: Time, l: License)
    requires Parse(decode, data, t) == Some(l)
    ensures l.data == data
    ensures forall e :: IsNew(decode, s, entries + [data], t, e) <==>
              IsNew(decode, s, entries, t, e) || (e == l && IsNew(decode, s, [data], t, l))
  {
    forall e
      ensures IsNew(decode, s, entries + [data], t, e) <==>
              IsNew(decode, s, entries, t, e) || (e == l && IsNew(decode, s, [data], t, l))
    {
      NewExtends(decode, s, entries, data, t, e);
    }
  }

  lemma {:induction false} AddedKeepsStoreSynced(decode: Decoder, s: State, entries: seq<Bytes>, data: Bytes,
          t: Time, before: State, l: License)
    requires forall e :: IsNew(decode, s, entries + [data], t, e) <==> IsNew(decode, s, entries, t, e) || e == l
    requires StoreSynced(decode, s, entries, t, before) && l.id !in before.store
    ensures StoreSynced(decode, s, entries + [data], t, Add(before, l, None))
  {
    hide IsNew;
  }

  lemma {:induction false} SkippedKeepsStoreSynced(decode: Decoder, s: State, entries: seq<Bytes>, data: Bytes,
          t: Time, before: State, l: License)
    requires forall e :: IsNew(decode, s, entries + [data], t, e) ==> IsNew(decode, s, entries, t, e) || e == l
    requires forall e :: IsNew(decode, s, entries, t, e) ==> IsNew(decode, s, entries + [data], t, e)
    requires StoreSynced(decode, s, entries, t, before)
    requires IsNew(decode, s, entries + [data], t, l) ==> l.id in before.store
    ensures StoreSynced(decode, s, entries + [data], t, before)
  {
    hide IsNew;
  }

  lemma {:induction false} SyncOneStore(decode: Decoder, s: State, entries: seq<Bytes>, data: Bytes, t: Time,
          before: State)
    requires Parse(decode, data, t).Some? && StoreSynced(decode, s, entries, t, before)
    ensures StoreSynced(decode, s, entries + [data], t,
              SyncEntry(decode, Synced(before, true), data, Reading(t, t)).state)
  {
    var l := Parse(decode, data, t).value;
    NewAfter(decode, s, entries, data, t, l);
    assert IsNew(decode, s, [data], t, l) <==> Admit(decode, data, Reading(t, t)) == Admitted(l) && l.id !in s.store;
    assert l.id !in before.store ==> l.id !in s.store && !IsNew(decode, s, entries, t, l);
    hide IsNew, StoreSynced, Parse, Certificate;
    if Admit(decode, data, Reading(t, t)) == Admitted(l) && l.id !in before.store {
      AddedKeepsStoreSynced(decode, s, entries, data, t, before, l);
    } else {
      SkippedKeepsStoreSynced(decode, s, entries, data, t, before, l);
    }
  }

  lemma {:induction false} SyncOne(decode: Decoder, s: State, entries: seq<Bytes>, data: Bytes, t: Time,
          before: State, f: string)
    requires OneEncodingEach(decode, s, entries + [data], t) && Parse(decode, data, t).Some?
    requires StoreSynced(decode, s, entries, t, before) && HeapSynced(decode, s, entries, t, before, f)
    requires FilesSynced(decode, s, entries, t, before)
    ensures var after := SyncEntry(decode, Synced(before, true), data, Reading(t, t)).state;
      HeapSynced(decode, s, entries + [data], t, after, f) && FilesSynced(decode, s, entries + [data], t, after)
  {
    var l := Parse(decode, data, t).value;
    NewAfter(decode, s, entries, data, t, l);
    if !IsNew(decode, s, [data], t, l) || IsNew(decode, s, entries, t, l) {
      SkippedKeepsSynced(decode, s, entries, data, t, before, f);
    } else {
      StoredIsNew(decode, s, entries, data, t, before, l);
      AddedKeepsHeapSynced(decode, s, entries, data, t, before, l, f);
      AddedKeepsFilesSynced(decode, s, entries, data, t, before, l);
    }
  }

  /** After a pass in which every entry parses, the store holds what it held and the new licences, no more. */
  lemma {:induction false} SyncStore(decode: Decoder, s: State, entries: seq<Bytes>, t: Time)
    requires AllParse(decode, entries, t)
    ensures SyncAt(decode, s, entries, t).ok && StoreSynced(decode, s, entries, t, SyncAt(decode, s, entries, t).state)
    decreases |entries|
  {
    if entries != [] {
      var n := |entries| - 1;
      SyncStore(decode, s, entries[..n], t);
      SyncAtStep(decode, s, entries, t);
      SyncOneStore(decode, s, entries[..n], entries[n], t, SyncAt(decode, s, entries[..n], t).state);
      assert entries == entries[..n] + [entries[n]];
    }
  }

  lemma {:induction false} OneEncodingEachPrefix(decode: Decoder, s: State, entries: seq<Bytes>, data: Bytes, t: Time)
    requires OneEncodingEach(decode, s, entries + [data], t)
    ensures OneEncodingEach(decode, s, entries, t)
  {
    forall e
      ensures IsNew(decode, s, entries, t, e) ==> IsNew(decode, s, entries + [data], t, e)
    {
      NewExtends(decode, s, entries, data, t, e);
    }
  }

  /** Heaps and files gain the new licences too, and nothing else, if no two of them share a serial. */
  lemma {:induction false} SyncContents(decode: Decoder, s: State, entries: seq<Bytes>, t: Time, f: string)
    requires OneEncodingEach(decode, s, entries, t) && AllParse(decode, entries, t) && HeapsOrdered(s)
    ensures var pass := SyncAt(decode, s, entries, t);
      && pass.ok
      && StoreSynced(decode, s, entries, t, pass.state) && HeapSynced(decode, s, entries, t, pass.state, f)
      && FilesSynced(decode, s, entries, t, pass.state)
    decreases |entries|
  {
    SyncStore(decode, s, entries, t);
    if entries != [] {
      var n := |entries| - 1;
      assert entries == entries[..n] + [entries[n]];
      OneEncodingEachPrefix(decode, s, entries[..n], entries[n], t);
      SyncContents(decode, s, entries[..n], t, f);
      SyncAtStep(decode, s, entries, t);
      SyncOne(decode, s, entries[..n], entries[n], t, SyncAt(decode, s, entries[..n], t).state, f);
    }
  }

  ghost predicate SameEntries(one: seq<Bytes>, two: seq<Bytes>) {
    forall data :: data in one <==> data in two
  }

  lemma {:induction false} SameEntriesSameNew(decode: Decoder, s: State, one: seq<Bytes>, two: seq<Bytes>, t: Time)
    requires SameEntries(one, two)
    ensures forall l :: IsNew(decode, s, one, t, l) <==> IsNew(decode, s, two, t, l)
    ensures AllParse(decode, one, t) ==> AllParse(decode, two, t)
  {
    forall i | 0 <= i < |two|
      ensures AllParse(decode, one, t) ==> Parse(decode, two[i], t).Some?
    {
      assert two[i] in one;
    }
  }

  /** Two passes over the same entries leave the same store, book and files and the same entries in every heap. */
  ghost predicate SameButForHeapOrder(a: State, b: State) {
    && a.ttl == b.ttl && a.store == b.store && a.book == b.book && a.files == b.files
    && forall f :: Elems(a.queues, f) == Elems(b.queues, f)
  }

  lemma {:induction false} SameNewSameState(decode: Decoder, s: State, one: seq<Bytes>, two: seq<Bytes>, t: Time)
    requires OneEncodingEach(decode, s, one, t) && HeapsOrdered(s) && AllParse(decode, one, t) && SameEntries(one, two)
    ensures SameButForHeapOrder(SyncAt(decode, s, one, t).state, SyncAt(decode, s, two, t).state)
  {
    var a, b := SyncAt(decode, s, one, t).state, SyncAt(decode, s, two, t).state;
    SameEntriesSameNew(decode, s, one, two, t);
    SyncContents(decode, s, one, t, "");
    SyncContents(decode, s, two, t, "");
    SameNewSameStore(decode, s, one, two, t, a, b);
    SameNewSameFiles(decode, s, one, two, t, a, b);
    forall f
      ensures Elems(a.queues, f) == Elems(b.queues, f)
    {
      SyncContents(decode, s, one, t, f);
      SyncContents(decode, s, two, t, f);
      assert forall e :: Elems(a.queues, f)[e] == Elems(b.queues, f)[e];
    }
  }

  lemma {:induction false} SameNewSameStore(decode: Decoder, s: State, one: seq<Bytes>, two: seq<Bytes>, t: Time,
          a: State, b: State)
    requires OneEncodingEach(decode, s, one, t)
    requires forall l :: IsNew(decode, s, one, t, l) <==> IsNew(decode, s, two, t, l)
    requires StoreSynced(decode, s, one, t, a) && StoreSynced(decode, s, two, t, b)
    ensures a.ttl == b.ttl && a.store == b.store && a.book == b.book
  {
    hide IsNew;
    forall id | id in a.store && id !in s.store
      ensures id in b.store && a.store[id] == b.store[id]
    {
      assert IsNew(decode, s, two, t, a.store[id].license);
      assert IsNew(decode, s, one, t, b.store[id].license);
    }
    forall id | id in b.store && id !in s.store
      ensures id in a.store
    {
      assert IsNew(decode, s, one, t, b.store[id].license);
    }
  }

  lemma {:induction false} SameNewSameFiles(decode: Decoder, s: State, one: seq<Bytes>, two: seq<Bytes>, t: Time,
          a: State, b: State)
    requires forall l :: IsNew(decode, s, one, t, l) <==> IsNew(decode, s, two, t, l)
    requires FilesSynced(decode, s, one, t, a) && FilesSynced(decode, s, two, t, b)
    ensures a.files == b.files
  {
    hide IsNew;
    if s.files.Some? {
      forall name
        ensures name in a.files.value <==> name in b.files.value
        ensures name in a.files.value ==> a.files.value[name] == b.files.value[name]
      {
        if l :| IsNew(decode, s, one, t, l) && l.id == name {
          assert IsNew(decode, s, two, t, l);
        }
      }
      assert a.files.value == b.files.value;
    }
  }

  lemma {:induction false} SyncFirst(decode: Decoder, s: State, data: Bytes, rest: seq<Bytes>, t: Time)
    requires AllParse(decode, [data] + rest, t)
    ensures SyncAt(decode, s, [data] + rest, t) ==
            SyncAt(decode, SyncEntry(decode, Synced(s, true), data, Reading(t, t)).state, rest, t)
    decreases |rest|
  {
    SyncAtStep(decode, s, [data] + rest, t);
    assert ([data] + rest)[0] == data;
    if rest == [] {
      assert [data] + rest == [data] && [data][..0] == [];
    } else {
      var n := |rest| - 1;
      assert ([data] + rest)[..|rest|] == [data] + rest[..n] && ([data] + rest)[|rest|] == rest[n];
      assert AllParse(decode, [data] + rest[..n], t) by {
        forall i | 0 <= i < |[data] + rest[..n]|
          ensures Parse(decode, ([data] + rest[..n])[i], t).Some?
        {
          assert ([data] + rest[..n])[i] == ([data] + rest)[i];
        }
      }
      SyncFirst(decode, s, data, rest[..n], t);
      SyncAtStep(decode, SyncEntry(decode, Synced(s, true), data, Reading(t, t)).state, rest, t);
    }
  }

  ghost predicate Reordered(one: seq<Bytes>, two: seq<Bytes>) {
    multiset(one) == multiset(two)
  }

  lemma {:induction false} ReorderedIsSame(one: seq<Bytes>, two: seq<Bytes>)
    requires Reordered(one, two)
    ensures SameEntries(one, two)
  {
    forall data
      ensures data in one <==> data in two
    {
      assert data in one <==> data in multiset(one);
      assert data in two <==> data in multiset(two);
    }
  }

  function MovedToFront(entries: seq<Bytes>, i: nat): seq<Bytes>
    requires i < |entries|
  {
    [entries[i]] + (entries[..i] + entries[i + 1..])
  }

  lemma {:induction false} MovedIsReordered(entries: seq<Bytes>, i: nat)
    requires i < |entries|
    ensures Reordered(entries, MovedToFront(entries, i))
  {
    assert entries == entries[..i] + [entries[i]] + entries[i + 1..];
  }

  /** Of the entries under a new serial the first decides what is stored. */
  lemma {:induction false} FirstIsStored(decode: Decoder, s: State, entries: seq<Bytes>, t: Time, l: License)
    returns (moved: seq<Bytes>)
    requires AllParse(decode, entries, t) && IsNew(decode, s, entries, t, l)
    ensures Reordered(entries, moved) && Stored(SyncAt(decode, s, moved, t).state, l)
  {
    var i: nat :| i < |entries| && entries[i] == l.data;
    moved := MovedToFront(entries, i);
    MovedIsReordered(entries, i);
    ReorderedIsSame(entries, moved);
    SameEntriesSameNew(decode, s, entries, moved, t);
    var rest := entries[..i] + entries[i + 1..];
    SyncFirst(decode, s, l.data, rest, t);
    var s1 := SyncEntry(decode, Synced(s, true), l.data, Reading(t, t)).state;
    assert Stored(s1, l);
    assert AllParse(decode, rest, t) by {
      assert forall j :: 0 <= j < |rest| ==> rest[j] == moved[j + 1];
    }
    SyncStore(decode, s1, rest, t);
  }

  /**
   * Every order of the entries leaves the same store, book and files and the same entries in every heap,
   * if and only if no two of the licences that the pass brings share a serial.
   */
  lemma {:induction false} OrderDoesNotMatter(decode: Decoder, s: State, one: seq<Bytes>, t: Time)
    requires HeapsOrdered(s) && AllParse(decode, one, t)
    ensures OneEncodingEach(decode, s, one, t) <==>
            forall two :: Reordered(one, two) ==>
              SameButForHeapOrder(SyncAt(decode, s, one, t).state, SyncAt(decode, s, two, t).state)
  {
    if OneEncodingEach(decode, s, one, t) {
      forall two | Reordered(one, two)
        ensures SameButForHeapOrder(SyncAt(decode, s, one, t).state, SyncAt(decode, s, two, t).state)
      {
        ReorderedIsSame(one, two);
        SameNewSameState(decode, s, one, two, t);
      }
    } else {
      var a, b :| IsNew(decode, s, one, t, a) && IsNew(decode, s, one, t, b) && a.id == b.id && a != b;
      var aFirst := FirstIsStored(decode, s, one, t, a);
      var bFirst := FirstIsStored(decode, s, one, t, b);
    }
  }

  /** What one registry can serve, the other can serve too, perhaps read from other bytes. */
  ghost predicate ServesAsMuch(a: State, b: State, f: string, t: Time) {
    forall l :: Servable(a, f, t, l) ==> exists m :: Servable(b, f, t, m) && SameCertificate(l, m)
  }

  lemma {:induction false} SameNewServesAsMuch(decode: Decoder, s: State, one: seq<Bytes>, two: seq<Bytes>, t: Time,
          a: State, b: State, f: string, u: Time)
    requires UniqueSerials(decode)
    requires forall l :: IsNew(decode, s, one, t, l) <==> IsNew(decode, s, two, t, l)
    requires StoreSynced(decode, s, one, t, a) && StoreSynced(decode, s, two, t, b)
    ensures ServesAsMuch(a, b, f, u)
  {
    forall l | Servable(a, f, u, l)
      ensures exists m :: Servable(b, f, u, m) && SameCertificate(l, m)
    {
      if l.id !in s.store {
        var m := b.store[l.id].license;
        assert IsNew(decode, s, one, t, l) && IsNew(decode, s, two, t, m);
        assert Genuine(decode, l) && Genuine(decode, m);
        assert SameCertificate(l, m);
        assert Servable(b, f, u, m);
      } else {
        assert Servable(b, f, u, l) && SameCertificate(l, l);
      }
    }
  }

  /** Registries that serve as much as each other give answers that `Less` does not tell apart. */
  lemma {:induction false} AnswersAgree(a: State, b: State, f: string, t: Time, expiry: string -> Time)
    requires Inv(a, t, expiry) && Inv(b, t, expiry) && ServesAsMuch(a, b, f, t) && ServesAsMuch(b, a, f, t)
    ensures match (Lookup(a, f, t).license, Lookup(b, f, t).license)
      case (None, None) => true
      case (Some(l), Some(m)) => !Less(l, m) && !Less(m, l)
      case _ => false
  {
    LookupAnswersLikeScan(a, f, t, expiry);
    LookupAnswersLikeScan(b, f, t, expiry);
    hide Inv;
  }

  /** So both orders serve the same features, with licences that `Less` does not tell apart. */
  lemma {:induction false} OrderDoesNotMatterToAnswers(decode: Decoder, s: State, one: seq<Bytes>, two: seq<Bytes>,
          t: Time, f: string, u: Time)
    requires UniqueSerials(decode) && Inv(s, t, SerialExpiry(decode)) && AllParse(decode, one, t)
    requires SameEntries(one, two) && t <= u
    ensures var a, b := SyncAt(decode, s, one, t).state, SyncAt(decode, s, two, t).state;
      match (Lookup(a, f, u).license, Lookup(b, f, u).license)
      case (None, None) => true
      case (Some(l), Some(m)) => !Less(l, m) && !Less(m, l)
      case _ => false
  {
    var expiry := SerialExpiry(decode);
    var a, b := SyncAt(decode, s, one, t).state, SyncAt(decode, s, two, t).state;
    SameEntriesSameNew(decode, s, one, two, t);
    SyncStore(decode, s, one, t);
    SyncStore(decode, s, two, t);
    SyncKeepsInv(decode, s, one, At(|one|, t), t);
    SyncKeepsInv(decode, s, two, At(|two|, t), t);
    hide Inv;
    InvLater(a, t, u, expiry);
    InvLater(b, t, u, expiry);
    SameNewServesAsMuch(decode, s, one, two, t, a, b, f, u);
    SameNewServesAsMuch(decode, s, two, one, t, b, a, f, u);
    AnswersAgree(a, b, f, u, expiry);
  }

  lemma {:induction false} SyncKeepsInv(decode: Decoder, s: State, entries: seq<Bytes>, rs: seq<Reading>, t: Time)
    requires UniqueSerials(decode) && |entries| == |rs| && Inv(s, t, SerialExpiry(decode))
    ensures Inv(Sync(decode, s, entries, rs).state, t, SerialExpiry(decode))
    decreases |entries|
  {
    hide Inv;
    if entries != [] {
      var n := |entries| - 1;
      SyncKeepsInv(decode, s, entries[..n], rs[..n], t);
      var before := Sync(decode, s, entries[..n], rs[..n]).state;
      forall l | Genuine(decode, l)
        ensures Inv(Add(before, l, None), t, SerialExpiry(decode))
      {
        SerialDeterminesExpiry(decode, l);
        AddKeepsInv(before, l, None, t, SerialExpiry(decode));
      }
    }
  }

  /** One entry that does not parse when its turn comes, such as a licence that has ended, fails the whole pass. */
  lemma {:induction false} SyncFailsIff(decode: Decoder, s: State, entries: seq<Bytes>, rs: seq<Reading>)
    requires |entries| == |rs|
    ensures Sync(decode, s, entries, rs).ok <==>
            forall i :: 0 <= i < |entries| ==> Admit(decode, entries[i], rs[i]) != Malformed
    decreases |entries|
  {
    if entries != [] {
      var n := |entries| - 1;
      SyncFailsIff(decode, s, entries[..n], rs[..n]);
      if Sync(decode, s, entries, rs).ok {
        forall i | 0 <= i < |entries|
          ensures Admit(decode, entries[i], rs[i]) != Malformed
        {
          assert i < n ==> entries[i] == entries[..n][i] && rs[i] == rs[..n][i];
        }
      } else if Sync(decode, s, entries[..n], rs[..n]).ok {
        assert Admit(decode, entries[n], rs[n]) == Malformed;
      } else {
        var i :| 0 <= i < n && Admit(decode, entries[..n][i], rs[..n][i]) == Malformed;
        assert Admit(decode, entries[i], rs[i]) == Malformed;
      }
    }
  }
}
