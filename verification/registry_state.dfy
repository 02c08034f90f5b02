/** What a licence registry does, as functions on its state: feature heaps, store, usage book and files. */
module RegistryStates {
  import opened Licenses
  import opened Heaps

  datatype User = User(name: string, uid: string, groups: seq<string>, extra: map<string, seq<string>>)

  /** Who was last served with a licence, and for which features. */
  datatype Usage = Usage(features: seq<string>, user: User)

  /** `files` is `None` for a registry without a cache directory; `book` stays empty without a record book. */
  datatype State = State(
    ttl: Ttl,
    queues: map<string, seq<License>>,
    store: map<string, Record>,
    book: map<string, Usage>,
    files: Option<map<string, Bytes>>)

  datatype Answer = Answer(state: State, license: Option<License>)

  function Empty(ttl: Ttl, book: map<string, Usage>, files: Option<map<string, Bytes>>): State {
    State(ttl, map[], map[], book, files)
  }

  function EnqueueFor(queues: map<string, seq<License>>, l: License, f: string): map<string, seq<License>> {
    queues[f := if f in queues then Push(queues[f], l) else [l]]
  }

  function Enqueue(queues: map<string, seq<License>>, l: License, features: seq<string>): map<string, seq<License>>
    decreases features
  {
    if features == [] then queues
    else Enqueue(EnqueueFor(queues, l, features[0]), l, features[1..])
  }

  function AddToStore(s: State, l: License, c: Option<Contract>): State {
    s.(store := s.store[l.id := Record(l, c)],
       files := match s.files case None => None case Some(m) => Some(m[l.id := l.data]))
  }

  function Add(s: State, l: License, c: Option<Contract>): State {
    if l.id in s.store then s
    else AddToStore(s, l, c).(queues := Enqueue(s.queues, l, l.features))
  }

  function RemoveFromStore(s: State, l: License): State {
    s.(store := s.store - {l.id},
       book := s.book - {l.id},
       files := match s.files case None => None case Some(m) => Some(m - {l.id}))
  }

  /** One turn of the eviction loop: the root of a feature's heap goes, from the heap and from the store. */
  function Evict(s: State, f: string): State
    requires f in s.queues && s.queues[f] != []
  {
    RemoveFromStore(s.(queues := s.queues[f := Pop(s.queues[f])]), s.queues[f][0])
  }

  /** `LicenseForFeature` at clock reading `t`. */
  function Lookup(s: State, f: string, t: Time): Answer
    decreases if f in s.queues then |s.queues[f]| else 0
  {
    if f !in s.queues || s.queues[f] == [] then Answer(s, None)
    else if Expired(s.queues[f][0], s.ttl, t) then Lookup(Evict(s, f), f, t)
    else Answer(s, Some(s.queues[f][0]))
  }

  /** How often a lookup goes round its eviction loop. */
  function Evictions(s: State, f: string, t: Time): nat
    decreases if f in s.queues then |s.queues[f]| else 0
  {
    if f !in s.queues || s.queues[f] == [] || !Expired(s.queues[f][0], s.ttl, t) then 0
    else 1 + Evictions(Evict(s, f), f, t)
  }

  function Note(s: State, id: string, usage: Usage): State {
    s.(book := s.book[id := usage])
  }

  lemma {:induction false} LookupKeepsTtl(s: State, f: string, t: Time)
    ensures Lookup(s, f, t).state.ttl == s.ttl
    decreases if f in s.queues then |s.queues[f]| else 0
  {
    if f in s.queues && s.queues[f] != [] && Expired(s.queues[f][0], s.ttl, t) {
      LookupKeepsTtl(Evict(s, f), f, t);
    }
  }

  // ---------- The two-index invariant ----------

  /** The entries of a feature's heap, whatever their order. */
  function Elems(queues: map<string, seq<License>>, f: string): multiset<License> {
    if f in queues then multiset(queues[f]) else multiset{}
  }

  predicate Stored(s: State, l: License) {
    l.id in s.store && s.store[l.id].license == l
  }

  predicate Live(s: State, l: License, t: Time) {
    !Expired(l, s.ttl, t)
  }

  ghost predicate AllHeaps(queues: map<string, seq<License>>) {
    forall f :: f in queues ==> IsHeap(queues[f])
  }

  ghost predicate HeapsOrdered(s: State) {
    AllHeaps(s.queues)
  }

  /** A heap entry lists the heap's feature, and is a stored licence or a stale copy that has expired. */
  ghost predicate EntrySound(s: State, f: string, e: License, t: Time, expiry: string -> Time) {
    f in e.features && e.notAfter == expiry(e.id) && (Stored(s, e) || Expired(e, s.ttl, t))
  }

  ghost predicate EntriesSound(s: State, t: Time, expiry: string -> Time) {
    forall f, e :: e in Elems(s.queues, f) ==> EntrySound(s, f, e, t, expiry)
  }

  ghost predicate InItsHeaps(queues: map<string, seq<License>>, l: License) {
    forall f :: f in l.features ==> l in Elems(queues, f)
  }

  /** Every stored licence is kept under its own serial and is in the heap of every feature it lists. */
  ghost predicate RecordsIndexed(s: State, expiry: string -> Time) {
    forall id :: id in s.store ==>
      var l := s.store[id].license;
      l.id == id && l.notAfter == expiry(id) && InItsHeaps(s.queues, l)
  }

  /** `expiry` is the one thing a serial number has to determine: when its licence ends. */
  ghost predicate Inv(s: State, t: Time, expiry: string -> Time) {
    HeapsOrdered(s) && EntriesSound(s, t, expiry) && RecordsIndexed(s, expiry)
  }

  lemma {:induction false} InvLater(s: State, t: Time, u: Time, expiry: string -> Time)
    requires Inv(s, t, expiry) && t <= u
    ensures Inv(s, u, expiry)
  {
  }

  // ---------- Adding ----------

  function Copies(l: License, n: nat): multiset<License> {
    multiset{}[l := n]
  }

  /** How many times a licence lists feature `f`. */
  function Listings(features: seq<string>, f: string): (n: nat)
    ensures n > 0 <==> f in features
  {
    if features == [] then 0
    else (if features[0] == f then 1 else 0) + Listings(features[1..], f)
  }

  lemma {:induction false} EnqueueForElems(queues: map<string, seq<License>>, l: License, g: string)
    requires AllHeaps(queues)
    ensures AllHeaps(EnqueueFor(queues, l, g))
    ensures Elems(EnqueueFor(queues, l, g), g) == Elems(queues, g) + multiset{l}
    ensures forall f :: f != g ==> Elems(EnqueueFor(queues, l, g), f) == Elems(queues, f)
  {
    if g in queues {
      PushKeepsHeap(queues[g], l);
    } else {
      LessIsStrictWeakOrder(l, l, l);
    }
  }

  /** A licence is pushed once for every time it lists a feature, and nothing else changes in any heap. */
  lemma {:induction false} EnqueueElems(queues: map<string, seq<License>>, l: License, features: seq<string>,
          f: string)
    requires AllHeaps(queues)
    ensures AllHeaps(Enqueue(queues, l, features))
    ensures Elems(Enqueue(queues, l, features), f) == Elems(queues, f) + Copies(l, Listings(features, f))
    decreases features
  {
    if features != [] {
      EnqueueForElems(queues, l, features[0]);
      EnqueueElems(EnqueueFor(queues, l, features[0]), l, features[1..], f);
    }
  }

  lemma {:induction false} AddElems(s: State, l: License, c: Option<Contract>, f: string)
    requires HeapsOrdered(s) && l.id !in s.store
    ensures HeapsOrdered(Add(s, l, c))
    ensures Elems(Add(s, l, c).queues, f) == Elems(s.queues, f) + Copies(l, Listings(l.features, f))
  {
    EnqueueElems(s.queues, l, l.features, f);
  }

  lemma {:induction false} AddKeepsEntriesSound(s: State, l: License, c: Option<Contract>, t: Time,
          expiry: string -> Time)
    requires Inv(s, t, expiry) && l.notAfter == expiry(l.id) && l.id !in s.store
    ensures EntriesSound(Add(s, l, c), t, expiry)
  {
    var s' := Add(s, l, c);
    forall f, e | e in Elems(s'.queues, f)
      ensures EntrySound(s', f, e, t, expiry)
    {
      AddElems(s, l, c, f);
      assert e == l || e in Elems(s.queues, f);
    }
  }

  lemma {:induction false} AddKeepsRecordsIndexed(s: State, l: License, c: Option<Contract>, t: Time,
          expiry: string -> Time)
    requires Inv(s, t, expiry) && l.notAfter == expiry(l.id) && l.id !in s.store
    ensures RecordsIndexed(Add(s, l, c), expiry)
  {
    var s' := Add(s, l, c);
    forall id, f | id in s'.store && f in s'.store[id].license.features
      ensures s'.store[id].license in Elems(s'.queues, f)
    {
      AddElems(s, l, c, f);
      assert id != l.id ==> InItsHeaps(s.queues, s.store[id].license);
    }
  }

  lemma {:induction false} AddKeepsInv(s: State, l: License, c: Option<Contract>, t: Time, expiry: string -> Time)
    requires Inv(s, t, expiry) && l.notAfter == expiry(l.id)
    ensures Inv(Add(s, l, c), t, expiry)
  {
    if l.id !in s.store {
      AddElems(s, l, c, "");
      AddKeepsEntriesSound(s, l, c, t, expiry);
      AddKeepsRecordsIndexed(s, l, c, t, expiry);
    }
  }

  // ---------- Looking up ----------

  lemma {:induction false} EvictElems(s: State, f: string, g: string)
    requires HeapsOrdered(s) && f in s.queues && s.queues[f] != []
    ensures HeapsOrdered(Evict(s, f))
    ensures Elems(Evict(s, f).queues, g) ==
            if g == f then Elems(s.queues, f) - multiset{s.queues[f][0]} else Elems(s.queues, g)
  {
    PopKeepsHeap(s.queues[f]);
  }

  /** `s'` is `s` with one entry `root` out of heap `f` and its serial out of the store. */
  ghost predicate Without(s: State, s': State, f: string, root: License) {
    && s'.ttl == s.ttl && s'.store == s.store - {root.id}
    && Elems(s'.queues, f) == Elems(s.queues, f) - multiset{root}
    && (forall g :: g != f ==> Elems(s'.queues, g) == Elems(s.queues, g))
  }

  lemma {:induction false} EvictIsWithout(s: State, f: string)
    requires HeapsOrdered(s) && f in s.queues && s.queues[f] != []
    ensures Without(s, Evict(s, f), f, s.queues[f][0])
    ensures HeapsOrdered(Evict(s, f))
  {
    EvictElems(s, f, f);
    forall g | g != f {
      EvictElems(s, f, g);
    }
  }

  /** An entry that shares the serial of the evicted root has expired with it; any other keeps its record. */
  lemma {:induction false} WithoutKeepsEntry(s: State, s': State, root: License, g: string, e: License, t: Time,
          expiry: string -> Time)
    requires EntrySound(s, g, e, t, expiry) && s'.ttl == s.ttl && s'.store == s.store - {root.id}
    requires root.notAfter == expiry(root.id) && Expired(root, s.ttl, t)
    ensures EntrySound(s', g, e, t, expiry)
  {
    assert e.id == root.id ==> e.notAfter == root.notAfter;
  }

  lemma {:induction false} WithoutKeepsEntriesSound(s: State, s': State, f: string, root: License, t: Time,
          expiry: string -> Time)
    requires EntriesSound(s, t, expiry) && Without(s, s', f, root)
    requires root in Elems(s.queues, f) && Expired(root, s.ttl, t)
    ensures EntriesSound(s', t, expiry)
  {
    assert EntrySound(s, f, root, t, expiry);
    forall g, e | e in Elems(s'.queues, g)
      ensures EntrySound(s', g, e, t, expiry)
    {
      assert e in Elems(s.queues, g);
      WithoutKeepsEntry(s, s', root, g, e, t, expiry);
    }
  }

  lemma {:induction false} WithoutKeepsInItsHeaps(s: State, s': State, f: string, root: License, l: License)
    requires InItsHeaps(s.queues, l) && Without(s, s', f, root) && l != root
    ensures InItsHeaps(s'.queues, l)
  {
  }

  lemma {:induction false} WithoutKeepsRecordsIndexed(s: State, s': State, f: string, root: License,
          expiry: string -> Time)
    requires RecordsIndexed(s, expiry) && Without(s, s', f, root)
    ensures RecordsIndexed(s', expiry)
  {
    forall id | id in s'.store
      ensures InItsHeaps(s'.queues, s'.store[id].license)
    {
      WithoutKeepsInItsHeaps(s, s', f, root, s.store[id].license);
    }
  }

  /** The store after an operation holds nothing new and has lost nothing that was live. */
  ghost predicate LosesOnlyExpired(s: State, s': State, t: Time) {
    && s'.ttl == s.ttl
    && (forall id :: id in s'.store ==> id in s.store && s'.store[id] == s.store[id])
    && (forall id :: id in s.store && Live(s, s.store[id].license, t) ==> id in s'.store)
  }

  lemma {:induction false} WithoutLosesOnlyExpired(s: State, s': State, root: License, t: Time)
    requires s'.ttl == s.ttl && s'.store == s.store - {root.id} && Expired(root, s.ttl, t)
    requires root.id in s.store ==> s.store[root.id].license.notAfter == root.notAfter
    ensures LosesOnlyExpired(s, s', t)
  {
  }

  lemma {:induction false} EvictKeepsInv(s: State, f: string, t: Time, expiry: string -> Time)
    requires Inv(s, t, expiry) && f in s.queues && s.queues[f] != [] && Expired(s.queues[f][0], s.ttl, t)
    ensures Inv(Evict(s, f), t, expiry)
    ensures LosesOnlyExpired(s, Evict(s, f), t)
  {
    var root, s' := s.queues[f][0], Evict(s, f);
    assert root in Elems(s.queues, f);
    EvictIsWithout(s, f);
    WithoutKeepsEntriesSound(s, s', f, root, t, expiry);
    WithoutKeepsRecordsIndexed(s, s', f, root, expiry);
    assert EntrySound(s, f, root, t, expiry);
    WithoutLosesOnlyExpired(s, s', root, t);
  }

  lemma {:induction false} LookupKeepsInv(s: State, f: string, t: Time, expiry: string -> Time)
    requires Inv(s, t, expiry)
    ensures Inv(Lookup(s, f, t).state, t, expiry)
    ensures LosesOnlyExpired(s, Lookup(s, f, t).state, t)
    decreases if f in s.queues then |s.queues[f]| else 0
  {
    if f in s.queues && s.queues[f] != [] && Expired(s.queues[f][0], s.ttl, t) {
      EvictKeepsInv(s, f, t, expiry);
      LookupKeepsInv(Evict(s, f), f, t, expiry);
    }
  }

  /** How a lookup ends: on an empty heap, or on a root that is live. */
  lemma {:induction false} LookupEnds(s: State, f: string, t: Time)
    ensures var a := Lookup(s, f, t);
      match a.license
      case None => Elems(a.state.queues, f) == multiset{}
      case Some(l) => f in a.state.queues && a.state.queues[f] != [] && l == a.state.queues[f][0] && Live(s, l, t)
    decreases if f in s.queues then |s.queues[f]| else 0
  {
    if f in s.queues && s.queues[f] != [] && Expired(s.queues[f][0], s.ttl, t) {
      LookupEnds(Evict(s, f), f, t);
    }
  }

  /** What a linear scan of the store would have to find for feature `f`. */
  predicate Servable(s: State, f: string, t: Time, l: License) {
    Stored(s, l) && f in l.features && Live(s, l, t)
  }

  /** The lazily cleaned heap answers like a scan of the whole store, and its answer is a best one. */
  lemma {:induction false} LookupAnswersLikeScan(s: State, f: string, t: Time, expiry: string -> Time)
    requires Inv(s, t, expiry)
    ensures var r := Lookup(s, f, t).license;
      match r
      case None => forall l :: !Servable(s, f, t, l)
      case Some(best) => Servable(s, f, t, best) && forall l :: Servable(s, f, t, l) ==> !Less(l, best)
  {
    var a := Lookup(s, f, t);
    LookupKeepsInv(s, f, t, expiry);
    LookupEnds(s, f, t);
    forall l | Servable(s, f, t, l)
      ensures l in Elems(a.state.queues, f)
      ensures a.license.Some? && !Less(l, a.license.value)
    {
      assert Stored(a.state, l);
      assert InItsHeaps(a.state.queues, l);
      var q := a.state.queues[f];
      var k: nat :| k < |q| && q[k] == l;
      RootIsLeast(q, k);
    }
    if a.license.Some? {
      assert a.license.value in Elems(a.state.queues, f);
    }
  }

  lemma {:induction false} LookupDropsOnly(s: State, f: string, t: Time)
    ensures Lookup(s, f, t).state.store.Keys <= s.store.Keys
    decreases if f in s.queues then |s.queues[f]| else 0
  {
    if f in s.queues && s.queues[f] != [] && Expired(s.queues[f][0], s.ttl, t) {
      LookupDropsOnly(Evict(s, f), f, t);
    }
  }

  /** A lookup touches no heap but its own, adds nothing to any heap or store, and keeps heap order. */
  lemma {:induction false} LookupShrinks(s: State, f: string, t: Time)
    requires HeapsOrdered(s)
    ensures var s' := Lookup(s, f, t).state;
      && s'.ttl == s.ttl && HeapsOrdered(s') && s'.store.Keys <= s.store.Keys
      && Elems(s'.queues, f) <= Elems(s.queues, f)
      && forall g :: g != f ==> Elems(s'.queues, g) == Elems(s.queues, g)
    decreases if f in s.queues then |s.queues[f]| else 0
  {
    if f in s.queues && s.queues[f] != [] && Expired(s.queues[f][0], s.ttl, t) {
      EvictElems(s, f, f);
      forall g | g != f {
        EvictElems(s, f, g);
      }
      LookupShrinks(Evict(s, f), f, t);
    }
  }

  /** A heap that holds only copies of one licence gives that licence if it is live, and drains otherwise. */
  lemma {:induction false} LookupOfCopies(s: State, f: string, t: Time, l: License)
    requires HeapsOrdered(s)
    requires forall e :: e in Elems(s.queues, f) ==> e == l
    ensures Expired(l, s.ttl, t) ==>
      Lookup(s, f, t).license == None && Elems(Lookup(s, f, t).state.queues, f) == multiset{}
    ensures !Expired(l, s.ttl, t) && l in Elems(s.queues, f) ==> Lookup(s, f, t) == Answer(s, Some(l))
  {
    LookupShrinks(s, f, t);
    LookupEnds(s, f, t);
    var a := Lookup(s, f, t);
    if a.license.Some? {
      assert a.license.value in Elems(a.state.queues, f);
    }
    if f in s.queues && s.queues[f] != [] {
      assert s.queues[f][0] in Elems(s.queues, f);
    }
  }

  /** A registry that holds one licence. */
  function Alone(ttl: Ttl, l: License): State {
    Add(Empty(ttl, map[], None), l, None)
  }

  lemma {:induction false} AloneHolds(ttl: Ttl, l: License, f: string)
    ensures HeapsOrdered(Alone(ttl, l)) && Elems(Alone(ttl, l).queues, f) == Copies(l, Listings(l.features, f))
  {
    AddElems(Empty(ttl, map[], None), l, None, f);
  }

  /** A lookup that finds it expired takes it out of the store and out of one heap; copies stay in the others. */
  lemma {:induction false} AloneExpires(ttl: Ttl, l: License, f: string, t: Time)
    requires f in l.features && Expired(l, ttl, t)
    ensures var s := Lookup(Alone(ttl, l), f, t).state;
      && s.ttl == ttl && HeapsOrdered(s) && l.id !in s.store
      && forall g :: Elems(s.queues, g) == if g == f then multiset{} else Copies(l, Listings(l.features, g))
  {
    var s := Alone(ttl, l);
    AloneHolds(ttl, l, f);
    LookupOfCopies(s, f, t, l);
    LookupShrinks(s, f, t);
    assert s.queues[f][0] in Elems(s.queues, f);
    EvictElems(s, f, f);
    LookupShrinks(Evict(s, f), f, t);
    assert Lookup(s, f, t) == Lookup(Evict(s, f), f, t);
    forall g {
      AloneHolds(ttl, l, g);
    }
  }
}
