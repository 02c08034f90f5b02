/** Use is recorded outside the registry's lock: what that can leave in the usage book, and for how long. */
module Orphans {
  import opened Licenses
  import opened RegistryStates
  import opened Traces

  /** The book names a licence that is not in the store. */
  predicate Orphan(s: State, id: string) {
    id in s.book && id !in s.store
  }

  /** One caller finds a licence, another evicts it once it has expired, and only then the first records its use. */
  function LateRecording(l: License, f: string, t1: Time, t2: Time, usage: Usage): seq<Step> {
    [LookupStep(f, t1), LookupStep(f, t2), NoteStep(l.id, usage, t2)]
  }

  lemma {:induction false} LateRecordingStates(s: State, l: License, f: string, t1: Time, t2: Time, usage: Usage)
    ensures Run(s, LateRecording(l, f, t1, t2, usage)) ==
            Note(Lookup(Lookup(s, f, t1).state, f, t2).state, l.id, usage)
  {
    var tr := LateRecording(l, f, t1, t2, usage);
    assert Init(tr) == tr[..2] && Init(tr[..2]) == tr[..1] && Init(tr[..1]) == [];
    assert Run(s, tr[..1]) == Lookup(s, f, t1).state;
    assert Run(s, tr[..2]) == Lookup(Lookup(s, f, t1).state, f, t2).state;
  }

  /** Whatever state the two callers start from, and whatever licence they find, the late recording is an orphan. */
  lemma {:induction false} RecordAfterEvictionIsOrphan(s: State, l: License, f: string, t1: Time, t2: Time,
          usage: Usage)
    requires Lookup(s, f, t1).license == Some(l) && Expired(l, s.ttl, t2)
    ensures Orphan(Run(s, LateRecording(l, f, t1, t2, usage)), l.id)
  {
    LateRecordingStates(s, l, f, t1, t2, usage);
    LookupEnds(s, f, t1);
    LookupKeepsTtl(s, f, t1);
    var s1 := Lookup(s, f, t1).state;
    assert Lookup(s1, f, t2) == Lookup(Evict(s1, f), f, t2);
    LookupDropsOnly(Evict(s1, f), f, t2);
  }

  // ---------- How long an entry of the book stays ----------

  /** No heap holds a copy, stale or not, of a licence with this serial. */
  ghost predicate NoCopies(s: State, id: string) {
    forall f, e :: e in Elems(s.queues, f) ==> e.id != id
  }

  ghost predicate AddsSerial(tr: seq<Step>, id: string) {
    exists i :: 0 <= i < |tr| && tr[i].AddStep? && tr[i].license.id == id
  }

  lemma {:induction false} LookupKeepsUncopied(s: State, f: string, t: Time, id: string)
    requires HeapsOrdered(s) && NoCopies(s, id) && id in s.book
    ensures var s' := Lookup(s, f, t).state; HeapsOrdered(s') && NoCopies(s', id) && id in s'.book
    decreases if f in s.queues then |s.queues[f]| else 0
  {
    if f in s.queues && s.queues[f] != [] && Expired(s.queues[f][0], s.ttl, t) {
      assert s.queues[f][0] in Elems(s.queues, f);
      var s' := Evict(s, f);
      EvictElems(s, f, f);
      forall g, e | e in Elems(s'.queues, g)
        ensures e.id != id
      {
        EvictElems(s, f, g);
        assert e in Elems(s.queues, g);
      }
      LookupKeepsUncopied(s', f, t, id);
    }
  }

  lemma {:induction false} AddKeepsUncopied(s: State, l: License, c: Option<Contract>, id: string)
    requires HeapsOrdered(s) && NoCopies(s, id) && l.id != id
    ensures HeapsOrdered(Add(s, l, c)) && NoCopies(Add(s, l, c), id) && Add(s, l, c).book == s.book
  {
    if l.id !in s.store {
      AddElems(s, l, c, "");
      forall f, e | e in Elems(Add(s, l, c).queues, f)
        ensures e.id != id
      {
        AddElems(s, l, c, f);
        assert e == l || e in Elems(s.queues, f);
      }
    }
  }

  lemma {:induction false} RunKeepsUncopied(s: State, tr: seq<Step>, id: string)
    requires HeapsOrdered(s) && NoCopies(s, id) && id in s.book && !AddsSerial(tr, id)
    ensures HeapsOrdered(Run(s, tr)) && NoCopies(Run(s, tr), id) && id in Run(s, tr).book
    decreases |tr|
  {
    if tr != [] {
      assert AddsSerial(Init(tr), id) ==> AddsSerial(tr, id);
      RunKeepsUncopied(s, Init(tr), id);
      var before := Run(s, Init(tr));
      match Last(tr)
      case AddStep(l, c, _) => AddKeepsUncopied(before, l, c, id);
      case LookupStep(f, t) => LookupKeepsUncopied(before, f, t, id);
      case NoteStep(_, usage, _) =>
    }
  }

  /** There is an instant by which a list of licences has expired. */
  lemma {:induction false} AllExpireBy(q: seq<License>, ttl: Ttl, t: Time) returns (u: Time)
    ensures t <= u && forall l :: l in q ==> Expired(l, ttl, u)
    decreases |q|
  {
    if q == [] {
      u := t;
    } else {
      u := AllExpireBy(q[1..], ttl, t);
      if u <= q[0].notAfter - ttl {
        u := q[0].notAfter - ttl + 1;
      }
      assert forall l :: l in q ==> l == q[0] || l in q[1..];
    }
  }

  /** A lookup of a heap whose entries have all expired strikes every one of their serials from the book. */
  lemma {:induction false} DrainStrikes(s: State, f: string, t: Time, id: string)
    requires HeapsOrdered(s) && forall e :: e in Elems(s.queues, f) ==> Expired(e, s.ttl, t)
    ensures id !in s.book ==> id !in Lookup(s, f, t).state.book
    ensures (exists e :: e in Elems(s.queues, f) && e.id == id) ==> id !in Lookup(s, f, t).state.book
    decreases if f in s.queues then |s.queues[f]| else 0
  {
    if f in s.queues && s.queues[f] != [] {
      var root := s.queues[f][0];
      assert root in Elems(s.queues, f);
      EvictElems(s, f, f);
      var s' := Evict(s, f);
      assert forall e :: e in Elems(s'.queues, f) ==> e in Elems(s.queues, f);
      assert forall e :: e in Elems(s.queues, f) ==> e == root || e in Elems(s'.queues, f);
      DrainStrikes(s', f, t, id);
    }
  }

  ghost predicate StaysInBook(s: State, id: string, t: Time) {
    forall tr :: Monotone(t, tr) && !AddsSerial(tr, id) ==> id in Run(s, tr).book
  }

  /** An entry of the book outlasts every run that does not add its licence again, exactly if no heap holds a copy. */
  lemma {:induction false} StaysInBookIff(s: State, id: string, t: Time)
    requires HeapsOrdered(s) && id in s.book
    ensures StaysInBook(s, id, t) <==> NoCopies(s, id)
  {
    if NoCopies(s, id) {
      forall tr | Monotone(t, tr) && !AddsSerial(tr, id)
        ensures id in Run(s, tr).book
      {
        RunKeepsUncopied(s, tr, id);
      }
    } else {
      var f, e :| e in Elems(s.queues, f) && e.id == id;
      var u := AllExpireBy(s.queues[f], s.ttl, t);
      DrainStrikes(s, f, u, id);
      var tr := [LookupStep(f, u)];
      assert Init(tr) == [] && Run(s, tr) == Lookup(s, f, u).state;
      assert Monotone(t, tr) && !AddsSerial(tr, id);
    }
  }

  // ---------- The orphan of a licence in a registry of its own ----------

  /** After the late recording `f` is drained, and every other feature that `l` lists still holds its copies. */
  lemma {:induction false} CopiesAfterLateRecording(ttl: Ttl, l: License, f: string, t1: Time, t2: Time, usage: Usage)
    requires f in l.features && !Expired(l, ttl, t1) && Expired(l, ttl, t2)
    ensures var s := Run(Alone(ttl, l), LateRecording(l, f, t1, t2, usage));
      && HeapsOrdered(s) && Orphan(s, l.id)
      && forall g :: Elems(s.queues, g) == if g == f then multiset{} else Copies(l, Listings(l.features, g))
    ensures Lookup(Alone(ttl, l), f, t1).license == Some(l)
  {
    var s0 := Alone(ttl, l);
    AloneHolds(ttl, l, f);
    LookupOfCopies(s0, f, t1, l);
    RecordAfterEvictionIsOrphan(s0, l, f, t1, t2, usage);
    LateRecordingStates(s0, l, f, t1, t2, usage);
    AloneExpires(ttl, l, f, t2);
  }

  /**
   * The orphan of a licence found, evicted and only then recorded stays in the book for as long as the licence
   * is not added again, if and only if the licence lists no feature but the one looked up.
   */
  lemma {:induction false} OrphanStaysIff(ttl: Ttl, l: License, f: string, t1: Time, t2: Time, usage: Usage)
    requires f in l.features && !Expired(l, ttl, t1) && Expired(l, ttl, t2)
    ensures var s := Run(Alone(ttl, l), LateRecording(l, f, t1, t2, usage));
      Orphan(s, l.id) && (StaysInBook(s, l.id, t2) <==> forall g :: g in l.features ==> g == f)
  {
    var s := Run(Alone(ttl, l), LateRecording(l, f, t1, t2, usage));
    CopiesAfterLateRecording(ttl, l, f, t1, t2, usage);
    StaysInBookIff(s, l.id, t2);
    hide StaysInBook, LateRecording, Alone, Run;
    if g :| g in l.features && g != f {
      assert l in Elems(s.queues, g);
    }
  }
}
