/** Heap entries are neither lost nor invented, which bounds all the work that lookups ever do. */
module Conservation {
  import opened Licenses
  import opened Heaps
  import opened RegistryStates
  import opened Traces

  /** The number of entries in all heaps together. */
  ghost function Size(queues: map<string, seq<License>>): nat
    decreases |queues|
  {
    if queues == map[] then 0
    else
      var f :| f in queues;
      |queues[f]| + Size(queues - {f})
  }

  lemma {:induction false} SizeSplit(queues: map<string, seq<License>>, f: string)
    requires f in queues
    ensures Size(queues) == |queues[f]| + Size(queues - {f})
    decreases |queues|
  {
    var g :| g in queues && Size(queues) == |queues[g]| + Size(queues - {g});
    if g != f {
      SizeSplit(queues - {g}, f);
      SizeSplit(queues - {f}, g);
      assert queues - {g} - {f} == queues - {f} - {g};
    }
  }

  lemma {:induction false} SizeUpdate(queues: map<string, seq<License>>, f: string, q: seq<License>)
    ensures Size(queues[f := q]) + (if f in queues then |queues[f]| else 0) == Size(queues) + |q|
  {
    SizeSplit(queues[f := q], f);
    assert queues[f := q] - {f} == queues - {f};
    if f in queues {
      SizeSplit(queues, f);
    } else {
      assert queues - {f} == queues;
    }
  }

  lemma {:induction false} EnqueueSize(queues: map<string, seq<License>>, l: License, features: seq<string>)
    ensures Size(Enqueue(queues, l, features)) == Size(queues) + |features|
    decreases features
  {
    if features != [] {
      var f := features[0];
      SizeUpdate(queues, f, if f in queues then Push(queues[f], l) else [l]);
      EnqueueSize(EnqueueFor(queues, l, f), l, features[1..]);
    }
  }

  lemma {:induction false} LookupSize(s: State, f: string, t: Time)
    ensures Size(Lookup(s, f, t).state.queues) + Evictions(s, f, t) == Size(s.queues)
    decreases if f in s.queues then |s.queues[f]| else 0
  {
    if f in s.queues && s.queues[f] != [] && Expired(s.queues[f][0], s.ttl, t) {
      SizeUpdate(s.queues, f, Pop(s.queues[f]));
      LookupSize(Evict(s, f), f, t);
    }
  }

  /** Entries pushed in a run: the feature lists of the licences that were really added. */
  function Pushed(s: State, tr: seq<Step>): nat
    decreases |tr|
  {
    if tr == [] then 0
    else
      Pushed(s, Init(tr)) +
      match Last(tr)
      case AddStep(l, _, _) => if l.id in Run(s, Init(tr)).store then 0 else |l.features|
      case LookupStep(_, _) => 0
      case NoteStep(_, _, _) => 0
  }

  /** Turns of the eviction loop made in a run, over all lookups. */
  function Popped(s: State, tr: seq<Step>): nat
    decreases |tr|
  {
    if tr == [] then 0
    else
      Popped(s, Init(tr)) +
      match Last(tr)
      case AddStep(_, _, _) => 0
      case LookupStep(f, t) => Evictions(Run(s, Init(tr)), f, t)
      case NoteStep(_, _, _) => 0
  }

  lemma {:induction false} EntriesAreConserved(s: State, tr: seq<Step>)
    ensures Size(Run(s, tr).queues) + Popped(s, tr) == Size(s.queues) + Pushed(s, tr)
    decreases |tr|
  {
    if tr != [] {
      EntriesAreConserved(s, Init(tr));
      var s' := Run(s, Init(tr));
      match Last(tr)
      case AddStep(l, c, t) => EnqueueSize(s'.queues, l, l.features);
      case LookupStep(f, t) => LookupSize(s', f, t);
      case NoteStep(id, usage, t) =>
    }
  }

  /** However many lookups a run makes, they evict at most once for every feature listed by an added licence. */
  lemma {:induction false} EvictionsAreAmortised(ttl: Ttl, files: Option<map<string, Bytes>>, tr: seq<Step>)
    ensures Popped(Empty(ttl, map[], files), tr) <= Pushed(Empty(ttl, map[], files), tr)
  {
    EntriesAreConserved(Empty(ttl, map[], files), tr);
  }
}
