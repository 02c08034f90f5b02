/**
 * Any number of callers of one registry and its record book, interleaved at every lock operation and every access to
 * shared data: mutual exclusion carries the two-index invariant through, and the callers never deadlock.
 */
module Locking {
  import opened Licenses
  import opened RegistryStates
  import opened Traces

  /**
   * The feature a lookup asks for, and the indexes as they were when it took the registry's lock. The source keeps
   * only the feature; the indexes are remembered so that the answer can be compared with them.
   */
  datatype Ask = Ask(feature: string, entered: State)

  /**
   * Where a caller is. `Wait` is before a lock is taken, `Held` after; evictions take the book's lock inside the
   * registry's. `LookupReturned` is after a lookup has given the lock back with its answer, found at time `at`.
   */
  datatype Pc =
    | Idle
    | AddWait(l: License, c: Option<Contract>)
    | AddEntered(l: License, c: Option<Contract>)
    | AddPushing(l: License, pending: seq<string>)
    | LookupWait(f: string)
    | LookupLoop(ask: Ask)
    | LookupEvicting(ask: Ask, item: License)
    | LookupWantBook(ask: Ask, item: License)
    | LookupHasBook(ask: Ask, item: License)
    | LookupRemoving(ask: Ask, item: License)
    | LookupReturned(ask: Ask, found: Option<License>, at: Time)
    | QueryWait
    | QueryHeld
    | RecordWait(id: string, usage: Usage)
    | RecordHeld(id: string, usage: Usage)
    | UsedByWait(id: string)
    | UsedByHeld(id: string)

  /** `regOwner` is the registry's mutex; `bookWriter` and `bookReaders` are the record book's readers-writer lock. */
  datatype System = System(
    shared: State,
    hasBook: bool,
    now: Time,
    threads: seq<Pc>,
    regOwner: Option<nat>,
    bookWriter: Option<nat>,
    bookReaders: set<nat>)

  predicate HoldsReg(pc: Pc) {
    pc.AddEntered? || pc.AddPushing? || pc.LookupLoop? || pc.LookupEvicting? || pc.LookupWantBook? ||
    pc.LookupHasBook? || pc.LookupRemoving? || pc.QueryHeld?
  }

  predicate WritesBook(pc: Pc) {
    pc.LookupHasBook? || pc.RecordHeld?
  }

  predicate ReadsBook(pc: Pc) {
    pc.UsedByHeld?
  }

  predicate WaitsToWriteBook(pc: Pc) {
    pc.LookupWantBook? || pc.RecordWait?
  }

  /** Heaps, store and files; the book is not guarded by the registry's lock. */
  function Indexes(s: State): State {
    s.(book := map[])
  }

  // ---------- Steps ----------

  datatype Micro = Micro(shared: State, pc: Pc)

  /** One access to shared data by the caller that holds the registry's lock, outside the book's. */
  function Work(s: State, pc: Pc, hasBook: bool, now: Time): Micro {
    match pc
    case AddEntered(l, c) =>
      if l.id in s.store then Micro(s, Idle) else Micro(AddToStore(s, l, c), AddPushing(l, l.features))
    case AddPushing(l, pending) =>
      if pending == [] then Micro(s, Idle)
      else Micro(s.(queues := EnqueueFor(s.queues, l, pending[0])), AddPushing(l, pending[1..]))
    case LookupLoop(ask) =>
      var f := ask.feature;
      if f !in s.queues || s.queues[f] == [] then Micro(s, LookupReturned(ask, None, now))
      else if !Expired(s.queues[f][0], s.ttl, now) then Micro(s, LookupReturned(ask, Some(s.queues[f][0]), now))
      else Micro(s.(queues := s.queues[f := Heaps.Pop(s.queues[f])]), LookupEvicting(ask, s.queues[f][0]))
    case LookupEvicting(ask, item) =>
      Micro(s.(store := s.store - {item.id}), if hasBook then LookupWantBook(ask, item) else LookupRemoving(ask, item))
    case LookupRemoving(ask, item) =>
      Micro(s.(files := match s.files case None => None case Some(m) => Some(m - {item.id})), LookupLoop(ask))
    case _ => Micro(s, Idle)
  }

  function Become(sys: System, i: nat, pc: Pc): System
    requires i < |sys.threads|
  {
    sys.(threads := sys.threads[i := pc])
  }

  predicate BookFree(sys: System) {
    sys.bookWriter.None? && sys.bookReaders == {}
  }

  function TakeReg(sys: System, i: nat, pc: Pc): Option<System>
    requires i < |sys.threads|
  {
    if sys.regOwner.None? then Some(Become(sys, i, pc).(regOwner := Some(i))) else None
  }

  function TakeBook(sys: System, i: nat, pc: Pc): Option<System>
    requires i < |sys.threads|
  {
    if BookFree(sys) then Some(Become(sys, i, pc).(bookWriter := Some(i))) else None
  }

  /** The next step of caller `i`, or `None` if it has none or has to wait for a lock. */
  function Go(sys: System, i: nat): Option<System>
    requires i < |sys.threads|
  {
    match sys.threads[i]
    case Idle => None
    case AddWait(l, c) => TakeReg(sys, i, AddEntered(l, c))
    case LookupWait(f) => TakeReg(sys, i, LookupLoop(Ask(f, Indexes(sys.shared))))
    case LookupReturned(_, _, _) => Some(Become(sys, i, Idle))
    case QueryWait => TakeReg(sys, i, QueryHeld)
    case LookupWantBook(ask, item) => TakeBook(sys, i, LookupHasBook(ask, item))
    case RecordWait(id, usage) => TakeBook(sys, i, RecordHeld(id, usage))
    case UsedByWait(id) =>
      if sys.bookWriter.None? then Some(Become(sys, i, UsedByHeld(id)).(bookReaders := sys.bookReaders + {i})) else None
    case LookupHasBook(ask, item) =>
      Some(Become(sys, i, LookupRemoving(ask, item)).(
        bookWriter := None, shared := sys.shared.(book := sys.shared.book - {item.id})))
    case RecordHeld(id, usage) =>
      Some(Become(sys, i, Idle).(bookWriter := None, shared := Note(sys.shared, id, usage)))
    case UsedByHeld(_) => Some(Become(sys, i, Idle).(bookReaders := sys.bookReaders - {i}))
    case _ =>
      var m := Work(sys.shared, sys.threads[i], sys.hasBook, sys.now);
      Some(Become(sys, i, m.pc).(shared := m.shared, regOwner := if HoldsReg(m.pc) then sys.regOwner else None))
  }

  datatype Action = Begin(caller: nat, call: Pc) | Step(caller: nat) | Tick(passed: nat)

  predicate IsCall(pc: Pc) {
    pc.AddWait? || pc.LookupWait? || pc.QueryWait? || pc.RecordWait? || pc.UsedByWait?
  }

  function Apply(sys: System, a: Action): System {
    match a
    case Begin(i, call) =>
      if i < |sys.threads| && sys.threads[i] == Idle && IsCall(call) then Become(sys, i, call) else sys
    case Step(i) => if i < |sys.threads| then Go(sys, i).GetOr(sys) else sys
    case Tick(passed) => sys.(now := sys.now + passed)
  }

  function Behave(sys: System, actions: seq<Action>): System
    decreases |actions|
  {
    if actions == [] then sys else Apply(Behave(sys, actions[..|actions| - 1]), actions[|actions| - 1])
  }

  // ---------- Locks ----------

  ghost predicate LocksHeld(sys: System) {
    && (forall i: nat :: sys.regOwner == Some(i) <==> i < |sys.threads| && HoldsReg(sys.threads[i]))
    && (forall i: nat :: sys.bookWriter == Some(i) <==> i < |sys.threads| && WritesBook(sys.threads[i]))
    && (forall i: nat :: i in sys.bookReaders <==> i < |sys.threads| && ReadsBook(sys.threads[i]))
    && (sys.bookWriter.Some? ==> sys.bookReaders == {})
  }

  /** Caller `i` changes place, takes only locks that are free, and the lock variables say so. */
  ghost predicate MovesFairly(sys: System, sys': System, i: nat)
    requires i < |sys.threads|
  {
    && |sys'.threads| == |sys.threads|
    && (forall j :: 0 <= j < |sys.threads| && j != i ==> sys'.threads[j] == sys.threads[j])
    && var pc, pc' := sys.threads[i], sys'.threads[i];
       && sys'.regOwner == (if HoldsReg(pc') then Some(i) else if HoldsReg(pc) then None else sys.regOwner)
       && (HoldsReg(pc') && !HoldsReg(pc) ==> sys.regOwner.None?)
       && sys'.bookWriter == (if WritesBook(pc') then Some(i) else if WritesBook(pc) then None else sys.bookWriter)
       && (WritesBook(pc') && !WritesBook(pc) ==> BookFree(sys))
       && sys'.bookReaders == (if ReadsBook(pc') then sys.bookReaders + {i} else sys.bookReaders - {i})
       && (ReadsBook(pc') && !ReadsBook(pc) ==> sys.bookWriter.None?)
  }

  lemma {:induction false} FairMoveKeepsLocks(sys: System, sys': System, i: nat)
    requires LocksHeld(sys) && i < |sys.threads| && MovesFairly(sys, sys', i)
    ensures LocksHeld(sys')
  {
    assert !(WritesBook(sys'.threads[i]) && ReadsBook(sys'.threads[i]));
    hide HoldsReg, WritesBook, ReadsBook;
  }

  /** A step that `Work` describes, rather than one that takes or gives back the book's lock or waits for one. */
  predicate IsWork(pc: Pc) {
    HoldsReg(pc) && !pc.LookupWantBook? && !pc.LookupHasBook?
  }

  lemma {:induction false} WorkMovesFairly(sys: System, i: nat)
    requires LocksHeld(sys) && i < |sys.threads| && IsWork(sys.threads[i])
    ensures Go(sys, i).Some? && MovesFairly(sys, Go(sys, i).value, i)
  {
    hide Work;
    WorkKeepsOutOfBook(sys.shared, sys.threads[i], sys.hasBook, sys.now);
  }

  /** A step that takes or gives back the book's lock, or ends a call that holds no lock. */
  lemma {:induction false} BookMovesFairly(sys: System, i: nat)
    requires LocksHeld(sys) && i < |sys.threads| && Go(sys, i).Some? && !IsWork(sys.threads[i])
    requires !sys.threads[i].AddWait? && !sys.threads[i].LookupWait? && !sys.threads[i].QueryWait?
    ensures MovesFairly(sys, Go(sys, i).value, i)
  {
    hide Work, TakeReg, Note, Indexes;
  }

  lemma {:induction false} GoMovesFairly(sys: System, i: nat)
    requires LocksHeld(sys) && i < |sys.threads| && Go(sys, i).Some?
    ensures MovesFairly(sys, Go(sys, i).value, i)
  {
    hide Work, TakeBook, Note, Indexes;
    if IsWork(sys.threads[i]) {
      WorkMovesFairly(sys, i);
    } else if !sys.threads[i].AddWait? && !sys.threads[i].LookupWait? && !sys.threads[i].QueryWait? {
      BookMovesFairly(sys, i);
    }
  }

  lemma {:induction false} ApplyKeepsLocks(sys: System, a: Action)
    requires LocksHeld(sys)
    ensures LocksHeld(Apply(sys, a))
  {
    hide Go, LocksHeld;
    match a
    case Begin(i, call) =>
      if i < |sys.threads| && sys.threads[i] == Idle && IsCall(call) {
        CallKeepsLocks(sys, i, call);
      }
    case Step(i) =>
      if i < |sys.threads| && Go(sys, i).Some? {
        GoMovesFairly(sys, i);
        FairMoveKeepsLocks(sys, Go(sys, i).value, i);
      }
    case Tick(passed) => TickKeepsLocks(sys, passed);
  }

  lemma {:induction false} CallKeepsLocks(sys: System, i: nat, call: Pc)
    requires LocksHeld(sys) && i < |sys.threads| && sys.threads[i] == Idle && IsCall(call)
    ensures LocksHeld(Become(sys, i, call))
  {
    assert i !in sys.bookReaders;
    FairMoveKeepsLocks(sys, Become(sys, i, call), i);
  }

  lemma {:induction false} TickKeepsLocks(sys: System, passed: nat)
    requires LocksHeld(sys)
    ensures LocksHeld(sys.(now := sys.now + passed))
  {
  }

  lemma {:induction false} WorkKeepsOutOfBook(s: State, pc: Pc, hasBook: bool, now: Time)
    ensures var pc' := Work(s, pc, hasBook, now).pc; !WritesBook(pc') && !ReadsBook(pc')
  {
  }

  /** Some caller can take a step, and if it is a reader of the book, then no writer is waiting before it. */
  ghost predicate SomeoneCanGo(sys: System) {
    exists j: nat :: j < |sys.threads| && CanGo(sys, j)
  }

  ghost predicate CanGo(sys: System, j: nat)
    requires j < |sys.threads|
  {
    && Go(sys, j).Some?
    && (sys.threads[j].UsedByWait? ==> forall k :: 0 <= k < |sys.threads| ==> !WaitsToWriteBook(sys.threads[k]))
  }

  /**
   * Whenever some call is under way, some caller can take a step, even if waiting writers hold back new readers of
   * the book: nobody waits in a circle.
   */
  lemma {:induction false} NoDeadlock(sys: System, i: nat)
    requires LocksHeld(sys) && i < |sys.threads| && sys.threads[i] != Idle
    ensures SomeoneCanGo(sys)
  {
    if sys.bookWriter.Some? {
      assert CanGo(sys, sys.bookWriter.value);
    } else if sys.bookReaders != {} {
      var r :| r in sys.bookReaders;
      assert CanGo(sys, r);
    } else if sys.regOwner.Some? {
      assert CanGo(sys, sys.regOwner.value);
    } else if k: nat :| k < |sys.threads| && WaitsToWriteBook(sys.threads[k]) {
      assert !HoldsReg(sys.threads[k]);
      assert CanGo(sys, k);
    } else {
      assert !HoldsReg(sys.threads[i]);
      assert CanGo(sys, i);
    }
  }

  // ---------- Data ----------

  function WithoutFile(s: State, id: string): State {
    s.(files := match s.files case None => None case Some(m) => Some(m - {id}))
  }

  /** What the registry's lock holder has still to do before it gives back consistent indexes, done at once. */
  function Finish(pc: Pc, s: State): State {
    match pc
    case AddPushing(l, pending) => s.(queues := Enqueue(s.queues, l, pending))
    case LookupEvicting(_, item) => RemoveFromStore(s, item)
    case LookupWantBook(_, item) => WithoutFile(s, item.id)
    case LookupHasBook(_, item) => WithoutFile(s, item.id)
    case LookupRemoving(_, item) => WithoutFile(s, item.id)
    case _ => s
  }

  /** The indexes as the next caller to take the registry's lock will find them. */
  function Settled(sys: System): State {
    match sys.regOwner
    case None => Indexes(sys.shared)
    case Some(i) => if i < |sys.threads| then Indexes(Finish(sys.threads[i], sys.shared)) else Indexes(sys.shared)
  }

  /** The lock holder's work is atomic: an addition or an eviction takes effect in one step, the rest is invisible. */
  lemma {:induction false} WorkIsAtomic(s: State, pc: Pc, hasBook: bool, now: Time)
    requires IsWork(pc)
    ensures var m := Work(s, pc, hasBook, now);
      var before, after := Indexes(Finish(pc, s)), Indexes(Finish(m.pc, m.shared));
      match pc
      case AddEntered(l, c) => after == Add(before, l, c)
      case LookupLoop(ask) => LoopTurn(before, ask.feature, now, after)
      case _ => after == before
  {
  }

  /** One turn of the eviction loop, on the settled indexes: the root goes if it has expired. */
  ghost predicate LoopTurn(before: State, f: string, now: Time, after: State) {
    if RootExpired(before, f, now) then after == Evict(before, f) else after == before
  }

  predicate RootExpired(s: State, f: string, now: Time) {
    f in s.queues && s.queues[f] != [] && Expired(s.queues[f][0], s.ttl, now)
  }

  /** Every step of every caller leaves the settled indexes alone, or makes one atomic change to them. */
  lemma {:induction false} GoIsAtomic(sys: System, i: nat)
    requires LocksHeld(sys) && i < |sys.threads| && Go(sys, i).Some?
    ensures var before, after := Settled(sys), Settled(Go(sys, i).value);
      match sys.threads[i]
      case AddEntered(l, c) => after == Add(before, l, c)
      case LookupLoop(ask) => LoopTurn(before, ask.feature, sys.now, after)
      case _ => after == before
  {
    var pc, sys' := sys.threads[i], Go(sys, i).value;
    GoMovesFairly(sys, i);
    if IsWork(pc) {
      var m := Work(sys.shared, pc, sys.hasBook, sys.now);
      WorkIsAtomic(sys.shared, pc, sys.hasBook, sys.now);
      assert sys.regOwner == Some(i);
      WorkReleasesSettled(sys.shared, pc, sys.hasBook, sys.now);
      assert Settled(sys') == Indexes(Finish(m.pc, m.shared));
    } else {
      hide Work;
      OthersKeepSettled(sys, i);
    }
  }

  /** A caller gives the lock back only when nothing is left to finish. */
  lemma {:induction false} WorkReleasesSettled(s: State, pc: Pc, hasBook: bool, now: Time)
    ensures var m := Work(s, pc, hasBook, now);
      !HoldsReg(m.pc) ==> Finish(m.pc, m.shared) == m.shared
  {
  }

  lemma {:induction false} OthersKeepIndexes(sys: System, i: nat)
    requires i < |sys.threads| && Go(sys, i).Some? && !IsWork(sys.threads[i])
    ensures Indexes(Go(sys, i).value.shared) == Indexes(sys.shared)
  {
    hide Work;
  }

  /** Steps made without the registry's lock, and those that move the book's lock, change no index. */
  lemma {:induction false} OthersKeepSettled(sys: System, i: nat)
    requires LocksHeld(sys) && i < |sys.threads| && Go(sys, i).Some?
    requires !IsWork(sys.threads[i])
    ensures Settled(Go(sys, i).value) == Settled(sys)
  {
    OthersKeepIndexes(sys, i);
    GoMovesFairly(sys, i);
    var sys' := Go(sys, i).value;
    if sys.regOwner == Some(i) {
      hide Work, Enqueue, RemoveFromStore;
    } else {
      if sys.regOwner.Some? {
        var pc := sys.threads[sys.regOwner.value];
        assert sys'.threads[sys.regOwner.value] == pc;
        FinishIgnoresBook(pc, sys.shared, sys'.shared);
      }
      TakersHaveNothingToFinish(sys, i);
      hide Go, Finish;
    }
  }

  lemma {:induction false} TakersHaveNothingToFinish(sys: System, i: nat)
    requires LocksHeld(sys) && i < |sys.threads| && Go(sys, i).Some? && sys.regOwner != Some(i)
    ensures var sys' := Go(sys, i).value; Finish(sys'.threads[i], sys'.shared) == sys'.shared
  {
    assert !HoldsReg(sys.threads[i]);
    hide Work, Enqueue, RemoveFromStore;
  }

  lemma {:induction false} FinishIgnoresBook(pc: Pc, s: State, s': State)
    requires Indexes(s') == Indexes(s)
    ensures Indexes(Finish(pc, s')) == Indexes(Finish(pc, s))
  {
  }

  ghost predicate AddsOk(sys: System, expiry: string -> Time) {
    forall i :: 0 <= i < |sys.threads| ==>
      match sys.threads[i]
      case AddWait(l, _) => l.notAfter == expiry(l.id)
      case AddEntered(l, _) => l.notAfter == expiry(l.id)
      case _ => true
  }

  ghost predicate DataInv(sys: System, expiry: string -> Time) {
    AddsOk(sys, expiry) && Inv(Settled(sys), sys.now, expiry)
  }

  lemma {:induction false} GoAdds(sys: System, i: nat)
    requires i < |sys.threads| && Go(sys, i).Some?
    ensures var pc, pc' := sys.threads[i], Go(sys, i).value.threads[i];
      && !pc'.AddWait? && (pc'.AddEntered? ==> pc == AddWait(pc'.l, pc'.c))
  {
    hide HoldsReg, Expired, AddToStore, Note, BookFree, EnqueueFor;
  }

  lemma {:induction false} GoKeepsAddsOk(sys: System, i: nat, expiry: string -> Time)
    requires LocksHeld(sys) && AddsOk(sys, expiry) && i < |sys.threads| && Go(sys, i).Some?
    ensures AddsOk(Go(sys, i).value, expiry)
  {
    GoMovesFairly(sys, i);
    GoAdds(sys, i);
    hide Go, LocksHeld;
    var sys' := Go(sys, i).value;
    forall j | 0 <= j < |sys'.threads| && (sys'.threads[j].AddWait? || sys'.threads[j].AddEntered?)
      ensures sys'.threads[j].l.notAfter == expiry(sys'.threads[j].l.id)
    {
      assert j != i ==> sys'.threads[j] == sys.threads[j];
    }
  }

  lemma {:induction false} GoKeepsData(sys: System, i: nat, expiry: string -> Time)
    requires LocksHeld(sys) && DataInv(sys, expiry) && i < |sys.threads| && Go(sys, i).Some?
    ensures DataInv(Go(sys, i).value, expiry)
  {
    var sys' := Go(sys, i).value;
    GoKeepsAddsOk(sys, i, expiry);
    GoIsAtomic(sys, i);
    GoKeepsClock(sys, i);
    hide Go, Settled, Inv, LocksHeld;
    match sys.threads[i]
    case AddEntered(l, c) => AddKeepsInv(Settled(sys), l, c, sys.now, expiry);
    case LookupLoop(ask) =>
      if RootExpired(Settled(sys), ask.feature, sys.now) {
        EvictKeepsInv(Settled(sys), ask.feature, sys.now, expiry);
      }
    case _ =>
  }

  lemma {:induction false} GoKeepsClock(sys: System, i: nat)
    requires i < |sys.threads| && Go(sys, i).Some?
    ensures Go(sys, i).value.now == sys.now
  {
    hide Work;
  }

  ghost predicate CallOk(a: Action, expiry: string -> Time) {
    a.Begin? && a.call.AddWait? ==> a.call.l.notAfter == expiry(a.call.l.id)
  }

  lemma {:induction false} ApplyKeepsData(sys: System, a: Action, expiry: string -> Time)
    requires LocksHeld(sys) && DataInv(sys, expiry) && CallOk(a, expiry)
    ensures DataInv(Apply(sys, a), expiry)
  {
    hide Go, Inv;
    match a
    case Begin(i, call) =>
      if i < |sys.threads| && sys.threads[i] == Idle && IsCall(call) {
        CallKeepsSettled(sys, i, call);
      }
    case Step(i) =>
      if i < |sys.threads| && Go(sys, i).Some? {
        GoKeepsData(sys, i, expiry);
      }
    case Tick(passed) =>
      InvLater(Settled(sys), sys.now, sys.now + passed, expiry);
  }

  lemma {:induction false} CallKeepsSettled(sys: System, i: nat, call: Pc)
    requires LocksHeld(sys) && i < |sys.threads| && sys.threads[i] == Idle && IsCall(call)
    ensures Settled(Become(sys, i, call)) == Settled(sys)
  {
  }

  // ---------- Answers ----------

  /** A lookup that holds the registry's lock, and what it asks for. */
  function Looking(pc: Pc): Option<Ask> {
    match pc
    case LookupLoop(ask) => Some(ask)
    case LookupEvicting(ask, _) => Some(ask)
    case LookupWantBook(ask, _) => Some(ask)
    case LookupHasBook(ask, _) => Some(ask)
    case LookupRemoving(ask, _) => Some(ask)
    case _ => None
  }

  /** From `now` on, a lookup of `f` does the same to both states and finds the same. */
  ghost predicate SameFrom(a: State, b: State, f: string, now: Time) {
    forall t :: now <= t ==> Lookup(a, f, t) == Lookup(b, f, t)
  }

  /** What a lookup that still holds the lock has to do is what is left of the lookup it began. */
  ghost predicate LookingOk(ask: Ask, settled: State, now: Time, expiry: string -> Time) {
    Inv(ask.entered, now, expiry) && SameFrom(ask.entered, settled, ask.feature, now)
  }

  /** A lookup that is over has found what a single lookup of the indexes it entered finds. */
  ghost predicate AnswerOk(ask: Ask, found: Option<License>, at: Time, expiry: string -> Time) {
    Inv(ask.entered, at, expiry) && found == Lookup(ask.entered, ask.feature, at).license
  }

  ghost predicate LookupOk(pc: Pc, settled: State, now: Time, expiry: string -> Time) {
    && (Looking(pc).Some? ==> LookingOk(Looking(pc).value, settled, now, expiry))
    && (pc.LookupReturned? ==> AnswerOk(pc.ask, pc.found, pc.at, expiry))
  }

  ghost predicate LookupsOk(sys: System, expiry: string -> Time) {
    forall i :: 0 <= i < |sys.threads| ==> LookupOk(sys.threads[i], Settled(sys), sys.now, expiry)
  }

  /** How a step can begin a lookup, go on with it or end it. */
  lemma {:induction false} GoLooks(sys: System, i: nat)
    requires LocksHeld(sys) && i < |sys.threads| && Go(sys, i).Some?
    ensures var pc, pc' := sys.threads[i], Go(sys, i).value.threads[i];
      && (Looking(pc').Some? ==>
           Looking(pc') == if pc.LookupWait? then Some(Ask(pc.f, Settled(sys))) else Looking(pc))
      && (pc.LookupLoop? && RootExpired(Settled(sys), pc.ask.feature, sys.now) ==> !pc'.LookupReturned?)
      && (pc'.LookupReturned? ==>
           pc.LookupLoop? && pc'.ask == pc.ask && pc'.at == sys.now
           && pc'.found == Lookup(Settled(sys), pc.ask.feature, sys.now).license)
  {
    var pc := sys.threads[i];
    if IsWork(pc) {
      assert sys.regOwner == Some(i);
      hide AddToStore, EnqueueFor;
    } else {
      hide Work;
    }
  }

  lemma {:induction false} TurnKeepsSameFrom(entered: State, before: State, after: State, f: string, now: Time)
    requires SameFrom(entered, before, f, now) && LoopTurn(before, f, now, after)
    ensures SameFrom(entered, after, f, now)
  {
    forall t | now <= t
      ensures Lookup(before, f, t) == Lookup(after, f, t)
    {
    }
  }

  lemma {:induction false} GoKeepsOwnLookup(sys: System, i: nat, expiry: string -> Time)
    requires LocksHeld(sys) && DataInv(sys, expiry) && i < |sys.threads| && Go(sys, i).Some?
    requires LookupOk(sys.threads[i], Settled(sys), sys.now, expiry)
    ensures var sys' := Go(sys, i).value; LookupOk(sys'.threads[i], Settled(sys'), sys.now, expiry)
  {
    GoIsAtomic(sys, i);
    GoLooks(sys, i);
    var pc := sys.threads[i];
    if pc.LookupLoop? {
      TurnKeepsSameFrom(pc.ask.entered, Settled(sys), Settled(Go(sys, i).value), pc.ask.feature, sys.now);
    }
    assert pc.LookupWait? ==> Looking(pc).None?;
    hide Go, Settled, Inv, LocksHeld, Lookup, LoopTurn, RootExpired;
  }

  /** Nobody else steps into a lookup: only the holder of the registry's lock changes the settled indexes. */
  lemma {:induction false} GoKeepsOtherLookup(sys: System, i: nat, j: nat, expiry: string -> Time)
    requires LocksHeld(sys) && i < |sys.threads| && j < |sys.threads| && i != j && Go(sys, i).Some?
    requires LookupOk(sys.threads[j], Settled(sys), sys.now, expiry)
    ensures var sys' := Go(sys, i).value; LookupOk(sys'.threads[j], Settled(sys'), sys.now, expiry)
  {
    GoIsAtomic(sys, i);
    GoMovesFairly(sys, i);
    assert Looking(sys.threads[j]).Some? ==> HoldsReg(sys.threads[j]) && sys.regOwner == Some(j);
    assert sys.regOwner == Some(j) ==> !HoldsReg(sys.threads[i]);
    hide Go, Settled, LookingOk, AnswerOk, LocksHeld;
  }

  lemma {:induction false} ApplyKeepsLookups(sys: System, a: Action, expiry: string -> Time)
    requires LocksHeld(sys) && DataInv(sys, expiry) && LookupsOk(sys, expiry)
    ensures LookupsOk(Apply(sys, a), expiry)
  {
    hide Go, LookupOk, Inv, LocksHeld, Settled;
    var sys' := Apply(sys, a);
    match a
    case Begin(i, call) =>
      if i < |sys.threads| && sys.threads[i] == Idle && IsCall(call) {
        CallKeepsSettled(sys, i, call);
        CallIsNoLookup(call, Settled(sys), sys.now, expiry);
      }
    case Step(i) =>
      if i < |sys.threads| && Go(sys, i).Some? {
        GoMovesFairly(sys, i);
        GoKeepsClock(sys, i);
        forall j: nat | j < |sys.threads|
          ensures LookupOk(sys'.threads[j], Settled(sys'), sys.now, expiry)
        {
          if j == i {
            GoKeepsOwnLookup(sys, i, expiry);
          } else {
            GoKeepsOtherLookup(sys, i, j, expiry);
          }
        }
      }
    case Tick(passed) =>
      TickKeepsSettled(sys, passed);
      forall j: nat | j < |sys.threads|
        ensures LookupOk(sys.threads[j], Settled(sys), sys.now + passed, expiry)
      {
        LookupOkLater(sys.threads[j], Settled(sys), sys.now, sys.now + passed, expiry);
      }
  }

  lemma {:induction false} CallIsNoLookup(call: Pc, settled: State, now: Time, expiry: string -> Time)
    requires IsCall(call)
    ensures LookupOk(call, settled, now, expiry)
  {
  }

  lemma {:induction false} TickKeepsSettled(sys: System, passed: nat)
    ensures Settled(sys.(now := sys.now + passed)) == Settled(sys)
  {
  }

  lemma {:induction false} LookupOkLater(pc: Pc, settled: State, now: Time, later: Time, expiry: string -> Time)
    requires LookupOk(pc, settled, now, expiry) && now <= later
    ensures LookupOk(pc, settled, later, expiry)
  {
    if Looking(pc).Some? {
      InvLater(Looking(pc).value.entered, now, later, expiry);
    }
    hide Inv, Lookup;
  }

  // ---------- Every interleaving ----------

  /** Serials determine the expiry of every licence that callers add. */
  ghost predicate CallsOk(actions: seq<Action>, expiry: string -> Time) {
    forall k :: 0 <= k < |actions| ==> CallOk(actions[k], expiry)
  }

  ghost predicate SystemInv(sys: System, expiry: string -> Time) {
    LocksHeld(sys) && DataInv(sys, expiry) && LookupsOk(sys, expiry)
  }

  /** The settled indexes satisfy the two-index invariant in every reachable state of every interleaving. */
  lemma {:induction false} BehaviourKeepsInv(sys: System, actions: seq<Action>, expiry: string -> Time)
    requires SystemInv(sys, expiry) && CallsOk(actions, expiry)
    ensures SystemInv(Behave(sys, actions), expiry)
    decreases |actions|
  {
    hide Apply, DataInv, LocksHeld, LookupsOk, CallOk;
    if actions != [] {
      var n := |actions| - 1;
      BehaviourKeepsInv(sys, actions[..n], expiry);
      var before := Behave(sys, actions[..n]);
      ApplyKeepsLocks(before, actions[n]);
      ApplyKeepsData(before, actions[n], expiry);
      ApplyKeepsLookups(before, actions[n], expiry);
    }
  }

  function SettledAfter(sys: System, actions: seq<Action>, k: nat): State
    requires k <= |actions|
  {
    Settled(Behave(sys, actions[..k]))
  }

  function CallerAfter(sys: System, actions: seq<Action>, k: nat, i: nat): Pc
    requires k <= |actions|
  {
    var threads := Behave(sys, actions[..k]).threads;
    if i < |threads| then threads[i] else Idle
  }

  /** What a lookup asks for, from the moment it holds the lock to the moment its answer is taken. */
  function AskOf(pc: Pc): Option<Ask> {
    if pc.LookupReturned? then Some(pc.ask) else Looking(pc)
  }

  /** With action `k` caller `i` took the lock for this lookup, which it has been in ever since. */
  ghost predicate EnteredAt(sys: System, actions: seq<Action>, i: nat, ask: Ask, k: nat) {
    && k < |actions|
    && CallerAfter(sys, actions, k, i) == LookupWait(ask.feature) && SettledAfter(sys, actions, k) == ask.entered
    && forall j :: k < j <= |actions| ==> AskOf(CallerAfter(sys, actions, j, i)) == Some(ask)
  }

  lemma {:induction false} PrefixAfter(sys: System, actions: seq<Action>, k: nat, i: nat)
    requires actions != [] && k < |actions|
    ensures CallerAfter(sys, actions[..|actions| - 1], k, i) == CallerAfter(sys, actions, k, i)
    ensures SettledAfter(sys, actions[..|actions| - 1], k) == SettledAfter(sys, actions, k)
  {
    assert actions[..|actions| - 1][..k] == actions[..k];
  }

  lemma {:induction false} EnteredAtGrows(sys: System, actions: seq<Action>, i: nat, ask: Ask, k: nat)
    requires actions != [] && EnteredAt(sys, actions[..|actions| - 1], i, ask, k)
    requires AskOf(CallerAfter(sys, actions, |actions|, i)) == Some(ask)
    ensures EnteredAt(sys, actions, i, ask, k)
  {
    PrefixAfter(sys, actions, k, i);
    forall j | k < j <= |actions|
      ensures AskOf(CallerAfter(sys, actions, j, i)) == Some(ask)
    {
      if j < |actions| {
        PrefixAfter(sys, actions, j, i);
        assert AskOf(CallerAfter(sys, actions[..|actions| - 1], j, i)) == Some(ask);
      }
    }
  }

  lemma {:induction false} ApplyAsks(sys: System, a: Action, i: nat)
    requires LocksHeld(sys) && i < |sys.threads|
    ensures |Apply(sys, a).threads| == |sys.threads|
    ensures var pc, pc' := sys.threads[i], Apply(sys, a).threads[i];
      AskOf(pc').Some? ==>
        AskOf(pc') == AskOf(pc) || (pc.LookupWait? && AskOf(pc') == Some(Ask(pc.f, Settled(sys))))
  {
    hide Go, Settled, Lookup, LocksHeld;
    match a
    case Begin(_, _) =>
    case Tick(_) =>
    case Step(j) =>
      if j < |sys.threads| && Go(sys, j).Some? {
        GoMovesFairly(sys, j);
        GoLooks(sys, j);
      }
  }

  lemma {:induction false} CallerAfterAll(sys: System, actions: seq<Action>, i: nat)
    ensures var threads := Behave(sys, actions).threads;
      CallerAfter(sys, actions, |actions|, i) == if i < |threads| then threads[i] else Idle
  {
    assert actions[..|actions|] == actions;
  }

  lemma {:induction false} EntersNow(sys: System, actions: seq<Action>, i: nat, f: string)
    requires actions != []
    requires var before := Behave(sys, actions[..|actions| - 1]);
      && i < |before.threads| && before.threads[i] == LookupWait(f)
      && AskOf(CallerAfter(sys, actions, |actions|, i)) == Some(Ask(f, Settled(before)))
    ensures EnteredAt(sys, actions, i, Ask(f, SettledAfter(sys, actions, |actions| - 1)), |actions| - 1)
    ensures SettledAfter(sys, actions, |actions| - 1) == Settled(Behave(sys, actions[..|actions| - 1]))
  {
    hide Behave, AskOf, Settled;
  }

  /** The indexes that a lookup remembers are those that were settled on when it took the lock. */
  lemma {:induction false} LookupHasEntered(sys: System, actions: seq<Action>, i: nat) returns (k: nat)
    requires LocksHeld(sys) && i < |sys.threads| && AskOf(sys.threads[i]).None?
    ensures |Behave(sys, actions).threads| == |sys.threads| && LocksHeld(Behave(sys, actions))
    ensures var ask := AskOf(Behave(sys, actions).threads[i]);
      ask.Some? ==> EnteredAt(sys, actions, i, ask.value, k)
    decreases |actions|
  {
    k := 0;
    hide Apply, AskOf, LocksHeld, Settled, EnteredAt, CallerAfter, SettledAfter;
    if actions != [] {
      var n := |actions| - 1;
      k := LookupHasEntered(sys, actions[..n], i);
      var before := Behave(sys, actions[..n]);
      ApplyKeepsLocks(before, actions[n]);
      ApplyAsks(before, actions[n], i);
      CallerAfterAll(sys, actions, i);
      var former, latter := AskOf(before.threads[i]), AskOf(Behave(sys, actions).threads[i]);
      if latter.Some? {
        if latter == former {
          EnteredAtGrows(sys, actions, i, latter.value, k);
        } else {
          EntersNow(sys, actions, i, before.threads[i].f);
          k := n;
        }
      }
    }
  }

  function Start(s: State, hasBook: bool, now: Time, callers: nat): System {
    System(s, hasBook, now, seq(callers, _ => Idle), None, None, {})
  }

  lemma {:induction false} StartIsSound(ttl: Ttl, files: Option<map<string, Bytes>>, hasBook: bool, now: Time,
          callers: nat, expiry: string -> Time)
    ensures SystemInv(Start(Empty(ttl, map[], files), hasBook, now, callers), expiry)
  {
  }

  lemma {:induction false} GoKeepsCallers(sys: System, i: nat)
    requires i < |sys.threads| && Go(sys, i).Some?
    ensures |Go(sys, i).value.threads| == |sys.threads|
  {
    hide Work, Note, Indexes, BookFree, HoldsReg;
  }

  lemma {:induction false} BehaveKeepsCallers(sys: System, actions: seq<Action>)
    ensures |Behave(sys, actions).threads| == |sys.threads|
    decreases |actions|
  {
    hide Go;
    if actions != [] {
      var n := |actions| - 1;
      BehaveKeepsCallers(sys, actions[..n]);
      var before := Behave(sys, actions[..n]);
      if actions[n].Step? && actions[n].caller < |before.threads| && Go(before, actions[n].caller).Some? {
        GoKeepsCallers(before, actions[n].caller);
      }
    }
  }

  /**
   * For any number of callers and every interleaving of their steps: whenever the registry's lock is free, the shared
   * heaps and store satisfy the two-index invariant; and as long as a call is under way, some caller can go on.
   */
  lemma {:induction false} EveryInterleaving(ttl: Ttl, files: Option<map<string, Bytes>>, hasBook: bool, now: Time,
          callers: nat, actions: seq<Action>, expiry: string -> Time)
    requires CallsOk(actions, expiry)
    ensures var sys := Behave(Start(Empty(ttl, map[], files), hasBook, now, callers), actions);
      && (sys.regOwner.None? ==> Inv(sys.shared, sys.now, expiry))
      && ((exists i :: 0 <= i < |sys.threads| && sys.threads[i] != Idle) ==> SomeoneCanGo(sys))
  {
    var start := Start(Empty(ttl, map[], files), hasBook, now, callers);
    var sys := Behave(start, actions);
    StartIsSound(ttl, files, hasBook, now, callers, expiry);
    BehaviourKeepsInv(start, actions, expiry);
    if sys.regOwner.None? {
      BookIsNoIndex(sys.shared, sys.now, expiry);
    }
    if i :| 0 <= i < |sys.threads| && sys.threads[i] != Idle {
      NoDeadlock(sys, i);
    }
  }

  lemma {:induction false} BookIsNoIndex(s: State, t: Time, expiry: string -> Time)
    requires Inv(Indexes(s), t, expiry)
    ensures Inv(s, t, expiry)
  {
  }

  /** The answer that caller `i` has just been given by a lookup. */
  ghost predicate Returned(sys: System, i: nat, f: string, found: Option<License>, at: Time) {
    i < |sys.threads| && sys.threads[i].LookupReturned? && sys.threads[i].ask.feature == f &&
    sys.threads[i].found == found && sys.threads[i].at == at
  }

  /**
   * However a lookup has been interleaved with other callers, it is atomic: its answer is that of one scan of the
   * indexes as they were when it took the lock, made at the clock reading that it made last.
   */
  lemma {:induction false} LookupsAreAtomic(ttl: Ttl, files: Option<map<string, Bytes>>, hasBook: bool, now: Time,
          callers: nat, actions: seq<Action>, expiry: string -> Time, i: nat, f: string, found: Option<License>,
          at: Time)
    returns (k: nat)
    requires CallsOk(actions, expiry)
    requires Returned(Behave(Start(Empty(ttl, map[], files), hasBook, now, callers), actions), i, f, found, at)
    ensures var start := Start(Empty(ttl, map[], files), hasBook, now, callers);
      && k < |actions| && CallerAfter(start, actions, k, i) == LookupWait(f)
      && (forall j :: k < j <= |actions| ==> AskOf(CallerAfter(start, actions, j, i)).Some?)
      && var s := SettledAfter(start, actions, k);
         && found == Lookup(s, f, at).license
         && match found
            case None => forall l :: !Servable(s, f, at, l)
            case Some(best) => Servable(s, f, at, best) && forall l :: Servable(s, f, at, l) ==> !Less(l, best)
  {
    var start := Start(Empty(ttl, map[], files), hasBook, now, callers);
    var sys := Behave(start, actions);
    StartIsSound(ttl, files, hasBook, now, callers, expiry);
    BehaviourKeepsInv(start, actions, expiry);
    BehaveKeepsCallers(start, actions);
    k := LookupHasEntered(start, actions, i);
    hide Inv, Start, Behave, DataInv, LocksHeld, Lookup, Settled, SettledAfter, CallerAfter;
    assert LookupOk(sys.threads[i], Settled(sys), sys.now, expiry);
    LookupAnswersLikeScan(sys.threads[i].ask.entered, f, at, expiry);
  }

  // ---------- Interleavings as runs ----------

  /** The registry step that an action amounts to: an addition when it enters, a lookup when it returns. */
  function StepOf(sys: System, a: Action): seq<Step> {
    if a.Step? && a.caller < |sys.threads| && Go(sys, a.caller).Some? then
      var pc := sys.threads[a.caller];
      match pc
      case AddEntered(l, c) => [AddStep(l, c, sys.now)]
      case LookupLoop(ask) =>
        if Work(sys.shared, pc, sys.hasBook, sys.now).pc.LookupReturned? then [LookupStep(ask.feature, sys.now)] else []
      case _ => []
    else []
  }

  /** The run of registry steps that an interleaving amounts to. */
  function RunOf(sys: System, actions: seq<Action>): seq<Step>
    decreases |actions|
  {
    if actions == [] then []
    else
      var n := |actions| - 1;
      RunOf(sys, actions[..n]) + StepOf(Behave(sys, actions[..n]), actions[n])
  }

  ghost predicate NobodyLooks(sys: System) {
    forall i :: 0 <= i < |sys.threads| ==> Looking(sys.threads[i]).None?
  }

  /** `r` is what the indexes were before the lookup under way, if there is one, and what they are otherwise. */
  ghost predicate Follows(sys: System, r: State) {
    && (forall i :: 0 <= i < |sys.threads| && Looking(sys.threads[i]).Some? ==>
          r == Looking(sys.threads[i]).value.entered)
    && (NobodyLooks(sys) ==> r == Settled(sys))
  }

  lemma {:induction false} LookerHasLock(sys: System, i: nat)
    requires LocksHeld(sys) && i < |sys.threads|
    ensures HoldsReg(sys.threads[i]) ==> sys.regOwner == Some(i)
    ensures sys.regOwner == Some(i) && Looking(sys.threads[i]).None? ==> NobodyLooks(sys)
    ensures sys.regOwner == None ==> NobodyLooks(sys)
  {
  }

  lemma {:induction false} IndexesOfAdd(s: State, l: License, c: Option<Contract>)
    ensures Indexes(Add(s, l, c)) == Add(Indexes(s), l, c)
  {
  }

  lemma {:induction false} IndexesOfLookup(s: State, f: string, t: Time)
    ensures Indexes(Lookup(s, f, t).state) == Lookup(Indexes(s), f, t).state
    decreases if f in s.queues then |s.queues[f]| else 0
  {
    if f in s.queues && s.queues[f] != [] && Expired(s.queues[f][0], s.ttl, t) {
      assert Indexes(Evict(s, f)) == Evict(Indexes(s), f);
      IndexesOfLookup(Evict(s, f), f, t);
    }
  }

  /** The effect of at most one step on the indexes. */
  function Advance(r: State, steps: seq<Step>): State
    requires |steps| <= 1
  {
    if steps == [] then r else Indexes(Exec(r, steps[0]))
  }

  lemma {:induction false} RunAdvances(s: State, tr: seq<Step>, steps: seq<Step>)
    requires |steps| <= 1
    ensures Indexes(Run(s, tr + steps)) == Advance(Indexes(Run(s, tr)), steps)
  {
    if steps == [] {
      assert tr + steps == tr;
    } else {
      assert Init(tr + steps) == tr && Last(tr + steps) == steps[0];
      match steps[0]
      case AddStep(l, c, _) => IndexesOfAdd(Run(s, tr), l, c);
      case LookupStep(f, t) => IndexesOfLookup(Run(s, tr), f, t);
      case NoteStep(_, _, _) =>
    }
  }

  lemma {:induction false} AdditionFollows(sys: System, i: nat, r: State)
    requires LocksHeld(sys) && Follows(sys, r) && i < |sys.threads| && sys.threads[i].AddEntered?
    requires Go(sys, i).Some? && r.book == map[]
    ensures Follows(Go(sys, i).value, Advance(r, StepOf(sys, Step(i))))
  {
    var sys', pc := Go(sys, i).value, sys.threads[i];
    GoIsAtomic(sys, i);
    GoLooks(sys, i);
    GoMovesFairly(sys, i);
    LookerHasLock(sys, i);
    IndexesOfAdd(r, pc.l, pc.c);
    assert StepOf(sys, Step(i)) == [AddStep(pc.l, pc.c, sys.now)];
    assert Indexes(r) == r;
    hide Go, Settled, LocksHeld, Add;
  }

  lemma {:induction false} AnswerFollows(sys: System, i: nat, r: State, expiry: string -> Time)
    requires LocksHeld(sys) && LookupsOk(sys, expiry) && Follows(sys, r) && i < |sys.threads|
    requires sys.threads[i].LookupLoop? && Go(sys, i).Some? && Go(sys, i).value.threads[i].LookupReturned?
    requires r.book == map[]
    ensures Follows(Go(sys, i).value, Advance(r, StepOf(sys, Step(i))))
  {
    var sys', ask := Go(sys, i).value, sys.threads[i].ask;
    GoIsAtomic(sys, i);
    GoLooks(sys, i);
    GoMovesFairly(sys, i);
    LookerHasLock(sys, i);
    IndexesOfLookup(r, ask.feature, sys.now);
    assert LookupOk(sys.threads[i], Settled(sys), sys.now, expiry);
    assert Lookup(r, ask.feature, sys.now) == Lookup(Settled(sys), ask.feature, sys.now);
    assert Lookup(Settled(sys), ask.feature, sys.now).state == Settled(sys);
    assert StepOf(sys, Step(i)) == [LookupStep(ask.feature, sys.now)];
    assert Indexes(r) == r;
    OnlyOneLooks(sys, i);
    hide Go, Settled, LocksHeld, Lookup, LookupsOk, LookupOk;
  }

  lemma {:induction false} OnlyOneLooks(sys: System, i: nat)
    requires LocksHeld(sys) && i < |sys.threads| && Looking(sys.threads[i]).Some?
    ensures forall j :: 0 <= j < |sys.threads| && j != i ==> Looking(sys.threads[j]).None?
  {
  }

  /** Every other step leaves the lookup under way, if any, and what the registry looks like without it. */
  lemma {:induction false} OtherFollows(sys: System, i: nat, r: State)
    requires LocksHeld(sys) && Follows(sys, r) && i < |sys.threads| && Go(sys, i).Some?
    requires !sys.threads[i].AddEntered? && !Go(sys, i).value.threads[i].LookupReturned?
    ensures StepOf(sys, Step(i)) == [] && Follows(Go(sys, i).value, r)
  {
    var sys', pc := Go(sys, i).value, sys.threads[i];
    GoIsAtomic(sys, i);
    GoLooks(sys, i);
    GoMovesFairly(sys, i);
    LookerHasLock(sys, i);
    WaiterFindsFree(sys, i);
    LoopEnds(sys, i);
    if pc.LookupLoop? {
      OnlyOneLooks(sys, i);
    }
    hide Go, Settled, LocksHeld, Work;
    if Looking(pc).Some? {
      assert Looking(sys'.threads[i]).Some?;
    }
  }

  lemma {:induction false} WaiterFindsFree(sys: System, i: nat)
    requires LocksHeld(sys) && i < |sys.threads| && Go(sys, i).Some?
    ensures sys.threads[i].LookupWait? ==> sys.regOwner == None
  {
    hide Work;
  }

  /** A lookup goes on until it returns. */
  lemma {:induction false} LoopEnds(sys: System, i: nat)
    requires LocksHeld(sys) && i < |sys.threads| && Go(sys, i).Some?
    ensures var pc, pc' := sys.threads[i], Go(sys, i).value.threads[i];
      && (Looking(pc).Some? ==> Looking(pc').Some? || pc'.LookupReturned?)
      && (pc.LookupLoop? ==>
            (pc'.LookupReturned? <==> Work(sys.shared, pc, sys.hasBook, sys.now).pc.LookupReturned?))
  {
    hide AddToStore, EnqueueFor, Expired;
  }

  lemma {:induction false} ApplyFollows(sys: System, a: Action, r: State, expiry: string -> Time)
    requires LocksHeld(sys) && LookupsOk(sys, expiry) && Follows(sys, r) && r.book == map[]
    ensures |StepOf(sys, a)| <= 1 && Follows(Apply(sys, a), Advance(r, StepOf(sys, a)))
  {
    hide Go, LocksHeld, LookupsOk, Settled, Work;
    match a
    case Begin(i, call) =>
      if i < |sys.threads| && sys.threads[i] == Idle && IsCall(call) {
        CallKeepsSettled(sys, i, call);
        CallFollows(sys, i, call, r);
      }
    case Tick(passed) =>
      TickKeepsSettled(sys, passed);
    case Step(i) =>
      if i < |sys.threads| && Go(sys, i).Some? {
        GoMovesFairly(sys, i);
        if sys.threads[i].AddEntered? {
          AdditionFollows(sys, i, r);
        } else if Go(sys, i).value.threads[i].LookupReturned? {
          GoLooks(sys, i);
          AnswerFollows(sys, i, r, expiry);
        } else {
          OtherFollows(sys, i, r);
        }
      }
  }

  lemma {:induction false} CallFollows(sys: System, i: nat, call: Pc, r: State)
    requires Follows(sys, r) && i < |sys.threads| && sys.threads[i] == Idle && IsCall(call)
    requires Settled(Become(sys, i, call)) == Settled(sys)
    ensures Follows(Become(sys, i, call), r)
  {
    hide Settled;
    var sys' := Become(sys, i, call);
    assert forall j :: 0 <= j < |sys.threads| ==> Looking(sys'.threads[j]) == Looking(sys.threads[j]);
  }

  /** The steps follow the clock, and every licence that they add was asked to be added before. */
  ghost predicate RunIsCalled(sys: System, actions: seq<Action>, tr: seq<Step>) {
    forall i :: 0 <= i < |tr| && tr[i].AddStep? ==> CalledBy(sys, actions, tr[i].license, tr[i].contract, tr[i].at)
  }

  /** Some caller has asked for the addition of `l` with contract `c`, no later than `t`. */
  ghost predicate CalledBy(sys: System, actions: seq<Action>, l: License, c: Option<Contract>, t: Time) {
    exists k: nat :: CalledAt(sys, actions, l, c, t, k)
  }

  ghost predicate CalledAt(sys: System, actions: seq<Action>, l: License, c: Option<Contract>, t: Time, k: nat) {
    && k < |actions| && actions[k].Begin? && actions[k].call == AddWait(l, c)
    && Behave(sys, actions[..k]).now <= t
  }

  lemma {:induction false} CalledByGrows(sys: System, actions: seq<Action>, l: License, c: Option<Contract>,
          t: Time, later: Time)
    requires actions != [] && CalledBy(sys, actions[..|actions| - 1], l, c, t) && t <= later
    ensures CalledBy(sys, actions, l, c, later)
  {
    var before := actions[..|actions| - 1];
    var k: nat :| CalledAt(sys, before, l, c, t, k);
    assert before[..k] == actions[..k];
    assert CalledAt(sys, actions, l, c, later, k);
  }

  /** Callers that are about to add have been asked to. */
  ghost predicate AddersCalled(sys: System, actions: seq<Action>) {
    var now := Behave(sys, actions);
    forall i :: 0 <= i < |now.threads| ==> AdderCalled(sys, actions, now.threads[i], now.now)
  }

  ghost predicate AdderCalled(sys: System, actions: seq<Action>, pc: Pc, t: Time) {
    match pc
    case AddWait(l, c) => CalledBy(sys, actions, l, c, t)
    case AddEntered(l, c) => CalledBy(sys, actions, l, c, t)
    case _ => true
  }

  lemma {:induction false} ApplyAdds(sys: System, a: Action, i: nat)
    requires LocksHeld(sys) && i < |sys.threads|
    ensures |Apply(sys, a).threads| == |sys.threads| && sys.now <= Apply(sys, a).now
    ensures var pc, pc' := sys.threads[i], Apply(sys, a).threads[i];
      && (pc'.AddWait? ==> pc' == pc || (a.Begin? && a.call == pc'))
      && (pc'.AddEntered? ==> pc' == pc || pc == AddWait(pc'.l, pc'.c))
  {
    hide LocksHeld;
    match a
    case Begin(_, _) =>
    case Tick(_) =>
    case Step(j) =>
      if j < |sys.threads| && Go(sys, j).Some? {
        GoMovesFairly(sys, j);
        GoKeepsClock(sys, j);
        GoAdds(sys, j);
        hide Go;
      }
  }

  lemma {:induction false} AddersStayCalled(sys: System, actions: seq<Action>, i: nat)
    requires actions != [] && LocksHeld(Behave(sys, actions[..|actions| - 1]))
    requires AddersCalled(sys, actions[..|actions| - 1])
    requires i < |Behave(sys, actions).threads|
    ensures AdderCalled(sys, actions, Behave(sys, actions).threads[i], Behave(sys, actions).now)
  {
    var n := |actions| - 1;
    var before, after := Behave(sys, actions[..n]), Behave(sys, actions);
    assert after == Apply(before, actions[n]);
    BehaveKeepsCallers(sys, actions);
    BehaveKeepsCallers(sys, actions[..n]);
    ApplyAdds(before, actions[n], i);
    hide Apply, Behave, CalledBy, LocksHeld;
    var pc, pc' := before.threads[i], after.threads[i];
    if pc'.AddWait? || pc'.AddEntered? {
      assert AdderCalled(sys, actions[..n], pc, before.now);
      if pc'.AddWait? && pc' != pc {
        CalledNow(sys, actions, pc'.l, pc'.c, after.now);
      } else {
        CalledByGrows(sys, actions, pc'.l, pc'.c, before.now, after.now);
      }
    }
  }

  lemma {:induction false} CalledNow(sys: System, actions: seq<Action>, l: License, c: Option<Contract>, t: Time)
    requires actions != [] && actions[|actions| - 1].Begin? && actions[|actions| - 1].call == AddWait(l, c)
    requires Behave(sys, actions[..|actions| - 1]).now <= t
    ensures CalledBy(sys, actions, l, c, t)
  {
    assert CalledAt(sys, actions, l, c, t, |actions| - 1);
  }

  /** What an interleaving has done so far is what its run does. */
  ghost predicate Simulates(sys: System, s0: State, actions: seq<Action>) {
    && Follows(Behave(sys, actions), Indexes(Run(s0, RunOf(sys, actions))))
    && Monotone(sys.now, RunOf(sys, actions))
    && sys.now <= TimeAfter(sys.now, RunOf(sys, actions)) <= Behave(sys, actions).now
    && RunIsCalled(sys, actions, RunOf(sys, actions)) && AddersCalled(sys, actions)
  }

  lemma {:induction false} StepIsCalled(sys: System, actions: seq<Action>)
    requires actions != [] && AddersCalled(sys, actions[..|actions| - 1])
    requires RunIsCalled(sys, actions[..|actions| - 1], RunOf(sys, actions[..|actions| - 1]))
    ensures RunIsCalled(sys, actions, RunOf(sys, actions))
  {
    var n := |actions| - 1;
    var before, tr, tr' := Behave(sys, actions[..n]), RunOf(sys, actions[..n]), RunOf(sys, actions);
    var steps := StepOf(before, actions[n]);
    assert tr' == tr + steps;
    hide CalledBy, Behave, RunOf, Work, Go;
    forall i | 0 <= i < |tr'| && tr'[i].AddStep?
      ensures CalledBy(sys, actions, tr'[i].license, tr'[i].contract, tr'[i].at)
    {
      if i < |tr| {
        CalledByGrows(sys, actions, tr[i].license, tr[i].contract, tr[i].at, tr[i].at);
      } else {
        assert AdderCalled(sys, actions[..n], before.threads[actions[n].caller], before.now);
        CalledByGrows(sys, actions, tr'[i].license, tr'[i].contract, before.now, before.now);
      }
    }
  }

  lemma {:induction false} StepOfIsNow(sys: System, a: Action)
    ensures |StepOf(sys, a)| <= 1 && (StepOf(sys, a) != [] ==> StepOf(sys, a)[0].at == sys.now)
  {
    hide Work, Go;
  }

  lemma {:induction false} MonotoneExtends(start: Time, tr: seq<Step>, steps: seq<Step>, now: Time)
    requires Monotone(start, tr) && start <= TimeAfter(start, tr) <= now
    requires |steps| <= 1 && (steps != [] ==> steps[0].at == now)
    ensures Monotone(start, tr + steps) && start <= TimeAfter(start, tr + steps) <= now
  {
    if steps == [] {
      assert tr + steps == tr;
    } else {
      assert forall i :: 0 <= i < |tr| ==> tr[i].at <= TimeAfter(start, tr);
      assert Last(tr + steps) == steps[0];
    }
  }

  lemma {:induction false} InterleavingSimulates(sys: System, s0: State, actions: seq<Action>, expiry: string -> Time)
    requires SystemInv(sys, expiry) && CallsOk(actions, expiry) && sys == Start(s0, sys.hasBook, sys.now, |sys.threads|)
    requires s0.book == map[]
    ensures Simulates(sys, s0, actions)
    decreases |actions|
  {
    if actions == [] {
      assert NobodyLooks(sys);
    } else {
      var n := |actions| - 1;
      var before, tr := Behave(sys, actions[..n]), RunOf(sys, actions[..n]);
      InterleavingSimulates(sys, s0, actions[..n], expiry);
      BehaviourKeepsInv(sys, actions[..n], expiry);
      hide Apply, StepOf, Work, Go, LocksHeld, LookupsOk, DataInv, CallOk, Follows, RunIsCalled, AddersCalled;
      ApplyFollows(before, actions[n], Indexes(Run(s0, tr)), expiry);
      StepOfIsNow(before, actions[n]);
      MonotoneExtends(sys.now, tr, StepOf(before, actions[n]), before.now);
      RunAdvances(s0, tr, StepOf(before, actions[n]));
      StepIsCalled(sys, actions);
      AddersKeepCalled(sys, actions);
      ApplyKeepsTime(before, actions[n]);
    }
  }

  lemma {:induction false} AddersKeepCalled(sys: System, actions: seq<Action>)
    requires actions != [] && LocksHeld(Behave(sys, actions[..|actions| - 1]))
    requires AddersCalled(sys, actions[..|actions| - 1])
    ensures AddersCalled(sys, actions)
  {
    hide LocksHeld, Behave, AdderCalled;
    forall i: nat | i < |Behave(sys, actions).threads|
      ensures AdderCalled(sys, actions, Behave(sys, actions).threads[i], Behave(sys, actions).now)
    {
      AddersStayCalled(sys, actions, i);
    }
  }

  lemma {:induction false} ApplyKeepsTime(sys: System, a: Action)
    ensures sys.now <= Apply(sys, a).now
  {
    hide Go;
    if a.Step? && a.caller < |sys.threads| && Go(sys, a.caller).Some? {
      GoKeepsClock(sys, a.caller);
    }
  }

  /**
   * Every interleaving of any number of callers is a run: whenever the registry's lock is free, heaps, store and files
   * are those to which the additions, in the order in which they got the lock, and the lookups, in the order in which
   * they returned, lead when each is a single step. The steps follow the clock, and each addition was asked for.
   */
  lemma {:induction false} EveryInterleavingIsRun(ttl: Ttl, files: Option<map<string, Bytes>>, hasBook: bool,
          now: Time, callers: nat, actions: seq<Action>, expiry: string -> Time)
    requires CallsOk(actions, expiry)
    ensures var s0 := Empty(ttl, map[], files);
      var start := Start(s0, hasBook, now, callers);
      var sys, tr := Behave(start, actions), RunOf(start, actions);
      && Monotone(now, tr) && TimeAfter(now, tr) <= sys.now && RunIsCalled(start, actions, tr)
      && (sys.regOwner.None? ==> Indexes(sys.shared) == Indexes(Run(s0, tr)))
  {
    var s0 := Empty(ttl, map[], files);
    var start := Start(s0, hasBook, now, callers);
    StartIsSound(ttl, files, hasBook, now, callers, expiry);
    InterleavingSimulates(start, s0, actions, expiry);
    BehaviourKeepsInv(start, actions, expiry);
    var sys := Behave(start, actions);
    hide Behave, RunOf, Start, DataInv, LookupsOk, RunIsCalled, AddersCalled;
    if sys.regOwner.None? {
      FreeMeansSettled(sys, Indexes(Run(s0, RunOf(start, actions))));
    }
  }

  lemma {:induction false} FreeMeansSettled(sys: System, r: State)
    requires LocksHeld(sys) && sys.regOwner.None? && Follows(sys, r)
    ensures r == Indexes(sys.shared)
  {
    assert NobodyLooks(sys);
  }

  // ---------- The book under interleavings ----------

  /** The serial that a lookup has evicted and has still to strike from the book. */
  function ToStrike(pc: Pc): Option<string> {
    match pc
    case LookupEvicting(_, item) => Some(item.id)
    case LookupWantBook(_, item) => Some(item.id)
    case LookupHasBook(_, item) => Some(item.id)
    case _ => None
  }

  ghost predicate Pending(sys: System, id: string) {
    exists i: nat :: i < |sys.threads| && ToStrike(sys.threads[i]) == Some(id)
  }

  /** What a step does to the book, and when an evicted serial has still to be struck. */
  lemma {:induction false} GoBook(sys: System, i: nat)
    requires LocksHeld(sys) && i < |sys.threads| && Go(sys, i).Some? && sys.hasBook
    ensures var pc, sys' := sys.threads[i], Go(sys, i).value;
      && sys'.shared.book == (match pc
           case RecordHeld(id, usage) => sys.shared.book[id := usage]
           case LookupHasBook(_, item) => sys.shared.book - {item.id}
           case _ => sys.shared.book)
      && (ToStrike(pc).Some? && !pc.LookupHasBook? ==> ToStrike(sys'.threads[i]) == ToStrike(pc))
      && (pc.LookupLoop? && RootExpired(Settled(sys), pc.ask.feature, sys.now) ==>
           ToStrike(sys'.threads[i]) == Some(Settled(sys).queues[pc.ask.feature][0].id))
      && sys'.hasBook
  {
    if IsWork(sys.threads[i]) {
      assert sys.regOwner == Some(i);
      hide EnqueueFor, Expired;
    } else {
      hide Work;
    }
  }

  /** Use of `id` was recorded with action `k`, at a moment at which no licence of that serial was stored. */
  ghost predicate RecordedLateAt(sys: System, actions: seq<Action>, id: string, k: nat) {
    && k < |actions| && id !in SettledAfter(sys, actions, k).store
    && exists usage :: RecordedAt(sys, actions, id, usage, k)
  }

  /** With action `k` a caller has recorded this use of `id`. */
  ghost predicate RecordedAt(sys: System, actions: seq<Action>, id: string, usage: Usage, k: nat) {
    && k < |actions| && actions[k].Step?
    && CallerAfter(sys, actions, k, actions[k].caller) == RecordHeld(id, usage)
  }

  ghost predicate RecordedLate(sys: System, actions: seq<Action>, id: string) {
    exists k: nat :: RecordedLateAt(sys, actions, id, k)
  }

  ghost predicate Recorded(sys: System, actions: seq<Action>, id: string, usage: Usage) {
    exists k: nat :: RecordedAt(sys, actions, id, usage, k)
  }

  /** Every entry is a recorded use of a licence that is stored, or about to be struck, or was recorded too late. */
  ghost predicate EntryAccounted(sys: System, actions: seq<Action>, now: System, id: string) {
    id in now.shared.book ==>
      && Recorded(sys, actions, id, now.shared.book[id])
      && (id in Settled(now).store || Pending(now, id) || RecordedLate(sys, actions, id))
  }

  lemma {:induction false} PrefixRecords(sys: System, actions: seq<Action>, id: string, usage: Usage)
    requires actions != []
    ensures Recorded(sys, actions[..|actions| - 1], id, usage) ==> Recorded(sys, actions, id, usage)
    ensures RecordedLate(sys, actions[..|actions| - 1], id) ==> RecordedLate(sys, actions, id)
  {
    var before := actions[..|actions| - 1];
    if k: nat :| RecordedAt(sys, before, id, usage, k) {
      PrefixAfter(sys, actions, k, before[k].caller);
      assert RecordedAt(sys, actions, id, usage, k);
    }
    if k: nat :| RecordedLateAt(sys, before, id, k) {
      var u :| RecordedAt(sys, before, id, u, k);
      PrefixAfter(sys, actions, k, before[k].caller);
      assert RecordedAt(sys, actions, id, u, k);
      assert RecordedLateAt(sys, actions, id, k);
    }
  }

  lemma {:induction false} RecordsNow(sys: System, actions: seq<Action>, id: string, usage: Usage)
    requires actions != []
    requires var n := |actions| - 1;
      var before := Behave(sys, actions[..n]);
      && actions[n].Step? && actions[n].caller < |before.threads|
      && before.threads[actions[n].caller] == RecordHeld(id, usage)
    ensures Recorded(sys, actions, id, usage)
    ensures id !in Settled(Behave(sys, actions[..|actions| - 1])).store ==> RecordedLate(sys, actions, id)
  {
    var n := |actions| - 1;
    assert RecordedAt(sys, actions, id, usage, n);
    if id !in Settled(Behave(sys, actions[..n])).store {
      assert RecordedLateAt(sys, actions, id, n);
    }
  }

  /** Unless the step records or strikes the serial itself, its entry stays, and stays accounted for. */
  lemma {:induction false} GoKeepsAccount(sys: System, i: nat, id: string)
    requires LocksHeld(sys) && i < |sys.threads| && Go(sys, i).Some? && sys.hasBook
    requires id in Settled(sys).store || Pending(sys, id)
    requires !(sys.threads[i].LookupHasBook? && sys.threads[i].item.id == id)
    ensures var sys' := Go(sys, i).value; id in Settled(sys').store || Pending(sys', id)
  {
    var sys', pc := Go(sys, i).value, sys.threads[i];
    GoBook(sys, i);
    GoIsAtomic(sys, i);
    GoMovesFairly(sys, i);
    hide Go, Settled, LocksHeld, Work;
    if id in Settled(sys).store {
      if id !in Settled(sys').store {
        assert pc.LookupLoop? && ToStrike(sys'.threads[i]) == Some(id);
      }
    } else {
      var j: nat :| j < |sys.threads| && ToStrike(sys.threads[j]) == Some(id);
      assert ToStrike(sys'.threads[j]) == Some(id);
    }
  }

  /** An entry that nobody touches is accounted for as before, if its licence still is. */
  lemma {:induction false} AccountCarries(sys: System, actions: seq<Action>, before: System, after: System, id: string)
    requires actions != [] && EntryAccounted(sys, actions[..|actions| - 1], before, id)
    requires id in after.shared.book ==> id in before.shared.book && after.shared.book[id] == before.shared.book[id]
    requires id in after.shared.book && (id in Settled(before).store || Pending(before, id)) ==>
      id in Settled(after).store || Pending(after, id)
    ensures EntryAccounted(sys, actions, after, id)
  {
    hide Settled, Pending, Recorded, RecordedLate;
    if id in after.shared.book {
      PrefixRecords(sys, actions, id, before.shared.book[id]);
    }
  }

  lemma {:induction false} IdleAccounts(sys: System, actions: seq<Action>, before: System, id: string)
    requires actions != [] && EntryAccounted(sys, actions[..|actions| - 1], before, id) && LocksHeld(before)
    requires var a := actions[|actions| - 1];
      a.Step? ==> !(a.caller < |before.threads| && Go(before, a.caller).Some?)
    ensures EntryAccounted(sys, actions, Apply(before, actions[|actions| - 1]), id)
  {
    var a := actions[|actions| - 1];
    hide Settled, EntryAccounted, Pending, LocksHeld, Go;
    match a {
      case Begin(i, call) =>
        if i < |before.threads| && before.threads[i] == Idle && IsCall(call) {
          CallKeepsSettled(before, i, call);
          CallKeepsPending(before, i, call, id);
        }
      case Tick(passed) =>
        TickKeepsSettled(before, passed);
        TickKeepsPending(before, passed, id);
      case Step(_) =>
    }
    AccountCarries(sys, actions, before, Apply(before, a), id);
  }

  lemma {:induction false} TickKeepsPending(sys: System, passed: nat, id: string)
    ensures Pending(sys, id) ==> Pending(sys.(now := sys.now + passed), id)
  {
    if i: nat :| i < |sys.threads| && ToStrike(sys.threads[i]) == Some(id) {
      assert ToStrike(sys.(now := sys.now + passed).threads[i]) == Some(id);
    }
  }

  lemma {:induction false} GoAccounts(sys: System, actions: seq<Action>, i: nat, id: string)
    requires actions != [] && actions[|actions| - 1] == Step(i)
    requires var before := Behave(sys, actions[..|actions| - 1]);
      && LocksHeld(before) && before.hasBook && i < |before.threads| && Go(before, i).Some?
      && EntryAccounted(sys, actions[..|actions| - 1], before, id)
    ensures EntryAccounted(sys, actions, Go(Behave(sys, actions[..|actions| - 1]), i).value, id)
  {
    var before := Behave(sys, actions[..|actions| - 1]);
    var pc, after := before.threads[i], Go(before, i).value;
    GoBook(before, i);
    hide Behave, Settled, EntryAccounted, Pending, LocksHeld, Go, Recorded, RecordedLate;
    if !(pc.LookupHasBook? && pc.item.id == id) {
      if id in Settled(before).store || Pending(before, id) {
        GoKeepsAccount(before, i, id);
      }
    }
    if pc.RecordHeld? && pc.id == id {
      RecordsNow(sys, actions, id, pc.usage);
      EntryIsRecorded(sys, actions, after, id);
    } else {
      AccountCarries(sys, actions, before, after, id);
    }
  }

  lemma {:induction false} EntryIsRecorded(sys: System, actions: seq<Action>, now: System, id: string)
    requires id in now.shared.book && Recorded(sys, actions, id, now.shared.book[id])
    requires id in Settled(now).store || Pending(now, id) || RecordedLate(sys, actions, id)
    ensures EntryAccounted(sys, actions, now, id)
  {
  }

  lemma {:induction false} StepAccounts(sys: System, actions: seq<Action>, id: string)
    requires actions != [] && LocksHeld(Behave(sys, actions[..|actions| - 1]))
    requires Behave(sys, actions[..|actions| - 1]).hasBook
    requires EntryAccounted(sys, actions[..|actions| - 1], Behave(sys, actions[..|actions| - 1]), id)
    ensures EntryAccounted(sys, actions, Behave(sys, actions), id)
    ensures Behave(sys, actions).hasBook
  {
    var n := |actions| - 1;
    var before, a := Behave(sys, actions[..n]), actions[n];
    assert Behave(sys, actions) == Apply(before, a);
    hide Behave, EntryAccounted, LocksHeld, Go;
    if a.Step? && a.caller < |before.threads| && Go(before, a.caller).Some? {
      GoAccounts(sys, actions, a.caller, id);
      GoBook(before, a.caller);
    } else {
      IdleAccounts(sys, actions, before, id);
    }
  }

  lemma {:induction false} CallKeepsPending(sys: System, i: nat, call: Pc, id: string)
    requires i < |sys.threads| && sys.threads[i] == Idle && IsCall(call)
    ensures Pending(sys, id) ==> Pending(Become(sys, i, call), id)
  {
    if j: nat :| j < |sys.threads| && ToStrike(sys.threads[j]) == Some(id) {
      assert Become(sys, i, call).threads[j] == sys.threads[j];
    }
  }

  lemma {:induction false} AllAccounted(sys: System, actions: seq<Action>, id: string)
    requires LocksHeld(sys) && sys.hasBook && sys.shared.book == map[]
    ensures LocksHeld(Behave(sys, actions)) && Behave(sys, actions).hasBook
    ensures EntryAccounted(sys, actions, Behave(sys, actions), id)
    decreases |actions|
  {
    if actions != [] {
      var n := |actions| - 1;
      AllAccounted(sys, actions[..n], id);
      hide EntryAccounted, LocksHeld, Apply;
      ApplyKeepsLocks(Behave(sys, actions[..n]), actions[n]);
      StepAccounts(sys, actions, id);
    }
  }

  /** What a caller records is what it was asked to record. */
  lemma {:induction false} ApplyRecords(sys: System, a: Action, i: nat)
    requires LocksHeld(sys) && i < |sys.threads|
    ensures |Apply(sys, a).threads| == |sys.threads|
    ensures var pc, pc' := sys.threads[i], Apply(sys, a).threads[i];
      && (pc'.RecordWait? ==> pc' == pc || a == Begin(i, pc'))
      && (pc'.RecordHeld? ==> pc' == pc || pc == RecordWait(pc'.id, pc'.usage))
  {
    hide LocksHeld;
    match a
    case Begin(_, _) =>
    case Tick(_) =>
    case Step(j) =>
      if j < |sys.threads| && Go(sys, j).Some? {
        GoMovesFairly(sys, j);
        GoRecords(sys, j);
        hide Go;
      }
  }

  lemma {:induction false} GoRecords(sys: System, i: nat)
    requires i < |sys.threads| && Go(sys, i).Some?
    ensures var pc, pc' := sys.threads[i], Go(sys, i).value.threads[i];
      && !pc'.RecordWait? && (pc'.RecordHeld? ==> pc == RecordWait(pc'.id, pc'.usage))
  {
    hide HoldsReg, Expired, AddToStore, Note, BookFree, EnqueueFor;
  }

  ghost predicate AskedToRecord(actions: seq<Action>, id: string, usage: Usage) {
    exists k :: 0 <= k < |actions| && actions[k].Begin? && actions[k].call == RecordWait(id, usage)
  }

  ghost predicate RecorderAsked(actions: seq<Action>, pc: Pc) {
    match pc
    case RecordWait(id, usage) => AskedToRecord(actions, id, usage)
    case RecordHeld(id, usage) => AskedToRecord(actions, id, usage)
    case _ => true
  }

  lemma {:induction false} RecordersAsked(sys: System, actions: seq<Action>, i: nat)
    requires LocksHeld(sys) && i < |sys.threads| && sys.threads[i] == Idle
    ensures LocksHeld(Behave(sys, actions)) && |Behave(sys, actions).threads| == |sys.threads|
    ensures RecorderAsked(actions, Behave(sys, actions).threads[i])
    decreases |actions|
  {
    hide Apply, LocksHeld;
    if actions != [] {
      var n := |actions| - 1;
      var before := Behave(sys, actions[..n]);
      RecordersAsked(sys, actions[..n], i);
      ApplyKeepsLocks(before, actions[n]);
      ApplyRecords(before, actions[n], i);
      forall id, usage | AskedToRecord(actions[..n], id, usage)
        ensures AskedToRecord(actions, id, usage)
      {
        var k :| 0 <= k < n && actions[..n][k].Begin? && actions[..n][k].call == RecordWait(id, usage);
        assert actions[k] == actions[..n][k];
      }
    }
  }

  lemma {:induction false} RecordedWasAsked(sys: System, actions: seq<Action>, id: string, usage: Usage, k: nat)
    requires LocksHeld(sys) && (forall i :: 0 <= i < |sys.threads| ==> sys.threads[i] == Idle)
    requires RecordedAt(sys, actions, id, usage, k)
    ensures AskedToRecord(actions, id, usage)
  {
    var caller := actions[k].caller;
    BehaveKeepsCallers(sys, actions[..k]);
    RecordersAsked(sys, actions[..k], caller);
    hide LocksHeld, Behave;
    var j :| 0 <= j < k && actions[..k][j].Begin? && actions[..k][j].call == RecordWait(id, usage);
    assert actions[j] == actions[..k][j];
  }

  /**
   * The usage book of a registry under any interleaving: whenever the registry's lock is free, every entry is a use
   * that some caller was asked to record and did, of a licence that is stored, or of one that was not when its use was
   * recorded. Nothing but such a late recording leaves an entry for a licence that is gone.
   */
  lemma {:induction false} BookUnderInterleaving(ttl: Ttl, files: Option<map<string, Bytes>>, now: Time,
          callers: nat, actions: seq<Action>, id: string)
    ensures var start := Start(Empty(ttl, map[], files), true, now, callers);
      var sys := Behave(start, actions);
      sys.regOwner.None? && id in sys.shared.book ==>
        && AskedToRecord(actions, id, sys.shared.book[id])
        && (id in sys.shared.store || RecordedLate(start, actions, id))
  {
    var start := Start(Empty(ttl, map[], files), true, now, callers);
    assert LocksHeld(start);
    AllAccounted(start, actions, id);
    hide Behave, RecordedLate, Start, AskedToRecord, RecordedAt;
    var sys := Behave(start, actions);
    if sys.regOwner.None? && id in sys.shared.book {
      assert !Pending(sys, id);
      var k: nat :| RecordedAt(start, actions, id, sys.shared.book[id], k);
      StartIsIdle(Empty(ttl, map[], files), now, callers);
      RecordedWasAsked(start, actions, id, sys.shared.book[id], k);
    }
  }

  lemma {:induction false} StartIsIdle(s: State, now: Time, callers: nat)
    ensures var sys := Start(s, true, now, callers);
      forall i :: 0 <= i < |sys.threads| ==> sys.threads[i] == Idle
  {
  }

  // ---------- Calls that nobody disturbs ----------

  /** All the actions are steps of caller `i`. */
  ghost predicate OnlySteps(actions: seq<Action>, i: nat) {
    forall k :: 0 <= k < |actions| ==> actions[k] == Step(i)
  }

  lemma {:induction false} BehaveFirst(sys: System, a: Action, rest: seq<Action>)
    ensures Behave(sys, [a] + rest) == Behave(Apply(sys, a), rest)
    decreases |rest|
  {
    if rest == [] {
      assert [a] + rest == [a] && [a][..0] == [];
    } else {
      var n := |rest| - 1;
      BehaveFirst(sys, a, rest[..n]);
      assert ([a] + rest)[..|rest|] == [a] + rest[..n];
    }
  }

  /** Where caller `i` is left and what it leaves behind, when it has given the registry's lock back. */
  function Done(sys: System, i: nat, pc: Pc, shared: State): System
    requires i < |sys.threads|
  {
    Become(sys, i, pc).(shared := shared, regOwner := None)
  }

  lemma {:induction false} PushingEnds(sys: System, i: nat) returns (actions: seq<Action>)
    requires i < |sys.threads| && sys.threads[i].AddPushing? && sys.regOwner == Some(i)
    ensures OnlySteps(actions, i)
    ensures var pc, s := sys.threads[i], sys.shared;
      Behave(sys, actions) == Done(sys, i, Idle, s.(queues := Enqueue(s.queues, pc.l, pc.pending)))
    decreases |sys.threads[i].pending|
  {
    var next := Go(sys, i).value;
    var rest := [];
    if sys.threads[i].pending != [] {
      rest := PushingEnds(next, i);
    }
    actions := [Step(i)] + rest;
    BehaveFirst(sys, Step(i), rest);
  }

  /** A caller that adds a licence while the lock is free, and goes on until it is done, adds it. */
  lemma {:induction false} UndisturbedAdd(sys: System, i: nat, l: License, c: Option<Contract>)
    returns (actions: seq<Action>)
    requires i < |sys.threads| && sys.threads[i] == Idle && sys.regOwner.None?
    ensures OnlySteps(actions, i)
    ensures Behave(sys, [Begin(i, AddWait(l, c))] + actions) == Done(sys, i, Idle, Add(sys.shared, l, c))
  {
    var begun := Become(sys, i, AddWait(l, c));
    var entered := Become(sys, i, AddEntered(l, c)).(regOwner := Some(i));
    assert begun.threads[i := entered.threads[i]] == entered.threads;
    assert Go(begun, i) == Some(entered);
    var rest := EnteredEnds(entered, i);
    actions := [Step(i)] + rest;
    assert Become(entered, i, Idle).threads == Become(sys, i, Idle).threads;
    hide Go, Add;
    BehaveFirst(begun, Step(i), rest);
    BehaveFirst(sys, Begin(i, AddWait(l, c)), actions);
  }

  lemma {:induction false} EnteredEnds(sys: System, i: nat) returns (actions: seq<Action>)
    requires i < |sys.threads| && sys.threads[i].AddEntered? && sys.regOwner == Some(i)
    ensures OnlySteps(actions, i)
    ensures var pc := sys.threads[i];
      Behave(sys, actions) == Done(sys, i, Idle, Add(sys.shared, pc.l, pc.c))
  {
    var pc := sys.threads[i];
    var next := Go(sys, i).value;
    var rest := [];
    if pc.l.id !in sys.shared.store {
      rest := PushingEnds(next, i);
      assert Become(next, i, Idle).threads == Become(sys, i, Idle).threads;
    }
    actions := [Step(i)] + rest;
    BehaveFirst(sys, Step(i), rest);
  }

  /** A caller that records use while the book is free, and goes on, records it. */
  lemma {:induction false} UndisturbedRecord(sys: System, i: nat, id: string, usage: Usage)
    requires i < |sys.threads| && sys.threads[i] == Idle && BookFree(sys)
    ensures Behave(sys, [Begin(i, RecordWait(id, usage)), Step(i), Step(i)]) ==
            sys.(shared := Note(sys.shared, id, usage))
  {
    var begun := Become(sys, i, RecordWait(id, usage));
    var held := Go(begun, i).value;
    BehaveFirst(held, Step(i), []);
    BehaveFirst(begun, Step(i), [Step(i)]);
    BehaveFirst(sys, Begin(i, RecordWait(id, usage)), [Step(i), Step(i)]);
    assert [Step(i)] + [] == [Step(i)] && [Step(i)] + [Step(i)] == [Step(i), Step(i)];
    assert [Begin(i, RecordWait(id, usage))] + [Step(i), Step(i)] ==
           [Begin(i, RecordWait(id, usage)), Step(i), Step(i)];
    assert Go(held, i).value.threads == sys.threads;
  }

  /** A registry without a record book strikes nothing from the book of another. */
  function KeepingBook(s: State, s': State, hasBook: bool): State {
    if hasBook then s' else s'.(book := s.book)
  }

  /** `n` steps of caller `i`, if it can take them. */
  function After(sys: System, i: nat, n: nat): Option<System>
    decreases n
  {
    if n == 0 then Some(sys)
    else if i < |sys.threads| && Go(sys, i).Some? then After(Go(sys, i).value, i, n - 1)
    else None
  }

  lemma {:induction false} AfterBehaves(sys: System, i: nat, n: nat) returns (actions: seq<Action>)
    requires After(sys, i, n).Some?
    ensures OnlySteps(actions, i) && Behave(sys, actions) == After(sys, i, n).value
    decreases n
  {
    hide Go;
    actions := [];
    if n > 0 {
      actions := AfterBehaves(Go(sys, i).value, i, n - 1);
      BehaveFirst(sys, Step(i), actions);
      actions := [Step(i)] + actions;
    }
  }

  lemma {:induction false} AfterOne(sys: System, i: nat, n: nat, next: System)
    requires n > 0 && i < |sys.threads| && Go(sys, i) == Some(next)
    ensures After(sys, i, n) == After(next, i, n - 1)
    ensures After(sys, i, 0) == Some(sys)
  {
  }

  /** A lookup about to evict, with the entry popped off its heap. */
  function Popped(sys: System, i: nat): System
    requires i < |sys.threads| && sys.threads[i].LookupLoop?
    requires RootExpired(sys.shared, sys.threads[i].ask.feature, sys.now)
  {
    var ask, q := sys.threads[i].ask, sys.shared.queues[sys.threads[i].ask.feature];
    Become(sys, i, LookupEvicting(ask, q[0])).(
      shared := sys.shared.(queues := sys.shared.queues[ask.feature := Heaps.Pop(q)]))
  }

  lemma {:induction false} EvictsWithBook(sys: System, i: nat)
    requires i < |sys.threads| && sys.threads[i].LookupEvicting? && sys.hasBook && BookFree(sys)
    ensures var pc := sys.threads[i];
      After(sys, i, 4) ==
      Some(Become(sys, i, LookupLoop(pc.ask)).(shared := RemoveFromStore(sys.shared, pc.item)))
  {
    var ask, item, s := sys.threads[i].ask, sys.threads[i].item, sys.shared;
    var s1 := s.(store := s.store - {item.id});
    var s2 := s1.(book := s.book - {item.id});
    var wanting := Become(sys, i, LookupWantBook(ask, item)).(shared := s1, regOwner := sys.regOwner);
    var holding := Become(wanting, i, LookupHasBook(ask, item)).(bookWriter := Some(i));
    var removing := Become(wanting, i, LookupRemoving(ask, item)).(shared := s2);
    var looping := Become(sys, i, LookupLoop(ask)).(shared := RemoveFromStore(s, item));
    assert holding.threads[i := removing.threads[i]] == removing.threads;
    assert removing.threads[i := looping.threads[i]] == looping.threads;
    assert Go(sys, i) == Some(wanting);
    assert Go(wanting, i) == Some(holding);
    assert Go(holding, i) == Some(removing);
    assert Go(removing, i) == Some(looping);
    hide Go;
    AfterOne(sys, i, 4, wanting);
    AfterOne(wanting, i, 3, holding);
    AfterOne(holding, i, 2, removing);
    AfterOne(removing, i, 1, looping);
  }

  lemma {:induction false} EvictsWithoutBook(sys: System, i: nat)
    requires i < |sys.threads| && sys.threads[i].LookupEvicting? && !sys.hasBook
    ensures var pc := sys.threads[i];
      After(sys, i, 2) ==
      Some(Become(sys, i, LookupLoop(pc.ask)).(
        shared := RemoveFromStore(sys.shared, pc.item).(book := sys.shared.book)))
  {
    var ask, item, s := sys.threads[i].ask, sys.threads[i].item, sys.shared;
    var removing := Become(sys, i, LookupRemoving(ask, item)).(shared := s.(store := s.store - {item.id}));
    var looping := Become(sys, i, LookupLoop(ask)).(shared := RemoveFromStore(s, item).(book := s.book));
    assert removing.threads[i := looping.threads[i]] == looping.threads;
    assert Go(sys, i) == Some(removing);
    assert Go(removing, i) == Some(looping);
    hide Go;
    AfterOne(sys, i, 2, removing);
    AfterOne(removing, i, 1, looping);
  }

  /** One eviction by a caller that nobody disturbs. */
  lemma {:induction false} EvictionEnds(sys: System, i: nat) returns (actions: seq<Action>)
    requires i < |sys.threads| && sys.threads[i].LookupLoop? && sys.regOwner == Some(i) && BookFree(sys)
    requires RootExpired(sys.shared, sys.threads[i].ask.feature, sys.now)
    ensures OnlySteps(actions, i)
    ensures var f := sys.threads[i].ask.feature;
      Behave(sys, actions) == sys.(shared := KeepingBook(sys.shared, Evict(sys.shared, f), sys.hasBook))
  {
    var popped := Popped(sys, i);
    assert Go(sys, i) == Some(popped);
    assert Become(popped, i, sys.threads[i]).threads == sys.threads;
    hide Go;
    if sys.hasBook {
      EvictsWithBook(popped, i);
      AfterOne(sys, i, 5, popped);
      actions := AfterBehaves(sys, i, 5);
    } else {
      EvictsWithoutBook(popped, i);
      AfterOne(sys, i, 3, popped);
      actions := AfterBehaves(sys, i, 3);
    }
  }

  lemma {:induction false} LoopFinds(sys: System, i: nat) returns (actions: seq<Action>)
    requires i < |sys.threads| && sys.threads[i].LookupLoop? && sys.regOwner == Some(i) && BookFree(sys)
    ensures OnlySteps(actions, i)
    ensures var ask := sys.threads[i].ask;
      var a := Lookup(sys.shared, ask.feature, sys.now);
      Behave(sys, actions) ==
      Done(sys, i, LookupReturned(ask, a.license, sys.now), KeepingBook(sys.shared, a.state, sys.hasBook))
    decreases var f := sys.threads[i].ask.feature; if f in sys.shared.queues then |sys.shared.queues[f]| else 0
  {
    var f := sys.threads[i].ask.feature;
    if RootExpired(sys.shared, f, sys.now) {
      var first := EvictionEnds(sys, i);
      var after := Behave(sys, first);
      EvictIgnoresBook(sys.shared, f, sys.now, sys.hasBook);
      var rest := LoopFinds(after, i);
      BehaveConcat(sys, first, rest);
      actions := first + rest;
    } else {
      actions := [Step(i)];
      BehaveFirst(sys, Step(i), []);
      assert [Step(i)] + [] == [Step(i)];
    }
  }

  lemma {:induction false} BehaveConcat(sys: System, one: seq<Action>, two: seq<Action>)
    ensures Behave(sys, one + two) == Behave(Behave(sys, one), two)
    decreases |two|
  {
    if two == [] {
      assert one + two == one;
    } else {
      BehaveConcat(sys, one, two[..|two| - 1]);
      assert (one + two)[..|one + two| - 1] == one + two[..|two| - 1];
    }
  }

  lemma {:induction false} LookupIgnoresBook(s: State, book: map<string, Usage>, f: string, t: Time)
    ensures var a, b := Lookup(s, f, t), Lookup(s.(book := book), f, t);
      b.license == a.license && b.state.(book := map[]) == a.state.(book := map[])
    decreases if f in s.queues then |s.queues[f]| else 0
  {
    if RootExpired(s, f, t) {
      var root := s.queues[f][0];
      assert Evict(s.(book := book), f) == Evict(s, f).(book := book - {root.id});
      LookupIgnoresBook(Evict(s, f), book - {root.id}, f, t);
    }
  }

  lemma {:induction false} EvictIgnoresBook(s: State, f: string, t: Time, hasBook: bool)
    requires RootExpired(s, f, t)
    ensures var s' := KeepingBook(s, Evict(s, f), hasBook);
      && Lookup(s', f, t).license == Lookup(s, f, t).license
      && KeepingBook(s', Lookup(s', f, t).state, hasBook) == KeepingBook(s, Lookup(s, f, t).state, hasBook)
      && f in s'.queues && |s'.queues[f]| < |s.queues[f]|
  {
    if !hasBook {
      LookupIgnoresBook(Evict(s, f), s.book, f, t);
    }
  }

  /** A caller that looks a feature up while the locks are free, and goes on, gets the answer of a lookup. */
  lemma {:induction false} UndisturbedLookup(sys: System, i: nat, f: string) returns (actions: seq<Action>)
    requires i < |sys.threads| && sys.threads[i] == Idle && sys.regOwner.None? && BookFree(sys)
    ensures OnlySteps(actions, i)
    ensures var a := Lookup(sys.shared, f, sys.now);
      Behave(sys, [Begin(i, LookupWait(f))] + actions) ==
      Done(sys, i, LookupReturned(Ask(f, Indexes(sys.shared)), a.license, sys.now),
        KeepingBook(sys.shared, a.state, sys.hasBook))
  {
    var begun := Become(sys, i, LookupWait(f));
    var entered := Go(begun, i).value;
    var rest := LoopFinds(entered, i);
    actions := [Step(i)] + rest;
    BehaveFirst(begun, Step(i), rest);
    BehaveFirst(sys, Begin(i, LookupWait(f)), actions);
  }
}
