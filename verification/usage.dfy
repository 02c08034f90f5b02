/** The usage book against the store, over whole runs. */
module UsageRuns {
  import opened Licenses
  import opened RegistryStates
  import opened Traces

  ghost predicate UsageStored(s: State) {
    s.book.Keys <= s.store.Keys
  }

  /** Use is recorded only for a licence that is in the store at that moment. */
  ghost predicate NotesStored(s: State, tr: seq<Step>) {
    forall i :: 0 <= i < |tr| ==> NoteStored(s, tr, i)
  }

  ghost predicate NoteStored(s: State, tr: seq<Step>, i: nat)
    requires i < |tr|
  {
    tr[i].NoteStep? ==> tr[i].id in Run(s, tr[..i]).store
  }

  /** A lookup strikes exactly the evicted licences from the book. */
  lemma {:induction false} LookupBook(s: State, f: string, t: Time)
    requires UsageStored(s)
    ensures var s' := Lookup(s, f, t).state;
      s'.store.Keys <= s.store.Keys && s'.book == map id | id in s.book && id in s'.store :: s.book[id]
    decreases if f in s.queues then |s.queues[f]| else 0
  {
    if f in s.queues && s.queues[f] != [] && Expired(s.queues[f][0], s.ttl, t) {
      LookupBook(Evict(s, f), f, t);
    }
  }

  lemma {:induction false} NotesStoredInit(s: State, tr: seq<Step>)
    requires tr != [] && NotesStored(s, tr)
    ensures NotesStored(s, Init(tr))
    ensures Last(tr).NoteStep? ==> Last(tr).id in Run(s, Init(tr)).store
  {
    assert NoteStored(s, tr, |tr| - 1);
    forall i | 0 <= i < |Init(tr)|
      ensures NoteStored(s, Init(tr), i)
    {
      assert NoteStored(s, tr, i);
      assert Init(tr)[..i] == tr[..i];
    }
  }

  lemma {:induction false} UsageFollowsStore(s: State, tr: seq<Step>)
    requires UsageStored(s) && NotesStored(s, tr)
    ensures UsageStored(Run(s, tr))
    decreases |tr|
  {
    if tr != [] {
      NotesStoredInit(s, tr);
      UsageFollowsStore(s, Init(tr));
      if Last(tr).LookupStep? {
        LookupBook(Run(s, Init(tr)), Last(tr).feature, Last(tr).at);
      }
    }
  }

  /** The book never names a licence that is not stored, if and only if use is recorded for stored licences only. */
  lemma {:induction false} UsageFollowsStoreIff(s: State, tr: seq<Step>)
    requires UsageStored(s)
    ensures NotesStored(s, tr) <==> forall j: nat :: j <= |tr| ==> UsageStored(Run(s, tr[..j]))
  {
    if NotesStored(s, tr) {
      forall j: nat | j <= |tr|
        ensures UsageStored(Run(s, tr[..j]))
      {
        NotesStoredPrefix(s, tr, j);
        UsageFollowsStore(s, tr[..j]);
      }
    } else {
      var i: nat :| i < |tr| && !NoteStored(s, tr, i);
      assert Init(tr[..i + 1]) == tr[..i] && Last(tr[..i + 1]) == tr[i];
      assert tr[i].id in Run(s, tr[..i + 1]).book && tr[i].id !in Run(s, tr[..i + 1]).store;
      assert !UsageStored(Run(s, tr[..i + 1]));
    }
  }

  lemma {:induction false} NotesStoredPrefix(s: State, tr: seq<Step>, j: nat)
    requires j <= |tr| && NotesStored(s, tr)
    ensures NotesStored(s, tr[..j])
  {
    forall i: nat | i < j
      ensures NoteStored(s, tr[..j], i)
    {
      assert NoteStored(s, tr, i);
      assert tr[..j][..i] == tr[..i];
    }
  }

  /** Step `k` recorded use of `id`, which has been in the store ever since, and no later step recorded any. */
  ghost predicate LastUse(s: State, tr: seq<Step>, id: string, k: nat) {
    && k < |tr| && tr[k].NoteStep? && tr[k].id == id
    && (forall j :: k < j < |tr| && tr[j].NoteStep? ==> tr[j].id != id)
    && (forall j :: k < j <= |tr| ==> id in Run(s, tr[..j]).store)
  }

  lemma {:induction false} InitPrefix(tr: seq<Step>, j: nat)
    requires tr != [] && j <= |tr| - 1
    ensures Init(tr)[..j] == tr[..j]
    ensures tr[..|tr|] == tr
  {
  }

  lemma {:induction false} LastUseShrinks(s: State, tr: seq<Step>, id: string, k: nat)
    requires tr != [] && k < |tr| - 1 && LastUse(s, tr, id, k)
    ensures LastUse(s, Init(tr), id, k) && id in Run(s, tr).store && !(Last(tr).NoteStep? && Last(tr).id == id)
  {
    InitPrefix(tr, 0);
    assert id in Run(s, tr[..|tr|]).store;
    forall j | k < j <= |tr| - 1
      ensures id in Run(s, Init(tr)[..j]).store
    {
      InitPrefix(tr, j);
      assert id in Run(s, tr[..j]).store;
    }
  }

  lemma {:induction false} LastUseGrows(s: State, tr: seq<Step>, id: string, k: nat)
    requires tr != [] && LastUse(s, Init(tr), id, k)
    requires id in Run(s, tr).store && !(Last(tr).NoteStep? && Last(tr).id == id)
    ensures LastUse(s, tr, id, k)
  {
    InitPrefix(tr, 0);
    forall j | k < j <= |tr|
      ensures id in Run(s, tr[..j]).store
    {
      if j < |tr| {
        InitPrefix(tr, j);
        assert id in Run(s, Init(tr)[..j]).store;
      }
    }
    forall j | k < j < |tr| && tr[j].NoteStep?
      ensures tr[j].id != id
    {
      assert j < |tr| - 1 ==> tr[j] == Init(tr)[j];
    }
  }

  lemma {:induction false} LastUseIsNow(s: State, tr: seq<Step>, id: string)
    requires tr != [] && NotesStored(s, tr) && Last(tr).NoteStep? && Last(tr).id == id
    ensures LastUse(s, tr, id, |tr| - 1)
    ensures forall k: nat :: LastUse(s, tr, id, k) ==> k == |tr| - 1
  {
    NotesStoredInit(s, tr);
    assert tr[..|tr|] == tr;
    var last := |tr| - 1;
    assert tr[last].NoteStep? && tr[last].id == id;
  }

  /** The book's entry for a licence is its last recorded use since it was last added, and there is none otherwise. */
  lemma {:induction false} BookIsLastUse(s: State, tr: seq<Step>, id: string)
    requires s.book == map[] && NotesStored(s, tr)
    ensures id in Run(s, tr).book <==> exists k: nat :: LastUse(s, tr, id, k)
    ensures forall k: nat :: LastUse(s, tr, id, k) ==> id in Run(s, tr).book && Run(s, tr).book[id] == tr[k].usage
    decreases |tr|
  {
    if tr != [] {
      NotesStoredInit(s, tr);
      if Last(tr).NoteStep? && Last(tr).id == id {
        LastUseIsNow(s, tr, id);
      } else {
        var before := Run(s, Init(tr));
        BookIsLastUse(s, Init(tr), id);
        UsageFollowsStore(s, Init(tr));
        UsageFollowsStore(s, tr);
        if Last(tr).LookupStep? {
          LookupBook(before, Last(tr).feature, Last(tr).at);
        }
        forall k: nat | LastUse(s, tr, id, k)
          ensures LastUse(s, Init(tr), id, k) && id in Run(s, tr).store
        {
          LastUseShrinks(s, tr, id, k);
        }
        forall k: nat | LastUse(s, Init(tr), id, k) && id in Run(s, tr).store
          ensures LastUse(s, tr, id, k)
        {
          LastUseGrows(s, tr, id, k);
        }
        assert id in Run(s, tr).book <==> id in before.book && id in Run(s, tr).store;
      }
    }
  }
}
