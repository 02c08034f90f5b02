/** Concurrent licence requests on a spoke, adding features to one cluster claim by optimistic updates. */
module Claims {
  import opened Licenses
  import opened ClaimCodec

  function Names(features: seq<string>): set<string> {
    set f | f in features
  }

  /** The value written when the claim exists, or `None` when it already has every requested feature. */
  ghost function UpdatedValue(value: string, features: seq<string>): Option<string> {
    if Names(features) <= Decode(value) then None
    else Some(Join(ListOf(Decode(value) + Names(features))))
  }

  /** The value written when the claim does not exist. */
  function CreatedValue(features: seq<string>): string {
    Join(SortNames(features))
  }

  /** An update adds exactly the requested features, sorted, if and only if none of their names has a comma. */
  lemma {:induction false} UpdateDecodes(value: string, features: seq<string>)
    requires UpdatedValue(value, features).Some?
    ensures var union := Decode(value) + Names(features);
      var written := UpdatedValue(value, features).value;
      && (Split(written) == ListOf(union) <==> forall f :: f in features ==> CommaFree(f))
      && (Decode(written) == union <==> forall f :: f in features ==> CommaFree(f))
  {
    var union, written := Decode(value) + Names(features), UpdatedValue(value, features).value;
    var listed := ListOf(union);
    RoundTrip(listed);
    PiecesAreCommaFree(value);
    PiecesAreCommaFree(written);
    if forall f :: f in features ==> CommaFree(f) {
      assert listed != [] by {
        assert Split(value)[0] in union;
      }
      forall i | 0 <= i < |listed|
        ensures CommaFree(listed[i])
      {
        assert listed[i] in listed;
      }
    } else {
      var f :| f in features && !CommaFree(f);
      assert f in union && f in listed;
      assert f !in Decode(written);
    }
  }

  /** A created claim reads back as the sorted request exactly when there is a request without commas in its names. */
  lemma {:induction false} CreateDecodes(features: seq<string>)
    ensures Split(CreatedValue(features)) == SortNames(features) <==>
            features != [] && forall f :: f in features ==> CommaFree(f)
  {
    var sorted := SortNames(features);
    SortNamesSorts(features);
    RoundTrip(sorted);
    if forall f :: f in features ==> CommaFree(f) {
      forall i | 0 <= i < |sorted|
        ensures CommaFree(sorted[i])
      {
        assert sorted[i] in sorted;
      }
    }
    if forall i :: 0 <= i < |sorted| ==> CommaFree(sorted[i]) {
      forall f | f in features
        ensures CommaFree(f)
      {
        assert f in sorted;
      }
    }
  }

  /** A comma-free name survives being joined into a claim, whatever else is in it. */
  lemma {:induction false} JoinKeeps(xs: seq<string>, f: string)
    requires f in xs && CommaFree(f)
    ensures f in Decode(Join(xs))
  {
    JoinDecodes(xs);
    SplitCommaFree(f);
    var i :| 0 <= i < |xs| && xs[i] == f;
    assert f in Decode(xs[i]);
  }

  /** An update never loses a feature, even next to names with commas. */
  lemma {:induction false} UpdateGrows(value: string, features: seq<string>)
    requires UpdatedValue(value, features).Some?
    ensures Decode(value) <= Decode(UpdatedValue(value, features).value)
    ensures forall f :: f in features && CommaFree(f) ==> f in Decode(UpdatedValue(value, features).value)
  {
    var listed := ListOf(Decode(value) + Names(features));
    PiecesAreCommaFree(value);
    forall f | f in Decode(value) || (f in features && CommaFree(f))
      ensures f in Decode(Join(listed))
    {
      JoinKeeps(listed, f);
    }
  }

  // ---------- Requests interleaved at API calls ----------

  /** What a read of the claim returned; a cached client may return any earlier version, or miss a claim that exists. */
  datatype Snapshot = Missing | Found(version: nat, value: string)

  datatype Phase = Started | HasRead(seen: Snapshot) | Answered | Failed

  datatype Request = Request(features: seq<string>, phase: Phase)

  /** `history` lists the claim's values, oldest first; its resource version is the index of the last one. */
  datatype Cluster = Cluster(history: seq<string>, requests: seq<Request>)

  datatype Action =
    | Arrive(features: seq<string>)
    | ReadMissing(request: nat)
    | ReadVersion(request: nat, version: nat)
    | Write(request: nat)
    | ApiError(request: nat)

  function SetPhase(c: Cluster, i: nat, phase: Phase): Cluster
    requires i < |c.requests|
  {
    c.(requests := c.requests[i := c.requests[i].(phase := phase)])
  }

  function Append(c: Cluster, value: string): Cluster {
    c.(history := c.history + [value])
  }

  /** The write that follows a read: create, version-checked update, or nothing to do. */
  ghost function Written(c: Cluster, i: nat): Cluster
    requires i < |c.requests| && c.requests[i].phase.HasRead?
  {
    var features := c.requests[i].features;
    match c.requests[i].phase.seen
    case Missing =>
      if c.history == [] then SetPhase(Append(c, CreatedValue(features)), i, Answered) else SetPhase(c, i, Failed)
    case Found(version, value) =>
      match UpdatedValue(value, features)
      case None => SetPhase(c, i, Answered)
      case Some(updated) =>
        if version == |c.history| - 1 then SetPhase(Append(c, updated), i, Answered) else SetPhase(c, i, Failed)
  }

  /** One step of one request; an action that does not fit its request's phase is no step. */
  ghost function Apply(c: Cluster, a: Action): Cluster {
    match a
    case Arrive(features) => c.(requests := c.requests + [Request(features, Started)])
    case ReadMissing(i) =>
      if i < |c.requests| && c.requests[i].phase.Started? then SetPhase(c, i, HasRead(Missing)) else c
    case ReadVersion(i, k) =>
      if i < |c.requests| && c.requests[i].phase.Started? && k < |c.history|
      then SetPhase(c, i, HasRead(Found(k, c.history[k]))) else c
    case Write(i) =>
      if i < |c.requests| && c.requests[i].phase.HasRead? then Written(c, i) else c
    case ApiError(i) =>
      if i < |c.requests| && !c.requests[i].phase.Answered? then SetPhase(c, i, Failed) else c
  }

  ghost function Interleave(c: Cluster, actions: seq<Action>): Cluster
    decreases |actions|
  {
    if actions == [] then c
    else Apply(Interleave(c, actions[..|actions| - 1]), actions[|actions| - 1])
  }

  /** The features in the claim now. */
  function Claimed(c: Cluster): set<string> {
    if c.history == [] then {} else Decode(c.history[|c.history| - 1])
  }

  ghost predicate HistoryGrows(history: seq<string>) {
    forall i, j :: 0 <= i <= j < |history| ==> Decode(history[i]) <= Decode(history[j])
  }

  ghost predicate RequestSound(c: Cluster, r: Request) {
    match r.phase
    case Started => true
    case HasRead(Missing) => true
    case HasRead(Found(k, value)) => k < |c.history| && value == c.history[k]
    case Answered => c.history != [] && forall f :: f in r.features ==> (CommaFree(f) <==> f in Claimed(c))
    case Failed => true
  }

  ghost predicate ClusterInv(c: Cluster) {
    HistoryGrows(c.history) && forall i :: 0 <= i < |c.requests| ==> RequestSound(c, c.requests[i])
  }

  /** A longer history keeps what was true of every request. */
  lemma {:induction false} LaterKeepsSound(c: Cluster, c': Cluster, r: Request)
    requires RequestSound(c, r) && c.history <= c'.history && HistoryGrows(c'.history)
    ensures RequestSound(c', r)
  {
    if r.phase.Answered? {
      var now, later := |c.history| - 1, |c'.history| - 1;
      assert Decode(c'.history[now]) <= Decode(c'.history[later]);
      PiecesAreCommaFree(c'.history[later]);
    }
  }

  lemma {:induction false} AnsweredIsSound(c: Cluster, features: seq<string>)
    requires c.history != [] && forall f :: f in features && CommaFree(f) ==> f in Claimed(c)
    ensures RequestSound(c, Request(features, Answered))
  {
    PiecesAreCommaFree(c.history[|c.history| - 1]);
  }

  lemma {:induction false} WriteKeepsInv(c: Cluster, i: nat)
    requires ClusterInv(c) && i < |c.requests| && c.requests[i].phase.HasRead?
    ensures ClusterInv(Written(c, i)) && c.history <= Written(c, i).history
  {
    var features, c', last := c.requests[i].features, Written(c, i), |c.history| - 1;
    assert RequestSound(c, c.requests[i]);
    match c.requests[i].phase.seen {
      case Missing =>
        if c.history == [] {
          SortNamesSorts(features);
          forall f | f in features && CommaFree(f)
            ensures f in Claimed(c')
          {
            JoinKeeps(SortNames(features), f);
          }
          AnsweredIsSound(c', features);
        }
      case Found(k, value) =>
        match UpdatedValue(value, features)
        case None =>
          assert Decode(c.history[k]) <= Decode(c.history[last]);
          AnsweredIsSound(c', features);
        case Some(updated) =>
          if k == last {
            UpdateGrows(value, features);
            AnsweredIsSound(c', features);
          }
    }
    assert HistoryGrows(c'.history);
    forall j | 0 <= j < |c'.requests|
      ensures RequestSound(c', c'.requests[j])
    {
      if j != i {
        LaterKeepsSound(c, c', c.requests[j]);
      }
    }
  }

  lemma {:induction false} ApplyKeepsInv(c: Cluster, a: Action)
    requires ClusterInv(c)
    ensures ClusterInv(Apply(c, a)) && c.history <= Apply(c, a).history
  {
    if a.Write? && a.request < |c.requests| && c.requests[a.request].phase.HasRead? {
      WriteKeepsInv(c, a.request);
    } else {
      var c' := Apply(c, a);
      assert c'.history == c.history;
      forall j | 0 <= j < |c'.requests|
        ensures RequestSound(c', c'.requests[j])
      {
        if j < |c.requests| && c'.requests[j] == c.requests[j] {
          LaterKeepsSound(c, c', c.requests[j]);
        }
      }
    }
  }

  const NO_CLAIM := Cluster([], [])

  lemma {:induction false} InterleaveKeepsInv(actions: seq<Action>)
    ensures ClusterInv(Interleave(NO_CLAIM, actions))
    decreases |actions|
  {
    if actions != [] {
      InterleaveKeepsInv(actions[..|actions| - 1]);
      ApplyKeepsInv(Interleave(NO_CLAIM, actions[..|actions| - 1]), actions[|actions| - 1]);
    }
  }

  /** In every interleaving, from one point to any later one, the claim only gains features. */
  lemma {:induction false} ClaimOnlyGrows(actions: seq<Action>, k: nat)
    requires k <= |actions|
    ensures Interleave(NO_CLAIM, actions[..k]).history <= Interleave(NO_CLAIM, actions).history
    ensures Claimed(Interleave(NO_CLAIM, actions[..k])) <= Claimed(Interleave(NO_CLAIM, actions))
    decreases |actions|
  {
    if k == |actions| {
      assert actions[..k] == actions;
    } else {
      var n := |actions| - 1;
      ClaimOnlyGrows(actions[..n], k);
      assert actions[..n][..k] == actions[..k];
      InterleaveKeepsInv(actions);
      InterleaveKeepsInv(actions[..n]);
      ApplyKeepsInv(Interleave(NO_CLAIM, actions[..n]), actions[n]);
    }
  }

  /**
   * Once a request has been answered without error, at every later point the claim has exactly those of
   * its features whose names are comma-free.
   */
  lemma {:induction false} AnsweredStaysClaimed(actions: seq<Action>, k: nat, i: nat)
    requires k <= |actions|
    requires var c := Interleave(NO_CLAIM, actions[..k]); i < |c.requests| && c.requests[i].phase.Answered?
    ensures forall f :: f in Interleave(NO_CLAIM, actions[..k]).requests[i].features ==>
      (f in Claimed(Interleave(NO_CLAIM, actions)) <==> CommaFree(f))
  {
    var early, late := Interleave(NO_CLAIM, actions[..k]), Interleave(NO_CLAIM, actions);
    InterleaveKeepsInv(actions[..k]);
    InterleaveKeepsInv(actions);
    ClaimOnlyGrows(actions, k);
    assert RequestSound(early, early.requests[i]);
    LaterKeepsSound(early, late, early.requests[i]);
  }

  // ---------- One request ----------

  /** What the API server answers a request: what a read of the claim gives, if it succeeds, and whether writes do. */
  datatype Api = Api(read: Option<Snapshot>, taken: bool)

  /** What was seen of the claim, if anything, is a value that it has had, with its version. */
  ghost predicate WasClaimed(history: seq<string>, seen: Option<Snapshot>) {
    seen.Some? && seen.value.Found? ==>
      seen.value.version < |history| && seen.value.value == history[seen.value.version]
  }

  datatype PathEnd = PathEnd(answered: bool, history: seq<string>)

  /** The one-request cluster in which a request makes its write. */
  function OneRequest(history: seq<string>, features: seq<string>, seen: Snapshot): Cluster {
    Cluster(history, [Request(features, HasRead(seen))])
  }

  /** The claim path of one request: the protocol's write, if the API server lets it through. */
  ghost function ClaimPath(history: seq<string>, features: seq<string>, api: Api): PathEnd {
    match api.read
    case None => PathEnd(false, history)
    case Some(seen) =>
      var c := Written(OneRequest(history, features, seen), 0);
      if c.requests[0].phase == Answered && (c.history == history || api.taken) then PathEnd(true, c.history)
      else PathEnd(false, history)
  }

  /** The claim that was read already has all the requested names. */
  ghost predicate HasAll(features: seq<string>, seen: Snapshot) {
    seen.Found? && forall f :: f in features ==> f in Decode(seen.value)
  }

  /** The write that has to be made is one that the API server takes. */
  ghost predicate WriteGoesThrough(history: seq<string>, api: Api) {
    && api.taken && api.read.Some?
    && match api.read.value
       case Missing => history == []
       case Found(version, _) => version == |history| - 1
  }

  /** What is in the claim that was read. */
  ghost predicate SeenIn(seen: Snapshot, piece: string) {
    seen.Found? && piece in Decode(seen.value)
  }

  lemma {:induction false} CreatedPieces(features: seq<string>, piece: string)
    requires features != []
    ensures piece in Decode(CreatedValue(features)) <==> exists f :: f in features && piece in Decode(f)
  {
    var sorted := SortNames(features);
    SortNamesSorts(features);
    JoinDecodes(sorted);
    assert forall f :: f in features ==> f in sorted;
    assert forall i :: 0 <= i < |sorted| ==> sorted[i] in features;
  }

  lemma {:induction false} UpdatedPieces(value: string, features: seq<string>, piece: string)
    requires UpdatedValue(value, features).Some?
    ensures piece in Decode(UpdatedValue(value, features).value) <==>
            piece in Decode(value) || exists f :: f in features && piece in Decode(f)
  {
    var union := Decode(value) + Names(features);
    var listed := ListOf(union);
    assert Split(value)[0] in union && listed != [];
    JoinDecodes(listed);
    PiecesAreCommaFree(value);
    if piece in Decode(value) {
      SplitCommaFree(piece);
      assert piece in listed;
    }
    assert forall f :: f in features ==> f in listed;
    forall i | 0 <= i < |listed| && piece in Decode(listed[i])
      ensures piece in Decode(value) || exists f :: f in features && piece in Decode(f)
    {
      assert listed[i] in union;
      if listed[i] in Decode(value) {
        SplitCommaFree(listed[i]);
      }
    }
  }

  /**
   * A request on the claim path is answered if and only if the read succeeds and either the claim already has every
   * requested name, or the write goes through: creation of a claim that does not exist, or update of the version read.
   * If it is answered with a write, the claim then stands for what it was read to be and the requested names; otherwise
   * nothing changes.
   */
  lemma {:induction false} ClaimPathMeans(history: seq<string>, features: seq<string>, api: Api)
    ensures var end := ClaimPath(history, features, api);
      && (end.answered <==>
           api.read.Some? && (HasAll(features, api.read.value) || WriteGoesThrough(history, api)))
      && (if !end.answered || HasAll(features, api.read.value) then end.history == history
          else
            && |end.history| == |history| + 1 && history < end.history
            && (features != [] ==> forall piece :: piece in Decode(end.history[|history|]) <==>
                  SeenIn(api.read.value, piece) || exists f :: f in features && piece in Decode(f)))
  {
    if api.read.Some? {
      match api.read.value
      case Missing =>
        if features != [] {
          forall piece {
            CreatedPieces(features, piece);
          }
        }
      case Found(_, value) =>
        assert Names(features) <= Decode(value) <==> HasAll(features, api.read.value);
        if UpdatedValue(value, features).Some? {
          forall piece {
            UpdatedPieces(value, features, piece);
          }
        }
    }
  }

  /** A request's write amid all the others is its claim path with an API server that takes what it can. */
  lemma {:induction false} WriteIsClaimPath(c: Cluster, i: nat)
    requires i < |c.requests| && c.requests[i].phase.HasRead?
    ensures var end := ClaimPath(c.history, c.requests[i].features, Api(Some(c.requests[i].phase.seen), true));
      Apply(c, Write(i)) == SetPhase(c.(history := end.history), i, if end.answered then Answered else Failed)
  {
  }

  /** Whatever has happened before, a request that runs undisturbed from there on is answered. */
  lemma {:induction false} UndisturbedIsAnswered(actions: seq<Action>, features: seq<string>)
    ensures var before := Interleave(NO_CLAIM, actions);
      var i, last := |before.requests|, |before.history| - 1;
      var read := if before.history == [] then ReadMissing(i) else ReadVersion(i, last);
      var after := Interleave(NO_CLAIM, actions + [Arrive(features), read, Write(i)]);
      && |after.requests| == i + 1 && after.requests[i] == Request(features, Answered)
      && after.requests[..i] == before.requests
  {
    var before := Interleave(NO_CLAIM, actions);
    var i, last := |before.requests|, |before.history| - 1;
    var read := if before.history == [] then ReadMissing(i) else ReadVersion(i, last);
    InterleaveOne(actions, Arrive(features));
    InterleaveOne(actions + [Arrive(features)], read);
    InterleaveOne(actions + [Arrive(features)] + [read], Write(i));
    assert actions + [Arrive(features)] + [read] + [Write(i)] == actions + [Arrive(features), read, Write(i)];
    hide Interleave;
  }

  lemma {:induction false} InterleaveOne(actions: seq<Action>, a: Action)
    ensures Interleave(NO_CLAIM, actions + [a]) == Apply(Interleave(NO_CLAIM, actions), a)
  {
    assert (actions + [a])[..|actions|] == actions;
  }

  ghost predicate Ended(c: Cluster, i: nat) {
    i < |c.requests| && (c.requests[i].phase.Answered? || c.requests[i].phase.Failed?)
  }

  /** A request that has been answered, or has failed, is over: nothing that happens later changes it. */
  lemma {:induction false} EndedStays(c: Cluster, actions: seq<Action>, i: nat)
    requires Ended(c, i)
    ensures Ended(Interleave(c, actions), i) && Interleave(c, actions).requests[i] == c.requests[i]
    decreases |actions|
  {
    if actions != [] {
      EndedStays(c, actions[..|actions| - 1], i);
    }
  }

  /** An error of the API server fails a request that is under way, and changes nothing else. */
  lemma {:induction false} ErrorFails(c: Cluster, i: nat)
    requires i < |c.requests| && !Ended(c, i)
    ensures Apply(c, ApiError(i)) == SetPhase(c, i, Failed)
  {
  }
}
