/** Whole runs of a proxy server in which every request is one step, and what its usage book then says. */
module ServerRuns {
  import opened Licenses
  import opened RegistryStates
  import opened Traces
  import opened UsageRuns
  import opened HubPasses
  import opened RequestStates

  datatype Event =
    | Add(license: License, contract: Option<Contract>, at: Time)
    | Serve(features: seq<string>, times: seq<Time>, remote: Option<Outcome>, parseAt: Time, user: User)

  function End(e: Event): Time {
    match e
    case Add(_, _, at) => at
    case Serve(_, _, _, parseAt, _) => parseAt
  }

  function Clock(start: Time, events: seq<Event>): Time {
    if events == [] then start else End(events[|events| - 1])
  }

  /** The clock never goes back, and serials determine expiry. */
  ghost predicate EventOk(decode: Decoder, now: Time, e: Event, expiry: string -> Time) {
    match e
    case Add(l, _, at) => now <= at && l.notAfter == expiry(l.id)
    case Serve(features, times, remote, parseAt, _) =>
      && |times| == |features| && Ascending(now, times) && now <= parseAt
      && (forall i :: 0 <= i < |times| ==> times[i] <= parseAt)
      && match IssuedLicense(decode, remote, parseAt)
         case None => true
         case Some(l) => l.notAfter == expiry(l.id)
  }

  function IssuedLicense(decode: Decoder, remote: Option<Outcome>, parseAt: Time): Option<License> {
    if remote.Some? && remote.value.Issued? then Parse(decode, remote.value.data, parseAt) else None
  }

  ghost predicate EventsOk(decode: Decoder, start: Time, events: seq<Event>, expiry: string -> Time)
    decreases |events|
  {
    events == [] ||
    var n := |events| - 1;
    EventsOk(decode, start, events[..n], expiry) && EventOk(decode, Clock(start, events[..n]), events[n], expiry)
  }

  /** The server's state after a run; an ill-formed event, which no request gives rise to, is no step. */
  function ServerState(decode: Decoder, s: State, events: seq<Event>): State
    decreases |events|
  {
    if events == [] then s
    else
      var before := ServerState(decode, s, events[..|events| - 1]);
      match events[|events| - 1]
      case Add(l, c, _) => RegistryStates.Add(before, l, c)
      case Serve(features, times, remote, parseAt, user) =>
        if |times| == |features| then CreateState(decode, before, features, times, remote, parseAt, user) else before
  }

  function StepsOf(decode: Decoder, s: State, e: Event): seq<Step> {
    match e
    case Add(l, c, at) => [AddStep(l, c, at)]
    case Serve(features, times, remote, parseAt, user) =>
      if |times| == |features| then
        RequestSteps(s, features, times, IssuedTo(decode, s, features, times, remote, parseAt),
                     GetLicense(decode, s, features, times, remote, parseAt).license, user, parseAt)
      else []
  }

  /** The run of registry steps that a run of the server amounts to. */
  function ServerTrace(decode: Decoder, s: State, events: seq<Event>): seq<Step>
    decreases |events|
  {
    if events == [] then []
    else
      var n := |events| - 1;
      ServerTrace(decode, s, events[..n]) + StepsOf(decode, ServerState(decode, s, events[..n]), events[n])
  }

  lemma {:induction false} GetStoredKeepsInv(s: State, start: Time, features: seq<string>, times: seq<Time>,
          end: Time, expiry: string -> Time)
    requires Inv(s, start, expiry) && |times| == |features| && Ascending(start, times)
    requires start <= end && forall i :: 0 <= i < |times| ==> times[i] <= end
    ensures Inv(GetStored(s, features, times).state, end, expiry)
    decreases features
  {
    hide Inv;
    if features == [] {
      InvLater(s, start, end, expiry);
    } else {
      InvLater(s, start, times[0], expiry);
      LookupKeepsInv(s, features[0], times[0], expiry);
      var a := Lookup(s, features[0], times[0]);
      if a.license.Some? {
        InvLater(a.state, times[0], end, expiry);
      } else {
        GetStoredKeepsInv(a.state, times[0], features[1..], times[1..], end, expiry);
      }
    }
  }

  lemma {:induction false} EventKeepsInv(decode: Decoder, s: State, now: Time, events: seq<Event>,
          expiry: string -> Time)
    requires events != []
    requires var n := |events| - 1;
      Inv(ServerState(decode, s, events[..n]), now, expiry) && EventOk(decode, now, events[n], expiry)
    ensures Inv(ServerState(decode, s, events), End(events[|events| - 1]), expiry)
  {
    var n := |events| - 1;
    var before := ServerState(decode, s, events[..n]);
    match events[n]
    case Add(l, c, at) =>
      InvLater(before, now, at, expiry);
      AddKeepsInv(before, l, c, at, expiry);
    case Serve(features, times, remote, parseAt, user) =>
      hide Inv;
      GetStoredKeepsInv(before, now, features, times, parseAt, expiry);
      var a := GetStored(before, features, times);
      var issued := IssuedLicense(decode, remote, parseAt);
      if a.license.None? && issued.Some? {
        AddKeepsInv(a.state, issued.value, remote.value.contract, parseAt, expiry);
      }
      var g := GetLicense(decode, before, features, times, remote, parseAt);
      if g.license.Some? {
        NoteKeepsInv(g.state, g.license.value.id, Usage(features, user), parseAt, expiry);
      }
  }

  lemma {:induction false} NoteKeepsInv(s: State, id: string, usage: Usage, t: Time, expiry: string -> Time)
    requires Inv(s, t, expiry)
    ensures Inv(Note(s, id, usage), t, expiry)
  {
  }

  lemma {:induction false} ServerKeepsInv(decode: Decoder, s: State, start: Time, events: seq<Event>,
          expiry: string -> Time)
    requires Inv(s, start, expiry) && EventsOk(decode, start, events, expiry)
    ensures Inv(ServerState(decode, s, events), Clock(start, events), expiry)
    decreases |events|
  {
    hide Inv, EventOk;
    if events != [] {
      ServerKeepsInv(decode, s, start, events[..|events| - 1], expiry);
      EventKeepsInv(decode, s, Clock(start, events[..|events| - 1]), events, expiry);
    }
  }

  lemma {:induction false} NoteStoredInFirst(s: State, one: seq<Step>, two: seq<Step>, i: nat)
    requires i < |one| && NoteStored(s, one, i)
    ensures NoteStored(s, one + two, i)
  {
    assert (one + two)[..i] == one[..i];
  }

  lemma {:induction false} NoteStoredInSecond(s: State, one: seq<Step>, two: seq<Step>, j: nat)
    requires j < |two| && NoteStored(Run(s, one), two, j)
    ensures NoteStored(s, one + two, |one| + j)
  {
    assert (one + two)[..|one| + j] == one + two[..j];
    RunConcat(s, one, two[..j]);
  }

  lemma {:induction false} NotesStoredConcat(s: State, one: seq<Step>, two: seq<Step>)
    requires NotesStored(s, one) && NotesStored(Run(s, one), two)
    ensures NotesStored(s, one + two)
  {
    hide NoteStored, Run;
    forall i | 0 <= i < |one + two|
      ensures NoteStored(s, one + two, i)
    {
      if i < |one| {
        NoteStoredInFirst(s, one, two, i);
      } else {
        NoteStoredInSecond(s, one, two, i - |one|);
      }
    }
  }

  lemma {:induction false} ServerIsRun(decode: Decoder, s: State, start: Time, events: seq<Event>,
          expiry: string -> Time)
    requires Inv(s, start, expiry) && EventsOk(decode, start, events, expiry)
    ensures Run(s, ServerTrace(decode, s, events)) == ServerState(decode, s, events)
    ensures NotesStored(s, ServerTrace(decode, s, events))
    decreases |events|
  {
    hide Inv, NotesStored, RequestSteps;
    if events == [] {
      NoNotes(s);
    } else {
      var n := |events| - 1;
      ServerIsRun(decode, s, start, events[..n], expiry);
      ServerKeepsInv(decode, s, start, events[..n], expiry);
      var before, e := ServerState(decode, s, events[..n]), events[n];
      match e {
        case Add(l, c, at) =>
          RunOne(before, AddStep(l, c, at));
          OneAddNotesStored(before, AddStep(l, c, at));
        case Serve(features, times, remote, parseAt, user) =>
          RequestIsRun(decode, before, Clock(start, events[..n]), features, times, remote, parseAt, user, expiry);
      }
      RunConcat(s, ServerTrace(decode, s, events[..n]), StepsOf(decode, before, e));
      NotesStoredConcat(s, ServerTrace(decode, s, events[..n]), StepsOf(decode, before, e));
    }
  }

  lemma {:induction false} NoNotes(s: State)
    ensures NotesStored(s, [])
  {
  }

  lemma {:induction false} OneAddNotesStored(s: State, step: Step)
    requires step.AddStep?
    ensures NotesStored(s, [step])
  {
  }

  /**
   * In every run of a server from an empty registry and book, in which requests are not interleaved, every recorded
   * serial is in the store, and its entry is the last request served with that licence while it stayed there.
   */
  lemma {:induction false} ServerBookFollowsStore(decode: Decoder, ttl: Ttl, files: Option<map<string, Bytes>>,
          start: Time, events: seq<Event>, expiry: string -> Time, id: string)
    requires EventsOk(decode, start, events, expiry)
    ensures var s0 := Empty(ttl, map[], files);
      var s, tr := ServerState(decode, s0, events), ServerTrace(decode, s0, events);
      && s == Run(s0, tr)
      && UsageStored(s)
      && (id in s.book <==> exists k: nat :: LastUse(s0, tr, id, k))
      && forall k: nat :: LastUse(s0, tr, id, k) ==> s.book[id] == tr[k].usage
  {
    var s0 := Empty(ttl, map[], files);
    var tr := ServerTrace(decode, s0, events);
    ServerIsRun(decode, s0, start, events, expiry);
    hide NotesStored, LastUse;
    UsageFollowsStore(s0, tr);
    BookIsLastUse(s0, tr, id);
  }
}
