/** The licence status API of the proxy server: stored licences, each with its last recorded use. */
module LicenseStatuses {
  import opened Licenses
  import opened RegistryStates
  import opened Registries
  import opened UsageRuns
  import opened ServerRuns

  datatype LicenseStatus = LicenseStatus(
    name: string,
    created: Time,
    spec: Usage,
    license: License,
    contract: Option<Contract>)

  /** The status of a licence that nobody has used says so by being empty. */
  const UNUSED := Usage([], User("", "", [], map[]))

  /** `toLicenseStatus`. */
  function ToStatus(book: map<string, Usage>, rec: Record): LicenseStatus {
    var id := rec.license.id;
    LicenseStatus(id, rec.license.notBefore, if id in book then book[id] else UNUSED, rec.license, rec.contract)
  }

  function StatusOf(s: State, name: string): Option<LicenseStatus> {
    if name in s.store then Some(ToStatus(s.book, s.store[name])) else None
  }

  class Storage {
    const reg: LicenseRegistry
    const rb: RecordBook

    /** The book that is read here is the one from which the registry strikes what it evicts. */
    ghost predicate Valid() {
      reg.rb == rb
    }

    constructor (reg: LicenseRegistry, rb: RecordBook)
      requires reg.rb == rb
      ensures Valid() && this.reg == reg && this.rb == rb
    {
      this.reg := reg;
      this.rb := rb;
    }

    method ToLicenseStatus(rec: Record) returns (item: LicenseStatus)
      ensures item == ToStatus(rb.reg, rec)
    {
      item := LicenseStatus(rec.license.id, rec.license.notBefore, UNUSED, rec.license, rec.contract);
      var spec := rb.UsedBy(rec.license.id);
      if spec.Some? {
        item := item.(spec := spec.value);
      }
    }

    method Get(name: string) returns (out: Option<LicenseStatus>)
      requires Valid()
      ensures out == StatusOf(reg.Abs(), name)
    {
      var rec := reg.Get(name);
      if rec.None? {
        return None;
      }
      var item := ToLicenseStatus(rec.value);
      return Some(item);
    }

    /** The statuses of all stored licences that end strictly after now plus ttl, once each, the preferred first. */
    method List(clock: Clock) returns (items: seq<LicenseStatus>)
      requires Valid() && forall id :: id in reg.store ==> reg.store[id].license.id == id
      modifies clock
      ensures old(clock.now) <= clock.now
      ensures forall i :: 0 <= i < |items| ==>
        && StatusOf(reg.Abs(), items[i].name) == Some(items[i])
        && items[i].license.notAfter > clock.now + reg.ttl
      ensures forall id :: id in reg.store && reg.store[id].license.notAfter > clock.now + reg.ttl ==>
        ToStatus(rb.reg, reg.store[id]) in items
      ensures forall i, j :: 0 <= i < j < |items| ==>
        items[i].name != items[j].name && !Less(items[j].license, items[i].license)
    {
      var records := reg.List(clock);
      items := [];
      ghost var now := clock.now;
      for i := 0 to |records|
        invariant clock.now == now
        invariant |items| == i && forall j :: 0 <= j < i ==> items[j] == ToStatus(rb.reg, records[j])
      {
        var item := ToLicenseStatus(records[i]);
        items := items + [item];
      }
      forall id | id in reg.store && reg.store[id].license.notAfter > clock.now + reg.ttl
        ensures ToStatus(rb.reg, reg.store[id]) in items
      {
        var i :| 0 <= i < |records| && records[i] == reg.store[id];
        assert items[i] == ToStatus(rb.reg, reg.store[id]);
      }
    }
  }

  /**
   * In every run of a server with requests as single steps there is a status under a name exactly if a licence of
   * that serial is stored. It shows the licence with its start and contract, and the last request served with it since
   * it was added, if there is one.
   */
  lemma {:induction false} StatusShowsLastUse(decode: Decoder, ttl: Ttl, files: Option<map<string, Bytes>>,
          start: Time, events: seq<Event>, expiry: string -> Time, name: string)
    requires EventsOk(decode, start, events, expiry)
    ensures var s0 := Empty(ttl, map[], files);
      var s, tr := ServerState(decode, s0, events), ServerTrace(decode, s0, events);
      match StatusOf(s, name)
      case None => name !in s.store && forall k: nat :: !LastUse(s0, tr, name, k)
      case Some(status) =>
        && Stored(s, status.license) && status.name == status.license.id == name
        && status.created == s.store[name].license.notBefore && status.contract == s.store[name].contract
        && (forall k: nat :: LastUse(s0, tr, name, k) ==> status.spec == tr[k].usage)
        && ((forall k: nat :: !LastUse(s0, tr, name, k)) ==> status.spec == UNUSED)
  {
    ServerBookFollowsStore(decode, ttl, files, start, events, expiry, name);
    ServerKeepsInv(decode, Empty(ttl, map[], files), start, events, expiry);
    hide LastUse, ServerState, ServerTrace, EventsOk;
  }
}
