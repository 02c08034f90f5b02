/** Licences, their expiry thresholds and the order in which they are preferred. */
module Licenses {

  datatype Option<+T> = None | Some(value: T) {
    function GetOr(default: T): T {
      match this
      case None => default
      case Some(v) => v
    }
  }

  /** File contents and certificate bytes; never looked into by this program. */
  type Bytes = string

  /** Nanoseconds since Go's zero time, so that 0 is `time.Time{}`. */
  type Time = int

  const SECOND: int := 1_000_000_000
  const MINUTE: int := 60 * SECOND
  const LICENSE_ACQUISITION_BUFFER: int := 5 * SECOND
  const MIN_REMAINING_LIFE: int := 5 * MINUTE
  /** The hub's threshold. */
  const HUB_TTL: int := LICENSE_ACQUISITION_BUFFER + MIN_REMAINING_LIFE

  /** The thresholds in nanoseconds: five minutes on a proxy server, and five seconds more on the hub. */
  lemma {:induction false} Thresholds()
    ensures MIN_REMAINING_LIFE == 300_000_000_000 && HUB_TTL == 305_000_000_000
    ensures HUB_TTL - LICENSE_ACQUISITION_BUFFER == MIN_REMAINING_LIFE
  {
  }

  const MAX_DURATION: int := 0x7FFF_FFFF_FFFF_FFFF
  const MIN_DURATION: int := -0x8000_0000_0000_0000

  /** `time.Until`: the difference saturates at the ends of a 64-bit duration. */
  function Until(deadline: Time, now: Time): int {
    if deadline - now > MAX_DURATION then MAX_DURATION
    else if deadline - now < MIN_DURATION then MIN_DURATION
    else deadline - now
  }

  /** The lifetimes a registry may be built with: every 64-bit duration that saturation cannot confuse. */
  type Ttl = d: int | MIN_DURATION < d <= MAX_DURATION witness 0

  datatype Status = Unknown | Active | Invalid | Canceled

  datatype License = License(
    id: string,
    features: seq<string>,
    tierName: string,
    planName: string,
    notBefore: Time,
    notAfter: Time,
    status: Status,
    data: Bytes)

  datatype Contract = Contract(id: string, start: Time, expiry: Time)

  /** A stored licence with the contract it was bought under, if known. */
  datatype Record = Record(license: License, contract: Option<Contract>)

  function RankTier(tier: string): int {
    if tier == "enterprise" then 0 else if tier == "" then 2 else 1
  }

  /** `License.Less`: better tier first, then earlier start, then earlier end. */
  predicate Less(a: License, b: License) {
    var ra, rb := RankTier(a.tierName), RankTier(b.tierName);
    if ra != rb then ra < rb
    else if a.notBefore != b.notBefore then a.notBefore < b.notBefore
    else a.notAfter < b.notAfter
  }

  lemma {:induction false} LessIsStrictWeakOrder(a: License, b: License, c: License)
    ensures !Less(a, a)
    ensures Less(a, b) ==> !Less(b, a)
    ensures !Less(b, a) && !Less(c, b) ==> !Less(c, a)
  {
  }

  /** Enterprise licences come first and licences without a tier last, whatever their dates. */
  lemma {:induction false} BetterTierFirst(a: License, b: License)
    ensures a.tierName == "enterprise" && b.tierName != "enterprise" ==> Less(a, b) && !Less(b, a)
    ensures a.tierName != "" && b.tierName == "" ==> Less(a, b) && !Less(b, a)
  {
  }

  /**
   * Unless just one of two licences is enterprise or just one has no tier, their tiers do not count: the earlier start
   * comes first, and of two that start together the earlier end.
   */
  lemma {:induction false} EarlierFirst(a: License, b: License)
    requires (a.tierName == "enterprise") == (b.tierName == "enterprise") && (a.tierName == "") == (b.tierName == "")
    ensures a.notBefore < b.notBefore ==> Less(a, b) && !Less(b, a)
    ensures a.notBefore == b.notBefore ==> (Less(a, b) <==> a.notAfter < b.notAfter)
  {
  }

  /** The eviction test of a registry with lifetime `ttl`, made at clock reading `now`. */
  predicate Expired(l: License, ttl: Ttl, now: Time) {
    Until(l.notAfter, now) < ttl
  }

  /** What the test means: the licence is good up to and including `notAfter - ttl`. */
  lemma {:induction false} ExpiredMeans(l: License, ttl: Ttl, now: Time)
    ensures Expired(l, ttl, now) <==> now > l.notAfter - ttl
  {
  }

  /** What a certificate says, if the bytes hold one that the CA signed for this cluster. */
  type Decoder = Bytes -> Option<License>

  /** The licence that a certificate describes, apart from whether it is within its validity period. */
  function Certificate(decode: Decoder, data: Bytes): Option<License> {
    match decode(data)
    case None => None
    case Some(l) => Some(l.(status := Active, data := data))
  }

  /** `ParseLicense`: the certificate must also be within its validity period when it is read. */
  function Parse(decode: Decoder, data: Bytes, now: Time): Option<License> {
    match Certificate(decode, data)
    case None => None
    case Some(l) => if l.notBefore <= now <= l.notAfter then Some(l) else None
  }

  /** A licence that parsing some bytes has produced. */
  predicate Genuine(decode: Decoder, l: License) {
    Certificate(decode, l.data) == Some(l)
  }

  /** Two licences that say the same, perhaps read from different bytes. */
  predicate SameCertificate(a: License, b: License) {
    a.(data := b.data) == b
  }

  /**
   * The authority never issues two certificates under one serial number. The bytes of a certificate are not
   * determined: an encoding may be surrounded by text that parsing ignores.
   */
  ghost predicate UniqueSerials(decode: Decoder) {
    forall a: License, b: License ::
      Genuine(decode, a) && Genuine(decode, b) && a.id == b.id ==> SameCertificate(a, b)
  }

  ghost predicate EndsAt(decode: Decoder, l: License, id: string, t: Time) {
    Genuine(decode, l) && l.id == id && l.notAfter == t
  }

  /** The expiry that a serial number then determines. */
  ghost function SerialExpiry(decode: Decoder): string -> Time {
    id => if exists l, t :: EndsAt(decode, l, id, t) then (var l, t :| EndsAt(decode, l, id, t); t) else 0
  }

  lemma {:induction false} SerialDeterminesExpiry(decode: Decoder, l: License)
    requires UniqueSerials(decode) && Genuine(decode, l)
    ensures SerialExpiry(decode)(l.id) == l.notAfter
  {
    assert EndsAt(decode, l, l.id, l.notAfter);
    forall m, t | EndsAt(decode, m, l.id, t)
      ensures t == l.notAfter
    {
      assert SameCertificate(m, l);
    }
    hide UniqueSerials, EndsAt, Genuine;
  }

  // ---------- Admitting licence files ----------

  /** The two clock readings behind one admission: inside `ParseLicense`, and for the remaining life. */
  datatype Reading = Reading(parsedAt: Time, checkedAt: Time)

  datatype Admission = Malformed | TooOld | Admitted(license: License)

  /** How a licence file is judged before it may enter the proxy server's registry. */
  function Admit(decode: Decoder, data: Bytes, r: Reading): Admission {
    match Parse(decode, data, r.parsedAt)
    case None => Malformed
    case Some(l) => if Until(l.notAfter, r.checkedAt) >= MIN_REMAINING_LIFE then Admitted(l) else TooOld
  }

  ghost predicate Ordered(start: Time, rs: seq<Reading>, end: Time) {
    && start <= end
    && (forall i :: 0 <= i < |rs| ==> start <= rs[i].parsedAt <= rs[i].checkedAt <= end)
    && (forall i, j :: 0 <= i < j < |rs| ==> rs[i].checkedAt <= rs[j].parsedAt)
  }

  lemma {:induction false} OrderedExtends(start: Time, rs: seq<Reading>, mid: Time, r: Reading, end: Time)
    requires Ordered(start, rs, mid) && mid <= r.parsedAt <= r.checkedAt <= end
    ensures Ordered(start, rs + [r], end)
  {
  }
}
