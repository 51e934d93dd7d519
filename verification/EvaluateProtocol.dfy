/** Evaluate, then publish the result, then publish the sighting; the sighting
    updates the history row that the enricher reads for the next message. */
module EvaluateProtocol {
  import opened Basics
  import opened DedupKey
  import Division

  /** The pure services the handlers call: string normalisation, the tenant-keyed PII
      hasher and the dedup hash; and for how many seconds the broker drops a message whose
      id it has accepted. Every result holds for any such functions and any window. */
  datatype Services = Services(
    trim: string -> string, lower: string -> string, hashPii: (string, string) -> string, sha: string -> string,
    window: nat)

  datatype Relationship = Unknown | Partner | Customer | FirstTimeExternal | LapsedContact | RecurringService

  datatype Signals = Signals(
    currentHour: nat, typicalSendHour: Option<int>, frequency: nat, isFirstContact: bool,
    relationship: Relationship, senderDomain: string)

  /** `receivedAt` is in seconds; 0 is the zero time. */
  datatype Request = Request(
    tenantId: string, messageId: string, sender: string, recipient: string, receivedAt: nat, signals: Signals)

  /** The primary key of communication_histories. */
  datatype Key = Key(tenantId: string, senderHash: string, recipientHash: string)

  datatype History = History(
    count7: nat, count30: nat, firstSeen: nat, lastSeen: nat,
    senderDomain: string, senderDomainHash: string, relationship: Relationship, typicalHour: int)

  const TYPICAL_HOUR_UNSET: int := -1

  // ----- keys -----------------------------------------------------------------------

  /** The row a request is about, when its triple is usable. */
  function KeyOf(s: Services, req: Request): Option<Key> {
    var tenant := s.trim(req.tenantId);
    var sender := s.trim(s.lower(req.sender));
    var recipient := s.trim(s.lower(req.recipient));
    if tenant == "" || sender == "" || recipient == "" then None
    else
      var senderHash, recipientHash := s.hashPii(tenant, sender), s.hashPii(tenant, recipient);
      if senderHash == "" || recipientHash == "" then None else Some(Key(tenant, senderHash, recipientHash))
  }

  function HourOf(seconds: nat): nat {
    seconds / 3600 % 24
  }

  lemma HourIsOfTheDay(at: nat)
    ensures HourOf(at) < 24 && 3600 * HourOf(at) <= at % 86400 < 3600 * (HourOf(at) + 1)
  {
    var hours, seconds := at / 3600, at % 3600;
    var days, hour := hours / 24, hours % 24;
    assert at == days * 86400 + (3600 * hour + seconds);
    Division.QuotientIsUnique(days, 86400, 3600 * hour + seconds);
  }

  /** A request has a usable key exactly when no part of its triple is blank and both
      hashes come out nonempty. */
  lemma KeyNeedsATriple(s: Services, req: Request)
    ensures var tenant, sender := s.trim(req.tenantId), s.trim(s.lower(req.sender));
            var recipient := s.trim(s.lower(req.recipient));
            KeyOf(s, req).Some? <==>
              && tenant != "" && sender != "" && recipient != ""
              && s.hashPii(tenant, sender) != "" && s.hashPii(tenant, recipient) != ""
  {
  }

  /** Keys identify normalised triples: where the tenant's hash does not collide, two
      requests share a key exactly when they share tenant, sender and recipient. */
  lemma KeysIdentifyTriples(s: Services, a: Request, b: Request)
    requires KeyOf(s, a).Some? && KeyOf(s, b).Some?
    requires forall x, y :: s.hashPii(s.trim(a.tenantId), x) == s.hashPii(s.trim(a.tenantId), y) ==> x == y
    ensures KeyOf(s, a) == KeyOf(s, b) <==>
              && s.trim(a.tenantId) == s.trim(b.tenantId)
              && s.trim(s.lower(a.sender)) == s.trim(s.lower(b.sender))
              && s.trim(s.lower(a.recipient)) == s.trim(s.lower(b.recipient))
  {
  }

  // ----- the enricher ------------------------------------------------------------------

  datatype Fetch = NotFound | Failed | Found(row: History)

  /** Folds the history row onto the producer's signals. */
  method Enrich(s: Services, req: Request, base: Signals, fetch: Key -> Fetch, now: nat) returns (out: Signals)
    ensures out == Enriched(s, req, base, fetch, now)
    // nothing usable to look up, or a failed read: the producer's view stands
    ensures KeyOf(s, req).None? || fetch(KeyOf(s, req).value).Failed? ==>
              && out.isFirstContact == base.isFirstContact && out.frequency == base.frequency
              && out.relationship == base.relationship && out.typicalSendHour.None?
    // no row: a first contact; a row: its count, and its category unless the producer set one
    ensures KeyOf(s, req).Some? && fetch(KeyOf(s, req).value).NotFound? ==>
              && out.isFirstContact && out.frequency == base.frequency
              && out.relationship == base.relationship && out.typicalSendHour.None?
    ensures KeyOf(s, req).Some? && fetch(KeyOf(s, req).value).Found? ==>
              var row := fetch(KeyOf(s, req).value).row;
              && !out.isFirstContact && out.frequency == row.count30
              && out.relationship == (if base.relationship == Unknown then row.relationship else base.relationship)
              && (out.typicalSendHour.Some? <==> 0 <= row.typicalHour <= 23)
              && (out.typicalSendHour.Some? ==> out.typicalSendHour.value == row.typicalHour)
    ensures out.senderDomain == base.senderDomain
    // the hour of the day the message arrived, by the clock only when it has no arrival time
    ensures var at := if req.receivedAt != 0 then req.receivedAt else now;
            out.currentHour < 24 && 3600 * out.currentHour <= at % 86400 < 3600 * (out.currentHour + 1)
  {
    HourIsOfTheDay(if req.receivedAt != 0 then req.receivedAt else now);
    out := base;
    out := out.(currentHour := if req.receivedAt != 0 then HourOf(req.receivedAt) else HourOf(now));
    out := out.(typicalSendHour := None);
    var tenant := s.trim(req.tenantId);
    var sender := s.trim(s.lower(req.sender));
    var recipient := s.trim(s.lower(req.recipient));
    if tenant == "" || sender == "" || recipient == "" {
      return;
    }
    var senderHash, recipientHash := s.hashPii(tenant, sender), s.hashPii(tenant, recipient);
    if senderHash == "" || recipientHash == "" {
      return;
    }
    match fetch(Key(tenant, senderHash, recipientHash))
    case NotFound =>
      out := out.(isFirstContact := true);
    case Failed =>
    case Found(row) =>
      out := out.(isFirstContact := false, frequency := row.count30);
      if 0 <= row.typicalHour < 24 {
        out := out.(typicalSendHour := Some(row.typicalHour));
      }
      if out.relationship.Unknown? && !row.relationship.Unknown? {
        out := out.(relationship := row.relationship);
      }
  }

  /** The enriched signals, field by field: who owns what. */
  function Enriched(s: Services, req: Request, base: Signals, fetch: Key -> Fetch, now: nat): Signals {
    var key := KeyOf(s, req);
    var got := if key.None? then Failed else fetch(key.value);
    Signals(
      if req.receivedAt != 0 then HourOf(req.receivedAt) else HourOf(now),
      if got.Found? && 0 <= got.row.typicalHour < 24 then Some(got.row.typicalHour) else None,
      if got.Found? then got.row.count30 else base.frequency,
      if got.Failed? then base.isFirstContact else got.NotFound?,
      if got.Found? && base.relationship.Unknown? then got.row.relationship else base.relationship,
      base.senderDomain)
  }

  /** The sighting a request gives rise to. */
  function SightingFor(s: Services, req: Request, now: nat): Option<Update> {
    var key := KeyOf(s, req);
    if key.None? || req.messageId == "" then None
    else
      var k := key.value;
      var domain := s.trim(s.lower(req.signals.senderDomain));
      Some(Update(k.tenantId, req.messageId, k.senderHash, k.recipientHash,
                  if domain == "" then "" else s.hashPii(k.tenantId, domain), domain,
                  if req.receivedAt != 0 then req.receivedAt else now))
  }

  /** What a sighting carries, and that only a request without key or message id has none. */
  lemma SightingCarries(s: Services, req: Request, now: nat)
    ensures SightingFor(s, req, now).Some? <==> KeyOf(s, req).Some? && req.messageId != ""
    ensures SightingFor(s, req, now).Some? ==>
              var u := SightingFor(s, req, now).value;
              && u.messageId == req.messageId && u.tenantId == s.trim(req.tenantId)
              && u.senderHash == s.hashPii(u.tenantId, s.trim(s.lower(req.sender)))
              && u.recipientHash == s.hashPii(u.tenantId, s.trim(s.lower(req.recipient)))
              && u.senderDomain == s.trim(s.lower(req.signals.senderDomain))
              && u.senderDomainHash == (if u.senderDomain == "" then "" else s.hashPii(u.tenantId, u.senderDomain))
              && (req.receivedAt != 0 ==> u.sentAt == req.receivedAt) && (req.receivedAt == 0 ==> u.sentAt == now)
  {
  }

  function KeyOfUpdate(u: Update): Key {
    Key(u.tenantId, u.senderHash, u.recipientHash)
  }

  /** The row a sighting writes is the row the enricher reads, for every request with
      the same normalised triple. */
  lemma WriteAndReadKeysAgree(s: Services, req: Request, other: Request, now: nat)
    requires SightingFor(s, req, now).Some?
    requires s.trim(req.tenantId) == s.trim(other.tenantId)
    requires s.trim(s.lower(req.sender)) == s.trim(s.lower(other.sender))
    requires s.trim(s.lower(req.recipient)) == s.trim(s.lower(other.recipient))
    ensures KeyOf(s, other) == Some(KeyOfUpdate(SightingFor(s, req, now).value))
  {
  }

  /** Redeliveries of one request share the dedup id, even when the clock stands in for
      a missing receive time. */
  lemma RedeliveriesShareDedupId(s: Services, req: Request, now: nat, later: nat)
    requires SightingFor(s, req, now).Some?
    ensures SightingFor(s, req, later).Some?
    ensures DedupId(s.sha, SightingFor(s, req, now).value) == DedupId(s.sha, SightingFor(s, req, later).value)
  {
    HashInputIsExact(SightingFor(s, req, now).value, SightingFor(s, req, later).value);
  }

  // ----- history rows ----------------------------------------------------------------------

  function Max(a: nat, b: nat): nat {
    if a < b then b else a
  }

  /** INSERT ... ON CONFLICT DO UPDATE: the first sighting creates the row, later ones
      count, move last-seen forward and fill in a missing domain. */
  function Recorded(row: Option<History>, u: Update): History {
    match row
    case None => History(1, 1, u.sentAt, u.sentAt, u.senderDomain, u.senderDomainHash, Unknown, TYPICAL_HOUR_UNSET)
    case Some(r) =>
      r.(count7 := r.count7 + 1, count30 := r.count30 + 1, lastSeen := Max(r.lastSeen, u.sentAt),
         senderDomain := if r.senderDomain == "" then u.senderDomain else r.senderDomain,
         senderDomainHash := if r.senderDomainHash == "" then u.senderDomainHash else r.senderDomainHash)
  }

  function RowOf(rows: map<Key, History>, k: Key): Option<History> {
    if k in rows then Some(rows[k]) else None
  }

  /** The sightings of one pair, in the order recorded. */
  function Of(log: seq<Update>, k: Key): seq<Update> {
    if log == [] then []
    else Of(log[..|log| - 1], k) + if KeyOfUpdate(log[|log| - 1]) == k then [log[|log| - 1]] else []
  }

  function Latest(us: seq<Update>): nat {
    if us == [] then 0 else Max(Latest(us[..|us| - 1]), us[|us| - 1].sentAt)
  }

  /** The latest send time is one of them, and none is later. */
  lemma {:induction false} LatestIsGreatest(us: seq<Update>)
    ensures forall i :: 0 <= i < |us| ==> us[i].sentAt <= Latest(us)
    ensures us != [] ==> exists u :: u in us && u.sentAt == Latest(us)
  {
    if us != [] {
      var n := |us| - 1;
      var rest := us[..n];
      LatestIsGreatest(rest);
      assert rest == [] ==> Latest(rest) == 0;
      assert us[n] in us;
      if Latest(us) != us[n].sentAt {
        assert rest != [];
        var u :| u in rest && u.sentAt == Latest(rest);
        assert u in us;
      }
    }
  }

  function DomainOf(u: Update): string { u.senderDomain }

  function DomainHashOf(u: Update): string { u.senderDomainHash }

  /** The first nonempty value of a field, or the empty string. */
  function FirstOf(us: seq<Update>, field: Update -> string): string {
    if us == [] then "" else if field(us[0]) != "" then field(us[0]) else FirstOf(us[1..], field)
  }

  /** A row maintained incrementally says what a recomputation over all sightings of
      the pair would say. */
  ghost predicate Summarises(row: Option<History>, us: seq<Update>) {
    && (row.None? <==> us == [])
    && (row.Some? ==>
          && row.value.count7 == row.value.count30 == |us|
          && row.value.firstSeen == us[0].sentAt
          && row.value.lastSeen == Latest(us)
          && row.value.senderDomain == FirstOf(us, DomainOf)
          && row.value.senderDomainHash == FirstOf(us, DomainHashOf)
          && row.value.typicalHour == TYPICAL_HOUR_UNSET && row.value.relationship == Unknown)
  }

  lemma {:induction false} FirstOfSnoc(us: seq<Update>, u: Update, field: Update -> string)
    ensures FirstOf(us + [u], field) == if FirstOf(us, field) == "" then field(u) else FirstOf(us, field)
  {
    if us == [] {
      assert (us + [u])[1..] == [];
    } else {
      FirstOfSnoc(us[1..], u, field);
      assert (us + [u])[1..] == us[1..] + [u];
    }
  }

  lemma RecordedSummarises(row: Option<History>, us: seq<Update>, u: Update)
    requires Summarises(row, us)
    ensures Summarises(Some(Recorded(row, u)), us + [u])
  {
    FirstOfSnoc(us, u, DomainOf);
    FirstOfSnoc(us, u, DomainHashOf);
    assert (us + [u])[..|us|] == us;
  }

  // ----- the streams ------------------------------------------------------------------------

  /** An accepted result: the broker id, the tenant and participant hashes it carries
      (empty hashes when the request has no usable triple), and the time of acceptance. */
  datatype ResultMsg = ResultMsg(id: string, tenantId: string, senderHash: string, recipientHash: string, at: nat)

  /** An accepted sighting, with its dedup id and how many results had been accepted by
      then. */
  datatype SightingMsg = SightingMsg(update: Update, id: string, at: nat, resultsBefore: nat)

  datatype World = World(
    clock: nat, results: seq<ResultMsg>, sightings: seq<SightingMsg>,
    rows: map<Key, History>, recorded: seq<Update>)

  /** What the evaluator, the encoder and the two publishes do with one delivery. */
  datatype Delivery = Delivery(
    evaluates: bool, resultId: string, marshals: bool, resultPublished: bool, sightingPublished: bool)

  datatype Event =
    | Tick(seconds: nat)
    | Deliver(req: Request, d: Delivery)
    | Consume(index: nat, repoFails: bool)

  predicate ResultDuplicate(s: Services, w: World, id: string) {
    exists i :: 0 <= i < |w.results| && w.results[i].id == id && w.clock <= w.results[i].at + s.window
  }

  predicate SightingDuplicate(s: Services, w: World, id: string) {
    exists i :: 0 <= i < |w.sightings| && w.sightings[i].id == id && w.clock <= w.sightings[i].at + s.window
  }

  /** The result of a request as it is published: stamped with the tenant and with the
      participant hashes of the sighting. */
  function ResultOf(s: Services, req: Request, id: string, at: nat): ResultMsg {
    match KeyOf(s, req)
    case None => ResultMsg(id, req.tenantId, "", "", at)
    case Some(k) => ResultMsg(id, req.tenantId, k.senderHash, k.recipientHash, at)
  }

  /** A duplicate is dropped by the broker without an error. */
  function PublishResult(s: Services, w: World, req: Request, id: string): World {
    if ResultDuplicate(s, w, id) then w else w.(results := w.results + [ResultOf(s, req, id, w.clock)])
  }

  function PublishSighting(s: Services, w: World, u: Update, id: string): World {
    if SightingDuplicate(s, w, id) then w
    else w.(sightings := w.sightings + [SightingMsg(u, id, w.clock, |w.results|)])
  }

  function BackfilledId(d: Delivery, req: Request): string {
    if d.resultId == "" then req.messageId else d.resultId
  }

  /** The handler drops a request without identifiers. */
  predicate Identified(req: Request) {
    req.messageId != "" && req.tenantId != ""
  }

  /** One delivery of an evaluate request: evaluate, publish the result, and only then
      publish the sighting, whose failure is swallowed. */
  function Handled(s: Services, w: World, req: Request, d: Delivery): World {
    if !Identified(req) || !d.evaluates || !d.marshals || !d.resultPublished then w
    else
      var published := PublishResult(s, w, req, BackfilledId(d, req));
      match SightingFor(s, req, w.clock)
      case None => published
      case Some(u) =>
        if Complete(u) && d.sightingPublished
        then PublishSighting(s, published, u, DedupId(s.sha, u)) else published
  }

  /** The delivery gets as far as a successful result publish. */
  predicate Publishes(payload: Option<Request>, d: Delivery) {
    && payload.Some? && payload.value.messageId != "" && payload.value.tenantId != ""
    && d.evaluates && d.marshals && d.resultPublished
  }

  /** One sighting consumed: validated, then recorded. */
  function Consumed(w: World, u: Update): World {
    if !Complete(u) then w
    else w.(rows := w.rows[KeyOfUpdate(u) := Recorded(RowOf(w.rows, KeyOfUpdate(u)), u)], recorded := w.recorded + [u])
  }

  function Step(s: Services, w: World, e: Event): World {
    match e
    case Tick(seconds) => w.(clock := w.clock + seconds)
    case Deliver(req, d) => Handled(s, w, req, d)
    case Consume(i, repoFails) => if i < |w.sightings| && !repoFails then Consumed(w, w.sightings[i].update) else w
  }

  function After(s: Services, events: seq<Event>): World {
    if events == [] then World(0, [], [], map[], [])
    else Step(s, After(s, events[..|events| - 1]), events[|events| - 1])
  }

  class Pipeline {
    var world: World

    constructor ()
      ensures world == World(0, [], [], map[], [])
    {
      world := World(0, [], [], map[], []);
    }

    /** True asks the broker for a redelivery; a payload that does not decode is `None`. */
    method HandleEvaluateRequest(s: Services, payload: Option<Request>, d: Delivery) returns (redeliver: bool)
      modifies this
      ensures world == if payload.None? then old(world) else Handled(s, old(world), payload.value, d)
      ensures redeliver <==>
              && payload.Some? && Identified(payload.value)
              && (!d.evaluates || (d.marshals && !d.resultPublished))
      // what reaches the two streams, and that nothing else changes
      ensures !Publishes(payload, d) ==> world == old(world)
      ensures Publishes(payload, d) ==>
                var req := payload.value;
                var id := if d.resultId == "" then req.messageId else d.resultId;
                var u := SightingFor(s, req, old(world).clock);
                var sights := u.Some? && Complete(u.value) && d.sightingPublished;
                && world.results == old(world).results
                     + (if ResultDuplicate(s, old(world), id) then [] else [ResultOf(s, req, id, old(world).clock)])
                && world.sightings == old(world).sightings
                     + (if sights && !SightingDuplicate(s, old(world), DedupId(s.sha, u.value))
                        then [SightingMsg(u.value, DedupId(s.sha, u.value), old(world).clock, |world.results|)] else [])
                && world == old(world).(results := world.results, sightings := world.sightings)
    {
      if payload.None? {
        return false;
      }
      var req := payload.value;
      if req.messageId == "" || req.tenantId == "" {
        return false;
      }
      if !d.evaluates {
        return true;
      }
      var id := d.resultId;
      if id == "" {
        id := req.messageId;
      }
      if !d.marshals {
        return false;
      }
      if !d.resultPublished {
        return true;
      }
      var now := world.clock;
      world := PublishResult(s, world, req, id);
      var sighting := SightingFor(s, req, now);
      if sighting.Some? && Complete(sighting.value) && d.sightingPublished {
        var dedup := ComputeDedupId(s.sha, sighting.value);
        world := PublishSighting(s, world, sighting.value, dedup);
      }
      redeliver := false;
    }

    method HandleCommHistoryUpdate(payload: Option<Update>, repoFails: bool) returns (redeliver: bool)
      modifies this
      ensures world == if payload.None? || repoFails then old(world) else Consumed(old(world), payload.value)
      ensures redeliver <==> payload.Some? && Complete(payload.value) && repoFails
      // a message with all its fields is recorded once in its own row, anything else nowhere
      ensures payload.Some? && !repoFails && Complete(payload.value) ==>
                var u := payload.value;
                var row := RowOf(old(world).rows, KeyOfUpdate(u));
                && world.recorded == old(world).recorded + [u]
                && KeyOfUpdate(u) in world.rows
                && world.rows[KeyOfUpdate(u)].count30 == (if row.Some? then row.value.count30 else 0) + 1
                && world.rows - {KeyOfUpdate(u)} == old(world).rows - {KeyOfUpdate(u)}
                && world.results == old(world).results && world.sightings == old(world).sightings
      ensures payload.None? || repoFails || !Complete(payload.value) ==> world == old(world)
    {
      if payload.None? || !Complete(payload.value) {
        return false;
      }
      if repoFails {
        return true;
      }
      var u := payload.value;
      var key := KeyOfUpdate(u);
      world := world.(rows := world.rows[key := Recorded(RowOf(world.rows, key), u)], recorded := world.recorded + [u]);
      redeliver := false;
    }
  }

  // ----- every run ---------------------------------------------------------------------------

  /** Two accepted sightings with one dedup id are more than a window apart. */
  ghost predicate Deduplicated(s: Services, w: World) {
    && (forall i :: 0 <= i < |w.sightings| ==> w.sightings[i].at <= w.clock)
    && (forall i, j :: 0 <= i < j < |w.sightings| && w.sightings[i].id == w.sightings[j].id
          ==> w.sightings[i].at + s.window < w.sightings[j].at)
  }

  ghost predicate StreamsOk(s: Services, w: World) {
    && (forall i :: 0 <= i < |w.sightings| ==> w.sightings[i].id == DedupId(s.sha, w.sightings[i].update))
    && Deduplicated(s, w)
  }

  lemma StepKeepsStreams(s: Services, w: World, e: Event)
    requires StreamsOk(s, w)
    ensures StreamsOk(s, Step(s, w, e))
  {
    hide SightingFor, DedupId, Complete, Recorded, ResultOf, BackfilledId;
  }

  lemma {:induction false} StreamsStayOk(s: Services, events: seq<Event>)
    ensures StreamsOk(s, After(s, events))
  {
    if events != [] {
      StreamsStayOk(s, events[..|events| - 1]);
      StepKeepsStreams(s, After(s, events[..|events| - 1]), events[|events| - 1]);
    }
  }

  // ----- a sighting only after its result ---------------------------------------------------

  /** How much of a sighting its result has to match: the message, also the tenant, or
      also sender and recipient. */
  datatype Identity = ByMessage | ByTenant | ByPair

  predicate IsResultOf(s: Services, how: Identity, r: ResultMsg, u: Update) {
    && r.id == u.messageId
    && (how.ByMessage? || s.trim(r.tenantId) == u.tenantId)
    && (how.ByPair? ==> r.senderHash == u.senderHash && r.recipientHash == u.recipientHash)
  }

  /** A result of the sighting was accepted before the sighting was. */
  ghost predicate ResultCameFirst(s: Services, how: Identity, w: World, m: SightingMsg) {
    && m.resultsBefore <= |w.results|
    && exists j :: 0 <= j < m.resultsBefore && IsResultOf(s, how, w.results[j], m.update)
  }

  ghost predicate ResultsComeFirst(s: Services, how: Identity, w: World) {
    forall i :: 0 <= i < |w.sightings| ==> ResultCameFirst(s, how, w, w.sightings[i])
  }

  /** The request leads to a sighting once its result is published. */
  predicate Sights(s: Services, req: Request) {
    Identified(req) && KeyOf(s, req).Some?
  }

  predicate Alike(s: Services, how: Identity, a: Request, b: Request) {
    && (how.ByMessage? || s.trim(a.tenantId) == s.trim(b.tenantId))
    && (how.ByPair? ==> KeyOf(s, a) == KeyOf(s, b))
  }

  /** No message id is shared between a request with a sighting and an unlike request. */
  ghost predicate ClashFree(s: Services, how: Identity, reqs: set<Request>) {
    forall a, b :: a in reqs && b in reqs && Identified(a) && Sights(s, b) && a.messageId == b.messageId
      ==> Alike(s, how, a, b)
  }

  /** The event delivers none but these requests, and the evaluator keeps the message id. */
  ghost predicate Admits(reqs: set<Request>, e: Event) {
    e.Deliver? ==> e.req in reqs && BackfilledId(e.d, e.req) == e.req.messageId
  }

  ghost predicate Over(reqs: set<Request>, events: seq<Event>) {
    forall i :: 0 <= i < |events| ==> Admits(reqs, events[i])
  }

  /** The result is that of some delivered request. */
  ghost predicate Stems(s: Services, reqs: set<Request>, r: ResultMsg) {
    exists a :: a in reqs && Identified(a) && r == ResultOf(s, a, a.messageId, r.at)
  }

  ghost predicate AllStem(s: Services, reqs: set<Request>, w: World) {
    forall j :: 0 <= j < |w.results| ==> Stems(s, reqs, w.results[j])
  }

  /** A result of `a` is one of the sighting of `b` exactly when the two requests share
      the message id and are alike. */
  lemma ResultFitsIff(s: Services, how: Identity, a: Request, b: Request, at: nat, now: nat)
    requires SightingFor(s, b, now).Some?
    ensures IsResultOf(s, how, ResultOf(s, a, a.messageId, at), SightingFor(s, b, now).value)
            <==> a.messageId == b.messageId && Alike(s, how, a, b)
  {
  }

  /** After publishing, accepted or dropped, a result under this id is on the stream. */
  lemma PublishedIsThere(s: Services, reqs: set<Request>, w: World, req: Request)
    requires AllStem(s, reqs, w) && req in reqs && Identified(req)
    ensures var x := PublishResult(s, w, req, req.messageId);
            && w.results <= x.results && x == w.(results := x.results) && AllStem(s, reqs, x)
            && exists j :: 0 <= j < |x.results| && x.results[j].id == req.messageId
  {
    var x := PublishResult(s, w, req, req.messageId);
    if !ResultDuplicate(s, w, req.messageId) {
      var r := x.results[|w.results|];
      assert r == ResultOf(s, req, req.messageId, r.at) && r.id == req.messageId;
      assert Stems(s, reqs, r);
    }
  }

  /** Without a clash the result found under the sighting's message id is its own. */
  lemma FoundResultFits(s: Services, how: Identity, reqs: set<Request>, w: World, req: Request, now: nat)
    requires ClashFree(s, how, reqs) && AllStem(s, reqs, w) && req in reqs && Identified(req)
    requires SightingFor(s, req, now).Some?
    requires exists j :: 0 <= j < |w.results| && w.results[j].id == req.messageId
    ensures exists j :: 0 <= j < |w.results| && IsResultOf(s, how, w.results[j], SightingFor(s, req, now).value)
  {
    var j :| 0 <= j < |w.results| && w.results[j].id == req.messageId;
    assert Stems(s, reqs, w.results[j]);
    var a :| a in reqs && Identified(a) && w.results[j] == ResultOf(s, a, a.messageId, w.results[j].at);
    ResultFitsIff(s, how, a, req, w.results[j].at, now);
  }

  lemma MoreResultsKeepOrder(s: Services, how: Identity, w: World, x: World)
    requires ResultsComeFirst(s, how, w) && w.results <= x.results && x.sightings == w.sightings
    ensures ResultsComeFirst(s, how, x)
  {
    forall i | 0 <= i < |x.sightings| ensures ResultCameFirst(s, how, x, x.sightings[i]) {
      var m := w.sightings[i];
      assert ResultCameFirst(s, how, w, m);
      var j :| 0 <= j < m.resultsBefore && IsResultOf(s, how, w.results[j], m.update);
      assert x.results[j] == w.results[j];
    }
  }

  lemma SightingKeepsOrder(s: Services, how: Identity, w: World, u: Update, id: string)
    requires ResultsComeFirst(s, how, w)
    requires exists j :: 0 <= j < |w.results| && IsResultOf(s, how, w.results[j], u)
    ensures ResultsComeFirst(s, how, PublishSighting(s, w, u, id))
  {
    hide IsResultOf;
    var x := PublishSighting(s, w, u, id);
    forall i | 0 <= i < |x.sightings| ensures ResultCameFirst(s, how, x, x.sightings[i]) {
      if i < |w.sightings| { assert ResultCameFirst(s, how, w, w.sightings[i]); }
    }
  }

  lemma StepKeepsOrder(s: Services, how: Identity, reqs: set<Request>, w: World, e: Event)
    requires ClashFree(s, how, reqs) && Admits(reqs, e) && AllStem(s, reqs, w) && ResultsComeFirst(s, how, w)
    ensures AllStem(s, reqs, Step(s, w, e)) && ResultsComeFirst(s, how, Step(s, w, e))
  {
    hide ClashFree, ResultsComeFirst, PublishResult, PublishSighting, SightingFor, Complete, Recorded, IsResultOf;
    var x := Step(s, w, e);
    if e.Deliver? && Identified(e.req) {
      var published := PublishResult(s, w, e.req, e.req.messageId);
      PublishedIsThere(s, reqs, w, e.req);
      MoreResultsKeepOrder(s, how, w, published);
      var sighting := SightingFor(s, e.req, w.clock);
      if sighting.Some? {
        FoundResultFits(s, how, reqs, published, e.req, w.clock);
        SightingKeepsOrder(s, how, published, sighting.value, DedupId(s.sha, sighting.value));
        SightingLeavesResults(s, published, sighting.value, DedupId(s.sha, sighting.value));
      }
    } else {
      MoreResultsKeepOrder(s, how, w, x);
    }
  }

  lemma SightingLeavesResults(s: Services, w: World, u: Update, id: string)
    ensures PublishSighting(s, w, u, id).results == w.results
  {
  }

  /** Over every run of clash-free requests, with any publish failures and redeliveries: a
      sighting is on its stream only if its own result was accepted before it. */
  lemma {:induction false} SightingImpliesResult(s: Services, how: Identity, reqs: set<Request>, events: seq<Event>)
    requires ClashFree(s, how, reqs) && Over(reqs, events)
    ensures AllStem(s, reqs, After(s, events)) && ResultsComeFirst(s, how, After(s, events))
  {
    if events != [] {
      var n := |events| - 1;
      SightingImpliesResult(s, how, reqs, events[..n]);
      StepKeepsOrder(s, how, reqs, After(s, events[..n]), events[n]);
    }
  }

  /** The first request publishes its result only, the second its result and sighting. */
  function ClashRun(a: Request, b: Request): seq<Event> {
    [Tick(1), Deliver(a, Delivery(true, "", true, true, false)), Deliver(b, Delivery(true, "", true, true, true))]
  }

  /** An unlike request under the same message id makes the broker drop the second result,
      and the sighting that follows has none of its own. */
  lemma SharedIdLosesResult(s: Services, how: Identity, a: Request, b: Request)
    requires Identified(a) && Sights(s, b) && a.messageId == b.messageId && !Alike(s, how, a, b)
    ensures Over({a, b}, ClashRun(a, b))
    ensures !ResultsComeFirst(s, how, After(s, ClashRun(a, b)))
  {
    hide KeyOf, Alike, IsResultOf;
    var events := ClashRun(a, b);
    var w1 := World(1, [], [], map[], []);
    assert After(s, events[..1]) == w1 by { assert events[..1][..0] == []; }
    var w2 := w1.(results := [ResultOf(s, a, a.messageId, 1)]);
    assert After(s, events[..2]) == w2 by { assert events[..2][..1] == events[..1]; }
    assert w2.results[0].id == b.messageId;
    assert ResultDuplicate(s, w2, b.messageId);
    SightingIsComplete(s, b, 1);
    var u := SightingFor(s, b, 1).value;
    var w3 := w2.(sightings := [SightingMsg(u, DedupId(s.sha, u), 1, 1)]);
    assert After(s, events) == w3 by { assert events[..2] == events[..|events| - 1]; }
    ResultFitsIff(s, how, a, b, 1, 1);
    assert !ResultCameFirst(s, how, w3, w3.sightings[0]);
  }

  lemma SightingIsComplete(s: Services, req: Request, now: nat)
    requires Sights(s, req) && now > 0
    ensures SightingFor(s, req, now).Some? && Complete(SightingFor(s, req, now).value)
  {
  }

  /** Exactly when the ordering contract holds: every run over a set of requests keeps it
      if and only if no message id is shared with an unlike request. */
  lemma ResultsComeFirstIffClashFree(s: Services, how: Identity, reqs: set<Request>)
    ensures (forall events :: Over(reqs, events) ==> ResultsComeFirst(s, how, After(s, events)))
            <==> ClashFree(s, how, reqs)
  {
    if ClashFree(s, how, reqs) {
      forall events | Over(reqs, events) ensures ResultsComeFirst(s, how, After(s, events)) {
        SightingImpliesResult(s, how, reqs, events);
      }
    } else {
      var a, b :| a in reqs && b in reqs && Identified(a) && Sights(s, b) && a.messageId == b.messageId
                  && !Alike(s, how, a, b);
      SharedIdLosesResult(s, how, a, b);
      assert Over(reqs, ClashRun(a, b));
    }
  }

  /** By message alone nothing can clash. */
  lemma MessagesNeverClash(s: Services, reqs: set<Request>)
    ensures ClashFree(s, ByMessage, reqs)
  {
  }

  /** A delivery on which nothing fails. */
  const SMOOTH := Delivery(true, "", true, true, true)

  /** With nothing failing at all: both sightings are accepted, but one result. */
  lemma SmoothRunLosesResult(s: Services, a: Request, b: Request)
    requires Sights(s, a) && Sights(s, b) && a.messageId == b.messageId && a.receivedAt != 0 && b.receivedAt != 0
    requires var ua, ub := SightingFor(s, a, 0).value, SightingFor(s, b, 0).value;
             DedupId(s.sha, ua) != DedupId(s.sha, ub)
    ensures var w := After(s, [Deliver(a, SMOOTH), Deliver(b, SMOOTH)]);
            && w.results == [ResultOf(s, a, a.messageId, 0)]
            && |w.sightings| == 2 && w.sightings[1].update == SightingFor(s, b, 0).value
            && w.sightings[1].resultsBefore == 1
  {
    hide DedupId, ResultOf;
    var events := [Deliver(a, SMOOTH), Deliver(b, SMOOTH)];
    var ua, ub := SightingFor(s, a, 0).value, SightingFor(s, b, 0).value;
    var r := ResultOf(s, a, a.messageId, 0);
    assert r.id == b.messageId && r.at == 0 by { ResultIsLabelled(s, a, 0); }
    var w1 := World(0, [r], [SightingMsg(ua, DedupId(s.sha, ua), 0, 1)], map[], []);
    assert After(s, events[..1]) == w1 by { assert events[..1][..0] == []; }
    assert w1.results[0].id == b.messageId;
    assert ResultDuplicate(s, w1, b.messageId);
    var w2 := w1.(sightings := w1.sightings + [SightingMsg(ub, DedupId(s.sha, ub), 0, 1)]);
    assert After(s, events) == w2 by { assert events[..1] == events[..|events| - 1]; }
  }

  lemma ResultIsLabelled(s: Services, req: Request, at: nat)
    ensures ResultOf(s, req, req.messageId, at).id == req.messageId && ResultOf(s, req, req.messageId, at).at == at
    ensures ResultOf(s, req, req.messageId, at).tenantId == req.tenantId
  {
  }

  /** Tenants A and B each send message m: B's sighting is accepted, its result is not. */
  lemma TwoTenantsShareAnId()
    ensures var same := (x: string) => x;
            var s := Services(same, same, (t: string, x: string) => x, same, 120);
            var signals := Signals(0, None, 0, false, Unknown, "");
            var w := After(s, [Deliver(Request("A", "m", "x", "y", 1, signals), SMOOTH),
                               Deliver(Request("B", "m", "x", "y", 1, signals), SMOOTH)]);
            && |w.results| == 1 && w.results[0].tenantId == "A"
            && |w.sightings| == 2 && w.sightings[1].update.tenantId == "B"
            && !ResultsComeFirst(s, ByTenant, w)
  {
    hide After;
    var same := (x: string) => x;
    var s := Services(same, same, (t: string, x: string) => x, same, 120);
    var signals := Signals(0, None, 0, false, Unknown, "");
    var a, b := Request("A", "m", "x", "y", 1, signals), Request("B", "m", "x", "y", 1, signals);
    var ua, ub := Update("A", "m", "x", "y", "", "", 1), Update("B", "m", "x", "y", "", "", 1);
    assert SightingFor(s, a, 0) == Some(ua) && SightingFor(s, b, 0) == Some(ub);
    assert ua.tenantId[0] != ub.tenantId[0];
    DedupIdIdentifiesSighting(same, ua, ub);
    SmoothRunLosesResult(s, a, b);
    ResultIsLabelled(s, a, 0);
    var w := After(s, [Deliver(a, SMOOTH), Deliver(b, SMOOTH)]);
    assert !ResultCameFirst(s, ByTenant, w, w.sightings[1]);
  }

  // ----- one sighting per window ------------------------------------------------------------

  /** Over every run, one message is seen at most once per dedup window, however often
      its request is delivered. */
  lemma OneSightingPerWindow(s: Services, events: seq<Event>, i: nat, j: nat)
    requires i < j < |After(s, events).sightings|
    requires var a, b := After(s, events).sightings[i].update, After(s, events).sightings[j].update;
             KeyOfUpdate(a) == KeyOfUpdate(b) && a.messageId == b.messageId
    ensures After(s, events).sightings[i].at + s.window < After(s, events).sightings[j].at
  {
    StreamsStayOk(s, events);
    var w := After(s, events);
    HashInputIsExact(w.sightings[i].update, w.sightings[j].update);
  }

  ghost predicate RowsOk(w: World) {
    forall k {:trigger RowOf(w.rows, k)} :: Summarises(RowOf(w.rows, k), Of(w.recorded, k))
  }

  lemma ConsumedKeepsRows(w: World, u: Update)
    requires RowsOk(w)
    ensures RowsOk(Consumed(w, u))
  {
    hide Summarises, Recorded, Complete;
    var x := Consumed(w, u);
    if Complete(u) {
      forall k ensures Summarises(RowOf(x.rows, k), Of(x.recorded, k)) {
        assert Summarises(RowOf(w.rows, k), Of(w.recorded, k));
        assert x.recorded[..|w.recorded|] == w.recorded;
        if k == KeyOfUpdate(u) {
          assert Of(x.recorded, k) == Of(w.recorded, k) + [u];
          assert RowOf(x.rows, k) == Some(Recorded(RowOf(w.rows, k), u));
          RecordedSummarises(RowOf(w.rows, k), Of(w.recorded, k), u);
        } else {
          assert RowOf(x.rows, k) == RowOf(w.rows, k) && Of(x.recorded, k) == Of(w.recorded, k);
        }
      }
    }
  }

  lemma StepKeepsRows(s: Services, w: World, e: Event)
    requires RowsOk(w)
    ensures RowsOk(Step(s, w, e))
  {
    var x := Step(s, w, e);
    if e.Consume? {
      if e.index < |w.sightings| { ConsumedKeepsRows(w, w.sightings[e.index].update); }
    } else {
      assert x.rows == w.rows && x.recorded == w.recorded;
      forall k ensures Summarises(RowOf(x.rows, k), Of(x.recorded, k)) {
        assert Summarises(RowOf(w.rows, k), Of(w.recorded, k));
      }
    }
  }

  /** Over every run, each history row is exactly the recomputation over the sightings
      recorded for its pair. */
  lemma {:induction false} RowsAreRecomputable(s: Services, events: seq<Event>)
    ensures RowsOk(After(s, events))
  {
    if events == [] {
      forall k ensures Summarises(RowOf(map[], k), Of([], k)) {
      }
    } else {
      RowsAreRecomputable(s, events[..|events| - 1]);
      StepKeepsRows(s, After(s, events[..|events| - 1]), events[|events| - 1]);
    }
  }

  /** A repository that answers from the rows of a world. */
  ghost function FetchFrom(w: World): Key -> Fetch {
    (k: Key) => if k in w.rows then Found(w.rows[k]) else NotFound
  }

  /** Absent repository errors, a usable request is reported as first contact exactly
      when no sighting of its pair was ever recorded, and otherwise its frequency is
      the number recorded. */
  lemma {:induction false} FirstContactIsExact(s: Services, events: seq<Event>, req: Request, base: Signals, now: nat)
    requires KeyOf(s, req).Some?
    ensures var w := After(s, events);
            var seen := Of(w.recorded, KeyOf(s, req).value);
            var out := Enriched(s, req, base, FetchFrom(w), now);
            && (out.isFirstContact <==> seen == [])
            && (seen != [] ==> out.frequency == |seen|)
  {
    RowsAreRecomputable(s, events);
    var w, k := After(s, events), KeyOf(s, req).value;
    assert Summarises(RowOf(w.rows, k), Of(w.recorded, k));
  }

  lemma {:induction false} OfContains(log: seq<Update>, i: nat)
    requires i < |log|
    ensures Of(log, KeyOfUpdate(log[i])) != []
  {
    var n := |log| - 1;
    if i < n { OfContains(log[..n], i); }
  }

  /** Once a sighting of a request is recorded, no later request with the same
      normalised triple is a first contact. */
  lemma {:induction false} KnownPairIsNoFirstContact(
      s: Services, events: seq<Event>, i: nat, req: Request, other: Request, at: nat, base: Signals, now: nat)
    requires i < |After(s, events).recorded|
    requires SightingFor(s, req, at) == Some(After(s, events).recorded[i])
    requires s.trim(req.tenantId) == s.trim(other.tenantId)
    requires s.trim(s.lower(req.sender)) == s.trim(s.lower(other.sender))
    requires s.trim(s.lower(req.recipient)) == s.trim(s.lower(other.recipient))
    ensures !Enriched(s, other, base, FetchFrom(After(s, events)), now).isFirstContact
  {
    WriteAndReadKeysAgree(s, req, other, at);
    OfContains(After(s, events).recorded, i);
    FirstContactIsExact(s, events, other, base, now);
  }
}
