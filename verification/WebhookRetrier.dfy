/** The webhook dead-letter retrier: one envelope, redelivered by the broker at most
    five times, with an adversarial repository, endpoint, crash pattern and broker. */
module WebhookRetrier {
  import opened Basics
  import Decimal

  const MAX_DELIVER: nat := 5
  const ACK_WAIT: nat := 30
  const BACKOFFS: seq<nat> := [1, 5, 30, 300, 3600]

  datatype Envelope = Envelope(sinkId: string, eventId: string, attempt: nat, lastCause: string)

  /** The payload of the message: a malformed one never parses. */
  datatype Payload = Malformed | Parsed(env: Envelope)

  /** What the wrappers around the handler do with a delivery. */
  datatype Gate = Passed | SchemaRouted | GateFailed(deadLettered: bool)

  datatype Lookup = SinkMissing | LookupFailed | SinkFound(enabled: bool)
  datatype Outcome = Success | PermanentFailure(cause: string) | Retriable

  datatype Effect =
    | Post(attempt: nat)
    | Audit(key: string, reason: string)
    | Ack
    | Nak(delay: nat)
    | Term

  /** The wait requested after a retriable failure, clamped to the schedule. */
  function BackoffFor(deliveryAttempt: int): nat {
    var idx := (if deliveryAttempt < 1 then 1 else deliveryAttempt) - 1;
    BACKOFFS[if idx >= |BACKOFFS| then |BACKOFFS| - 1 else idx]
  }

  function AuditKey(env: Envelope): string {
    env.sinkId + "|" + env.eventId + "|attempt=" + Decimal.Render(env.attempt)
  }

  /** Caps the cause text of an audit row. */
  function BoundText(s: string): string {
    if |s| > 1024 then s[..1024] + "..." else s
  }

  function AuditOf(env: Envelope, reason: string): Effect {
    Audit(AuditKey(env), BoundText("dlq " + reason))
  }

  /** `numDelivered` is 0 when the delivery metadata could not be read. */
  function DeliveryAttempt(numDelivered: nat): nat {
    if numDelivered > 0 then numDelivered else 1
  }

  /** Everything the handler does with one delivery, in order. */
  function HandlerEffects(p: Payload, numDelivered: nat, lookup: Lookup, outcome: Outcome): seq<Effect> {
    if p.Malformed? then [Ack]
    else
      var n := DeliveryAttempt(numDelivered);
      match lookup
      case SinkMissing => [AuditOf(p.env, "sink missing or deleted"), Ack]
      case LookupFailed => [Nak(BACKOFFS[0])]
      case SinkFound(enabled) =>
        if !enabled then [AuditOf(p.env, "sink disabled"), Ack]
        else if n >= MAX_DELIVER then [AuditOf(p.env, "final fail after max attempts: " + p.env.lastCause), Ack]
        else [Post(n + 1)] + AfterPost(p.env, n, outcome)
  }

  function AfterPost(env: Envelope, n: nat, outcome: Outcome): seq<Effect> {
    match outcome
    case Success => [Ack]
    case PermanentFailure(cause) => [AuditOf(env, "permanent: " + cause), Ack]
    case Retriable => [Nak(BackoffFor(n))]
  }

  /** A delivery as the bus dispatches it: wrappers first, then the handler; a
      wrapper error is negatively acknowledged, or dead-lettered when it is the
      last allowed delivery. */
  function DispatchEffects(p: Payload, numDelivered: nat, gate: Gate, lookup: Lookup, outcome: Outcome): seq<Effect> {
    match gate
    case Passed => HandlerEffects(p, numDelivered, lookup, outcome)
    case SchemaRouted => [Ack]
    case GateFailed(deadLettered) =>
      if numDelivered >= MAX_DELIVER then [if deadLettered then Term else Nak(ACK_WAIT)]
      else [Nak(ACK_WAIT * numDelivered)]
  }

  class Retrier {
    var effects: seq<Effect>

    method AppendDLQAudit(env: Envelope, reason: string)
      modifies this
      ensures effects == old(effects) + [AuditOf(env, reason)]
    {
      effects := effects + [Audit(env.sinkId + "|" + env.eventId + "|attempt=" + Decimal.Render(env.attempt),
                                  BoundText("dlq " + reason))];
    }

    method HandleWebhookDLQ(p: Payload, numDelivered: nat, lookup: Lookup, outcome: Outcome)
      modifies this
      ensures effects == old(effects) + HandlerEffects(p, numDelivered, lookup, outcome)
    {
      if p.Malformed? {
        effects := effects + [Ack];
        return;
      }
      var env := p.env;
      var deliveryAttempt := 1;
      if numDelivered > 0 {
        deliveryAttempt := numDelivered;
      }
      if lookup.SinkMissing? {
        AppendDLQAudit(env, "sink missing or deleted");
        effects := effects + [Ack];
        return;
      }
      if lookup.LookupFailed? {
        effects := effects + [Nak(BACKOFFS[0])];
        return;
      }
      if !lookup.enabled {
        AppendDLQAudit(env, "sink disabled");
        effects := effects + [Ack];
        return;
      }
      if deliveryAttempt >= MAX_DELIVER {
        AppendDLQAudit(env, "final fail after max attempts: " + env.lastCause);
        effects := effects + [Ack];
        return;
      }
      effects := effects + [Post(deliveryAttempt + 1)];
      match outcome
      case Success =>
        effects := effects + [Ack];
      case PermanentFailure(cause) =>
        AppendDLQAudit(env, "permanent: " + cause);
        effects := effects + [Ack];
      case Retriable =>
        effects := effects + [Nak(BackoffFor(deliveryAttempt))];
    }
  }

  // ----- runs --------------------------------------------------------------------

  /** One delivery chosen by the adversary: whether its metadata is readable, what
      the wrappers, the repository and the endpoint answer, how many effects happen
      before a crash, and whether the final acknowledgement reaches the broker. */
  datatype Delivery = Delivery(
    readable: bool, gate: Gate, lookup: Lookup, outcome: Outcome, survives: nat, honoured: bool)

  /** What delivery number `k` does before it ends or crashes. */
  function Performed(p: Payload, k: nat, d: Delivery): seq<Effect> {
    var all := DispatchEffects(p, if d.readable then k else 0, d.gate, d.lookup, d.outcome);
    if d.survives < |all| then all[..d.survives] else all
  }

  /** The broker takes the message away only on an acknowledgement it received. */
  predicate Settles(p: Payload, k: nat, d: Delivery) {
    var e := Performed(p, k, d);
    d.honoured && e != [] && (e[|e| - 1].Ack? || e[|e| - 1].Term?)
  }

  /** Deliveries 1, 2, ... up to MAX_DELIVER, each but the last left unsettled. */
  predicate Run(p: Payload, run: seq<Delivery>) {
    && |run| <= MAX_DELIVER
    && forall i :: 0 <= i < |run| - 1 ==> !Settles(p, i + 1, run[i])
  }

  function PostsIn(effects: seq<Effect>): seq<nat> {
    if effects == [] then []
    else (if effects[0].Post? then [effects[0].attempt] else []) + PostsIn(effects[1..])
  }

  /** The attempt numbers of all customer POSTs of a run, in order. */
  function Posts(p: Payload, run: seq<Delivery>): seq<nat> {
    if run == [] then []
    else Posts(p, run[..|run| - 1]) + PostsIn(Performed(p, |run|, run[|run| - 1]))
  }

  predicate StrictlyIncreasing(s: seq<nat>) {
    forall i, j :: 0 <= i < j < |s| ==> s[i] < s[j]
  }

  /** A delivery posts at most once; it posts at all only below the limit. */
  lemma PostsOfDelivery(p: Payload, k: nat, d: Delivery)
    requires 1 <= k <= MAX_DELIVER
    ensures var posts := PostsIn(Performed(p, k, d));
            var n := if d.readable then k else 1;
            posts == [] || (posts == [n + 1] && n < MAX_DELIVER)
  {
    var all := DispatchEffects(p, if d.readable then k else 0, d.gate, d.lookup, d.outcome);
    assert |all| <= 3;
    assert forall i :: 1 <= i < |all| ==> !all[i].Post?;
    var e := Performed(p, k, d);
    if e != [] {
      OnlyFirstPosts(e[1..]);
    }
  }

  lemma {:induction false} OnlyFirstPosts(e: seq<Effect>)
    requires forall i :: 0 <= i < |e| ==> !e[i].Post?
    ensures PostsIn(e) == []
  {
    if e != [] { OnlyFirstPosts(e[1..]); }
  }

  // ----- what one delivery does, by what it meets ----------------------------------

  ghost predicate MakesPost(e: seq<Effect>) {
    exists i :: 0 <= i < |e| && e[i].Post?
  }

  ghost predicate MakesAudit(e: seq<Effect>) {
    exists i :: 0 <= i < |e| && e[i].Audit?
  }

  ghost predicate MakesNak(e: seq<Effect>) {
    exists i :: 0 <= i < |e| && e[i].Nak?
  }

  /** The delivery gets past the wrappers with an envelope that parses. */
  predicate Reaches(p: Payload, d: Delivery) {
    d.gate.Passed? && p.Parsed?
  }

  predicate IsCapOf(text: string, full: string) {
    if |full| <= 1024 then text == full
    else |text| == 1027 && text[..1024] == full[..1024] && text[1024..] == "..."
  }

  /** The delivery ends with an audit of the envelope giving this reason, and an ack. */
  predicate EndsAudited(env: Envelope, e: seq<Effect>, reason: string) {
    && |e| >= 2 && e[|e| - 1] == Ack && e[|e| - 2].Audit?
    && e[|e| - 2].key == AuditKey(env) && IsCapOf(e[|e| - 2].reason, "dlq " + reason)
  }

  predicate EndsNaked(e: seq<Effect>, delay: nat) {
    e != [] && e[|e| - 1] == Nak(delay)
  }

  /** The customer is called exactly when an enabled sink was found below the limit; never
      for a missing or disabled sink. A crash before the first effect prevents the call. */
  lemma PostsExactlyWhen(p: Payload, k: nat, d: Delivery)
    requires k >= 1
    ensures var e := Performed(p, k, d);
            && (MakesPost(e) <==>
                  Reaches(p, d) && d.lookup == SinkFound(true) && (d.readable ==> k < 5) && d.survives > 0)
            && (MakesPost(e) ==> e[0] == Post((if d.readable then k else 1) + 1))
  {
    var all := DispatchEffects(p, if d.readable then k else 0, d.gate, d.lookup, d.outcome);
    var e := Performed(p, k, d);
    assert all != [] && |all| <= 3 && forall i :: 1 <= i < |all| ==> !all[i].Post?;
    assert e != [] ==> e[0] == all[0];
  }

  /** An undisturbed delivery audits exactly for a missing sink, a disabled sink, the last
      delivery or a permanent failure, and is then done. */
  lemma AuditsExactlyWhen(p: Payload, k: nat, d: Delivery)
    requires 1 <= k <= 5 && Undisturbed(d)
    ensures var e := Performed(p, k, d);
            && (MakesAudit(e) <==>
                  && Reaches(p, d)
                  && (|| d.lookup == SinkMissing || d.lookup == SinkFound(false)
                      || (d.lookup == SinkFound(true) && (k == 5 || d.outcome.PermanentFailure?))))
            && (MakesAudit(e) ==> Settles(p, k, d))
  {
    hide AuditKey, BoundText;
    UndisturbedPerformsAll(p, k, d);
    var e := Performed(p, k, d);
    assert e != [] && |e| <= 3;
    assert forall i :: 0 <= i < |e| && i != |e| - 2 ==> !e[i].Audit?;
    assert MakesAudit(e) <==> |e| >= 2 && e[|e| - 2].Audit?;
  }

  /** The reasons those audits give. */
  lemma AuditReasons(p: Payload, k: nat, d: Delivery)
    requires 1 <= k <= 5 && Undisturbed(d) && Reaches(p, d)
    ensures var e := Performed(p, k, d);
            && (d.lookup == SinkMissing ==> EndsAudited(p.env, e, "sink missing or deleted"))
            && (d.lookup == SinkFound(false) ==> EndsAudited(p.env, e, "sink disabled"))
            && (d.lookup == SinkFound(true) && k == 5 ==>
                  EndsAudited(p.env, e, "final fail after max attempts: " + p.env.lastCause))
            && (d.lookup == SinkFound(true) && k < 5 && d.outcome.PermanentFailure? ==>
                  EndsAudited(p.env, e, "permanent: " + d.outcome.cause))
  {
    hide AuditOf, EndsAudited;
    UndisturbedPerformsAll(p, k, d);
    assert forall a :: [Post(k + 1)] + [a, Ack] == [Post(k + 1), a, Ack];
    if d.lookup == SinkMissing {
      AuditSays(p.env, k + 1, "sink missing or deleted");
    } else if d.lookup == SinkFound(false) {
      AuditSays(p.env, k + 1, "sink disabled");
    } else if d.lookup == SinkFound(true) && k == 5 {
      AuditSays(p.env, k + 1, "final fail after max attempts: " + p.env.lastCause);
    } else if d.lookup == SinkFound(true) && d.outcome.PermanentFailure? {
      AuditSays(p.env, k + 1, "permanent: " + d.outcome.cause);
    }
  }

  lemma AuditSays(env: Envelope, attempt: nat, reason: string)
    ensures EndsAudited(env, [AuditOf(env, reason), Ack], reason)
    ensures EndsAudited(env, [Post(attempt), AuditOf(env, reason), Ack], reason)
  {
    hide AuditKey;
  }

  lemma UndisturbedPerformsAll(p: Payload, k: nat, d: Delivery)
    requires Undisturbed(d)
    ensures Performed(p, k, d) == DispatchEffects(p, k, d.gate, d.lookup, d.outcome)
  {
  }

  /** An undisturbed delivery asks for another exactly on a failed lookup, a retriable
      outcome or a failing wrapper, with exactly these delays. */
  lemma NaksExactlyWhen(p: Payload, k: nat, d: Delivery)
    requires 1 <= k <= 5 && Undisturbed(d)
    ensures var e := Performed(p, k, d);
            && (MakesNak(e) <==>
                  || (Reaches(p, d) && d.lookup == LookupFailed)
                  || (Reaches(p, d) && d.lookup == SinkFound(true) && k < 5 && d.outcome == Retriable)
                  || d.gate == GateFailed(false) || (d.gate == GateFailed(true) && k < 5))
            && (Reaches(p, d) && d.lookup == LookupFailed ==> e == [Nak(1)])
            && (Reaches(p, d) && d.lookup == SinkFound(true) && k < 5 && d.outcome == Retriable ==>
                  EndsNaked(e, if k == 1 then 1 else if k == 2 then 5 else if k == 3 then 30 else 300))
            && (d.gate.GateFailed? && k < 5 ==> e == [Nak(30 * k)])
            && (d.gate == GateFailed(false) && k == 5 ==> e == [Nak(30)])
            && (d.gate == GateFailed(true) && k == 5 ==> e == [Term])
            && (Settles(p, k, d) <==> !MakesNak(e))
  {
    hide AuditKey, BoundText;
    UndisturbedPerformsAll(p, k, d);
    var e := Performed(p, k, d);
    assert e != [] && |e| <= 3;
    assert forall i :: 0 <= i < |e| - 1 ==> !e[i].Nak?;
    assert MakesNak(e) <==> e[|e| - 1].Nak?;
  }

  /** The metadata of every delivery after the first can be read. */
  predicate Readable(run: seq<Delivery>) {
    forall i :: 1 <= i < |run| ==> run[i].readable
  }

  /** The retry budget: at most four retrier POSTs, numbered strictly upwards within
      2..5, and none on the fifth delivery. */
  predicate WithinBudget(p: Payload, run: seq<Delivery>) {
    var posts := Posts(p, run);
    && |posts| <= 4
    && (forall i :: 0 <= i < |posts| ==> 2 <= posts[i] <= 5)
    && StrictlyIncreasing(posts)
    && (|run| == MAX_DELIVER ==> PostsIn(Performed(p, MAX_DELIVER, run[MAX_DELIVER - 1])) == [])
  }

  /** Attempt numbers rise strictly within 2..hi. */
  predicate Numbered(posts: seq<nat>, hi: nat) {
    StrictlyIncreasing(posts) && |posts| < hi && forall i :: 0 <= i < |posts| ==> 2 <= posts[i] <= hi
  }

  lemma NumberedExtends(posts: seq<nat>, more: seq<nat>, hi: nat)
    requires Numbered(posts, hi) && (more == [] || more == [hi + 1])
    ensures Numbered(posts + more, hi + 1)
  {
  }

  lemma {:induction false} ReadableRunsAreNumbered(p: Payload, run: seq<Delivery>)
    requires |run| < MAX_DELIVER && Readable(run)
    ensures Numbered(Posts(p, run), |run| + 1)
  {
    hide Performed, PostsIn, Numbered;
    if run == [] {
      assert Numbered([], 1) by { NoPostsYet(); }
    } else {
      var n := |run| - 1;
      ReadableRunsAreNumbered(p, run[..n]);
      PostsOfDelivery(p, |run|, run[n]);
      NumberedExtends(Posts(p, run[..n]), PostsIn(Performed(p, |run|, run[n])), |run|);
    }
  }

  lemma NoPostsYet()
    ensures Numbered([], 1)
  {
  }

  /** Over every mix of lookup errors, outcomes, crashes and lost acknowledgements,
      a run with readable metadata stays within the budget. */
  lemma ReadableRunsStayWithinBudget(p: Payload, run: seq<Delivery>)
    requires |run| <= MAX_DELIVER && Readable(run)
    ensures WithinBudget(p, run)
  {
    hide Performed, PostsIn;
    if |run| < MAX_DELIVER {
      ReadableRunsAreNumbered(p, run);
    } else {
      ReadableRunsAreNumbered(p, run[..4]);
      PostsOfDelivery(p, MAX_DELIVER, run[4]);
    }
  }

  // ----- exactly when the budget holds ---------------------------------------------

  /** Five deliveries to an enabled sink whose endpoint always fails, with metadata
      readable only where `readable` says so. */
  function FailingRun(readable: seq<bool>): seq<Delivery> {
    seq(|readable|, i requires 0 <= i < |readable| =>
      Delivery(readable[i], Passed, SinkFound(true), Retriable, 9, true))
  }

  ghost predicate Pattern(readable: seq<bool>, run: seq<Delivery>) {
    |run| == |readable| && forall i :: 0 <= i < |run| ==> run[i].readable == readable[i]
  }

  /** For a given pattern of readable metadata over five deliveries, every run stays
      within the budget if and only if deliveries two to five are readable. */
  lemma BudgetIffReadable(env: Envelope, readable: seq<bool>)
    requires |readable| == MAX_DELIVER
    ensures (forall run :: Run(Parsed(env), run) && Pattern(readable, run) ==> WithinBudget(Parsed(env), run))
            <==> forall i :: 1 <= i < MAX_DELIVER ==> readable[i]
  {
    var p := Parsed(env);
    if forall i :: 1 <= i < MAX_DELIVER ==> readable[i] {
      forall run | Run(p, run) && Pattern(readable, run) ensures WithinBudget(p, run) {
        ReadableRunsStayWithinBudget(p, run);
      }
    } else {
      var i :| 1 <= i < MAX_DELIVER && !readable[i];
      var run := FailingRun(readable);
      assert Pattern(readable, run);
      assert Run(p, run);
      UnreadableRepeatsAttempt(env, readable, i);
    }
  }

  /** A delivery with unreadable metadata counts as the first one, so it repeats the
      attempt number 2 and escapes the final-delivery stop. */
  lemma UnreadableRepeatsAttempt(env: Envelope, readable: seq<bool>, i: nat)
    requires |readable| == MAX_DELIVER && 1 <= i < MAX_DELIVER && !readable[i]
    ensures !WithinBudget(Parsed(env), FailingRun(readable))
  {
    hide Performed, PostsIn;
    var p, run := Parsed(env), FailingRun(readable);
    FailingRunPosts(env, readable, 1);
    FailingRunPosts(env, readable, i + 1);
    assert run[..|run|] == run;
    PostsGrow(p, run, 1, i);
    PostsGrow(p, run, i + 1, MAX_DELIVER);
    var posts := Posts(p, run);
    assert posts[0] == 2;
    assert posts[|Posts(p, run[..i])|] == 2;
  }

  lemma FailingRunPosts(env: Envelope, readable: seq<bool>, k: nat)
    requires 1 <= k <= |readable| <= MAX_DELIVER
    requires k == 1 || !readable[k - 1]
    ensures var run := FailingRun(readable);
            Posts(Parsed(env), run[..k]) == Posts(Parsed(env), run[..k - 1]) + [2]
  {
    var p, run := Parsed(env), FailingRun(readable);
    assert run[..k][..k - 1] == run[..k - 1];
    var e := Performed(p, k, run[k - 1]);
    assert e == [Post(2), Nak(1)];
    assert PostsIn(e) == [2] by { OnlyFirstPosts(e[1..]); }
  }

  lemma {:induction false} PostsGrow(p: Payload, run: seq<Delivery>, a: nat, b: nat)
    requires a <= b <= |run|
    ensures Posts(p, run[..a]) <= Posts(p, run[..b])
    decreases b
  {
    if a < b {
      PostsGrow(p, run, a, b - 1);
      assert run[..b][..b - 1] == run[..b - 1];
    }
  }

  // ----- audits ----------------------------------------------------------------------

  /** The keys of all audits written over a run; the repository keeps one row each. */
  ghost function AuditKeys(p: Payload, run: seq<Delivery>): set<string> {
    if run == [] then {}
    else
      var e := Performed(p, |run|, run[|run| - 1]);
      AuditKeys(p, run[..|run| - 1]) + set i | 0 <= i < |e| && e[i].Audit? :: e[i].key
  }

  /** Whatever happens over the whole run, at most one audit row results: its key is
      that of the envelope, and the free-text reason never enters it. */
  lemma {:induction false} AtMostOneAuditRow(p: Payload, run: seq<Delivery>)
    ensures AuditKeys(p, run) <= if p.Parsed? then {AuditKey(p.env)} else {}
  {
    if run != [] {
      AtMostOneAuditRow(p, run[..|run| - 1]);
      AuditsShareOneKey(p, |run|, run[|run| - 1]);
    }
  }

  lemma AuditsShareOneKey(p: Payload, k: nat, d: Delivery)
    ensures forall i :: 0 <= i < |Performed(p, k, d)| && Performed(p, k, d)[i].Audit?
                        ==> p.Parsed? && Performed(p, k, d)[i].key == AuditKey(p.env)
  {
  }

  /** Distinct (sink, event, attempt) triples have distinct audit keys as long as
      sink ids, which are UUIDs, contain no separator. */
  lemma AuditKeyIsInjective(x: Envelope, y: Envelope)
    requires '|' !in x.sinkId && '|' !in y.sinkId
    requires AuditKey(x) == AuditKey(y)
    ensures x.sinkId == y.sinkId && x.eventId == y.eventId && x.attempt == y.attempt
  {
    var nx, ny := "attempt=" + Decimal.Render(x.attempt), "attempt=" + Decimal.Render(y.attempt);
    assert AuditKey(x) == x.sinkId + "|" + (x.eventId + "|" + nx);
    assert AuditKey(y) == y.sinkId + "|" + (y.eventId + "|" + ny);
    SplitsAtFirst('|', x.sinkId, x.eventId + "|" + nx, y.sinkId, y.eventId + "|" + ny);
    SplitsAtLast('|', x.eventId, nx, y.eventId, ny);
    assert nx[8..] == Decimal.Render(x.attempt) && ny[8..] == Decimal.Render(y.attempt);
    Decimal.RenderIsInjective(x.attempt, y.attempt);
  }

  // ----- how a run ends -----------------------------------------------------------------

  /** No crash, and the acknowledgement reached the broker. */
  predicate Undisturbed(d: Delivery) {
    d.honoured && d.readable && d.survives >= 3
  }

  /** The broker has nothing left to deliver. */
  predicate Finished(p: Payload, run: seq<Delivery>) {
    && run != [] && Run(p, run)
    && (|run| == MAX_DELIVER || Settles(p, |run|, run[|run| - 1]))
  }

  /** How an undisturbed run can end. */
  ghost predicate EndsWell(p: Payload, run: seq<Delivery>)
    requires run != []
  {
    var k := |run|;
    var d := run[k - 1];
    var e := Performed(p, k, d);
    || (d.gate.Passed? && p.Malformed? && e == [Ack])
    || (d.gate.Passed? && p.Parsed? && d.outcome.Success? && k < MAX_DELIVER && e == [Post(k + 1), Ack])
    || (d.gate.Passed? && p.Parsed? && |e| >= 2 && e[|e| - 2].Audit? && e[|e| - 1] == Ack)
    || (d.gate.SchemaRouted? && e == [Ack])
    || (d.gate.GateFailed? && k == MAX_DELIVER)
    || (d.gate.Passed? && d.lookup.LookupFailed? && k == MAX_DELIVER)
  }

  /** When acknowledgements are honoured, a finished run ends in a delivered event, an
      issued audit, a dropped or routed malformed message, or a lookup or wrapper
      failure on the very last delivery. */
  lemma UndisturbedRunsEndWell(p: Payload, run: seq<Delivery>)
    requires Finished(p, run) && forall i :: 0 <= i < |run| ==> Undisturbed(run[i])
    ensures EndsWell(p, run)
  {
    var k := |run|;
    var d := run[k - 1];
    var all := DispatchEffects(p, k, d.gate, d.lookup, d.outcome);
    assert |all| <= 3;
    assert Performed(p, k, d) == all;
  }

  /** The seconds between delivery `k` and the next one: the requested delay when the
      negative acknowledgement arrived, the acknowledgement timeout otherwise. */
  function Wait(p: Payload, k: nat, d: Delivery): nat {
    var e := Performed(p, k, d);
    if d.honoured && e != [] && e[|e| - 1].Nak? then e[|e| - 1].delay else ACK_WAIT
  }

  function TotalWait(p: Payload, run: seq<Delivery>): nat {
    if |run| <= 1 then 0
    else TotalWait(p, run[..|run| - 1]) + Wait(p, |run| - 1, run[|run| - 2])
  }

  /** The four gaps of the schedule. */
  function Longest(k: nat, gated: bool): nat {
    if k == 1 then (if gated then 30 else 1)
    else if k == 2 then (if gated then 60 else 5)
    else if k == 3 then (if gated then 90 else 30)
    else 300
  }

  /** The sum of the gaps before delivery `n`. */
  function Schedule(n: nat, gated: bool): nat {
    if n <= 1 then 0 else Schedule(n - 1, gated) + Longest(n - 1, gated)
  }

  lemma ScheduleTotals(n: nat)
    requires n <= MAX_DELIVER
    ensures Schedule(n, false) <= 336 && Schedule(n, true) <= 480
  {
    assert Schedule(2, false) == 1 && Schedule(2, true) == 30;
    assert Schedule(3, false) == 6 && Schedule(3, true) == 90;
    assert Schedule(4, false) == 36 && Schedule(4, true) == 180;
  }

  /** Each gap of an undisturbed run is bounded by the schedule. */
  lemma WaitIsScheduled(p: Payload, k: nat, d: Delivery)
    requires 1 <= k < MAX_DELIVER && Undisturbed(d) && !Settles(p, k, d)
    ensures Wait(p, k, d) <= Longest(k, !d.gate.Passed?)
  {
    var all := DispatchEffects(p, k, d.gate, d.lookup, d.outcome);
    assert |all| <= 3;
    assert Performed(p, k, d) == all;
  }

  lemma {:induction false} TotalWaitUpTo(p: Payload, run: seq<Delivery>, gated: bool)
    requires Run(p, run) && forall i :: 0 <= i < |run| ==> Undisturbed(run[i])
    requires !gated ==> forall i :: 0 <= i < |run| ==> run[i].gate.Passed?
    ensures TotalWait(p, run) <= Schedule(|run|, gated)
  {
    if |run| > 1 {
      hide Wait, Settles, Run, Undisturbed, Longest;
      var n := |run| - 1;
      RunShortens(p, run);
      TotalWaitUpTo(p, run[..n], gated);
      var d := run[n - 1];
      WaitIsScheduled(p, n, d);
      GatedIsLonger(n, !d.gate.Passed?, gated);
    }
  }

  lemma RunShortens(p: Payload, run: seq<Delivery>)
    requires Run(p, run) && |run| > 1
    ensures |run| <= MAX_DELIVER && Run(p, run[..|run| - 1]) && !Settles(p, |run| - 1, run[|run| - 2])
  {
    hide Settles;
    assert !Settles(p, |run| - 2 + 1, run[|run| - 2]);
  }

  lemma GatedIsLonger(k: nat, a: bool, b: bool)
    requires a ==> b
    ensures Longest(k, a) <= Longest(k, b)
  {
  }

  /** An undisturbed run waits at most 336 seconds in all when every delivery reaches
      the handler, and at most 480 when the wrappers may fail. */
  lemma TotalWaitIsBounded(p: Payload, run: seq<Delivery>)
    requires Run(p, run) && forall i :: 0 <= i < |run| ==> Undisturbed(run[i])
    ensures TotalWait(p, run) <= 480
    ensures (forall i :: 0 <= i < |run| ==> run[i].gate.Passed?) ==> TotalWait(p, run) <= 336
  {
    ScheduleTotals(|run|);
    TotalWaitUpTo(p, run, true);
    if forall i :: 0 <= i < |run| ==> run[i].gate.Passed? {
      TotalWaitUpTo(p, run, false);
    }
  }
}
