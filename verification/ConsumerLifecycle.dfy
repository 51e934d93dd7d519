/** Start-up and shutdown of the event consumers. The three result durables sit on
    an interest-retention stream, so nothing may be produced before every wired one
    of them is bound, and producers must stop before any of them closes. */
module ConsumerLifecycle {

  datatype Durable =
    | ManagementPersist | EducationTrigger | FeedbackPersist | IngestionAction
    | EvaluateSvc
    | ActionLabel | ActionBanner | ActionUrlRewrite | ActionQuarantine
    | EducationSim | EducationSimTrack | IngestionOnboard
    | QuarantineRelease | CommHistoryUpdate | Escalation
    | SocResolution | WebhookRetrier

  /** Which dependencies are present. */
  datatype Wiring = Wiring(
    bus: bool, repos: bool, feedbackEvents: bool, commHistories: bool,
    microLesson: bool, bannerRenderer: bool, urlRewriter: bool, quarantine: bool, labelApplier: bool,
    evaluator: bool, batchOrch: bool, providers: bool,
    simulationEngine: bool, simulationTracker: bool, release: bool, escalation: bool,
    soc: bool, webhook: bool)

  /** Whether a subscription is attempted at all. */
  predicate Wired(w: Wiring, d: Durable) {
    match d
    case ManagementPersist => w.repos
    case EducationTrigger => w.microLesson
    case FeedbackPersist => w.repos && w.feedbackEvents
    case IngestionAction => w.bannerRenderer || w.urlRewriter || w.quarantine || w.labelApplier
    case EvaluateSvc => w.evaluator && !w.batchOrch
    case ActionLabel => w.labelApplier
    case ActionBanner => w.providers
    case ActionUrlRewrite => w.urlRewriter
    case ActionQuarantine => w.quarantine
    case EducationSim => w.simulationEngine
    case EducationSimTrack => w.simulationTracker
    case IngestionOnboard => true
    case QuarantineRelease => w.release
    case CommHistoryUpdate => w.repos && w.commHistories
    case Escalation => w.escalation
    case SocResolution => w.soc
    case WebhookRetrier => w.webhook
  }

  predicate IsResult(d: Durable) {
    d.ManagementPersist? || d.EducationTrigger? || d.IngestionAction?
  }

  /** Failures that make start-up fail; the rest are logged and skipped. */
  predicate IsCritical(d: Durable) {
    IsResult(d) || d.FeedbackPersist? || d.EvaluateSvc? || d.EducationSim?
    || d.QuarantineRelease? || d.CommHistoryUpdate? || d.Escalation?
  }

  const RESULT_DURABLES: set<Durable> := {ManagementPersist, EducationTrigger, IngestionAction}

  /** The result durables this deployment depends on. */
  function WiredResults(w: Wiring): set<Durable> {
    set d | d in RESULT_DURABLES && Wired(w, d)
  }

  // ----- traces ---------------------------------------------------------------

  datatype Action =
    | Bound(d: Durable) | Refused(d: Durable)
    | OrchestratorStarted | OrchestratorStopped
    | DlqStarted | DlqStopped
    | Closed(d: Durable)

  /** The tracked subscriptions, oldest first, and everything done so far. */
  datatype Journal = Journal(subs: seq<Durable>, log: seq<Action>)

  function Record(j: Journal, a: Action): Journal {
    j.(log := j.log + [a])
  }

  /** One subscription attempt. */
  function Attempt(j: Journal, w: Wiring, refused: set<Durable>, d: Durable): Journal {
    if !Wired(w, d) then j
    else if d in refused then Record(j, Refused(d))
    else Journal(j.subs + [d], j.log + [Bound(d)])
  }

  function ResultPhase(j: Journal, w: Wiring, refused: set<Durable>): Journal {
    var j1 := Attempt(j, w, refused, ManagementPersist);
    var j2 := Attempt(j1, w, refused, EducationTrigger);
    var j3 := Attempt(j2, w, refused, FeedbackPersist);
    Attempt(j3, w, refused, IngestionAction)
  }

  function WorkPhase(j: Journal, w: Wiring, refused: set<Durable>): Journal {
    var j1 := Attempt(j, w, refused, EvaluateSvc);
    var j2 := Attempt(j1, w, refused, ActionLabel);
    var j3 := Attempt(j2, w, refused, ActionBanner);
    var j4 := Attempt(j3, w, refused, ActionUrlRewrite);
    var j5 := Attempt(j4, w, refused, ActionQuarantine);
    var j6 := Attempt(j5, w, refused, EducationSim);
    var j7 := Attempt(j6, w, refused, EducationSimTrack);
    var j8 := Attempt(j7, w, refused, IngestionOnboard);
    var j9 := Attempt(j8, w, refused, QuarantineRelease);
    var j10 := Attempt(j9, w, refused, CommHistoryUpdate);
    Attempt(j10, w, refused, Escalation)
  }

  function FinalPhase(j: Journal, w: Wiring, refused: set<Durable>, dlqStarts: bool): Journal {
    var j1 := Attempt(j, w, refused, SocResolution);
    var j2 := Attempt(j1, w, refused, WebhookRetrier);
    var j3 := if w.batchOrch then Record(j2, OrchestratorStarted) else j2;
    if dlqStarts then Record(j3, DlqStarted) else j3
  }

  /** The two checkpoints in front of the producers: no wired result durable was
      refused, and a wired producer has some result durable to produce for. */
  predicate MayProduce(w: Wiring, refused: set<Durable>) {
    && (forall d <- WiredResults(w) :: d !in refused)
    && (w.evaluator || w.batchOrch ==> WiredResults(w) != {})
  }

  /** The later checkpoint, in front of the orchestrator and the DLQ processor. */
  predicate MayFinish(w: Wiring, refused: set<Durable>) {
    forall d <- refused :: Wired(w, d) ==> IsResult(d) || !IsCritical(d)
  }

  function StartJournal(w: Wiring, refused: set<Durable>, dlqStarts: bool): Journal {
    var j0 := Journal([], []);
    if !w.bus then j0
    else
      var j1 := ResultPhase(j0, w, refused);
      if !MayProduce(w, refused) then j1
      else
        var j2 := WorkPhase(j1, w, refused);
        if !MayFinish(w, refused) then j2 else FinalPhase(j2, w, refused, dlqStarts)
  }

  /** Subscriptions are closed last to first. */
  function CloseAll(j: Journal): Journal
    decreases |j.subs|
  {
    if j.subs == [] then j
    else
      var n := |j.subs| - 1;
      CloseAll(Journal(j.subs[..n], j.log + [Closed(j.subs[n])]))
  }

  function StopJournal(j: Journal, batchOrch: bool, dlqRunning: bool): Journal {
    var j1 := if dlqRunning then Record(j, DlqStopped) else j;
    var j2 := if batchOrch then Record(j1, OrchestratorStopped) else j1;
    CloseAll(j2)
  }

  // ----- the application --------------------------------------------------------

  datatype Outcome =
    | Started
    | ResultConsumersFailed(failed: seq<Durable>)
    | NoResultConsumer
    | CriticalFailed(failed: seq<Durable>)

  /** Start-up succeeds exactly when nothing critical is refused and a wired
      producer has some result consumer to produce for. */
  predicate Succeeds(w: Wiring, refused: set<Durable>) {
    w.bus ==> MayProduce(w, refused) && MayFinish(w, refused)
  }

  // ----- what is attached, by the dependencies present ----------------------------

  predicate HasActionService(w: Wiring) {
    w.bannerRenderer || w.urlRewriter || w.quarantine || w.labelApplier
  }

  /** The first checkpoint is passed: no result durable whose dependency is present was
      refused, and a producer has one to produce for. */
  predicate ResultsReady(w: Wiring, refused: set<Durable>) {
    && (w.repos ==> ManagementPersist !in refused)
    && (w.microLesson ==> EducationTrigger !in refused)
    && (HasActionService(w) ==> IngestionAction !in refused)
    && (w.evaluator || w.batchOrch ==> w.repos || w.microLesson || HasActionService(w))
  }

  /** The second checkpoint is passed: none of the other critical subscriptions failed. */
  predicate CriticalsReady(w: Wiring, refused: set<Durable>) {
    && (w.repos && w.feedbackEvents ==> FeedbackPersist !in refused)
    && (w.evaluator && !w.batchOrch ==> EvaluateSvc !in refused)
    && (w.simulationEngine ==> EducationSim !in refused)
    && (w.release ==> QuarantineRelease !in refused)
    && (w.repos && w.commHistories ==> CommHistoryUpdate !in refused)
    && (w.escalation ==> Escalation !in refused)
  }

  predicate Distinct(subs: seq<Durable>) {
    forall i, j :: 0 <= i < j < |subs| ==> subs[i] != subs[j]
  }

  /** The first four subscriptions: attached exactly when the dependency is present and
      the bus does not refuse. */
  predicate EarlyAttached(w: Wiring, refused: set<Durable>, subs: seq<Durable>, reached: bool) {
    && (ManagementPersist in subs <==> reached && w.repos && ManagementPersist !in refused)
    && (EducationTrigger in subs <==> reached && w.microLesson && EducationTrigger !in refused)
    && (FeedbackPersist in subs <==> reached && w.repos && w.feedbackEvents && FeedbackPersist !in refused)
    && (IngestionAction in subs <==> reached && HasActionService(w) && IngestionAction !in refused)
  }

  /** The eleven between the checkpoints. */
  predicate WorkAttached(w: Wiring, refused: set<Durable>, subs: seq<Durable>, reached: bool) {
    && (EvaluateSvc in subs <==> reached && w.evaluator && !w.batchOrch && EvaluateSvc !in refused)
    && (ActionLabel in subs <==> reached && w.labelApplier && ActionLabel !in refused)
    && (ActionBanner in subs <==> reached && w.providers && ActionBanner !in refused)
    && (ActionUrlRewrite in subs <==> reached && w.urlRewriter && ActionUrlRewrite !in refused)
    && (ActionQuarantine in subs <==> reached && w.quarantine && ActionQuarantine !in refused)
    && (EducationSim in subs <==> reached && w.simulationEngine && EducationSim !in refused)
    && (EducationSimTrack in subs <==> reached && w.simulationTracker && EducationSimTrack !in refused)
    && (IngestionOnboard in subs <==> reached && IngestionOnboard !in refused)
    && (QuarantineRelease in subs <==> reached && w.release && QuarantineRelease !in refused)
    && (CommHistoryUpdate in subs <==> reached && w.repos && w.commHistories && CommHistoryUpdate !in refused)
    && (Escalation in subs <==> reached && w.escalation && Escalation !in refused)
  }

  /** The two after the second checkpoint. */
  predicate LateAttached(w: Wiring, refused: set<Durable>, subs: seq<Durable>, reached: bool) {
    && (SocResolution in subs <==> reached && w.soc && SocResolution !in refused)
    && (WebhookRetrier in subs <==> reached && w.webhook && WebhookRetrier !in refused)
  }

  /** Start-up attaches exactly what its dependencies and the checkpoints let it, each
      once, and starts the orchestrator and the DLQ processor only at the end. */
  predicate AttachedAsWired(w: Wiring, refused: set<Durable>, dlqStarts: bool, j: Journal) {
    var work := w.bus && ResultsReady(w, refused);
    var late := work && CriticalsReady(w, refused);
    && EarlyAttached(w, refused, j.subs, w.bus) && WorkAttached(w, refused, j.subs, work)
    && LateAttached(w, refused, j.subs, late) && Distinct(j.subs)
    && (OrchestratorStarted in j.log <==> late && w.batchOrch)
    && (DlqStarted in j.log <==> late && dlqStarts)
  }

  class Application {
    const w: Wiring
    var subs: seq<Durable>
    var batchOrch: bool
    var dlqRunning: bool
    ghost var log: seq<Action>

    ghost function State(): Journal
      reads this
    {
      Journal(subs, log)
    }

    constructor (w: Wiring)
      ensures this.w == w && State() == Journal([], []) && batchOrch == w.batchOrch && !dlqRunning
    {
      this.w := w;
      subs, batchOrch, dlqRunning, log := [], w.batchOrch, false, [];
    }

    /** One subscription, attempted when its dependency is wired: a success is
        tracked and counted, a failure returned. */
    method Subscribe(d: Durable, refused: set<Durable>) returns (attached: nat, errs: seq<Durable>)
      modifies this`subs, this`log
      ensures State() == Attempt(old(State()), w, refused, d)
      ensures attached == if Wired(w, d) && d !in refused then 1 else 0
      ensures errs == if Wired(w, d) && d in refused then [d] else []
    {
      attached, errs := 0, [];
      if Wired(w, d) {
        if d in refused {
          log := log + [Refused(d)];
          errs := [d];
        } else {
          log := log + [Bound(d)];
          subs := subs + [d];
          attached := 1;
        }
      }
    }

    method AttachResultConsumers(refused: set<Durable>)
      returns (attached: nat, resultErrs: seq<Durable>, critErrs: seq<Durable>)
      modifies this`subs, this`log
      ensures State() == ResultPhase(old(State()), w, refused)
      ensures resultErrs == [] <==> forall d <- WiredResults(w) :: d !in refused
      ensures resultErrs == [] ==> (attached == 0 <==> WiredResults(w) == {})
      ensures critErrs == [] <==> !(Wired(w, FeedbackPersist) && FeedbackPersist in refused)
    {
      var n1, e1 := Subscribe(ManagementPersist, refused);
      var n2, e2 := Subscribe(EducationTrigger, refused);
      var _, e3 := Subscribe(FeedbackPersist, refused);
      var n4, e4 := Subscribe(IngestionAction, refused);
      attached, resultErrs, critErrs := n1 + n2 + n4, e1 + e2 + e4, e3;
      WiredResultsByCase(w, refused);
    }

    method AttachWorkConsumers(refused: set<Durable>) returns (critErrs: seq<Durable>)
      modifies this`subs, this`log
      ensures State() == WorkPhase(old(State()), w, refused)
      ensures critErrs == [] <==> NoWorkFailure(w, refused)
    {
      hide Attempt;
      var _, e1 := Subscribe(EvaluateSvc, refused);
      var _, _ := Subscribe(ActionLabel, refused);
      var _, _ := Subscribe(ActionBanner, refused);
      var _, _ := Subscribe(ActionUrlRewrite, refused);
      var _, _ := Subscribe(ActionQuarantine, refused);
      var _, e6 := Subscribe(EducationSim, refused);
      var _, _ := Subscribe(EducationSimTrack, refused);
      var _, _ := Subscribe(IngestionOnboard, refused);
      var _, e9 := Subscribe(QuarantineRelease, refused);
      var _, e10 := Subscribe(CommHistoryUpdate, refused);
      var _, e11 := Subscribe(Escalation, refused);
      critErrs := e1 + e6 + e9 + e10 + e11;
    }

    /** Result consumers first, then a checkpoint, then the evaluator and the other
        consumers, then a checkpoint, then the orchestrator and the DLQ processor. */
    method StartConsumers(refused: set<Durable>, dlqStarts: bool) returns (outcome: Outcome)
      requires State() == Journal([], []) && batchOrch == w.batchOrch && !dlqRunning
      modifies this`subs, this`log, this`dlqRunning
      ensures State() == StartJournal(w, refused, dlqStarts)
      ensures AttachedAsWired(w, refused, dlqStarts, State())
      ensures outcome.Started? <==> !w.bus || (ResultsReady(w, refused) && CriticalsReady(w, refused))
      ensures dlqRunning <==> w.bus && outcome.Started? && dlqStarts
    {
      StartAttachesAsWired(w, refused, dlqStarts);
      FirstCheckpointByFields(w, refused);
      SecondCheckpointByFields(w, refused);
      hide AttachedAsWired, ResultsReady, CriticalsReady;
      hide Attempt, ResultPhase, WorkPhase, WiredResults, IsCritical;
      if !w.bus {
        return Started;
      }
      var attached, resultErrs, critErrs := AttachResultConsumers(refused);
      if resultErrs != [] {
        return ResultConsumersFailed(resultErrs + critErrs);
      }
      if attached == 0 && (w.evaluator || w.batchOrch) {
        return NoResultConsumer;
      }
      var workErrs := AttachWorkConsumers(refused);
      MayFinishByPhase(w, refused);
      if critErrs + workErrs != [] {
        return CriticalFailed(critErrs + workErrs);
      }
      var _, _ := Subscribe(SocResolution, refused);
      var _, _ := Subscribe(WebhookRetrier, refused);
      if batchOrch {
        log := log + [OrchestratorStarted];
      }
      if dlqStarts {
        log := log + [DlqStarted];
        dlqRunning := true;
      }
      outcome := Started;
    }

    /** Stops the DLQ processor and the orchestrator, then closes every tracked
        subscription, newest first. */
    method StopConsumers()
      modifies this
      ensures State() == StopJournal(old(State()), old(batchOrch), old(dlqRunning))
      ensures subs == [] && !batchOrch && !dlqRunning
    {
      if dlqRunning {
        log := log + [DlqStopped];
        dlqRunning := false;
      }
      if batchOrch {
        log := log + [OrchestratorStopped];
        batchOrch := false;
      }
      var open := subs;
      subs := [];
      CloseReverse(open);
    }

    method CloseReverse(open: seq<Durable>)
      modifies this`log
      ensures Journal([], log) == CloseAll(Journal(open, old(log)))
    {
      var i := |open|;
      assert open[..i] == open;
      while i > 0
        invariant 0 <= i <= |open|
        invariant CloseAll(Journal(open[..i], log)) == CloseAll(Journal(open, old(log)))
      {
        i := i - 1;
        assert open[..i + 1][..i] == open[..i];
        log := log + [Closed(open[i])];
      }
    }
  }

  predicate NoWorkFailure(w: Wiring, refused: set<Durable>) {
    && !(Wired(w, EvaluateSvc) && EvaluateSvc in refused)
    && !(Wired(w, EducationSim) && EducationSim in refused)
    && !(Wired(w, QuarantineRelease) && QuarantineRelease in refused)
    && !(Wired(w, CommHistoryUpdate) && CommHistoryUpdate in refused)
    && !(Wired(w, Escalation) && Escalation in refused)
  }

  lemma MayFinishByPhase(w: Wiring, refused: set<Durable>)
    ensures MayFinish(w, refused) <==>
            !(Wired(w, FeedbackPersist) && FeedbackPersist in refused) && NoWorkFailure(w, refused)
  {
  }

  lemma WiredResultsByCase(w: Wiring, refused: set<Durable>)
    ensures (forall d <- WiredResults(w) :: d !in refused) <==>
            && !(Wired(w, ManagementPersist) && ManagementPersist in refused)
            && !(Wired(w, EducationTrigger) && EducationTrigger in refused)
            && !(Wired(w, IngestionAction) && IngestionAction in refused)
    ensures WiredResults(w) == {} <==>
            !Wired(w, ManagementPersist) && !Wired(w, EducationTrigger) && !Wired(w, IngestionAction)
  {
    if Wired(w, ManagementPersist) { assert ManagementPersist in WiredResults(w); }
    if Wired(w, EducationTrigger) { assert EducationTrigger in WiredResults(w); }
    if Wired(w, IngestionAction) { assert IngestionAction in WiredResults(w); }
  }

  lemma EarlyWiring(w: Wiring)
    ensures Wired(w, ManagementPersist) <==> w.repos
    ensures Wired(w, EducationTrigger) <==> w.microLesson
    ensures Wired(w, FeedbackPersist) <==> w.repos && w.feedbackEvents
    ensures Wired(w, IngestionAction) <==> HasActionService(w)
  {
  }

  lemma ActionWiring(w: Wiring)
    ensures Wired(w, EvaluateSvc) <==> w.evaluator && !w.batchOrch
    ensures Wired(w, ActionLabel) <==> w.labelApplier
    ensures Wired(w, ActionBanner) <==> w.providers
    ensures Wired(w, ActionUrlRewrite) <==> w.urlRewriter
    ensures Wired(w, ActionQuarantine) <==> w.quarantine
  {
  }

  lemma EducationWiring(w: Wiring)
    ensures Wired(w, EducationSim) <==> w.simulationEngine
    ensures Wired(w, EducationSimTrack) <==> w.simulationTracker
    ensures Wired(w, IngestionOnboard)
  {
  }

  lemma ServiceWiring(w: Wiring)
    ensures Wired(w, QuarantineRelease) <==> w.release
    ensures Wired(w, CommHistoryUpdate) <==> w.repos && w.commHistories
    ensures Wired(w, Escalation) <==> w.escalation
  {
  }

  lemma FirstCheckpointByFields(w: Wiring, refused: set<Durable>)
    ensures MayProduce(w, refused) <==> ResultsReady(w, refused)
  {
    hide WiredResults, Wired;
    WiredResultsByCase(w, refused);
    EarlyWiring(w);
  }

  lemma SecondCheckpointByFields(w: Wiring, refused: set<Durable>)
    ensures MayFinish(w, refused) <==> CriticalsReady(w, refused)
  {
    hide MayFinish, Wired;
    MayFinishByPhase(w, refused);
    EarlyWiring(w);
    ActionWiring(w);
    EducationWiring(w);
    ServiceWiring(w);
  }

  predicate SameStarts(j: Journal, n: Journal) {
    && (OrchestratorStarted in n.log <==> OrchestratorStarted in j.log)
    && (DlqStarted in n.log <==> DlqStarted in j.log)
  }

  predicate Unattached(attempted: set<Durable>, subs: seq<Durable>) {
    forall x :: x in attempted ==> x !in subs
  }

  /** `n` tracks what `j` does and exactly the wired, unrefused durables of `attempted`. */
  predicate Adds(j: Journal, n: Journal, w: Wiring, refused: set<Durable>, attempted: set<Durable>) {
    && (forall x :: x in n.subs <==> x in j.subs || (x in attempted && Wired(w, x) && x !in refused))
    && (Distinct(j.subs) && Unattached(attempted, j.subs) ==> Distinct(n.subs))
  }

  lemma AddsNothing(j: Journal, w: Wiring, refused: set<Durable>)
    ensures Adds(j, j, w, refused, {})
  {
  }

  lemma AttemptAdds(
      j: Journal, n: Journal, w: Wiring, refused: set<Durable>, attempted: set<Durable>, d: Durable)
    requires Adds(j, n, w, refused, attempted) && d !in attempted
    ensures var m := Attempt(n, w, refused, d);
            Adds(j, m, w, refused, attempted + {d}) && SameStarts(n, m)
  {
    hide Wired;
    var m := Attempt(n, w, refused, d);
    assert forall x :: x in m.subs <==> x in n.subs || (x == d && Wired(w, d) && d !in refused);
    if Distinct(j.subs) && Unattached(attempted + {d}, j.subs) {
      assert Unattached(attempted, j.subs);
      assert d !in n.subs;
    }
  }

  const EARLY_DURABLES := {ManagementPersist, EducationTrigger, FeedbackPersist, IngestionAction}

  const WORK_DURABLES := {EvaluateSvc, ActionLabel, ActionBanner, ActionUrlRewrite, ActionQuarantine, EducationSim,
                          EducationSimTrack, IngestionOnboard, QuarantineRelease, CommHistoryUpdate, Escalation}

  const LATE_DURABLES := {SocResolution, WebhookRetrier}

  lemma ResultPhaseAdds(j: Journal, w: Wiring, refused: set<Durable>)
    ensures Adds(j, ResultPhase(j, w, refused), w, refused, EARLY_DURABLES)
    ensures SameStarts(j, ResultPhase(j, w, refused))
  {
    hide Attempt, Adds;
    AddsNothing(j, w, refused);
    var s0: set<Durable> := {};
    AttemptAdds(j, j, w, refused, s0, ManagementPersist);
    var j1, s1 := Attempt(j, w, refused, ManagementPersist), s0 + {ManagementPersist};
    AttemptAdds(j, j1, w, refused, s1, EducationTrigger);
    var j2, s2 := Attempt(j1, w, refused, EducationTrigger), s1 + {EducationTrigger};
    AttemptAdds(j, j2, w, refused, s2, FeedbackPersist);
    var j3, s3 := Attempt(j2, w, refused, FeedbackPersist), s2 + {FeedbackPersist};
    AttemptAdds(j, j3, w, refused, s3, IngestionAction);
    assert s3 + {IngestionAction} == EARLY_DURABLES;
  }

  lemma WorkPhaseAdds(j: Journal, w: Wiring, refused: set<Durable>)
    ensures Adds(j, WorkPhase(j, w, refused), w, refused, WORK_DURABLES)
    ensures SameStarts(j, WorkPhase(j, w, refused))
  {
    hide Attempt, Adds;
    AddsNothing(j, w, refused);
    var s0: set<Durable> := {};
    AttemptAdds(j, j, w, refused, s0, EvaluateSvc);
    var j1, s1 := Attempt(j, w, refused, EvaluateSvc), s0 + {EvaluateSvc};
    AttemptAdds(j, j1, w, refused, s1, ActionLabel);
    var j2, s2 := Attempt(j1, w, refused, ActionLabel), s1 + {ActionLabel};
    AttemptAdds(j, j2, w, refused, s2, ActionBanner);
    var j3, s3 := Attempt(j2, w, refused, ActionBanner), s2 + {ActionBanner};
    AttemptAdds(j, j3, w, refused, s3, ActionUrlRewrite);
    var j4, s4 := Attempt(j3, w, refused, ActionUrlRewrite), s3 + {ActionUrlRewrite};
    AttemptAdds(j, j4, w, refused, s4, ActionQuarantine);
    var j5, s5 := Attempt(j4, w, refused, ActionQuarantine), s4 + {ActionQuarantine};
    AttemptAdds(j, j5, w, refused, s5, EducationSim);
    var j6, s6 := Attempt(j5, w, refused, EducationSim), s5 + {EducationSim};
    AttemptAdds(j, j6, w, refused, s6, EducationSimTrack);
    var j7, s7 := Attempt(j6, w, refused, EducationSimTrack), s6 + {EducationSimTrack};
    AttemptAdds(j, j7, w, refused, s7, IngestionOnboard);
    var j8, s8 := Attempt(j7, w, refused, IngestionOnboard), s7 + {IngestionOnboard};
    AttemptAdds(j, j8, w, refused, s8, QuarantineRelease);
    var j9, s9 := Attempt(j8, w, refused, QuarantineRelease), s8 + {QuarantineRelease};
    AttemptAdds(j, j9, w, refused, s9, CommHistoryUpdate);
    var j10, s10 := Attempt(j9, w, refused, CommHistoryUpdate), s9 + {CommHistoryUpdate};
    AttemptAdds(j, j10, w, refused, s10, Escalation);
    assert s10 + {Escalation} == WORK_DURABLES;
  }

  /** The two last subscriptions, then the orchestrator and the DLQ processor. */
  lemma FinalPhaseAdds(j: Journal, w: Wiring, refused: set<Durable>, dlqStarts: bool)
    requires OrchestratorStarted !in j.log && DlqStarted !in j.log
    ensures var n := FinalPhase(j, w, refused, dlqStarts);
            && Adds(j, n, w, refused, LATE_DURABLES)
            && (OrchestratorStarted in n.log <==> w.batchOrch) && (DlqStarted in n.log <==> dlqStarts)
  {
    hide Attempt, Wired, Distinct;
    AddsNothing(j, w, refused);
    AttemptAdds(j, j, w, refused, {}, SocResolution);
    var j1 := Attempt(j, w, refused, SocResolution);
    AttemptAdds(j, j1, w, refused, {} + {SocResolution}, WebhookRetrier);
    assert {} + {SocResolution} + {WebhookRetrier} == LATE_DURABLES;
  }

  lemma AddsCompose(
      j: Journal, n: Journal, m: Journal, w: Wiring, refused: set<Durable>, a: set<Durable>, b: set<Durable>)
    requires Adds(j, n, w, refused, a) && Adds(n, m, w, refused, b) && a !! b
    ensures Adds(j, m, w, refused, a + b)
  {
    hide Wired, Distinct;
    if Distinct(j.subs) && Unattached(a + b, j.subs) {
      assert Unattached(a, j.subs);
      assert Unattached(b, n.subs);
    }
  }

  /** Of a group of durables, exactly the wired, unrefused ones are tracked, provided the
      group was reached. */
  predicate GroupAttached(w: Wiring, refused: set<Durable>, subs: seq<Durable>, group: set<Durable>, reached: bool) {
    forall d :: d in group ==> (d in subs <==> reached && Wired(w, d) && d !in refused)
  }

  lemma EarlyByFields(w: Wiring, refused: set<Durable>, subs: seq<Durable>)
    requires GroupAttached(w, refused, subs, EARLY_DURABLES, true)
    ensures EarlyAttached(w, refused, subs, true)
  {
    hide Wired;
    EarlyWiring(w);
  }

  lemma WorkByFields(w: Wiring, refused: set<Durable>, subs: seq<Durable>, reached: bool)
    requires GroupAttached(w, refused, subs, WORK_DURABLES, reached)
    ensures WorkAttached(w, refused, subs, reached)
  {
    hide Wired;
    ActionWiring(w);
    EducationWiring(w);
    ServiceWiring(w);
  }

  lemma LateByFields(w: Wiring, refused: set<Durable>, subs: seq<Durable>, reached: bool)
    requires GroupAttached(w, refused, subs, LATE_DURABLES, reached)
    ensures LateAttached(w, refused, subs, reached)
  {
  }

  lemma GroupsAreDisjoint()
    ensures EARLY_DURABLES !! WORK_DURABLES && EARLY_DURABLES !! LATE_DURABLES && WORK_DURABLES !! LATE_DURABLES
  {
  }

  /** From "wired" to the fields: what is attached when exactly `attempted` was tried. */
  lemma AttachedByFields(w: Wiring, refused: set<Durable>, j: Journal, attempted: set<Durable>, work: bool, late: bool)
    requires Adds(Journal([], []), j, w, refused, attempted)
    requires attempted == EARLY_DURABLES + (if work then WORK_DURABLES else {}) + (if late then LATE_DURABLES else {})
    ensures EarlyAttached(w, refused, j.subs, true) && WorkAttached(w, refused, j.subs, work)
    ensures LateAttached(w, refused, j.subs, late) && Distinct(j.subs)
  {
    GroupsAreDisjoint();
    hide Wired, EARLY_DURABLES, WORK_DURABLES, LATE_DURABLES, EarlyAttached, WorkAttached, LateAttached;
    assert Unattached(attempted, []) && Distinct([]);
    EarlyByFields(w, refused, j.subs);
    WorkByFields(w, refused, j.subs, work);
    LateByFields(w, refused, j.subs, late);
  }

  /** After every start-up, successful or not, exactly the right durables are attached. */
  lemma StartAttachesAsWired(w: Wiring, refused: set<Durable>, dlqStarts: bool)
    ensures AttachedAsWired(w, refused, dlqStarts, StartJournal(w, refused, dlqStarts))
  {
    GroupsAreDisjoint();
    hide ResultPhase, WorkPhase, FinalPhase, Distinct, MayProduce, MayFinish, Adds, ResultsReady, CriticalsReady;
    hide EARLY_DURABLES, WORK_DURABLES, LATE_DURABLES, EarlyAttached, WorkAttached, LateAttached;
    FirstCheckpointByFields(w, refused);
    SecondCheckpointByFields(w, refused);
    var j0 := Journal([], []);
    if !w.bus {
      NothingAttached(w, refused);
    } else {
      var j1 := ResultPhase(j0, w, refused);
      ResultPhaseAdds(j0, w, refused);
      if !MayProduce(w, refused) {
        AttachedByFields(w, refused, j1, EARLY_DURABLES, false, false);
      } else {
        var j2 := WorkPhase(j1, w, refused);
        WorkPhaseAdds(j1, w, refused);
        AddsCompose(j0, j1, j2, w, refused, EARLY_DURABLES, WORK_DURABLES);
        if !MayFinish(w, refused) {
          AttachedByFields(w, refused, j2, EARLY_DURABLES + WORK_DURABLES, true, false);
        } else {
          var j3 := FinalPhase(j2, w, refused, dlqStarts);
          FinalPhaseAdds(j2, w, refused, dlqStarts);
          AddsCompose(j0, j2, j3, w, refused, EARLY_DURABLES + WORK_DURABLES, LATE_DURABLES);
          AttachedByFields(w, refused, j3, EARLY_DURABLES + WORK_DURABLES + LATE_DURABLES, true, true);
        }
      }
    }
  }

  lemma NothingAttached(w: Wiring, refused: set<Durable>)
    ensures EarlyAttached(w, refused, [], false) && WorkAttached(w, refused, [], false)
    ensures LateAttached(w, refused, [], false) && Distinct([])
  {
  }
}
