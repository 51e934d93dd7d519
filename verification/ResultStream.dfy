/** The interest-retention result stream driven by the consumer lifecycle: over
    every start-up, every failure pattern and every shutdown, each produced result
    is held for every wired result durable. */
module ResultStream {
  import opened ConsumerLifecycle

  datatype Producer = Evaluator | Orchestrator

  /** What is attached after a log of lifecycle actions. */
  datatype Hub = Hub(bound: set<Durable>, producers: set<Producer>)

  ghost function Apply(h: Hub, a: Action): Hub {
    match a
    case Bound(d) => Hub(h.bound + {d}, if d.EvaluateSvc? then h.producers + {Evaluator} else h.producers)
    case Closed(d) => Hub(h.bound - {d}, if d.EvaluateSvc? then h.producers - {Evaluator} else h.producers)
    case OrchestratorStarted => h.(producers := h.producers + {Orchestrator})
    case OrchestratorStopped => h.(producers := h.producers - {Orchestrator})
    case _ => h
  }

  ghost function Replay(log: seq<Action>): Hub {
    if log == [] then Hub({}, {}) else Apply(Replay(log[..|log| - 1]), log[|log| - 1])
  }

  /** Nothing is produced unless every durable of `needed`, and at least one, is
      bound. */
  ghost predicate Safe(needed: set<Durable>, h: Hub) {
    h.producers != {} ==> needed != {} && needed <= h.bound
  }

  ghost predicate SafeLog(needed: set<Durable>, log: seq<Action>) {
    forall k {:trigger log[..k]} :: 0 <= k <= |log| ==> Safe(needed, Replay(log[..k]))
  }

  lemma ReplayNext(log: seq<Action>, a: Action)
    ensures Replay(log + [a]) == Apply(Replay(log), a)
  {
    assert (log + [a])[..|log|] == log;
  }

  lemma SafeNext(needed: set<Durable>, log: seq<Action>, a: Action)
    requires SafeLog(needed, log) && Safe(needed, Apply(Replay(log), a))
    ensures SafeLog(needed, log + [a])
  {
    ReplayNext(log, a);
    var next := log + [a];
    forall k | 0 <= k <= |next| ensures Safe(needed, Replay(next[..k])) {
      if k <= |log| {
        assert next[..k] == log[..k];
      } else {
        assert next[..k] == next;
      }
    }
  }

  // ----- journals in start order -----------------------------------------------

  /** The position of a subscription in the start-up sequence. */
  ghost function Order(d: Durable): nat {
    match d
    case ManagementPersist => 0 case EducationTrigger => 1 case FeedbackPersist => 2 case IngestionAction => 3
    case EvaluateSvc => 4
    case ActionLabel => 5 case ActionBanner => 6 case ActionUrlRewrite => 7 case ActionQuarantine => 8
    case EducationSim => 9 case EducationSimTrack => 10 case IngestionOnboard => 11
    case QuarantineRelease => 12 case CommHistoryUpdate => 13 case Escalation => 14
    case SocResolution => 15 case WebhookRetrier => 16
  }

  ghost function Elements(subs: seq<Durable>): set<Durable> {
    set d | d in subs
  }

  /** Tracked subscriptions are in start order and all before position `n`. */
  ghost predicate InOrder(subs: seq<Durable>, n: nat) {
    && (forall i :: 0 <= i < |subs| ==> Order(subs[i]) < n)
    && (forall i, j :: 0 <= i < j < |subs| ==> Order(subs[i]) < Order(subs[j]))
  }

  /** The journal tracks exactly what is attached, in order, and was safe at every
      point of its log. */
  ghost predicate Tidy(w: Wiring, j: Journal, n: nat) {
    var h := Replay(j.log);
    && h.bound == Elements(j.subs)
    && (Evaluator in h.producers <==> EvaluateSvc in j.subs)
    && (Orchestrator in h.producers ==> w.batchOrch)
    && InOrder(j.subs, n)
    && SafeLog(WiredResults(w), j.log)
    && Safe(WiredResults(w), h)
  }

  lemma AttemptKeepsTidy(w: Wiring, refused: set<Durable>, j: Journal, d: Durable)
    requires Tidy(w, j, Order(d))
    requires d.EvaluateSvc? && Wired(w, d) ==> WiredResults(w) != {} && WiredResults(w) <= Elements(j.subs)
    ensures Tidy(w, Attempt(j, w, refused, d), Order(d) + 1)
    ensures Elements(j.subs) <= Elements(Attempt(j, w, refused, d).subs)
  {
    hide Replay, SafeLog, WiredResults, Wired, Order;
    if Wired(w, d) {
      if d in refused {
        ReplayNext(j.log, Refused(d));
        SafeNext(WiredResults(w), j.log, Refused(d));
      } else {
        BindKeepsTidy(w, j, d);
      }
    }
  }

  lemma BindKeepsTidy(w: Wiring, j: Journal, d: Durable)
    requires Tidy(w, j, Order(d))
    requires d.EvaluateSvc? ==> WiredResults(w) != {} && WiredResults(w) <= Elements(j.subs)
    ensures Tidy(w, Journal(j.subs + [d], j.log + [Bound(d)]), Order(d) + 1)
    ensures Elements(j.subs) <= Elements(j.subs + [d])
  {
    hide Replay, SafeLog, WiredResults, Order;
    assert Elements(j.subs + [d]) == Elements(j.subs) + {d};
    ReplayNext(j.log, Bound(d));
    SafeNext(WiredResults(w), j.log, Bound(d));
    assert InOrder(j.subs + [d], Order(d) + 1);
  }

  /** What an attempt adds, and that only the evaluator starts producing. */
  lemma AttemptExtendsHub(w: Wiring, refused: set<Durable>, j: Journal, d: Durable)
    ensures var next := Attempt(j, w, refused, d);
            && Elements(next.subs) == Elements(j.subs) + (if Wired(w, d) && d !in refused then {d} else {})
            && (!d.EvaluateSvc? ==> Replay(next.log).producers == Replay(j.log).producers)
  {
    if Wired(w, d) {
      ReplayNext(j.log, if d in refused then Refused(d) else Bound(d));
    }
  }

  lemma NothingIsTidy(w: Wiring)
    ensures Tidy(w, Journal([], []), 0)
  {
  }

  /** After the result phase every wired, unrefused result durable is bound and
      nothing produces yet. */
  lemma ResultPhaseBinds(w: Wiring, refused: set<Durable>)
    ensures var j := ResultPhase(Journal([], []), w, refused);
            && Tidy(w, j, 4)
            && (forall d :: d in WiredResults(w) && d !in refused ==> d in Elements(j.subs))
            && Replay(j.log).producers == {}
  {
    hide Tidy, Attempt;
    var j0 := Journal([], []);
    NothingIsTidy(w);
    AttemptKeepsTidy(w, refused, j0, ManagementPersist);
    AttemptExtendsHub(w, refused, j0, ManagementPersist);
    var j1 := Attempt(j0, w, refused, ManagementPersist);
    AttemptKeepsTidy(w, refused, j1, EducationTrigger);
    AttemptExtendsHub(w, refused, j1, EducationTrigger);
    var j2 := Attempt(j1, w, refused, EducationTrigger);
    AttemptKeepsTidy(w, refused, j2, FeedbackPersist);
    AttemptExtendsHub(w, refused, j2, FeedbackPersist);
    var j3 := Attempt(j2, w, refused, FeedbackPersist);
    AttemptKeepsTidy(w, refused, j3, IngestionAction);
    AttemptExtendsHub(w, refused, j3, IngestionAction);
  }

  lemma WorkPhaseKeepsTidy(w: Wiring, refused: set<Durable>, j: Journal)
    requires Tidy(w, j, 4)
    requires Wired(w, EvaluateSvc) ==> WiredResults(w) != {} && WiredResults(w) <= Elements(j.subs)
    ensures Tidy(w, WorkPhase(j, w, refused), 15)
    ensures Elements(j.subs) <= Elements(WorkPhase(j, w, refused).subs)
  {
    hide Tidy, Attempt, Wired, Elements;
    AttemptKeepsTidy(w, refused, j, EvaluateSvc);
    var j1 := Attempt(j, w, refused, EvaluateSvc);
    AttemptKeepsTidy(w, refused, j1, ActionLabel);
    var j2 := Attempt(j1, w, refused, ActionLabel);
    AttemptKeepsTidy(w, refused, j2, ActionBanner);
    var j3 := Attempt(j2, w, refused, ActionBanner);
    AttemptKeepsTidy(w, refused, j3, ActionUrlRewrite);
    var j4 := Attempt(j3, w, refused, ActionUrlRewrite);
    AttemptKeepsTidy(w, refused, j4, ActionQuarantine);
    var j5 := Attempt(j4, w, refused, ActionQuarantine);
    AttemptKeepsTidy(w, refused, j5, EducationSim);
    var j6 := Attempt(j5, w, refused, EducationSim);
    AttemptKeepsTidy(w, refused, j6, EducationSimTrack);
    var j7 := Attempt(j6, w, refused, EducationSimTrack);
    AttemptKeepsTidy(w, refused, j7, IngestionOnboard);
    var j8 := Attempt(j7, w, refused, IngestionOnboard);
    AttemptKeepsTidy(w, refused, j8, QuarantineRelease);
    var j9 := Attempt(j8, w, refused, QuarantineRelease);
    AttemptKeepsTidy(w, refused, j9, CommHistoryUpdate);
    var j10 := Attempt(j9, w, refused, CommHistoryUpdate);
    AttemptKeepsTidy(w, refused, j10, Escalation);
  }

  lemma RecordKeepsTidy(w: Wiring, j: Journal, n: nat, a: Action)
    requires Tidy(w, j, n)
    requires a.DlqStarted? || a.DlqStopped? || a.OrchestratorStopped?
             || (a.OrchestratorStarted? && w.batchOrch && WiredResults(w) != {} && WiredResults(w) <= Elements(j.subs))
    ensures Tidy(w, Record(j, a), n)
    ensures a.OrchestratorStopped? ==> Orchestrator !in Replay(Record(j, a).log).producers
    ensures Orchestrator !in Replay(j.log).producers && !a.OrchestratorStarted?
            ==> Orchestrator !in Replay(Record(j, a).log).producers
  {
    ReplayNext(j.log, a);
    SafeNext(WiredResults(w), j.log, a);
  }

  lemma FinalPhaseKeepsTidy(w: Wiring, refused: set<Durable>, dlqStarts: bool, j: Journal)
    requires Tidy(w, j, 15)
    requires w.batchOrch ==> WiredResults(w) != {} && WiredResults(w) <= Elements(j.subs)
    ensures Tidy(w, FinalPhase(j, w, refused, dlqStarts), 17)
  {
    hide Tidy, Attempt, Elements;
    AttemptKeepsTidy(w, refused, j, SocResolution);
    var j1 := Attempt(j, w, refused, SocResolution);
    AttemptKeepsTidy(w, refused, j1, WebhookRetrier);
    var j2 := Attempt(j1, w, refused, WebhookRetrier);
    if w.batchOrch { RecordKeepsTidy(w, j2, 17, OrchestratorStarted); }
    var j3 := if w.batchOrch then Record(j2, OrchestratorStarted) else j2;
    if dlqStarts { RecordKeepsTidy(w, j3, 17, DlqStarted); }
  }

  lemma TidyWeakens(w: Wiring, j: Journal, n: nat, m: nat)
    requires Tidy(w, j, n) && n <= m
    ensures Tidy(w, j, m)
  {
  }

  /** For every wiring and every pattern of refused subscriptions, start-up is safe
      at every point. */
  lemma StartIsTidy(w: Wiring, refused: set<Durable>, dlqStarts: bool)
    ensures Tidy(w, StartJournal(w, refused, dlqStarts), 17)
  {
    hide Tidy, Attempt, ResultPhase, WorkPhase, FinalPhase, Elements, WiredResults;
    NothingIsTidy(w);
    ResultPhaseBinds(w, refused);
    var j1 := ResultPhase(Journal([], []), w, refused);
    if !w.bus {
      TidyWeakens(w, Journal([], []), 0, 17);
    } else if !MayProduce(w, refused) {
      TidyWeakens(w, j1, 4, 17);
    } else {
      WorkPhaseKeepsTidy(w, refused, j1);
      var j2 := WorkPhase(j1, w, refused);
      TidyWeakens(w, j2, 15, 17);
      FinalPhaseKeepsTidy(w, refused, dlqStarts, j2);
    }
  }

  /** Closing in reverse order keeps every point safe: the evaluator goes before
      any result durable does. */
  lemma {:induction false} CloseAllIsSafe(w: Wiring, j: Journal, n: nat)
    requires Tidy(w, j, n) && Orchestrator !in Replay(j.log).producers
    ensures SafeLog(WiredResults(w), CloseAll(j).log)
    ensures j.log <= CloseAll(j).log
    ensures CloseAll(j).subs == [] && Replay(CloseAll(j).log) == Hub({}, {})
    decreases |j.subs|
  {
    if j.subs != [] {
      var k := |j.subs| - 1;
      var next := Journal(j.subs[..k], j.log + [Closed(j.subs[k])]);
      CloseLastKeepsTidy(w, j, n);
      CloseAllIsSafe(w, next, n);
    } else {
      var h := Replay(j.log);
      assert h.bound == {};
      assert forall p :: p in h.producers ==> p == Evaluator || p == Orchestrator;
      assert h.producers == {};
    }
  }

  lemma CloseLastKeepsTidy(w: Wiring, j: Journal, n: nat)
    requires Tidy(w, j, n) && Orchestrator !in Replay(j.log).producers && j.subs != []
    ensures var k := |j.subs| - 1;
            var next := Journal(j.subs[..k], j.log + [Closed(j.subs[k])]);
            Tidy(w, next, n) && Orchestrator !in Replay(next.log).producers
  {
    hide Replay, SafeLog, Safe, Order, WiredResults;
    var k := |j.subs| - 1;
    var d := j.subs[k];
    var rest := j.subs[..k];
    assert j.subs == rest + [d] && d !in rest;
    assert Elements(rest) == Elements(j.subs) - {d};
    CloseLastIsSafe(w, j, n);
    ReplayNext(j.log, Closed(d));
    SafeNext(WiredResults(w), j.log, Closed(d));
  }

  /** A result durable is the last one open only after the evaluator is gone. */
  lemma CloseLastIsSafe(w: Wiring, j: Journal, n: nat)
    requires Tidy(w, j, n) && Orchestrator !in Replay(j.log).producers && j.subs != []
    ensures Safe(WiredResults(w), Apply(Replay(j.log), Closed(j.subs[|j.subs| - 1])))
  {
    hide Replay, SafeLog;
    var k := |j.subs| - 1;
    var d := j.subs[k];
    var after := Apply(Replay(j.log), Closed(d));
    if after.producers != {} {
      var p :| p in after.producers;
      assert p == Evaluator && !d.EvaluateSvc?;
      var e :| 0 <= e < |j.subs| && j.subs[e] == EvaluateSvc;
      assert Order(j.subs[e]) < Order(d);
    }
  }

  lemma NoOrchestrator(w: Wiring, j: Journal, n: nat)
    requires Tidy(w, j, n) && !w.batchOrch
    ensures Orchestrator !in Replay(j.log).producers
  {
  }

  /** The whole life of the process, start-up followed by shutdown, is safe at
      every point, whatever is wired and whatever was refused. */
  lemma LifecycleIsSafe(w: Wiring, refused: set<Durable>, dlqStarts: bool, dlqRunning: bool)
    ensures var j := StartJournal(w, refused, dlqStarts);
            && j.log <= StopJournal(j, w.batchOrch, dlqRunning).log
            && SafeLog(WiredResults(w), StopJournal(j, w.batchOrch, dlqRunning).log)
  {
    hide Tidy, StartJournal;
    var j := StartJournal(w, refused, dlqStarts);
    StartIsTidy(w, refused, dlqStarts);
    var j1 := if dlqRunning then Record(j, DlqStopped) else j;
    if dlqRunning { RecordKeepsTidy(w, j, 17, DlqStopped); }
    var j2 := if w.batchOrch then Record(j1, OrchestratorStopped) else j1;
    if w.batchOrch {
      RecordKeepsTidy(w, j1, 17, OrchestratorStopped);
    } else {
      assert Orchestrator !in Replay(j1.log).producers by { NoOrchestrator(w, j1, 17); }
    }
    CloseAllIsSafe(w, j2, 17);
  }

  /** Shutdown undoes start-up, whatever was wired and refused: nothing is bound or
      tracked, nothing produces, and a DLQ processor that was started is stopped. */
  lemma StopUndoesStart(w: Wiring, refused: set<Durable>, dlqStarts: bool)
    ensures var j := StartJournal(w, refused, dlqStarts);
            var dlqRunning := DlqStarted in j.log;
            var n := StopJournal(j, w.batchOrch, dlqRunning);
            && n.subs == [] && Replay(n.log) == Hub({}, {})
            && (dlqRunning ==> |n.log| > |j.log| && n.log[|j.log|] == DlqStopped)
  {
    hide Tidy, StartJournal, Replay;
    var j := StartJournal(w, refused, dlqStarts);
    var dlqRunning := DlqStarted in j.log;
    var j1 := if dlqRunning then Record(j, DlqStopped) else j;
    var j2 := if w.batchOrch then Record(j1, OrchestratorStopped) else j1;
    StartIsTidy(w, refused, dlqStarts);
    if dlqRunning { RecordKeepsTidy(w, j, 17, DlqStopped); }
    if w.batchOrch {
      RecordKeepsTidy(w, j1, 17, OrchestratorStopped);
    } else {
      NoOrchestrator(w, j1, 17);
    }
    CloseAllIsSafe(w, j2, 17);
  }

  // ----- what the checkpoints do and do not prevent -------------------------------

  /** If a wired result durable is refused, or a producer has no result durable at
      all, nothing ever produces. */
  lemma RefusalStartsNoProducer(w: Wiring, refused: set<Durable>, dlqStarts: bool)
    requires !MayProduce(w, refused)
    ensures Replay(StartJournal(w, refused, dlqStarts).log).producers == {}
  {
    ResultPhaseBinds(w, refused);
  }

  /** Closing appends one action per subscription, in reverse. */
  lemma {:induction false} CloseAllAt(j: Journal, x: nat)
    ensures var log := CloseAll(j).log;
            && |log| == |j.log| + |j.subs|
            && (x < |log| ==> log[x] == if x < |j.log| then j.log[x] else Closed(j.subs[|log| - 1 - x]))
    decreases |j.subs|
  {
    if j.subs != [] {
      var n := |j.subs| - 1;
      CloseAllAt(Journal(j.subs[..n], j.log + [Closed(j.subs[n])]), x);
    }
  }

  /** Shutdown closes the evaluator before each result subscription. */
  lemma StopClosesEvaluatorFirst(
      w: Wiring, refused: set<Durable>, dlqStarts: bool, dlqRunning: bool, r: Durable, x: nat, y: nat)
    requires var j := StartJournal(w, refused, dlqStarts);
             var log := StopJournal(j, w.batchOrch, dlqRunning).log;
             |j.log| <= x < |log| && |j.log| <= y < |log| && log[x] == Closed(EvaluateSvc) && log[y] == Closed(r)
    requires IsResult(r)
    ensures x < y
  {
    hide StartJournal, Replay, SafeLog;
    var j := StartJournal(w, refused, dlqStarts);
    StartIsTidy(w, refused, dlqStarts);
    var j1 := if dlqRunning then Record(j, DlqStopped) else j;
    var j2 := if w.batchOrch then Record(j1, OrchestratorStopped) else j1;
    CloseOrder(j2, 17, r, x, y);
  }

  lemma CloseOrder(j: Journal, n: nat, r: Durable, x: nat, y: nat)
    requires InOrder(j.subs, n) && IsResult(r)
    requires var log := CloseAll(j).log;
             x < |log| && y < |log| && log[x] == Closed(EvaluateSvc) && log[y] == Closed(r)
    requires forall z :: 0 <= z < |j.log| && (z == x || z == y) ==> !j.log[z].Closed?
    ensures x < y
  {
    hide CloseAll, Order;
    CloseAllAt(j, x);
    CloseAllAt(j, y);
    var last := |j.log| + |j.subs| - 1;
    assert j.subs[last - x] == EvaluateSvc && j.subs[last - y] == r;
    EvaluatorComesAfterResults(r);
  }

  lemma EvaluatorComesAfterResults(r: Durable)
    requires IsResult(r)
    ensures Order(r) < Order(EvaluateSvc)
  {
  }

  /** A successful start leaves every wired producer running. */
  lemma SuccessStartsProducers(w: Wiring, refused: set<Durable>, dlqStarts: bool)
    requires w.bus && Succeeds(w, refused)
    ensures var h := Replay(StartJournal(w, refused, dlqStarts).log);
            && (w.evaluator && !w.batchOrch ==> Evaluator in h.producers)
            && (w.batchOrch ==> Orchestrator in h.producers)
  {
    hide Tidy, ResultPhase, WorkPhase, Attempt, Replay;
    var j1 := ResultPhase(Journal([], []), w, refused);
    var j2 := WorkPhase(j1, w, refused);
    EvaluatorStaysBound(w, refused, j1);
    var j3 := Attempt(j2, w, refused, SocResolution);
    AttemptExtends(w, refused, j2, SocResolution);
    var j4 := Attempt(j3, w, refused, WebhookRetrier);
    AttemptExtends(w, refused, j3, WebhookRetrier);
    ReplayNext(j4.log, OrchestratorStarted);
    var j5 := if w.batchOrch then Record(j4, OrchestratorStarted) else j4;
    ReplayNext(j5.log, DlqStarted);
    StartIsTidy(w, refused, dlqStarts);
    if w.evaluator && !w.batchOrch {
      EvaluatorProduces(w, StartJournal(w, refused, dlqStarts), 17);
    }
  }

  lemma EvaluatorProduces(w: Wiring, j: Journal, n: nat)
    requires Tidy(w, j, n) && EvaluateSvc in j.subs
    ensures Evaluator in Replay(j.log).producers
  {
  }

  lemma AttemptExtends(w: Wiring, refused: set<Durable>, j: Journal, d: Durable)
    ensures forall x :: x in j.subs ==> x in Attempt(j, w, refused, d).subs
    ensures Wired(w, d) && d !in refused ==> d in Attempt(j, w, refused, d).subs
  {
  }

  lemma EvaluatorStaysBound(w: Wiring, refused: set<Durable>, j: Journal)
    requires MayFinish(w, refused)
    ensures Wired(w, EvaluateSvc) ==> EvaluateSvc in WorkPhase(j, w, refused).subs
  {
  }

  // ----- the stream ----------------------------------------------------------------

  const MAX_DELIVER: nat := 3

  /** What one durable has made of one result. */
  datatype Copy = Pending(tries: nat) | Acked | Exhausted

  /** An accepted result: its message id and time of acceptance, the copies held for the
      durables bound then, and whether the stream still stores it. */
  datatype Result = Result(id: string, at: nat, copies: map<Durable, Copy>, stored: bool)

  /** How much of the lifecycle log has happened, the clock, every result ever accepted,
      and the message id of every publication. */
  datatype World = World(pc: nat, clock: nat, results: seq<Result>, published: seq<string>)

  ghost function Accepted(h: Hub, id: string, at: nat): Result {
    Result(id, at, map d | d in h.bound && d in RESULT_DURABLES :: Pending(0), true)
  }

  /** The stream remembers the ids it accepted within the window. */
  ghost predicate Duplicate(s: World, window: nat, id: string) {
    exists i :: 0 <= i < |s.results| && s.results[i].id == id && s.clock <= s.results[i].at + window
  }

  /** A publication: a duplicate is dropped without an error. */
  ghost function Published(s: World, h: Hub, window: nat, id: string): World {
    var t := s.(published := s.published + [id]);
    if Duplicate(s, window, id) then t else t.(results := s.results + [Accepted(h, id, s.clock)])
  }

  ghost function Settle(c: Copy, ok: bool): Copy
    requires c.Pending?
  {
    if ok then Acked else if c.tries + 1 < MAX_DELIVER then Pending(c.tries + 1) else Exhausted
  }

  ghost predicate Deliverable(r: Result, d: Durable) {
    r.stored && d in r.copies && r.copies[d].Pending?
  }

  ghost function Delivered(r: Result, d: Durable, ok: bool): Result
    requires Deliverable(r, d)
  {
    r.(copies := r.copies[d := Settle(r.copies[d], ok)])
  }

  ghost predicate Freeable(r: Result) {
    forall d :: d in r.copies ==> !r.copies[d].Pending?
  }

  /** A lifecycle action, the passing of time, a publication by an active producer, a
      delivery attempt, or the stream freeing a result nobody is interested in any more. */
  ghost predicate Next(log: seq<Action>, window: nat, s: World, t: World)
    requires s.pc <= |log|
  {
    var h := Replay(log[..s.pc]);
    || (s.pc < |log| && t == s.(pc := s.pc + 1))
    || (s.clock <= t.clock && t == s.(clock := t.clock))
    || (h.producers != {} && exists id :: t == Published(s, h, window, id))
    || (exists i, d, ok: bool ::
          && 0 <= i < |s.results| && Deliverable(s.results[i], d) && d in h.bound
          && t == s.(results := s.results[i := Delivered(s.results[i], d, ok)]))
    || (exists i ::
          && 0 <= i < |s.results| && Freeable(s.results[i])
          && t == s.(results := s.results[i := s.results[i].(stored := false)]))
  }

  ghost predicate Run(log: seq<Action>, window: nat, run: seq<World>) {
    && run != [] && run[0] == World(0, 0, [], [])
    && (forall k :: 0 <= k < |run| ==> run[k].pc <= |log|)
    && (forall k :: 0 <= k < |run| - 1 ==> Next(log, window, run[k], run[k + 1]))
  }

  /** The result is pending (and still stored), acked or out of deliveries for
      every durable of `needed`. */
  ghost predicate Held(needed: set<Durable>, r: Result) {
    forall d :: d in needed ==>
      d in r.copies && (r.copies[d].Pending? ==> r.stored && r.copies[d].tries < MAX_DELIVER)
  }

  /** Every accepted result is held. */
  ghost predicate AllHeld(needed: set<Durable>, s: World) {
    forall i :: 0 <= i < |s.results| ==> Held(needed, s.results[i])
  }

  ghost predicate HasResult(s: World, id: string) {
    exists i :: 0 <= i < |s.results| && s.results[i].id == id
  }

  /** Every publication is accounted for by an accepted result of its message id. */
  ghost predicate AllAccounted(s: World) {
    forall p :: 0 <= p < |s.published| ==> HasResult(s, s.published[p])
  }

  lemma StepHolds(needed: set<Durable>, log: seq<Action>, window: nat, s: World, t: World)
    requires needed <= RESULT_DURABLES && s.pc <= |log|
    requires SafeLog(needed, log) && Next(log, window, s, t) && AllHeld(needed, s)
    ensures AllHeld(needed, t)
  {
    hide Replay, Duplicate;
    var h := Replay(log[..s.pc]);
    assert Safe(needed, h);
    if h.producers != {} {
      assert forall id :: Held(needed, Accepted(h, id, s.clock));
    }
  }

  /** Results are only added, and keep their ids. */
  ghost predicate KeepsIds(s: World, t: World) {
    |s.results| <= |t.results| && forall i :: 0 <= i < |s.results| ==> t.results[i].id == s.results[i].id
  }

  lemma KeptIdsAreFound(s: World, t: World, id: string)
    requires KeepsIds(s, t) && HasResult(s, id)
    ensures HasResult(t, id)
  {
    var i :| 0 <= i < |s.results| && s.results[i].id == id;
    assert t.results[i].id == id;
  }

  lemma PublishedIsThere(s: World, h: Hub, window: nat, id: string)
    ensures HasResult(Published(s, h, window, id), id)
  {
    var t := Published(s, h, window, id);
    if !Duplicate(s, window, id) {
      assert t.results[|s.results|].id == id;
    }
  }

  lemma StepAccounts(log: seq<Action>, window: nat, s: World, t: World)
    requires s.pc <= |log| && Next(log, window, s, t) && AllAccounted(s)
    ensures AllAccounted(t)
  {
    hide Replay, Duplicate, HasResult;
    var h := Replay(log[..s.pc]);
    assert KeepsIds(s, t);
    forall p | 0 <= p < |t.published| ensures HasResult(t, t.published[p]) {
      if p < |s.published| {
        assert t.published[p] == s.published[p];
        KeptIdsAreFound(s, t, s.published[p]);
      } else {
        var id :| t == Published(s, h, window, id);
        PublishedIsThere(s, h, window, id);
      }
    }
  }

  /** No result is lost: in every run of the whole lifecycle, under every wiring,
      failure pattern and interleaving, each publication has an accepted result of its
      message id, and each accepted result is held for each wired result durable. */
  lemma {:induction false} NoResultIsLost(
      w: Wiring, refused: set<Durable>, dlqStarts: bool, dlqRunning: bool, window: nat, run: seq<World>, k: nat)
    requires Run(StopJournal(StartJournal(w, refused, dlqStarts), w.batchOrch, dlqRunning).log, window, run)
    requires k < |run|
    ensures AllHeld(WiredResults(w), run[k]) && AllAccounted(run[k])
  {
    hide StartJournal, StopJournal, Next, AllHeld, AllAccounted;
    var log := StopJournal(StartJournal(w, refused, dlqStarts), w.batchOrch, dlqRunning).log;
    if k == 0 {
      NothingProducedYet(WiredResults(w));
    } else {
      NoResultIsLost(w, refused, dlqStarts, dlqRunning, window, run, k - 1);
      LifecycleIsSafe(w, refused, dlqStarts, dlqRunning);
      assert Next(log, window, run[k - 1], run[k - 1 + 1]);
      StepHolds(WiredResults(w), log, window, run[k - 1], run[k]);
      StepAccounts(log, window, run[k - 1], run[k]);
    }
  }

  lemma NothingProducedYet(needed: set<Durable>)
    ensures AllHeld(needed, World(0, 0, [], [])) && AllAccounted(World(0, 0, [], []))
  {
  }
}
