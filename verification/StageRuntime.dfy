/** The stage finisher: verification of a stage result and its typed hand-off. */
module StageRuntime {
  import opened Prelude
  import opened ActiveResults

  /** The identity of the work a stage was bound to when it started. */
  datatype Bound = Bound(sessionId: string, stageId: string, workflowFingerprint: string, nodeFingerprint: string) {
    predicate Valid() {
      sessionId != "" && stageId != "" && IsDigest(workflowFingerprint) && IsDigest(nodeFingerprint)
    }
  }

  predicate ValidObservations(obs: seq<Observation>) {
    forall o | o in obs :: o.Valid()
  }

  /** The last unsuccessful observation. */
  function LastFailure(obs: seq<Observation>): (r: Option<Observation>)
    ensures r.Some? ==> r.value in obs && !r.value.success
    ensures r.None? <==> forall o | o in obs :: o.success
    decreases |obs|
  {
    if obs == [] then None
    else
      var last := obs[|obs| - 1];
      if !last.success then Some(last)
      else
        assert forall o | o in obs :: o in obs[..|obs| - 1] || o == last;
        LastFailure(obs[..|obs| - 1])
  }

  function FailureKind(o: Observation): EscalationKind {
    if o.category in {ApprovalRequired, ApprovalRejected, ApprovalInvalid, ApprovalExpired} then ApprovalKind
    else if o.category.PolicyDenial? || o.status.RanDenied? then PolicyKind
    else if o.category.MissingDependency? then DependencyKind
    else if o.category.TelemetryFailure? then SafetyKind
    else if o.category.Cancellation? || o.status.RanCancelled? then CancellationKind
    else if o.category.TimedOut? || o.status.RanTimeout? then TimeoutKind
    else ExecutionKind
  }

  /** `_classify_escalation`. */
  function Classify(outcome: Outcome, obs: seq<Observation>, forced: Option<EscalationKind>): Option<Escalation> {
    if outcome.Completed? then None
    else
      var failed := LastFailure(obs);
      if forced.Some? then Some(Escalation(forced.value, if failed.Some? then failed.value.requestId else ""))
      else if failed.Some? then Some(Escalation(FailureKind(failed.value), failed.value.requestId))
      else Some(Escalation(
        match outcome
          case NeedsReplan => VerificationKind
          case Blocked => BudgetKind
          case _ => ExecutionKind, ""))
  }

  function RedactAll(redact: string -> string, cs: seq<Criterion>): seq<Criterion> {
    seq(|cs|, i requires 0 <= i < |cs| => if cs[i].Told? then Told(redact(cs[i].text)) else cs[i])
  }

  /** Model validation: an invalid result raises instead of being built. */
  function Checked(r: StageResult): Result<StageResult> {
    if (r.active.Some? ==> r.active.value.Valid()) && r.Valid() then Ok(r) else Raised
  }

  /** The reported result with its counts, evidence and texts replaced by governed ones. */
  function Governed(r: StageResult, obs: seq<Observation>, redact: string -> string): StageResult {
    r.(successfulActions := CountSuccess(obs), evidence := Links(obs), final := redact(r.final),
       summary := redact(r.summary), error := redact(r.error),
       failedCriteria := RedactAll(redact, r.failedCriteria), active := None)
  }

  function EnvelopeChanged(r: StageResult): StageResult {
    r.(success := false, outcome := Blocked,
       error := "active stage envelope changed; review required", failedCriteria := [])
  }

  function GateUnmet(r: StageResult, failures: seq<Criterion>): StageResult {
    r.(success := false, outcome := NeedsReplan,
       error := "stage completion gate unmet", failedCriteria := failures)
  }

  lemma UnsuccessfulFails(g: Gate, r: StageResult, obs: seq<Observation>)
    ensures !r.success ==> GateFailures(g, r, obs) != []
  {
    if !r.success {
      assert GateFailures(g, r, obs)[0] == Told(if r.error != "" then r.error else "stage executor reported failure");
    }
  }

  // ---- From a governed call to an observation ----

  /** What the normalised value of a file read holds: entries of the expected type only. */
  datatype ReadSummary = ReadSummary(sha: Option<string>, size: Option<int>, path: Option<string>)

  /** A coordinated call. `valueSucceeded` is false when its value carries a success other than True. */
  datatype CallResult = CallResult(
    requestId: string, capability: string, provider: string, status: RunStatus, success: bool, valueSucceeded: bool,
    category: Category, evidence: Option<EvidenceLink>, read: Option<ReadSummary>)
  {
    predicate Succeeded() { status.RanSuccess? && success && valueSucceeded }

    /** What the coordinator gives: named calls, and evidence with an id and a digest. */
    predicate WellFormed() {
      && IsName(requestId) && IsName(capability) && IsName(provider)
      && (evidence.Some? ==> IsName(evidence.value.id) && IsDigest(evidence.value.sha256))
    }

    /** A successful read of a file whose size no observation can carry. */
    predicate TooLarge() {
      && capability == "file_read" && Succeeded()
      && read.Some? && read.value.size.Some? && read.value.size.value > MAX_FILE_SIZE
    }
  }

  const NO_SIGNALS := Signals(None, None, None)

  /** `fingerprint` is the digest of a resolved path, where the path can be resolved. */
  function ReadSignals(read: ReadSummary, fingerprint: string -> Option<string>): Signals {
    Signals(if read.sha.Some? && IsDigest(read.sha.value) then read.sha else None,
            if read.path.Some? && read.path.value != "" && '\0' !in read.path.value
            then fingerprint(read.path.value) else None,
            if read.size.Some? && read.size.value >= 0 then Some(read.size.value) else None)
  }

  /** `_project_observation`, before its validation. */
  function Projected(c: CallResult, fingerprint: string -> Option<string>): Observation {
    Observation(
      c.requestId, c.capability, c.provider, c.status, c.Succeeded(), c.category,
      if c.evidence.Some? then c.evidence.value.id else "", if c.evidence.Some? then c.evidence.value.sha256 else "",
      if c.capability == "file_read" && c.Succeeded() && c.read.Some?
      then ReadSignals(c.read.value, fingerprint) else NO_SIGNALS)
  }

  /** The observation of a call is valid, unless the call read a file too large to be described; it
      is protected exactly when the call fully succeeded with evidence, and speaks of a file only
      when it is a successful read. */
  lemma ProjectionMeans(c: CallResult, fingerprint: string -> Option<string>)
    requires c.WellFormed() && forall p :: fingerprint(p).Some? ==> IsDigest(fingerprint(p).value)
    ensures var o := Projected(c, fingerprint);
            && (o.Valid() <==> !c.TooLarge())
            && (o.Protected() <==> c.Succeeded() && c.evidence.Some?)
            && (o.signals != NO_SIGNALS ==> o.capability == "file_read" && o.success)
  {}

  /** The observation repeats the call: its names, status and category; it is a success only of a
      call that ran, succeeded and returned no failure; it carries the call's evidence, and of a
      successful read the well-formed digest, the size and the fingerprint of the path. */
  lemma ProjectionRepeats(c: CallResult, fingerprint: string -> Option<string>)
    ensures var o := Projected(c, fingerprint);
            && o.requestId == c.requestId && o.capability == c.capability && o.provider == c.provider
            && o.status == c.status && o.category == c.category
            && (o.success <==> c.status == RanSuccess && c.success && c.valueSucceeded)
            && (c.evidence.Some? ==>
                  o.evidenceId == c.evidence.value.id && o.evidenceHash == c.evidence.value.sha256)
            && (c.evidence.None? ==> o.evidenceId == "" && o.evidenceHash == "")
            && (o.success && o.capability == "file_read" && c.read.Some? ==>
                  && (forall sha :: o.signals.fileSha == Some(sha) <==> c.read.value.sha == Some(sha) && IsDigest(sha))
                  && (forall n: nat :: o.signals.sizeBytes == Some(n) <==> c.read.value.size == Some(n))
                  && (forall sha :: o.signals.pathSha == Some(sha) <==>
                        && c.read.value.path.Some? && c.read.value.path.value != ""
                        && '\0' !in c.read.value.path.value
                        && fingerprint(c.read.value.path.value) == Some(sha)))
  {}

  /** Bound context, working observations and verification of one stage. */
  class ActiveStageRuntime {
    const bound: Bound
    const gate: Gate
    /** The rendered envelope of the task at the start. */
    const material: string
    var observations: seq<Observation>

    constructor (bound: Bound, gate: Gate, material: string)
      ensures this.bound == bound && this.gate == gate && this.material == material && observations == []
    {
      this.bound, this.gate, this.material, observations := bound, gate, material, [];
    }

    /** Project a governed call and keep it; an invalid observation raises and nothing is kept. */
    method Record(c: CallResult, fingerprint: string -> Option<string>) returns (r: Result<Observation>)
      modifies this
      ensures r == if Projected(c, fingerprint).Valid() then Ok(Projected(c, fingerprint)) else Raised
      ensures observations == old(observations) + if r.Ok? then [r.value] else []
    {
      hide IsDigest;
      var o := Projected(c, fingerprint);
      if !o.Valid() {
        return Raised;
      }
      observations := observations + [o];
      return Ok(o);
    }

    /** `envelope` is the envelope rendered now, where it can be. */
    method Finish(reported: StageResult, envelope: Option<string>, attempts: Option<int>,
                  escalation: Option<EscalationKind>, redact: string -> string)
      returns (r: Result<StageResult>)
      requires reported.Valid()
      ensures r
          == Finished(bound, gate, observations, reported, envelope == Some(material), attempts, escalation, redact)
    {
      hide GateFailures, Links, CountSuccess, Handoff;
      var intact := envelope == Some(material);
      var result := Governed(reported, observations, redact);
      var kind := escalation;
      if !intact {
        result := EnvelopeChanged(result);
        kind := Some(MaterialChangeKind);
      }
      UnsuccessfulFails(gate, result, observations);
      var failures := GateFailures(gate, result, observations);
      assert failures + [] == failures;
      var verified := failures == [];
      if result.success && !AnyProtected(observations) {
        verified := false;
        failures := failures + [NoGovernedEvidence];
      }
      if result.success && !verified {
        result := GateUnmet(result, failures);
      }
      r := Handoff(bound, observations, result, verified, attempts, kind);
    }
  }

  /** The stage was accepted: reported as a success on an unchanged envelope, through the gate,
      with protected evidence. */
  predicate Accepted(gate: Gate, obs: seq<Observation>, reported: StageResult, intact: bool, redact: string -> string) {
    && intact && reported.success && AnyProtected(obs)
    && GatePasses(gate, Governed(reported, obs, redact), obs)
  }

  /** The verdict on a reported result: blocked, kept as it is, or sent back for replanning. */
  function Judged(gate: Gate, obs: seq<Observation>, reported: StageResult, intact: bool,
      redact: string -> string): StageResult
  {
    var governed := Governed(reported, obs, redact);
    if !intact then EnvelopeChanged(governed)
    else if !reported.success || Accepted(gate, obs, reported, intact, redact) then governed
    else GateUnmet(governed, GateFailures(gate, governed, obs) + When(!AnyProtected(obs), NoGovernedEvidence))
  }

  /** What `finish` computes. */
  function Finished(bound: Bound, gate: Gate, obs: seq<Observation>, reported: StageResult, intact: bool,
                    attempts: Option<int>, escalation: Option<EscalationKind>,
                    redact: string -> string): Result<StageResult>
    requires reported.Valid()
  {
    Handoff(bound, obs, Judged(gate, obs, reported, intact, redact), Accepted(gate, obs, reported, intact, redact),
            attempts, if intact then escalation else Some(MaterialChangeKind))
  }

  /** Attach the verified active part to a judged result and validate both. */
  function Handoff(bound: Bound, obs: seq<Observation>, result: StageResult, verified: bool,
                   attempts: Option<int>, kind: Option<EscalationKind>): Result<StageResult>
  {
    Checked(result.(active := Some(ActiveNodeResult(
      bound.sessionId, bound.stageId, bound.workflowFingerprint, bound.nodeFingerprint,
      result.outcome, verified, if attempts.None? then |obs| else attempts.value,
      obs, result.failedCriteria, Classify(result.outcome, obs, kind)))))
  }

  lemma {:induction false} ExecutedBounded(obs: seq<Observation>)
    ensures CountExecuted(obs) <= |obs|
    decreases |obs|
  {
    if obs != [] { ExecutedBounded(obs[1..]); }
  }

  /** An escalation is given exactly for an unfinished stage, and names a request that was observed. */
  lemma ClassifyRefers(outcome: Outcome, obs: seq<Observation>, forced: Option<EscalationKind>)
    ensures Classify(outcome, obs, forced).None? <==> outcome.Completed?
    ensures var e := Classify(outcome, obs, forced);
            e.Some? && e.value.requestId != "" ==> exists o | o in obs :: o.requestId == e.value.requestId
  {
    var failed := LastFailure(obs);
    if failed.Some? { assert failed.value in obs; }
  }

  lemma HandoffOkIff(bound: Bound, obs: seq<Observation>, result: StageResult, attempts: Option<int>,
      kind: Option<EscalationKind>)
    requires bound.Valid() && ValidObservations(obs)
    requires (result.success <==> result.outcome.Completed?) && (result.success ==> AnyProtected(obs))
    requires result.successfulActions == CountSuccess(obs) && result.evidence == Links(obs)
    ensures Handoff(bound, obs, result, result.success, attempts, kind).Ok? <==>
            && |obs| <= 32
            && (attempts.Some? ==> CountExecuted(obs) <= attempts.value <= 32)
            && (result.success ==> result.failedCriteria == [])
  {
    hide Links, CountSuccess, CountExecuted, IsDigest, Classify, AnyProtected;
    ExecutedBounded(obs);
    LinksAreObserved(obs);
    ClassifyRefers(result.outcome, obs, kind);
  }

  /** `finish` violates no validator, except in exactly these cases: too many observations,
      an attempt count out of range or below the executed observations, or failed criteria
      reported beside an accepted success. */
  lemma FinishRaisesIff(bound: Bound, gate: Gate, obs: seq<Observation>, reported: StageResult, intact: bool,
                        attempts: Option<int>, escalation: Option<EscalationKind>, redact: string -> string)
    requires reported.Valid() && bound.Valid() && ValidObservations(obs)
    ensures Finished(bound, gate, obs, reported, intact, attempts, escalation, redact).Ok? <==>
            && |obs| <= 32
            && (attempts.Some? ==> CountExecuted(obs) <= attempts.value <= 32)
            && (Accepted(gate, obs, reported, intact, redact) ==> reported.failedCriteria == [])
  {
    hide Links, CountSuccess, CountExecuted, Accepted, Judged, IsDigest, Handoff, AnyProtected, ValidObservations,
         Bound.Valid, StageResult.Valid;
    JudgedFacts(gate, obs, reported, intact, redact);
    HandoffOkIff(bound, obs, Judged(gate, obs, reported, intact, redact), attempts,
                 if intact then escalation else Some(MaterialChangeKind));
  }

  lemma JudgedFacts(gate: Gate, obs: seq<Observation>, reported: StageResult, intact: bool, redact: string -> string)
    requires reported.Valid()
    ensures var r := Judged(gate, obs, reported, intact, redact);
            && (r.success <==> r.outcome.Completed?) && (r.success <==> Accepted(gate, obs, reported, intact, redact))
            && (r.success ==> AnyProtected(obs))
            && r.successfulActions == CountSuccess(obs) && r.evidence == Links(obs)
            && (r.success ==> (r.failedCriteria == [] <==> reported.failedCriteria == []))
  {
    hide Links, CountSuccess, GateFailures, AnyProtected;
    assert |Governed(reported, obs, redact).failedCriteria| == |reported.failedCriteria|;
  }

  /** The hand-off is coherent: in whatever `finish` returns, success, the outcome COMPLETED and
      the passed gate are one and the same, the result and its active part satisfy their
      validators, and the active part carries the bound identity and the observations. */
  lemma FinishCoherent(bound: Bound, gate: Gate, obs: seq<Observation>, reported: StageResult, intact: bool,
                       attempts: Option<int>, escalation: Option<EscalationKind>, redact: string -> string)
    requires reported.Valid()
    requires Finished(bound, gate, obs, reported, intact, attempts, escalation, redact).Ok?
    ensures var r := Finished(bound, gate, obs, reported, intact, attempts, escalation, redact).value;
            && r.Valid() && r.active.Some? && r.active.value.Valid()
            && (r.success <==> r.outcome.Completed?)
            && (r.success <==> r.active.value.gatePassed)
            && (r.success <==> Accepted(gate, obs, reported, intact, redact))
            && r.active.value.outcome == r.outcome
            && r.active.value.observations == obs
            && Bound(r.active.value.sessionId, r.active.value.nodeId,
                     r.active.value.workflowFingerprint, r.active.value.nodeFingerprint) == bound
  {
    hide Links, CountSuccess, CountExecuted, GateFailures, LastFailure;
  }

  /** Judging the returned result again on its own stored observations gives the stored verdict,
      so a durable re-check of a finished stage never disagrees with it. */
  lemma FinishSurvivesRecheck(bound: Bound, gate: Gate, obs: seq<Observation>, reported: StageResult, intact: bool,
                              attempts: Option<int>, escalation: Option<EscalationKind>, redact: string -> string)
    requires reported.Valid()
    requires Finished(bound, gate, obs, reported, intact, attempts, escalation, redact).Ok?
    ensures var r := Finished(bound, gate, obs, reported, intact, attempts, escalation, redact).value;
            Check(gate, r, None) == [] <==> r.active.value.gatePassed
  {
    FinishCoherent(bound, gate, obs, reported, intact, attempts, escalation, redact);
    var r := Finished(bound, gate, obs, reported, intact, attempts, escalation, redact).value;
    if r.success {
      assert GateFailures(gate, r, obs) == GateFailures(gate, Governed(reported, obs, redact), obs);
    } else {
      UnsuccessfulFails(gate, r, obs);
    }
  }

  // ---- What the hand-off says, in terms of the report and the observations alone ----

  /** Some observation succeeded and has protected evidence. */
  predicate Evidenced(obs: seq<Observation>) {
    exists i :: 0 <= i < |obs| && obs[i].success && obs[i].evidenceId != "" && obs[i].evidenceHash != ""
  }

  /** One evidenced read of a file agrees with everything the gate expects of it. */
  predicate ReadAsExpected(g: Gate, obs: seq<Observation>) {
    exists i :: 0 <= i < |obs|
      && obs[i].success && obs[i].evidenceId != "" && obs[i].evidenceHash != "" && obs[i].capability == "file_read"
      && (g.expectedSha != "" ==> obs[i].signals.fileSha == Some(g.expectedSha))
      && (g.expectedPathSha != "" ==> obs[i].signals.pathSha == Some(g.expectedPathSha))
      && (g.expectedSize.Some? ==> obs[i].signals.sizeBytes == g.expectedSize)
  }

  lemma AcceptedMeans(gate: Gate, obs: seq<Observation>, reported: StageResult, intact: bool,
      redact: string -> string)
    requires gate.Valid()
    ensures Accepted(gate, obs, reported, intact, redact) <==>
            && intact && reported.success && Evidenced(obs)
            && (gate.requireFinal ==> !Blank(redact(reported.final)))
            && CountSuccess(obs) >= gate.minSuccessfulActions
            && (gate.expectedSha != "" || gate.expectedSize.Some? ==> ReadAsExpected(gate, obs))
  {
    hide CountSuccess, Links, IsDigest, GatePasses, Blank;
    GatePassesMeans(gate, Governed(reported, obs, redact), obs);
    EvidencedIff(obs);
    if exists o | o in obs :: ArtifactSeen(gate, o) {
      var o :| o in obs && ArtifactSeen(gate, o);
      var i :| 0 <= i < |obs| && obs[i] == o;
      assert ReadAsExpected(gate, obs);
    }
    if ReadAsExpected(gate, obs) {
      var i :| 0 <= i < |obs|
        && obs[i].success && obs[i].evidenceId != "" && obs[i].evidenceHash != "" && obs[i].capability == "file_read"
        && (gate.expectedSha != "" ==> obs[i].signals.fileSha == Some(gate.expectedSha))
        && (gate.expectedPathSha != "" ==> obs[i].signals.pathSha == Some(gate.expectedPathSha))
        && (gate.expectedSize.Some? ==> obs[i].signals.sizeBytes == gate.expectedSize);
      assert ArtifactSeen(gate, obs[i]);
    }
  }

  lemma EvidencedIff(obs: seq<Observation>)
    ensures AnyProtected(obs) <==> Evidenced(obs)
  {
    if AnyProtected(obs) {
      var o :| o in obs && o.Protected();
      var i :| 0 <= i < |obs| && obs[i] == o;
    }
    if Evidenced(obs) {
      var i :| 0 <= i < |obs| && obs[i].success && obs[i].evidenceId != "" && obs[i].evidenceHash != "";
      assert obs[i].Protected();
    }
  }

  /** Whatever `finish` returns: a changed envelope blocks the stage; an unsuccessful report keeps
      its outcome; a success is accepted exactly when it is evidenced and meets the gate, and is
      otherwise sent back for replanning with at least one criterion named. */
  lemma FinishMeans(bound: Bound, gate: Gate, obs: seq<Observation>, reported: StageResult, intact: bool,
                    attempts: Option<int>, escalation: Option<EscalationKind>, redact: string -> string,
                    r: StageResult)
    requires reported.Valid() && gate.Valid()
    requires Finished(bound, gate, obs, reported, intact, attempts, escalation, redact) == Ok(r)
    ensures !intact ==>
              && r.outcome == Blocked && !r.success && r.failedCriteria == []
              && r.error == "active stage envelope changed; review required"
    ensures intact && !reported.success ==>
              && r.outcome == reported.outcome && !r.success && r.error == redact(reported.error)
              && |r.failedCriteria| == |reported.failedCriteria|
    ensures intact && reported.success ==>
              (r.success <==>
                 && Evidenced(obs)
                 && (gate.requireFinal ==> !Blank(redact(reported.final)))
                 && CountSuccess(obs) >= gate.minSuccessfulActions
                 && (gate.expectedSha != "" || gate.expectedSize.Some? ==> ReadAsExpected(gate, obs)))
    ensures r.success ==> r.outcome == Completed && r.error == redact(reported.error) && r.failedCriteria == []
    ensures intact && reported.success && !r.success ==>
              && r.outcome == NeedsReplan && r.error == "stage completion gate unmet" && r.failedCriteria != []
              && (NoGovernedEvidence in r.failedCriteria <==> !Evidenced(obs))
    ensures r.final == redact(reported.final) && r.summary == redact(reported.summary)
    ensures r.active.Some? && r.active.value.failedCriteria == r.failedCriteria
    ensures r.active.value.attempts == if attempts.Some? then attempts.value else |obs|
    ensures r.evidence == Links(obs) && r.successfulActions == CountSuccess(obs)
  {
    hide Links, CountSuccess, Accepted, Evidenced, ReadAsExpected, Blank, Handoff, Judged, StageResult.Valid,
         Gate.Valid;
    AcceptedMeans(gate, obs, reported, intact, redact);
    JudgedFacts(gate, obs, reported, intact, redact);
    JudgedMeans(gate, obs, reported, intact, redact);
    HandoffFields(bound, obs, Judged(gate, obs, reported, intact, redact),
                  Accepted(gate, obs, reported, intact, redact), attempts,
                  if intact then escalation else Some(MaterialChangeKind), r);
  }

  /** The three verdicts, before the active part is attached. */
  lemma JudgedMeans(gate: Gate, obs: seq<Observation>, reported: StageResult, intact: bool, redact: string -> string)
    ensures var r := Judged(gate, obs, reported, intact, redact);
            && r.final == redact(reported.final) && r.summary == redact(reported.summary)
            && (!intact ==>
                  && r.outcome == Blocked && !r.success && r.failedCriteria == []
                  && r.error == "active stage envelope changed; review required")
            && (intact && !reported.success ==>
                  && r.outcome == reported.outcome && !r.success && r.error == redact(reported.error)
                  && |r.failedCriteria| == |reported.failedCriteria|)
            && (Accepted(gate, obs, reported, intact, redact) ==> r.error == redact(reported.error))
            && (intact && reported.success && !Accepted(gate, obs, reported, intact, redact) ==>
                  && r.outcome == NeedsReplan && r.error == "stage completion gate unmet" && r.failedCriteria != []
                  && (NoGovernedEvidence in r.failedCriteria <==> !Evidenced(obs)))
  {
    hide Links, CountSuccess, GateFailures, AnyProtected, Evidenced, When;
    EvidencedIff(obs);
    SentBackMeans(gate, Governed(reported, obs, redact), obs);
  }

  lemma HandoffFields(bound: Bound, obs: seq<Observation>, result: StageResult, verified: bool, attempts: Option<int>,
                      kind: Option<EscalationKind>, r: StageResult)
    requires Handoff(bound, obs, result, verified, attempts, kind) == Ok(r)
    ensures r.active.Some? && r.active.value.Valid() && r == result.(active := r.active)
    ensures r.active.value.failedCriteria == result.failedCriteria && r.active.value.outcome == result.outcome
    ensures r.active.value.attempts == if attempts.Some? then attempts.value else |obs|
    ensures r.active.value.escalation == Classify(result.outcome, obs, kind)
    ensures verified && result.outcome.Completed? ==> result.failedCriteria == []
  {
    hide Links, CountSuccess, CountExecuted, Classify, IsDigest, Observation.Valid;
  }

  /** What is sent back names a criterion; governed evidence is named exactly where it lacks. */
  lemma SentBackMeans(g: Gate, r: StageResult, obs: seq<Observation>)
    ensures var failures := GateFailures(g, r, obs) + When(!AnyProtected(obs), NoGovernedEvidence);
            && (NoGovernedEvidence in failures <==> !AnyProtected(obs))
            && (failures == [] <==> GateFailures(g, r, obs) == [] && AnyProtected(obs))
  {
    hide GateFailures, AnyProtected;
    OnlyGateCriteria(g, r, obs);
  }

  /** The gate itself never speaks of governed evidence. */
  lemma OnlyGateCriteria(g: Gate, r: StageResult, obs: seq<Observation>)
    ensures NoGovernedEvidence !in GateFailures(g, r, obs)
  {
    hide When, AnyProtected;
  }

  /** Observation `i` is the last one that did not succeed. */
  predicate LastUnsuccessful(obs: seq<Observation>, i: int) {
    0 <= i < |obs| && !obs[i].success && forall j | i < j < |obs| :: obs[j].success
  }

  lemma {:induction false} LastFailureMeans(obs: seq<Observation>, i: int)
    requires LastUnsuccessful(obs, i)
    ensures LastFailure(obs) == Some(obs[i])
    decreases |obs|
  {
    if i < |obs| - 1 {
      LastFailureMeans(obs[..|obs| - 1], i);
    }
  }

  /** What kind of escalation a failed observation calls for: its error category decides, and its
      status where the category does not. */
  predicate CallsFor(o: Observation, kind: EscalationKind) {
    var approval := o.category == ApprovalRequired || o.category == ApprovalRejected
                    || o.category == ApprovalInvalid || o.category == ApprovalExpired;
    var policy := o.category == PolicyDenial || o.status == RanDenied;
    var cancelled := o.category == Cancellation || o.status == RanCancelled;
    var late := o.category == TimedOut || o.status == RanTimeout;
    && (approval ==> kind == ApprovalKind)
    && (!approval && policy ==> kind == PolicyKind)
    && (!policy && o.category == MissingDependency ==> kind == DependencyKind)
    && (!policy && o.category == TelemetryFailure ==> kind == SafetyKind)
    && (!approval && !policy && o.category != MissingDependency && o.category != TelemetryFailure ==>
          && (cancelled ==> kind == CancellationKind)
          && (!cancelled && late ==> kind == TimeoutKind)
          && (!cancelled && !late ==> kind == ExecutionKind))
  }

  /** An unfinished stage is escalated: over a changed envelope as a material change, else as the
      caller demands, else as the last unsuccessful observation calls for, else by its outcome;
      and it names that observation's request, where there is one. */
  lemma EscalationMeans(bound: Bound, gate: Gate, obs: seq<Observation>, reported: StageResult, intact: bool,
                        attempts: Option<int>, escalation: Option<EscalationKind>, redact: string -> string,
                        r: StageResult)
    requires reported.Valid()
    requires Finished(bound, gate, obs, reported, intact, attempts, escalation, redact) == Ok(r)
    ensures r.active.Some? && (r.active.value.escalation == None <==> r.outcome == Completed)
    ensures r.outcome != Completed ==>
              var e := r.active.value.escalation.value;
              && (!intact ==> e.kind == MaterialChangeKind)
              && (intact && escalation.Some? ==> e.kind == escalation.value)
              && (forall i | 0 <= i < |obs| && LastUnsuccessful(obs, i) ::
                    && e.requestId == obs[i].requestId
                    && (intact && escalation.None? ==> CallsFor(obs[i], e.kind)))
              && ((forall i | 0 <= i < |obs| :: obs[i].success) ==>
                    && e.requestId == ""
                    && (intact && escalation.None? ==>
                          && (r.outcome == NeedsReplan ==> e.kind == VerificationKind)
                          && (r.outcome == Blocked ==> e.kind == BudgetKind)
                          && (r.outcome == Failed ==> e.kind == ExecutionKind)))
  {
    hide Links, CountSuccess, LastFailure, Accepted, AnyProtected, Handoff, Judged, StageResult.Valid, CallsFor,
         FailureKind, LastUnsuccessful;
    HandoffFields(bound, obs, Judged(gate, obs, reported, intact, redact),
                  Accepted(gate, obs, reported, intact, redact), attempts,
                  if intact then escalation else Some(MaterialChangeKind), r);
    forall i | 0 <= i < |obs| && LastUnsuccessful(obs, i) ensures LastFailure(obs) == Some(obs[i]) {
      LastFailureMeans(obs, i);
    }
    forall o, kind | FailureKind(o) == kind ensures CallsFor(o, kind) { KindMeans(o); }
    assert (forall i | 0 <= i < |obs| :: obs[i].success) ==> LastFailure(obs).None?;
  }

  lemma KindMeans(o: Observation)
    ensures CallsFor(o, FailureKind(o))
  {}

  /** A refused replay: the blocked operation is observed and handed off without a finisher. */
  function Refused(bound: Bound, prior: seq<Observation>, refusal: Observation, attempts: int,
      kind: EscalationKind): ActiveNodeResult
  {
    var obs := prior + [refusal];
    ActiveNodeResult(bound.sessionId, bound.stageId, bound.workflowFingerprint, bound.nodeFingerprint,
                     Blocked, false, attempts, obs, [], Classify(Blocked, obs, Some(kind)))
  }

  lemma ExecutedAppend(obs: seq<Observation>, o: Observation)
    ensures CountExecuted(obs + [o]) == CountExecuted(obs) + if o.status.RanBlocked? then 0 else 1
  {
    hide CountExecuted;
    TalliesAdd(obs, [o]);
    TalliesMean(o);
  }

  /** A refusal is a valid hand-off exactly while it is recorded as blocked within the attempts
      made so far: one whose telemetry failed is recorded as an error and needs a spare attempt. */
  lemma RefusalValidIff(bound: Bound, prior: seq<Observation>, refusal: Observation, attempts: int,
      kind: EscalationKind)
    requires bound.Valid() && ValidObservations(prior) && refusal.Valid()
    ensures Refused(bound, prior, refusal, attempts, kind).Valid() <==>
            && |prior| < 32 && attempts <= 32
            && CountExecuted(prior) + (if refusal.status.RanBlocked? then 0 else 1) <= attempts
  {
    hide CountExecuted, IsDigest, Classify, Observation.Valid;
    var obs := prior + [refusal];
    ExecutedAppend(prior, refusal);
    ClassifyRefers(Blocked, obs, Some(kind));
    assert forall o :: o in obs <==> o in prior || o == refusal;
  }

  /** A refusal is never a completion: it is recorded as blocked with the last observation, and
      escalated as the caller says over the last call that did not succeed. */
  lemma RefusalMeans(bound: Bound, prior: seq<Observation>, refusal: Observation, attempts: int,
      kind: EscalationKind)
    ensures var a := Refused(bound, prior, refusal, attempts, kind);
            && a.outcome == Blocked && !a.gatePassed && a.attempts == attempts && a.failedCriteria == []
            && a.observations == prior + [refusal]
            && Bound(a.sessionId, a.nodeId, a.workflowFingerprint, a.nodeFingerprint) == bound
            && a.escalation.Some? && a.escalation.value.kind == kind
            && (!refusal.success ==> a.escalation.value.requestId == refusal.requestId)
  {
    var obs := prior + [refusal];
    if !refusal.success {
      LastFailureMeans(obs, |prior|);
    }
  }
}
