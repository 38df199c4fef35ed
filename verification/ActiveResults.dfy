/** Observations, verified stage results and workflow gates, with their cross-field validators. */
module ActiveResults {
  import opened Prelude
  import WordSplitting

  // ---- Identifiers ----

  const HEX := "0123456789abcdef"

  predicate IsDigest(s: string) {
    |s| == 64 && forall i | 0 <= i < |s| :: s[i] in HEX
  }

  /** A digest for examples. */
  function SampleDigest(): (s: string)
    ensures IsDigest(s)
  {
    assert HEX[10] == 'a';
    seq(64, _ => 'a')
  }

  predicate IsDigestOrEmpty(s: string) {
    s == "" || IsDigest(s)
  }

  predicate IsIdentifier(s: string) {
    && 1 <= |s| <= 64 && 'a' <= s[0] <= 'z'
    && forall i | 0 <= i < |s| ::
         'a' <= s[i] <= 'z' || '0' <= s[i] <= '9' || s[i] == '_' || s[i] == '-'
  }

  // ---- Outcomes and escalations ----

  datatype Outcome = Completed | NeedsReplan | Blocked | Failed

  datatype EscalationKind =
    | PolicyKind | ApprovalKind | DependencyKind | VerificationKind | TimeoutKind | CancellationKind
    | SafetyKind | ExecutionKind | BudgetKind | MaterialChangeKind | LegacyKind

  datatype Escalation = Escalation(kind: EscalationKind, requestId: string)

  datatype RunStatus = RanSuccess | RanDenied | RanBlocked | RanError | RanTimeout | RanCancelled

  datatype Category =
    | NoCategory | PolicyDenial | ApprovalRequired | ApprovalRejected | ApprovalInvalid | ApprovalExpired
    | MissingDependency | TimedOut | Cancellation | ExecutionFailure | TelemetryFailure | UnsupportedAction

  const MAX_FILE_SIZE := 0x7FFF_FFFF_FFFF_FFFF

  /** File metadata an observation may carry; the validator admits nothing else. */
  datatype Signals = Signals(fileSha: Option<string>, pathSha: Option<string>, sizeBytes: Option<nat>) {
    predicate Valid() {
      && (fileSha.Some? ==> IsDigest(fileSha.value)) && (pathSha.Some? ==> IsDigest(pathSha.value))
      && (sizeBytes.Some? ==> sizeBytes.value <= MAX_FILE_SIZE)
    }
  }

  /** A name that must be given. */
  predicate IsName(s: string) {
    1 <= |s| <= 128
  }

  datatype Observation = Observation(
    requestId: string, capability: string, provider: string, status: RunStatus, success: bool, category: Category,
    evidenceId: string, evidenceHash: string, signals: Signals)
  {
    predicate Valid() {
      && IsName(requestId) && IsName(capability) && IsName(provider)
      && |evidenceId| <= 128 && IsDigestOrEmpty(evidenceHash) && (evidenceId != "" <==> evidenceHash != "")
      && (success ==> status.RanSuccess?)
      && signals.Valid()
    }

    predicate HasEvidence() { evidenceId != "" && evidenceHash != "" }

    /** A successful observation with protected evidence behind it. */
    predicate Protected() { success && HasEvidence() }

    predicate FileRead() { Protected() && capability == "file_read" }
  }

  function CountSuccess(obs: seq<Observation>): nat
    decreases |obs|
  {
    if obs == [] then 0 else CountSuccess(obs[1..]) + if obs[0].success then 1 else 0
  }

  /** Observations of operations that were not blocked before they ran. */
  function CountExecuted(obs: seq<Observation>): nat
    decreases |obs|
  {
    if obs == [] then 0 else CountExecuted(obs[1..]) + if obs[0].status.RanBlocked? then 0 else 1
  }

  predicate AnyProtected(obs: seq<Observation>) {
    exists o | o in obs :: o.Protected()
  }

  // ---- Failed criteria, in the vocabulary of the gate ----

  datatype Criterion =
    | Told(text: string) | NoFinal | TooFewActions(minimum: nat) | NoEvidence | WrongPath | WrongDigest
    | WrongSize | DigestAndSizeApart | ArtifactApart | NoGovernedEvidence

  // ---- The verified result of one plan node ----

  datatype ActiveNodeResult = ActiveNodeResult(
    sessionId: string, nodeId: string, workflowFingerprint: string, nodeFingerprint: string,
    outcome: Outcome, gatePassed: bool, attempts: int, observations: seq<Observation>,
    failedCriteria: seq<Criterion>, escalation: Option<Escalation>)
  {
    predicate Valid() {
      && sessionId != "" && nodeId != ""
      && IsDigest(workflowFingerprint) && IsDigest(nodeFingerprint)
      && 0 <= attempts <= 32 && |observations| <= 32
      && (forall o | o in observations :: o.Valid())
      && (outcome.Completed? ==>
            gatePassed && AnyProtected(observations) && failedCriteria == [] && escalation.None?)
      && (!outcome.Completed? ==> escalation.Some?)
      && (escalation.Some? && escalation.value.requestId != "" ==>
            exists o | o in observations :: o.requestId == escalation.value.requestId)
      && attempts >= CountExecuted(observations)
    }
  }

  datatype EvidenceLink = EvidenceLink(id: string, sha256: string)

  function Links(obs: seq<Observation>): seq<EvidenceLink>
    decreases |obs|
  {
    if obs == [] then []
    else (if obs[0].HasEvidence() then [EvidenceLink(obs[0].evidenceId, obs[0].evidenceHash)] else []) + Links(obs[1..])
  }

  /** Every evidence link a result carries is that of an observation it also carries. */
  lemma {:induction false} LinksAreObserved(obs: seq<Observation>)
    ensures forall l | l in Links(obs) ::
              exists o | o in obs :: o.HasEvidence() && l == EvidenceLink(o.evidenceId, o.evidenceHash)
    decreases |obs|
  {
    if obs != [] {
      LinksAreObserved(obs[1..]);
      forall l | l in Links(obs)
        ensures exists o | o in obs :: o.HasEvidence() && l == EvidenceLink(o.evidenceId, o.evidenceHash)
      {
        if l in Links(obs[1..]) {
          var o :| o in obs[1..] && o.HasEvidence() && l == EvidenceLink(o.evidenceId, o.evidenceHash);
          assert o in obs;
        } else {
          assert obs[0] in obs;
        }
      }
    }
  }

  // ---- The counts and links are made up of those of the single observations ----

  lemma {:induction false} TalliesAdd(a: seq<Observation>, b: seq<Observation>)
    ensures CountSuccess(a + b) == CountSuccess(a) + CountSuccess(b)
    ensures CountExecuted(a + b) == CountExecuted(a) + CountExecuted(b)
    ensures Links(a + b) == Links(a) + Links(b)
    decreases |a|
  {
    hide CountSuccess, CountExecuted, Links;
    if a == [] {
      assert a + b == b;
      NoTallies();
    } else {
      assert (a + b)[1..] == a[1..] + b;
      TalliesAdd(a[1..], b);
      TalliesUnfold(a);
      TalliesUnfold(a + b);
    }
  }

  lemma NoTallies()
    ensures CountSuccess([]) == 0 && CountExecuted([]) == 0 && Links([]) == []
  {}

  lemma TalliesUnfold(a: seq<Observation>)
    requires a != []
    ensures CountSuccess(a) == CountSuccess(a[1..]) + if a[0].success then 1 else 0
    ensures CountExecuted(a) == CountExecuted(a[1..]) + if a[0].status.RanBlocked? then 0 else 1
    ensures Links(a)
         == (if a[0].HasEvidence() then [EvidenceLink(a[0].evidenceId, a[0].evidenceHash)] else []) + Links(a[1..])
  {}

  /** One observation counts as a success when it is one, as executed unless it was blocked, and
      gives a link exactly when it has evidence. */
  lemma TalliesMean(o: Observation)
    ensures CountSuccess([o]) == if o.success then 1 else 0
    ensures CountExecuted([o]) == if o.status == RanBlocked then 0 else 1
    ensures Links([o]) == if o.evidenceId != "" && o.evidenceHash != ""
                          then [EvidenceLink(o.evidenceId, o.evidenceHash)] else []
  {
    assert [o][1..] == [];
  }

  /** What a stage executor hands back. */
  datatype StageResult = StageResult(
    success: bool, outcome: Outcome, final: string, summary: string, successfulActions: nat,
    evidence: seq<EvidenceLink>, error: string, failedCriteria: seq<Criterion>, active: Option<ActiveNodeResult>)
  {
    predicate Valid() {
      && (success <==> outcome.Completed?)
      && (active.Some? ==>
            && active.value.outcome == outcome
            && successfulActions == CountSuccess(active.value.observations)
            && forall l | l in evidence ::
                 exists o | o in active.value.observations ::
                   o.HasEvidence() && l == EvidenceLink(o.evidenceId, o.evidenceHash))
    }
  }

  // ---- The deterministic gate of a stage ----

  /** `expectedPathSha` is the digest of the expected file path, empty when none is expected. */
  datatype Gate = Gate(
    requireFinal: bool, minSuccessfulActions: nat, requireEvidence: bool,
    expectedSha: string, expectedPathSha: string, expectedSize: Option<nat>)
  {
    predicate Valid() {
      && IsDigestOrEmpty(expectedSha) && IsDigestOrEmpty(expectedPathSha)
      && (expectedPathSha != "" ==> expectedSha != "")
      && (expectedSize.Some? ==> expectedSize.value <= MAX_FILE_SIZE)
    }

    predicate ShaSeen(o: Observation) { o.signals.fileSha == Some(expectedSha) }

    predicate PathSeen(o: Observation) { o.signals.pathSha == Some(expectedPathSha) }

    predicate SizeSeen(o: Observation) { expectedSize.Some? && o.signals.sizeBytes == expectedSize }
  }

  predicate Blank(s: string) {
    forall i | 0 <= i < |s| :: WordSplitting.IsSpace(s[i])
  }

  function When(c: bool, f: Criterion): (r: seq<Criterion>)
    ensures forall x :: x in r <==> c && x == f
  {
    if c then [f] else []
  }

  /** The criteria a result fails, when `protected` says whether protected evidence is at hand. */
  function Failures(g: Gate, r: StageResult, protected: bool, trusted: seq<Observation>): seq<Criterion> {
    When(!r.success, Told(if r.error != "" then r.error else "stage executor reported failure"))
    + When(g.requireFinal && Blank(r.final), NoFinal)
    + When(r.successfulActions < g.minSuccessfulActions, TooFewActions(g.minSuccessfulActions))
    + When(g.requireEvidence && !protected, NoEvidence)
    + FileFailures(g, trusted)
  }

  /** The expectations of an artifact that no trusted file read meets. */
  function FileFailures(g: Gate, trusted: seq<Observation>): seq<Criterion> {
    When(g.expectedPathSha != "" && !exists o | o in trusted :: o.FileRead() && g.PathSeen(o), WrongPath)
    + When(g.expectedSha != "" && !exists o | o in trusted :: o.FileRead() && g.ShaSeen(o), WrongDigest)
    + When(g.expectedSize.Some? && !exists o | o in trusted :: o.FileRead() && g.SizeSeen(o), WrongSize)
    + When(g.expectedSha != "" && g.expectedSize.Some?
           && !exists o | o in trusted :: o.FileRead() && g.ShaSeen(o) && g.SizeSeen(o), DigestAndSizeApart)
    + When(g.expectedPathSha != ""
           && !exists o | o in trusted :: o.FileRead() && g.PathSeen(o) && g.ShaSeen(o)
                && (g.expectedSize.None? || g.SizeSeen(o)), ArtifactApart)
  }

  /** The criteria a result fails, judged on the trusted observations. */
  function GateFailures(g: Gate, r: StageResult, trusted: seq<Observation>): seq<Criterion> {
    Failures(g, r, AnyProtected(trusted), trusted)
  }

  predicate GatePasses(g: Gate, r: StageResult, trusted: seq<Observation>) {
    GateFailures(g, r, trusted) == []
  }

  predicate AnyLinked(links: seq<EvidenceLink>) {
    exists l | l in links :: l.id != "" && l.sha256 != ""
  }

  /** `WorkflowGate.check`: judged on the observations given, else on those of the active part,
      else on the evidence links alone. */
  function Check(g: Gate, r: StageResult, given: Option<seq<Observation>>): seq<Criterion> {
    if given.Some? then GateFailures(g, r, given.value)
    else if r.active.Some? then GateFailures(g, r, r.active.value.observations)
    else Failures(g, r, AnyLinked(r.evidence), [])
  }

  /** One file read that carries everything the gate expects of the artifact. */
  predicate ArtifactSeen(g: Gate, o: Observation) {
    && o.FileRead()
    && (g.expectedSha != "" ==> g.ShaSeen(o))
    && (g.expectedPathSha != "" ==> g.PathSeen(o))
    && (g.expectedSize.Some? ==> g.SizeSeen(o))
  }

  /** What passing a gate means: a successful result with a final text and enough actions,
      evidence where it is required, and one single governed read that matches every expected
      property of the file at once. */
  lemma GatePassesMeans(g: Gate, r: StageResult, trusted: seq<Observation>)
    requires g.Valid()
    ensures GatePasses(g, r, trusted) <==>
            && r.success && (g.requireFinal ==> !Blank(r.final))
            && r.successfulActions >= g.minSuccessfulActions
            && (g.requireEvidence ==> AnyProtected(trusted))
            && (g.expectedSha != "" || g.expectedSize.Some? ==> exists o | o in trusted :: ArtifactSeen(g, o))
  {
    if exists o | o in trusted :: ArtifactSeen(g, o) {
      var o :| o in trusted && ArtifactSeen(g, o);
      if g.expectedSha != "" { assert g.ShaSeen(o); }
      if g.expectedPathSha != "" { assert g.PathSeen(o); }
      if g.expectedSize.Some? { assert g.SizeSeen(o); }
    }
    if GatePasses(g, r, trusted) && (g.expectedSha != "" || g.expectedSize.Some?) {
      var o :| o in trusted && o.FileRead()
        && (g.expectedPathSha != "" ==> g.PathSeen(o))
        && (g.expectedSha != "" ==> g.ShaSeen(o))
        && (g.expectedSize.Some? ==> g.SizeSeen(o));
      assert ArtifactSeen(g, o);
    }
  }

  /** A trusted read of a file: it succeeded, with evidence behind it. */
  lemma FileReadMeans(o: Observation)
    ensures o.FileRead() <==> o.success && o.evidenceId != "" && o.evidenceHash != "" && o.capability == "file_read"
  {}

  /** The demand of a gate that a criterion names is not met. */
  predicate Unmet(g: Gate, r: StageResult, protected: bool, trusted: seq<Observation>, c: Criterion) {
    match c
    case Told(text) => !r.success && text == (if r.error == "" then "stage executor reported failure" else r.error)
    case NoFinal => g.requireFinal && forall i | 0 <= i < |r.final| :: WordSplitting.IsSpace(r.final[i])
    case TooFewActions(n) => n == g.minSuccessfulActions && r.successfulActions < n
    case NoEvidence => g.requireEvidence && !protected
    case WrongPath =>
      g.expectedPathSha != "" && forall o | o in trusted && o.FileRead() :: o.signals.pathSha != Some(g.expectedPathSha)
    case WrongDigest =>
      g.expectedSha != "" && forall o | o in trusted && o.FileRead() :: o.signals.fileSha != Some(g.expectedSha)
    case WrongSize =>
      g.expectedSize.Some? && forall o | o in trusted && o.FileRead() :: o.signals.sizeBytes != g.expectedSize
    case DigestAndSizeApart =>
      && g.expectedSha != "" && g.expectedSize.Some?
      && forall o | o in trusted && o.FileRead() ::
           o.signals.fileSha != Some(g.expectedSha) || o.signals.sizeBytes != g.expectedSize
    case ArtifactApart =>
      && g.expectedPathSha != ""
      && forall o | o in trusted && o.FileRead() ::
           || o.signals.pathSha != Some(g.expectedPathSha) || o.signals.fileSha != Some(g.expectedSha)
           || (g.expectedSize.Some? && o.signals.sizeBytes != g.expectedSize)
    case NoGovernedEvidence => false
  }

  /** A gate names exactly the demands that are not met. */
  lemma FailuresMean(g: Gate, r: StageResult, protected: bool, trusted: seq<Observation>, c: Criterion)
    ensures c in Failures(g, r, protected, trusted) <==> Unmet(g, r, protected, trusted, c)
  {
    hide When, Observation.FileRead, FileFailures;
    FileFailuresMean(g, r, protected, trusted, c);
    assert c in Failures(g, r, protected, trusted) <==>
        || c in When(!r.success, Told(if r.error != "" then r.error else "stage executor reported failure"))
        || c in When(g.requireFinal && Blank(r.final), NoFinal)
        || c in When(r.successfulActions < g.minSuccessfulActions, TooFewActions(g.minSuccessfulActions))
        || c in When(g.requireEvidence && !protected, NoEvidence)
        || c in FileFailures(g, trusted);
  }

  lemma FileFailuresMean(g: Gate, r: StageResult, protected: bool, trusted: seq<Observation>, c: Criterion)
    ensures c in FileFailures(g, trusted) <==>
            && (c.WrongPath? || c.WrongDigest? || c.WrongSize? || c.DigestAndSizeApart? || c.ArtifactApart?)
            && Unmet(g, r, protected, trusted, c)
  {
    hide When, Observation.FileRead;
  }

  /** Without any observation a gate that expects a file never passes, and any other is judged by
      the evidence links alone. */
  lemma UnobservedCheckMeans(g: Gate, r: StageResult)
    requires g.Valid() && r.active.None?
    ensures Check(g, r, None) == [] <==>
            && r.success && (g.requireFinal ==> !Blank(r.final))
            && r.successfulActions >= g.minSuccessfulActions
            && (g.requireEvidence ==> AnyLinked(r.evidence))
            && g.expectedSha == "" && g.expectedSize.None?
  {
    assert !exists o: Observation :: o in [];
  }
}
