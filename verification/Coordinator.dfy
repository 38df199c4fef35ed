/**
  * Governed execution (src/decode/runtime/coordinator.py:334-367, 487-916). One call of `execute`
  * meets an arbitrary clock, gate, approver, preparation, operation and set of telemetry stores;
  * the approver and the preparation may change the request, the mode and the installed check.
  */
module Coordinator {
  import opened Prelude

  // ----- The request -----

  datatype Risk = Read | Write | Destructive

  datatype Identity = Identity(
    tool: string, toolVersion: string, executablePath: string, executableSha: string, other: string)

  datatype Executable = Executable(index: nat, path: string, sha: string)

  // `readOnly` says that no side effect other than reading is declared.
  datatype ResolvedAction = ResolvedAction(
    capability: string, provider: string, tool: string, toolVersion: string, target: string,
    argv: seq<string>, executables: seq<Executable>, readOnly: bool, other: string)

  datatype Command = Text(text: string) | Argv(argv: seq<string>)

  // Everything the approval digest is computed from. The digest is taken to be as good as the
  // material itself: equal digests are digests of equal materials.
  datatype Material = Material(
    action: string, target: string, risk: Risk, params: string, command: Command, executor: string,
    privileges: seq<string>, credentials: seq<string>, identity: Identity,
    resolved: Option<ResolvedAction>, expiresAt: Option<int>)

  /** No complaint from `resolved_action_error`. */
  predicate Consistent(m: Material) {
    m.resolved.None? ||
    var r := m.resolved.value;
    && r.capability == m.action && r.provider == m.executor && r.target == m.target
    && m.command == Argv(r.argv)
    && m.identity.tool == r.tool && m.identity.toolVersion == r.toolVersion
    && (r.executables != [] ==>
          m.identity.executablePath == r.executables[0].path && m.identity.executableSha == r.executables[0].sha)
    && (m.risk.Read? ==> r.readOnly)
  }

  class ExecutionRequest {
    var material: Material
    const ttl: nat
    const blocked: bool
    const dependencyAvailable: bool

    constructor (material: Material, ttl: nat, blocked: bool, dependencyAvailable: bool)
      ensures this.material == material && this.ttl == ttl
      ensures this.blocked == blocked && this.dependencyAvailable == dependencyAvailable
    {
      this.material, this.ttl, this.blocked, this.dependencyAvailable := material, ttl, blocked, dependencyAvailable;
    }
  }

  // ----- The environment -----

  datatype Verdict = Allow | NeedsApproval | Deny | GateRaises

  datatype Grant = Grant(digest: Material, approvedAt: int, expiresAt: int)

  // `No` stands for a refusal and for an approver that raises, `Junk` for an answer of another type.
  datatype Reply = Yes | No | Granted(grant: Grant) | Junk | CancelledWhileAsking

  // The material, mode and installed check as an awaited call leaves them.
  datatype Change = Change(material: Material, mode: nat, check: Option<nat>)

  datatype Value = Value(success: bool, timedOut: bool)

  datatype Outcome = Gave(value: Option<Value>) | CancelledCall | TimedOut | Failed

  datatype World = World(
    entryTime: int, askTime: int, yesTime: int, grantTime: int, launchTime: int,
    hooksAllow: bool, gate: Verdict, launchGate: Verdict,
    approver: Option<Reply>, afterApproval: Change,
    checkPasses: bool, launchCheckPasses: bool,
    authorizationRecorded: bool,
    preparation: Option<Outcome>, afterPreparation: Change,
    operation: Outcome,
    evidenceStored: bool, terminalAudited: bool, telemetryStored: bool)

  // ----- What one execution does -----

  datatype Event =
    | Evaluated(verdict: Verdict, material: Material)
    | Accepted(grant: Grant, asked: int, at: int)
    | Checked(id: nat)
    | Authorized(digest: Material, mode: nat, installed: Option<nat>)
    | Prepared(gaveValue: bool)
    | Operated(material: Material, at: int, mode: nat, installed: Option<nat>)
    | EvidenceStored
    | Terminal(recorded: bool)

  datatype Status = Success | Denied | Blocked | Error | Timeout | Cancelled

  datatype Category =
    | NoError | PolicyDenial | ApprovalRequired | ApprovalRejected | ApprovalInvalid | ApprovalExpired
    | MissingDependency | TimeoutError | Cancellation | ExecutionFailure | TelemetryFailure | Unsupported

  datatype Coordinated = Coordinated(
    status: Status, success: bool, category: Category, value: Option<Value>, digest: Material, evidence: bool)

  // A cancelled call raises its result; a cancellation while asking the approver has none.
  datatype Ending = Returned(result: Coordinated) | Cancels(cancelled: Option<Coordinated>)

  function Min(a: int, b: int): int {
    if a < b then a else b
  }

  // ----- What must have happened before the operation -----

  // An accepted grant for `digest`: asked for in time, given for this very material, and still good at `at`.
  predicate GoodApproval(e: Event, digest: Material, at: int) {
    && e.Accepted? && digest.expiresAt.Some? && e.grant.digest == digest
    && e.asked < digest.expiresAt.value && e.grant.approvedAt <= e.at
    && e.at < Min(e.grant.expiresAt, digest.expiresAt.value)
    && at < Min(e.grant.expiresAt, digest.expiresAt.value)
  }

  // The gate's first word was neither a denial nor silence, and an approval it asked for was accepted.
  ghost predicate ClearedFirst(log: seq<Event>, digest: Material, first: Verdict, at: int) {
    && log != [] && log[0] == Evaluated(first, digest)
    && (first.Allow? || (first.NeedsApproval? && exists e :: e in log && GoodApproval(e, digest, at)))
  }

  // After the preparation the installed check passed again and the gate, asked again about the same
  // material, did not deny it nor ask for an approval that it had not asked for before.
  ghost predicate ClearedAgain(log: seq<Event>, digest: Material, first: Verdict, check: Option<nat>) {
    exists i: nat :: i < |log| && log[i] == Prepared(false)
      && (check.Some? ==> Checked(check.value) in log[i..])
      && (Evaluated(Allow, digest) in log[i..]
        || (Evaluated(NeedsApproval, digest) in log[i..] && first.NeedsApproval?))
  }

  /** Everything the launch of the operation rests on, among the events before it. */
  ghost predicate Governed(log: seq<Event>, op: Event, digest: Material, prepares: bool)
    requires op.Operated?
  {
    && op.material == digest && Consistent(digest)
    && Authorized(digest, op.mode, op.installed) in log
    && (op.installed.Some? ==> Checked(op.installed.value) in log)
    && (digest.risk.Read? || digest.expiresAt.Some?)
    && (digest.expiresAt.Some? ==> op.at < digest.expiresAt.value)
    && (exists first :: ClearedFirst(log, digest, first, op.at)
          && (prepares ==> ClearedAgain(log, digest, first, op.installed)))
    && NoOperation(log)
  }

  ghost predicate AllGoverned(log: seq<Event>, digest: Material, prepares: bool) {
    forall i :: 0 <= i < |log| && log[i].Operated? ==> Governed(log[..i], log[i], digest, prepares)
  }

  predicate NoOperation(log: seq<Event>) {
    forall i :: 0 <= i < |log| ==> !log[i].Operated?
  }

  // ----- What the environment must grant for the operation to be awaited -----

  // The request as approved and recorded: every risk but reading has an expiry.
  function Entered(m: Material, ttl: nat, w: World): Material {
    if !m.risk.Read? && m.expiresAt.None? then m.(expiresAt := Some(w.entryTime + ttl)) else m
  }

  function GrantGiven(w: World, digest: Material): Option<Grant>
    requires digest.expiresAt.Some?
  {
    match w.approver
    case Some(Yes) => Some(Grant(digest, w.yesTime, digest.expiresAt.value))
    case Some(Granted(g)) => Some(g)
    case _ => None
  }

  predicate Approves(w: World, digest: Material) {
    && digest.expiresAt.Some? && w.askTime < digest.expiresAt.value
    && var g := GrantGiven(w, digest);
      && g.Some? && GoodApproval(Accepted(g.value, w.askTime, w.grantTime), digest, w.grantTime)
      && w.afterApproval.material == digest
  }

  // Until when the launch may happen, once cleared.
  function Until(w: World, digest: Material): Option<int> {
    if w.gate.NeedsApproval? && Approves(w, digest)
    then Some(Min(GrantGiven(w, digest).value.expiresAt, digest.expiresAt.value)) else digest.expiresAt
  }

  predicate Clears(w: World, digest: Material, blocked: bool, dependencyAvailable: bool, check: Option<nat>) {
    && !blocked && dependencyAvailable && Consistent(digest) && w.hooksAllow
    && (w.gate.Allow? || (w.gate.NeedsApproval? && Approves(w, digest)))
    && ((if w.gate.NeedsApproval? then w.afterApproval.check else check).Some? ==> w.checkPasses)
    && w.authorizationRecorded
  }

  predicate StaysClear(w: World, digest: Material, mode: nat, check: Option<nat>) {
    w.preparation.None? ||
    (&& w.preparation.value == Gave(None)
     && w.afterPreparation == Change(digest, mode, check)
     && (check.Some? ==> w.launchCheckPasses)
     && (w.launchGate.Allow? || (w.launchGate.NeedsApproval? && w.gate.NeedsApproval?)))
  }

  predicate InTime(w: World, digest: Material) {
    Until(w, digest).Some? ==> w.launchTime < Until(w, digest).value
  }

  // What is on record when the request is cleared, and what a launch adds to it.
  function ClearLog(w: World, digest: Material, mode: nat, check: Option<nat>): seq<Event>
    requires w.gate.NeedsApproval? ==> Approves(w, digest)
  {
    [Evaluated(w.gate, digest)]
    + (if w.gate.NeedsApproval? then [Accepted(GrantGiven(w, digest).value, w.askTime, w.grantTime)] else [])
    + (if check.Some? then [Checked(check.value)] else [])
    + [Authorized(digest, mode, check)]
  }

  function PreparedLog(w: World, digest: Material, check: Option<nat>): seq<Event> {
    if w.preparation.None? then []
    else [Prepared(false)] + (if check.Some? then [Checked(check.value)] else []) + [Evaluated(w.launchGate, digest)]
  }

  /** Whatever operation is on record, the environment granted all that it has to: the request was
      not blocked and nothing it depends on missing, the hooks allowed it, its authorization was
      recorded, and the check installed at its launch passed, again after a preparation. */
  predicate Grounded(log: seq<Event>, w: World, blocked: bool, dependencyAvailable: bool) {
    forall i | 0 <= i < |log| && log[i].Operated? ::
      && !blocked && dependencyAvailable && w.hooksAllow && w.authorizationRecorded
      && (log[i].installed.Some? ==> w.checkPasses && (w.preparation.Some? ==> w.launchCheckPasses))
  }

  // ----- How a request that is not executed is answered -----

  /** Nothing was executed, and that is what the result says: the refusal, where it could be
      recorded, and a telemetry failure otherwise. */
  predicate Rejects(ending: Ending, w: World, digest: Material, status: Status, category: Category, audited: bool) {
    ending == Returned(
      if w.telemetryStored && (audited ==> w.terminalAudited)
      then Coordinated(status, false, category, None, digest, false)
      else Coordinated(Error, false, TelemetryFailure, None, digest, false))
  }

  predicate LacksTelemetry(ending: Ending, digest: Material) {
    ending == Returned(Coordinated(Error, false, TelemetryFailure, None, digest, false))
  }

  /** The approver can be asked, and is asked in time. */
  predicate CanAsk(w: World, digest: Material) {
    w.approver.Some? && digest.expiresAt.Some? && w.askTime < digest.expiresAt.value
  }

  /** A grant given from `from` to `until` holds when it is received, within the request's own time. */
  predicate InForce(w: World, digest: Material, from: int, until: int) {
    from <= w.grantTime < until && digest.expiresAt.Some? && w.grantTime < digest.expiresAt.value
  }

  /** Why an approval was not accepted. */
  ghost predicate RefusalFits(asked: Asked, w: World, digest: Material) {
    && (w.approver == None ==> asked == Refused(ApprovalRequired))
    && (w.approver.Some? && !CanAsk(w, digest) ==> asked == Refused(ApprovalExpired))
    && (CanAsk(w, digest) ==>
          && (w.approver == Some(CancelledWhileAsking) ==> asked == CancelledAsking)
          && (w.approver == Some(No) ==> asked == Refused(ApprovalRejected))
          && (w.approver == Some(Junk) ==> asked == Refused(ApprovalInvalid))
          && (w.approver == Some(Yes) ==>
                && (!InForce(w, digest, w.yesTime, digest.expiresAt.value) ==> asked == Refused(ApprovalExpired))
                && (InForce(w, digest, w.yesTime, digest.expiresAt.value) && w.afterApproval.material != digest ==>
                      asked == Refused(ApprovalInvalid)))
          && (forall g | w.approver == Some(Granted(g)) ::
                && (g.digest != digest ==> asked == Refused(ApprovalInvalid))
                && (g.digest == digest && !InForce(w, digest, g.approvedAt, g.expiresAt) ==>
                      asked == Refused(ApprovalExpired))
                && (g.digest == digest && InForce(w, digest, g.approvedAt, g.expiresAt)
                    && w.afterApproval.material != digest ==>
                      asked == Refused(ApprovalInvalid))))
  }

  /** The answer to an approval that was not accepted. */
  ghost predicate ApprovalRefused(ending: Ending, w: World, digest: Material) {
    exists asked: Asked ::
      && RefusalFits(asked, w, digest) && !asked.Approved?
      && (asked.CancelledAsking? ==> ending == Cancels(None))
      && (asked.Refused? ==> Rejects(ending, w, digest, Denied, asked.category, true))
  }

  /** The answer to a request that is not cleared: blocked, over a missing dependency, an
      inconsistent action or a hook; denied by policy or for want of an approval; blocked by the
      installed check; or without telemetry. */
  ghost predicate ClearRefusals(ending: Ending, w: World, digest: Material, blocked: bool, dependencyAvailable: bool,
      check: Option<nat>)
  {
    var admitted := !blocked && dependencyAvailable && Consistent(digest) && w.hooksAllow;
    var allowed := admitted && (w.gate == Allow || (w.gate == NeedsApproval && Approves(w, digest)));
    var installed := if w.gate == NeedsApproval then w.afterApproval.check else check;
    && (blocked ==> Rejects(ending, w, digest, Blocked, Unsupported, true))
    && (!blocked && !dependencyAvailable ==> Rejects(ending, w, digest, Blocked, MissingDependency, true))
    && (!blocked && dependencyAvailable && !admitted ==> Rejects(ending, w, digest, Blocked, Unsupported, true))
    && (admitted && w.gate == GateRaises ==> LacksTelemetry(ending, digest))
    && (admitted && w.gate == Deny ==> Rejects(ending, w, digest, Denied, PolicyDenial, false))
    && (admitted && w.gate == NeedsApproval && !Approves(w, digest) ==> ApprovalRefused(ending, w, digest))
    && (allowed && installed != None && !w.checkPasses ==> Rejects(ending, w, digest, Blocked, Unsupported, true))
    && (allowed && (installed == None || w.checkPasses) && !w.authorizationRecorded ==> LacksTelemetry(ending, digest))
  }

  /** The answer to a cleared request that is not launched: blocked over what changed during the
      preparation, by the installed check or over a new need for approval; denied by policy or for
      lateness; or without telemetry. */
  predicate LaunchRefusals(ending: Ending, w: World, digest: Material, mode: nat, check: Option<nat>,
      until: Option<int>)
  {
    var prepared := w.preparation == Some(Gave(None));
    var same := prepared && w.afterPreparation == Change(digest, mode, check);
    var checked := same && (check == None || w.launchCheckPasses);
    var renewed := w.launchGate == NeedsApproval && w.gate != NeedsApproval;
    && (prepared && !checked ==> Rejects(ending, w, digest, Blocked, Unsupported, true))
    && (checked && w.launchGate == GateRaises ==> LacksTelemetry(ending, digest))
    && (checked && w.launchGate == Deny ==> Rejects(ending, w, digest, Denied, PolicyDenial, false))
    && (checked && renewed ==> Rejects(ending, w, digest, Blocked, Unsupported, true))
    && (w.preparation == None || (checked && (w.launchGate == Allow || (w.launchGate == NeedsApproval && !renewed))) ==>
          until.Some? && until.value <= w.launchTime ==> Rejects(ending, w, digest, Denied, ApprovalExpired, true))
  }

  /** How a request that is not launched is answered: refused before it is cleared, refused after,
      or with what the preparation came to. */
  ghost predicate Refusals(ending: Ending, w: World, digest: Material, blocked: bool, dependencyAvailable: bool,
      mode: nat, check: Option<nat>)
  {
    && ClearRefusals(ending, w, digest, blocked, dependencyAvailable, check)
    && (Clears(w, digest, blocked, dependencyAvailable, check) ==>
          var (mode', check') :=
            if w.gate == NeedsApproval then (w.afterApproval.mode, w.afterApproval.check) else (mode, check);
          && LaunchRefusals(ending, w, digest, mode', check', Until(w, digest))
          && (forall o | w.preparation == Some(o) && o != Gave(None) :: Reports(ending, w, digest, o)))
  }

  /** The answer to an awaited call: what it gave, as far as its evidence and its telemetry could
      be kept. */
  predicate Reports(ending: Ending, w: World, digest: Material, outcome: Outcome) {
    var recorded := w.terminalAudited && w.telemetryStored;
    && (outcome == CancelledCall ==>
          ending == Cancels(Some(Coordinated(Cancelled, false, Cancellation, None, digest, false))))
    && (outcome != CancelledCall ==>
          && ending.Returned? && ending.result.digest == digest
          && (!recorded ==> ending.result.(value := None, evidence := false)
                              == Coordinated(Error, false, TelemetryFailure, None, digest, false))
          && (recorded && outcome == TimedOut ==>
                ending.result == Coordinated(Timeout, false, TimeoutError, None, digest, false))
          && (recorded && outcome == Failed ==>
                ending.result == Coordinated(Error, false, ExecutionFailure, None, digest, false))
          && (recorded && outcome == Gave(None) ==>
                ending.result == Coordinated(Success, true, NoError, None, digest, false))
          && (outcome.Gave? && outcome.value.Some? && w.evidenceStored ==>
                && ending.result.value == outcome.value && ending.result.evidence)
          && (recorded && outcome.Gave? && outcome.value.Some? ==>
                var v := outcome.value.value;
                && (!w.evidenceStored ==>
                      ending.result == Coordinated(Error, false, TelemetryFailure, None, digest, false))
                && (w.evidenceStored && v.success ==>
                      ending.result == Coordinated(Success, true, NoError, Some(v), digest, true))
                && (w.evidenceStored && !v.success && v.timedOut ==>
                      ending.result == Coordinated(Timeout, false, TimeoutError, Some(v), digest, true))
                && (w.evidenceStored && !v.success && !v.timedOut ==>
                      ending.result == Coordinated(Error, false, ExecutionFailure, Some(v), digest, true))))
  }

  // ----- Executing -----

  datatype Asked = Approved(until: int) | Refused(category: Category) | CancelledAsking

  // How the call up to the launch, and the launch itself, came out.
  datatype Phase = Proceeds | Ends(ending: Ending)

  class ExecutionCoordinator {
    var mode: nat
    var check: Option<nat>

    constructor (mode: nat, check: Option<nat>)
      ensures this.mode == mode && this.check == check
    {
      this.mode, this.check := mode, check;
    }

    method Apply(request: ExecutionRequest, change: Change)
      modifies this, request
      ensures request.material == change.material && mode == change.mode && check == change.check
    {
      request.material := change.material;
      mode, check := change.mode, change.check;
    }

    /** Nothing was executed: record the rejection, or fail for want of telemetry. */
    method FinishWithoutExecution(w: World, digest: Material, status: Status, category: Category, audited: bool)
      returns (ending: Ending, log: seq<Event>)
      requires !status.Success?
      ensures NoOperation(log)
      ensures Rejects(ending, w, digest, status, category, audited)
      ensures ending.Returned? && !ending.result.success && ending.result.value.None?
    {
      var recorded := (audited ==> w.terminalAudited) && w.telemetryStored;
      log := [Terminal(recorded)];
      if recorded {
        return Returned(Coordinated(status, false, category, None, digest, false)), log;
      }
      return Returned(Coordinated(Error, false, TelemetryFailure, None, digest, false)), log;
    }

    method TelemetryUnavailable(digest: Material) returns (ending: Ending)
      ensures LacksTelemetry(ending, digest)
      ensures ending.Returned? && !ending.result.success && ending.result.value.None?
    {
      ending := Returned(Coordinated(Error, false, TelemetryFailure, None, digest, false));
    }

    method AskApprover(request: ExecutionRequest, w: World, digest: Material) returns (asked: Asked, log: seq<Event>)
      requires request.material == digest
      modifies this, request
      ensures asked.Approved? <==> Approves(w, digest)
      ensures asked.Approved? ==>
          request.material == digest && Until(w.(gate := NeedsApproval), digest) == Some(asked.until)
      ensures asked.Approved? ==> mode == w.afterApproval.mode && check == w.afterApproval.check
      ensures asked.Approved? ==> log == [Accepted(GrantGiven(w, digest).value, w.askTime, w.grantTime)]
      ensures !asked.Approved? ==> log == [] && RefusalFits(asked, w, digest)
    {
      log := [];
      if w.approver.None? {
        return Refused(ApprovalRequired), log;
      }
      var expiresAt := request.material.expiresAt;
      if expiresAt.None? || expiresAt.value <= w.askTime {
        return Refused(ApprovalExpired), log;
      }
      Apply(request, w.afterApproval);
      var grant: Grant;
      match w.approver.value {
        case CancelledWhileAsking => return CancelledAsking, log;
        case No => return Refused(ApprovalRejected), log;
        case Junk => return Refused(ApprovalInvalid), log;
        case Yes => grant := Grant(digest, w.yesTime, expiresAt.value);
        case Granted(g) => grant := g;
      }
      if grant.digest != digest {
        return Refused(ApprovalInvalid), log;
      }
      if grant.approvedAt > w.grantTime || Min(grant.expiresAt, expiresAt.value) <= w.grantTime {
        return Refused(ApprovalExpired), log;
      }
      if request.material != digest {
        return Refused(ApprovalInvalid), log;
      }
      log := [Accepted(grant, w.askTime, w.grantTime)];
      return Approved(Min(grant.expiresAt, expiresAt.value)), log;
    }

    /** Everything up to the recorded authorization. */
    method Clear(request: ExecutionRequest, w: World, digest: Material)
      returns (phase: Phase, until: Option<int>, log: seq<Event>)
      requires request.material == digest
      modifies this, request
      ensures phase.Proceeds? <==> Clears(w, digest, request.blocked, request.dependencyAvailable, old(check))
      ensures phase.Proceeds? ==> request.material == digest && until == Until(w, digest)
      ensures phase.Proceeds? ==>
        mode == (if w.gate.NeedsApproval? then w.afterApproval.mode else old(mode))
        && check == (if w.gate.NeedsApproval? then w.afterApproval.check else old(check))
      ensures phase.Proceeds? ==> log == ClearLog(w, digest, mode, check)
      ensures NoOperation(log)
      ensures phase.Ends? && phase.ending.Returned? ==> !phase.ending.result.success && phase.ending.result.value.None?
      ensures phase.Ends? ==>
        ClearRefusals(phase.ending, w, digest, request.blocked, request.dependencyAvailable, old(check))
    {
      hide Consistent, GoodApproval, Rejects, RefusalFits, LacksTelemetry, Approves, GrantGiven;
      log := [];
      until := None;
      var ending: Ending;
      var more: seq<Event>;
      if request.blocked {
        ending, log := FinishWithoutExecution(w, digest, Blocked, Unsupported, true);
        return Ends(ending), until, log;
      }
      if !request.dependencyAvailable {
        ending, log := FinishWithoutExecution(w, digest, Blocked, MissingDependency, true);
        return Ends(ending), until, log;
      }
      if !Consistent(request.material) || !w.hooksAllow {
        ending, log := FinishWithoutExecution(w, digest, Blocked, Unsupported, true);
        return Ends(ending), until, log;
      }
      if w.gate.GateRaises? {
        ending := TelemetryUnavailable(digest);
        return Ends(ending), until, log;
      }
      log := [Evaluated(w.gate, request.material)];
      if w.gate.Deny? {
        ending, more := FinishWithoutExecution(w, digest, Denied, PolicyDenial, false);
        return Ends(ending), until, log + more;
      }
      until := request.material.expiresAt;
      if w.gate.NeedsApproval? {
        var asked, accepted := AskApprover(request, w, digest);
        match asked {
          case CancelledAsking => return Ends(Cancels(None)), until, log;
          case Refused(category) =>
            ending, more := FinishWithoutExecution(w, digest, Denied, category, true);
            return Ends(ending), until, log + more;
          case Approved(u) => until := Some(u);
        }
        log := log + accepted;
      }
      if request.material != digest || !Consistent(request.material) {
        ending, more := FinishWithoutExecution(w, digest, Blocked, Unsupported, true);
        return Ends(ending), until, log + more;
      }
      if check.Some? {
        log := log + [Checked(check.value)];
        if !w.checkPasses {
          ending, more := FinishWithoutExecution(w, digest, Blocked, Unsupported, true);
          return Ends(ending), until, log + more;
        }
      }
      if !w.authorizationRecorded {
        ending := TelemetryUnavailable(digest);
        return Ends(ending), until, log;
      }
      log := log + [Authorized(digest, mode, check)];
      return Proceeds, until, log;
    }

    /** From the recorded authorization to the end of the awaited call, or to a refusal before it. */
    method Launch(request: ExecutionRequest, w: World, digest: Material, until: Option<int>)
      returns (phase: Phase, outcome: Outcome, log: seq<Event>)
      requires request.material == digest && Consistent(digest)
      modifies this, request
      ensures var goes := StaysClear(w, digest, old(mode), old(check)) && (until.Some? ==> w.launchTime < until.value);
        if goes then
          phase.Proceeds? && outcome == w.operation
          && log == PreparedLog(w, digest, old(check)) + [Operated(digest, w.launchTime, old(mode), old(check))]
        else NoOperation(log) && (phase.Proceeds? ==> w.preparation == Some(outcome) && outcome != Gave(None))
      ensures phase.Ends? ==> phase.ending.Returned? && !phase.ending.result.success && phase.ending.result.value.None?
      ensures phase.Ends? ==>
        && LaunchRefusals(phase.ending, w, digest, old(mode), old(check), until)
        && (w.preparation.Some? ==> w.preparation == Some(Gave(None)))
      ensures phase.Proceeds? ==>
        outcome
          == if w.preparation.Some? && w.preparation != Some(Gave(None)) then w.preparation.value else w.operation
    {
      hide Consistent, Rejects, LacksTelemetry;
      log := [];
      outcome := Gave(None);
      var ending: Ending;
      var more: seq<Event>;
      var launchCheck, launchMode := check, mode;
      if w.preparation.Some? {
        outcome := w.preparation.value;
        Apply(request, w.afterPreparation);
        if outcome != Gave(None) {
          log := if outcome.Gave? then [Prepared(true)] else [];
          return Proceeds, outcome, log;
        }
        log := [Prepared(false)];
        if request.material != digest || !Consistent(request.material) || check != launchCheck || mode != launchMode {
          ending, more := FinishWithoutExecution(w, digest, Blocked, Unsupported, true);
          return Ends(ending), outcome, log + more;
        }
        if check.Some? {
          log := log + [Checked(check.value)];
          if !w.launchCheckPasses {
            ending, more := FinishWithoutExecution(w, digest, Blocked, Unsupported, true);
            return Ends(ending), outcome, log + more;
          }
        }
        if w.launchGate.GateRaises? {
          ending := TelemetryUnavailable(digest);
          return Ends(ending), outcome, log;
        }
        log := log + [Evaluated(w.launchGate, request.material)];
        if w.launchGate.Deny? {
          ending, more := FinishWithoutExecution(w, digest, Denied, PolicyDenial, false);
          return Ends(ending), outcome, log + more;
        }
        if w.launchGate.NeedsApproval? && !w.gate.NeedsApproval? {
          ending, more := FinishWithoutExecution(w, digest, Blocked, Unsupported, true);
          return Ends(ending), outcome, log + more;
        }
      }
      if until.Some? && until.value <= w.launchTime {
        ending, more := FinishWithoutExecution(w, digest, Denied, ApprovalExpired, true);
        return Ends(ending), outcome, log + more;
      }
      log := log + [Operated(request.material, w.launchTime, mode, check)];
      return Proceeds, w.operation, log;
    }

    /** Turn the outcome of the awaited call into a result: keep its evidence, then record it. */
    method Conclude(w: World, digest: Material, outcome: Outcome) returns (ending: Ending, log: seq<Event>)
      ensures NoOperation(log) && log != []
      ensures Reports(ending, w, digest, outcome)
      ensures outcome.CancelledCall? <==> ending.Cancels?
      ensures ending.Cancels? ==> ending.cancelled.Some? && !ending.cancelled.value.success
      ensures ending.Returned? && ending.result.success <==>
        outcome.Gave? && (outcome.value.Some? ==> outcome.value.value.success && w.evidenceStored)
        && w.terminalAudited && w.telemetryStored
      ensures ending.Returned? && ending.result.success ==>
        ending.result.status.Success? && ending.result.value == outcome.value && log[|log| - 1] == Terminal(true)
      ensures ending.Returned? && ending.result.value.Some? ==> ending.result.evidence && EvidenceStored in log
    {
      log := [];
      var result: Coordinated;
      match outcome {
        case CancelledCall =>
          var recorded := w.terminalAudited && w.telemetryStored;
          return Cancels(Some(Coordinated(Cancelled, false, Cancellation, None, digest, false))), [Terminal(recorded)];
        case TimedOut => result := Coordinated(Timeout, false, TimeoutError, None, digest, false);
        case Failed => result := Coordinated(Error, false, ExecutionFailure, None, digest, false);
        case Gave(value) =>
          if value.None? || value.value.success {
            result := Coordinated(Success, true, NoError, value, digest, false);
          } else if value.value.timedOut {
            result := Coordinated(Timeout, false, TimeoutError, value, digest, false);
          } else {
            result := Coordinated(Error, false, ExecutionFailure, value, digest, false);
          }
      }
      if result.value.Some? {
        if w.evidenceStored {
          result := result.(evidence := true);
          log := log + [EvidenceStored];
        } else {
          result := Coordinated(Error, false, TelemetryFailure, None, digest, false);
        }
      }
      var recorded := w.terminalAudited && w.telemetryStored;
      log := log + [Terminal(recorded)];
      if !recorded {
        result := result.(status := Error, success := false, category := TelemetryFailure);
      }
      return Returned(result), log;
    }

    /**
      * `execute`. The operation is awaited exactly when the request clears, stays clear through the
      * preparation and is launched in time; then once, with everything its launch must rest on
      * already on record. A returned success is recorded in full, and any returned value has its
      * evidence kept.
      */
    method Execute(request: ExecutionRequest, w: World) returns (ending: Ending, log: seq<Event>)
      modifies this, request
      ensures Executed(ending, log, w, Entered(old(request.material), request.ttl, w), request.blocked,
        request.dependencyAvailable, old(mode), old(check))
    {
      hide Consistent, Clears, StaysClear, ClearLog, PreparedLog, Approves, Until, NoOperation, Launches, Recorded,
           Entered, ClearRefusals, LaunchRefusals, Reports, Executed, Refusals, Grounded, AllGoverned, Governed, InTime,
           Rejects, GrantGiven;
      EnteredIs(request.material, request.ttl, w);
      if !request.material.risk.Read? && request.material.expiresAt.None? {
        request.material := request.material.(expiresAt := Some(w.entryTime + request.ttl));
      }
      var digest := request.material;
      ghost var (blocked, available) := (request.blocked, request.dependencyAvailable);
      var phase, until, cleared := Clear(request, w, digest);
      if phase.Ends? {
        NotCleared(w, digest, blocked, available, old(mode), old(check));
        EndsQuietly(phase.ending, cleared, w, digest, blocked, available, old(mode), old(check));
        return phase.ending, cleared;
      }
      ClearFacts(w, digest, blocked, available, old(check), mode, check);
      LaunchesIff(w, digest, blocked, available, old(mode), old(check), mode, check);
      ghost var (launchMode, launchCheck) := (mode, check);
      var outcome, launched;
      phase, outcome, launched := Launch(request, w, digest, until);
      if phase.Ends? {
        JoinedQuiet(cleared, launched);
        RefusedLaunch(phase.ending, w, digest, blocked, available, old(mode), old(check));
        EndsQuietly(phase.ending, cleared + launched, w, digest, blocked, available, old(mode), old(check));
        return phase.ending, cleared + launched;
      }
      var tail;
      ending, tail := Conclude(w, digest, outcome);
      log := cleared + launched + tail;
      WholeRecord(cleared, launched, tail, w, digest, blocked, available, old(mode), old(check), launchMode,
        launchCheck);
      EndsConcluded(ending, cleared + launched, tail, w, digest, blocked, available, old(mode), old(check),
        launchMode, launchCheck, outcome);
    }
  }

  /** What an execution of the request `digest` comes to. The operation is awaited exactly when the
      request launches; at most once, on all it has to rest on, and then the answer reports it. A
      request that is refused is answered by what it was refused for. A returned success is on
      record, of the operation or of a value the preparation gave, and a returned value has its
      evidence kept. */
  ghost predicate Executed(ending: Ending, log: seq<Event>, w: World, digest: Material, blocked: bool,
      dependencyAvailable: bool, mode: nat, check: Option<nat>)
  {
    && (!NoOperation(log) <==> Launches(w, digest, blocked, dependencyAvailable, mode, check))
    && AllGoverned(log, digest, w.preparation.Some?) && Grounded(log, w, blocked, dependencyAvailable)
    && (forall i, j :: 0 <= i < j < |log| && log[i].Operated? ==> !log[j].Operated?)
    && (!NoOperation(log) ==> Reports(ending, w, digest, w.operation))
    && Refusals(ending, w, digest, blocked, dependencyAvailable, mode, check)
    && (ending.Returned? && ending.result.success ==>
          && ending.result.status == Success && log != [] && log[|log| - 1] == Terminal(true)
          && (NoOperation(log) ==> exists value :: w.preparation == Some(Gave(Some(value)))))
    && (ending.Returned? && ending.result.value.Some? ==> ending.result.evidence && EvidenceStored in log)
  }

  lemma EndsQuietly(ending: Ending, log: seq<Event>, w: World, digest: Material, blocked: bool,
      dependencyAvailable: bool, mode: nat, check: Option<nat>)
    requires NoOperation(log) && !Launches(w, digest, blocked, dependencyAvailable, mode, check)
    requires ending.Returned? ==> !ending.result.success && ending.result.value.None?
    requires if Clears(w, digest, blocked, dependencyAvailable, check)
      then Refusals(ending, w, digest, blocked, dependencyAvailable, mode, check)
      else ClearRefusals(ending, w, digest, blocked, dependencyAvailable, check)
    ensures Executed(ending, log, w, digest, blocked, dependencyAvailable, mode, check)
  {
    hide Clears, Launches, ClearRefusals, Refusals, Reports, Recorded, Grounded, AllGoverned;
    QuietRecord(log, digest, w.preparation.Some?);
    RecordedMeans(log, digest, w.preparation.Some?, false);
    QuietGrounds(log, w, blocked, dependencyAvailable);
    if !Clears(w, digest, blocked, dependencyAvailable, check) {
      RefusedClear(ending, w, digest, blocked, dependencyAvailable, mode, check);
    }
  }

  lemma WholeRecord(cleared: seq<Event>, launched: seq<Event>, tail: seq<Event>, w: World, digest: Material,
      blocked: bool, dependencyAvailable: bool, mode: nat, check: Option<nat>, mode': nat, check': Option<nat>)
    requires Clears(w, digest, blocked, dependencyAvailable, check) && (digest.risk.Read? || digest.expiresAt.Some?)
    requires mode' == if w.gate.NeedsApproval? then w.afterApproval.mode else mode
    requires check' == if w.gate.NeedsApproval? then w.afterApproval.check else check
    requires w.gate.NeedsApproval? ==> Approves(w, digest)
    requires cleared == ClearLog(w, digest, mode', check') && NoOperation(cleared) && NoOperation(tail)
    requires if Launches(w, digest, blocked, dependencyAvailable, mode, check)
      then launched == PreparedLog(w, digest, check') + [Operated(digest, w.launchTime, mode', check')]
      else NoOperation(launched)
    ensures Recorded(cleared + launched + tail, digest, w.preparation.Some?,
      Launches(w, digest, blocked, dependencyAvailable, mode, check))
    ensures Grounded(cleared + launched + tail, w, blocked, dependencyAvailable)
  {
    hide Consistent, Clears, StaysClear, ClearLog, PreparedLog, Approves, NoOperation, Recorded, Grounded, InTime;
    if Launches(w, digest, blocked, dependencyAvailable, mode, check) {
      LaunchRecord(w, digest, blocked, dependencyAvailable, mode, check, mode', check', tail);
      RunsOnGrounds(cleared, w, digest, blocked, dependencyAvailable, check, mode', check', tail);
    } else {
      JoinedQuiet(cleared, launched);
      JoinedQuiet(cleared + launched, tail);
      QuietRecord(cleared + launched + tail, digest, w.preparation.Some?);
      QuietGrounds(cleared + launched + tail, w, blocked, dependencyAvailable);
    }
  }

  lemma EndsConcluded(ending: Ending, before: seq<Event>, tail: seq<Event>, w: World, digest: Material, blocked: bool,
      dependencyAvailable: bool, mode: nat, check: Option<nat>, mode': nat, check': Option<nat>, outcome: Outcome)
    requires Clears(w, digest, blocked, dependencyAvailable, check) && Reports(ending, w, digest, outcome)
    requires mode' == if w.gate.NeedsApproval? then w.afterApproval.mode else mode
    requires check' == if w.gate.NeedsApproval? then w.afterApproval.check else check
    requires var goes := Launches(w, digest, blocked, dependencyAvailable, mode, check);
      && Recorded(before + tail, digest, w.preparation.Some?, goes)
      && (if goes then outcome == w.operation else w.preparation == Some(outcome) && outcome != Gave(None))
    requires Grounded(before + tail, w, blocked, dependencyAvailable) && tail != []
    requires ending.Returned? && ending.result.success ==>
      ending.result.status.Success? && outcome.Gave? && tail[|tail| - 1] == Terminal(true)
    requires ending.Returned? && ending.result.value.Some? ==> ending.result.evidence && EvidenceStored in tail
    ensures Executed(ending, before + tail, w, digest, blocked, dependencyAvailable, mode, check)
  {
    hide Clears, ClearRefusals, Refusals, Reports, Recorded, Grounded, AllGoverned, StaysClear, InTime, NoOperation;
    var goes := Launches(w, digest, blocked, dependencyAvailable, mode, check);
    RecordedMeans(before + tail, digest, w.preparation.Some?, goes);
    NotRefused(ending, w, digest, blocked, dependencyAvailable, mode, check, mode', check', outcome, goes);
    if outcome.Gave? && outcome != Gave(None) {
      assert outcome == Gave(Some(outcome.value.value));
    }
  }

  lemma EnteredIs(m: Material, ttl: nat, w: World)
    ensures Entered(m, ttl, w)
      == if !m.risk.Read? && m.expiresAt.None? then m.(expiresAt := Some(w.entryTime + ttl)) else m
    ensures Entered(m, ttl, w).risk.Read? || Entered(m, ttl, w).expiresAt.Some?
  {}

  // A whole log in which the operation is awaited just when `goes`, governed and at most once.
  ghost predicate Recorded(log: seq<Event>, digest: Material, prepares: bool, goes: bool) {
    && AllGoverned(log, digest, prepares) && (!NoOperation(log) <==> goes)
    && forall i, j :: 0 <= i < j < |log| && log[i].Operated? ==> !log[j].Operated?
  }

  lemma RecordedMeans(log: seq<Event>, digest: Material, prepares: bool, goes: bool)
    requires Recorded(log, digest, prepares, goes)
    ensures AllGoverned(log, digest, prepares) && (!NoOperation(log) <==> goes)
    ensures forall i, j :: 0 <= i < j < |log| && log[i].Operated? ==> !log[j].Operated?
  {
    hide AllGoverned, NoOperation;
  }

  lemma QuietRecord(log: seq<Event>, digest: Material, prepares: bool)
    requires NoOperation(log)
    ensures Recorded(log, digest, prepares, false)
  {
    hide AllGoverned;
    QuietGoverned(log, digest, prepares);
  }

  lemma LaunchRecord(w: World, digest: Material, blocked: bool, dependencyAvailable: bool, mode: nat,
      check: Option<nat>, mode': nat, check': Option<nat>, tail: seq<Event>)
    requires Launches(w, digest, blocked, dependencyAvailable, mode, check) && NoOperation(tail)
    requires mode' == if w.gate.NeedsApproval? then w.afterApproval.mode else mode
    requires check' == if w.gate.NeedsApproval? then w.afterApproval.check else check
    requires digest.risk.Read? || digest.expiresAt.Some?
    ensures w.gate.NeedsApproval? ==> Approves(w, digest)
    ensures var log := ClearLog(w, digest, mode', check')
        + (PreparedLog(w, digest, check') + [Operated(digest, w.launchTime, mode', check')]) + tail;
      Recorded(log, digest, w.preparation.Some?, true)
  {
    hide AllGoverned, NoOperation, Clears, StaysClear, InTime, ClearLog, PreparedLog;
    LaunchGoverned(w, digest, blocked, dependencyAvailable, check, mode', check', tail);
    GovernedOnce(ClearLog(w, digest, mode', check')
        + (PreparedLog(w, digest, check') + [Operated(digest, w.launchTime, mode', check')]) + tail,
      digest, w.preparation.Some?);
  }

  lemma LaunchesIff(w: World, digest: Material, blocked: bool, dependencyAvailable: bool, mode: nat, check: Option<nat>,
      mode': nat, check': Option<nat>)
    requires Clears(w, digest, blocked, dependencyAvailable, check)
    requires mode' == if w.gate.NeedsApproval? then w.afterApproval.mode else mode
    requires check' == if w.gate.NeedsApproval? then w.afterApproval.check else check
    ensures Launches(w, digest, blocked, dependencyAvailable, mode, check) <==>
      StaysClear(w, digest, mode', check') && (Until(w, digest).Some? ==> w.launchTime < Until(w, digest).value)
  {
    hide Clears, StaysClear, Until;
  }

  /** The operation is awaited: the request clears, stays clear through the preparation, in time. */
  predicate Launches(w: World, digest: Material, blocked: bool, dependencyAvailable: bool, mode: nat,
      check: Option<nat>)
  {
    var (mode', check') :=
      if w.gate.NeedsApproval? then (w.afterApproval.mode, w.afterApproval.check) else (mode, check);
    Clears(w, digest, blocked, dependencyAvailable, check) && StaysClear(w, digest, mode', check') && InTime(w, digest)
  }

  lemma NotCleared(w: World, digest: Material, blocked: bool, dependencyAvailable: bool, mode: nat, check: Option<nat>)
    requires !Clears(w, digest, blocked, dependencyAvailable, check)
    ensures !Launches(w, digest, blocked, dependencyAvailable, mode, check)
  {}

  lemma ClearFacts(w: World, digest: Material, blocked: bool, dependencyAvailable: bool, check: Option<nat>, mode': nat,
      check': Option<nat>)
    requires Clears(w, digest, blocked, dependencyAvailable, check)
    ensures Consistent(digest) && (w.gate.NeedsApproval? ==> Approves(w, digest))
    ensures NoOperation(ClearLog(w, digest, mode', check'))
  {
    hide Consistent, Approves, Until;
  }

  // ----- How the answers come about -----

  lemma RefusedClear(ending: Ending, w: World, digest: Material, blocked: bool, dependencyAvailable: bool, mode: nat,
      check: Option<nat>)
    requires !Clears(w, digest, blocked, dependencyAvailable, check)
    requires ClearRefusals(ending, w, digest, blocked, dependencyAvailable, check)
    ensures Refusals(ending, w, digest, blocked, dependencyAvailable, mode, check)
  {
    hide ClearRefusals, LaunchRefusals, Clears, Reports;
  }

  lemma ClearedIsNotRefused(ending: Ending, w: World, digest: Material, blocked: bool, dependencyAvailable: bool,
      check: Option<nat>)
    requires Clears(w, digest, blocked, dependencyAvailable, check)
    ensures ClearRefusals(ending, w, digest, blocked, dependencyAvailable, check)
  {
    hide Consistent, Approves, Rejects, LacksTelemetry, ApprovalRefused;
  }

  lemma RefusedLaunch(ending: Ending, w: World, digest: Material, blocked: bool, dependencyAvailable: bool, mode: nat,
      check: Option<nat>)
    requires Clears(w, digest, blocked, dependencyAvailable, check)
    requires w.preparation.Some? ==> w.preparation == Some(Gave(None))
    requires var (mode', check') :=
        if w.gate == NeedsApproval then (w.afterApproval.mode, w.afterApproval.check) else (mode, check);
      LaunchRefusals(ending, w, digest, mode', check', Until(w, digest))
    ensures Refusals(ending, w, digest, blocked, dependencyAvailable, mode, check)
  {
    hide ClearRefusals, LaunchRefusals, Clears, Reports, Until;
    ClearedIsNotRefused(ending, w, digest, blocked, dependencyAvailable, check);
  }

  lemma NotRefused(ending: Ending, w: World, digest: Material, blocked: bool, dependencyAvailable: bool, mode: nat,
      check: Option<nat>, mode': nat, check': Option<nat>, outcome: Outcome, goes: bool)
    requires Clears(w, digest, blocked, dependencyAvailable, check) && Reports(ending, w, digest, outcome)
    requires mode' == if w.gate.NeedsApproval? then w.afterApproval.mode else mode
    requires check' == if w.gate.NeedsApproval? then w.afterApproval.check else check
    requires goes ==> StaysClear(w, digest, mode', check') && InTime(w, digest)
    requires !goes ==> w.preparation == Some(outcome) && outcome != Gave(None)
    ensures Refusals(ending, w, digest, blocked, dependencyAvailable, mode, check)
  {
    hide ClearRefusals, Clears, Reports, Until, Rejects, LacksTelemetry;
    ClearedIsNotRefused(ending, w, digest, blocked, dependencyAvailable, check);
  }

  lemma RunsOnGrounds(cleared: seq<Event>, w: World, digest: Material, blocked: bool, dependencyAvailable: bool,
      check: Option<nat>, mode': nat, check': Option<nat>, tail: seq<Event>)
    requires NoOperation(cleared) && NoOperation(tail)
    requires Clears(w, digest, blocked, dependencyAvailable, check) && StaysClear(w, digest, mode', check')
    requires check' == if w.gate.NeedsApproval? then w.afterApproval.check else check
    ensures Grounded(
        cleared + (PreparedLog(w, digest, check') + [Operated(digest, w.launchTime, mode', check')]) + tail,
        w, blocked, dependencyAvailable)
  {
    hide PreparedLog, Approves, Consistent;
    PreparedQuiet(w, digest, check');
  }

  // ----- What the conditions of a launch come to -----

  /** The resolved action of a consistent request is the one the request itself describes. */
  lemma ConsistentMeans(m: Material)
    ensures Consistent(m) <==> forall r | m.resolved == Some(r) ::
      && r == r.(capability := m.action, provider := m.executor, target := m.target, tool := m.identity.tool,
                 toolVersion := m.identity.toolVersion)
      && m.command == Argv(r.argv)
      && (|r.executables| > 0 ==>
            r.executables[0] == r.executables[0].(path := m.identity.executablePath, sha := m.identity.executableSha))
      && (!r.readOnly ==> m.risk == Write || m.risk == Destructive)
  {}

  /** An approval is accepted exactly when it could be asked for in time, is a plain yes or a grant
      for this very material, is in force when received, and the material is unchanged by then. */
  lemma ApprovesMeans(w: World, digest: Material)
    ensures Approves(w, digest) <==>
      && CanAsk(w, digest) && w.afterApproval.material == digest
      && (|| (w.approver == Some(Yes) && InForce(w, digest, w.yesTime, digest.expiresAt.value))
          || (exists g :: w.approver == Some(Granted(g)) && g.digest == digest
                          && InForce(w, digest, g.approvedAt, g.expiresAt)))
  {
    if Approves(w, digest) && w.approver != Some(Yes) {
      assert w.approver == Some(Granted(w.approver.value.grant));
    }
  }

  /** All that a launch takes, and nothing else. */
  lemma LaunchesMeans(w: World, digest: Material, blocked: bool, dependencyAvailable: bool, mode: nat,
      check: Option<nat>)
    ensures Launches(w, digest, blocked, dependencyAvailable, mode, check) <==>
      && !blocked && dependencyAvailable && Consistent(digest) && w.hooksAllow && w.authorizationRecorded
      && (w.gate == Allow || w.gate == NeedsApproval)
      && (w.gate == NeedsApproval ==>
            && Approves(w, digest)
            && (forall g | w.approver == Some(Granted(g)) :: w.launchTime < g.expiresAt))
      && (digest.expiresAt.Some? ==> w.launchTime < digest.expiresAt.value)
      && var installed := if w.gate == NeedsApproval then w.afterApproval.check else check;
      && (installed != None ==> w.checkPasses)
      && (w.preparation != None ==>
            && w.preparation == Some(Gave(None))
            && w.afterPreparation.material == digest && w.afterPreparation.check == installed
            && w.afterPreparation.mode == (if w.gate == NeedsApproval then w.afterApproval.mode else mode)
            && (installed != None ==> w.launchCheckPasses)
            && (w.launchGate == Allow || (w.launchGate == NeedsApproval && w.gate == NeedsApproval)))
  {
    hide Consistent;
    if w.gate == NeedsApproval && Approves(w, digest) && w.approver != Some(Yes) {
      assert w.approver == Some(Granted(w.approver.value.grant));
    }
  }

  lemma QuietGrounds(log: seq<Event>, w: World, blocked: bool, dependencyAvailable: bool)
    requires NoOperation(log)
    ensures Grounded(log, w, blocked, dependencyAvailable)
  {}

  lemma QuietGoverned(log: seq<Event>, digest: Material, prepares: bool)
    requires NoOperation(log)
    ensures AllGoverned(log, digest, prepares)
  {}

  lemma JoinedQuiet(a: seq<Event>, b: seq<Event>)
    requires NoOperation(a) && NoOperation(b)
    ensures NoOperation(a + b)
  {}

  // The only operation on record is the one launched last.
  lemma LaunchGoverned(w: World, digest: Material, blocked: bool, dependencyAvailable: bool, entryCheck: Option<nat>,
      mode: nat, check: Option<nat>, tail: seq<Event>)
    requires Clears(w, digest, blocked, dependencyAvailable, entryCheck)
    requires check == if w.gate.NeedsApproval? then w.afterApproval.check else entryCheck
    requires StaysClear(w, digest, mode, check) && InTime(w, digest) && NoOperation(tail)
    requires digest.risk.Read? || digest.expiresAt.Some?
    ensures w.gate.NeedsApproval? ==> Approves(w, digest)
    ensures var log :=
        ClearLog(w, digest, mode, check)
          + (PreparedLog(w, digest, check) + [Operated(digest, w.launchTime, mode, check)]) + tail;
      AllGoverned(log, digest, w.preparation.Some?) && !NoOperation(log)
  {
    hide Consistent, Governed, AllGoverned, ClearLog, PreparedLog, Approves, InTime, StaysClear, NoOperation;
    assert w.gate.NeedsApproval? ==> Approves(w, digest);
    var (cleared, prepared) := (ClearLog(w, digest, mode, check), PreparedLog(w, digest, check));
    var op := Operated(digest, w.launchTime, mode, check);
    OperationGoverned(w, digest, blocked, dependencyAvailable, entryCheck, mode, check);
    AppendGoverned(cleared + prepared, op, tail, digest, w.preparation.Some?);
    assert cleared + (prepared + [op]) + tail == cleared + prepared + [op] + tail;
  }

  lemma AppendGoverned(before: seq<Event>, op: Event, tail: seq<Event>, digest: Material, prepares: bool)
    requires op.Operated? && NoOperation(before) && NoOperation(tail) && Governed(before, op, digest, prepares)
    ensures AllGoverned(before + [op] + tail, digest, prepares) && !NoOperation(before + [op] + tail)
  {
    hide Governed;
    var log := before + [op] + tail;
    assert log[..|before|] == before && log[|before|] == op;
    assert forall i :: 0 <= i < |log| && log[i].Operated? ==> i == |before|;
  }

  lemma OperationGoverned(w: World, digest: Material, blocked: bool, dependencyAvailable: bool, entryCheck: Option<nat>,
      mode: nat, check: Option<nat>)
    requires Clears(w, digest, blocked, dependencyAvailable, entryCheck)
    requires check == if w.gate.NeedsApproval? then w.afterApproval.check else entryCheck
    requires StaysClear(w, digest, mode, check) && InTime(w, digest)
    requires digest.risk.Read? || digest.expiresAt.Some?
    ensures w.gate.NeedsApproval? ==> Approves(w, digest)
    ensures var before := ClearLog(w, digest, mode, check) + PreparedLog(w, digest, check);
      NoOperation(before) && Governed(before, Operated(digest, w.launchTime, mode, check), digest, w.preparation.Some?)
  {
    hide Consistent, ClearLog, PreparedLog, Approves, Until, ClearedFirst, ClearedAgain, NoOperation;
    var (cleared, prepared) := (ClearLog(w, digest, mode, check), PreparedLog(w, digest, check));
    InTimeMeans(w, digest);
    ClearLogHolds(w, digest, mode, check);
    Extends(cleared, prepared, digest, w.gate, w.launchTime);
    PreparedQuiet(w, digest, check);
    JoinedQuiet(cleared, prepared);
    if w.preparation.Some? {
      PreparedAgain(w, digest, cleared, check);
    }
  }

  // Whatever the approval, the launch is before the expiry of the request.
  lemma InTimeMeans(w: World, digest: Material)
    requires InTime(w, digest)
    ensures digest.expiresAt.Some? ==> w.launchTime < digest.expiresAt.value
    ensures w.gate.NeedsApproval? && Approves(w, digest) ==>
      GoodApproval(Accepted(GrantGiven(w, digest).value, w.askTime, w.grantTime), digest, w.launchTime)
  {}

  lemma ClearLogHolds(w: World, digest: Material, mode: nat, check: Option<nat>)
    requires w.gate.Allow? || (w.gate.NeedsApproval? && Approves(w, digest))
    requires w.gate.NeedsApproval? ==>
      GoodApproval(Accepted(GrantGiven(w, digest).value, w.askTime, w.grantTime), digest, w.launchTime)
    ensures var cleared := ClearLog(w, digest, mode, check);
      && ClearedFirst(cleared, digest, w.gate, w.launchTime)
      && Authorized(digest, mode, check) in cleared
      && (check.Some? ==> Checked(check.value) in cleared)
      && NoOperation(cleared)
  {
    hide GoodApproval;
    var cleared := ClearLog(w, digest, mode, check);
    assert cleared[|cleared| - 1] == Authorized(digest, mode, check);
    if check.Some? {
      assert cleared[|cleared| - 2] == Checked(check.value);
    }
    if w.gate.NeedsApproval? {
      assert cleared[1] == Accepted(GrantGiven(w, digest).value, w.askTime, w.grantTime);
      assert cleared[1] in cleared;
    }
  }

  lemma Extends(a: seq<Event>, b: seq<Event>, digest: Material, first: Verdict, at: int)
    requires ClearedFirst(a, digest, first, at)
    ensures ClearedFirst(a + b, digest, first, at)
    ensures forall e :: e in a ==> e in a + b
  {
    hide GoodApproval;
    if first.NeedsApproval? {
      var e :| e in a && GoodApproval(e, digest, at);
      assert e in a + b;
    }
  }

  lemma PreparedQuiet(w: World, digest: Material, check: Option<nat>)
    ensures NoOperation(PreparedLog(w, digest, check))
  {}

  lemma PreparedAgain(w: World, digest: Material, cleared: seq<Event>, check: Option<nat>)
    requires w.preparation.Some?
    requires w.launchGate.Allow? || (w.launchGate.NeedsApproval? && w.gate.NeedsApproval?)
    ensures ClearedAgain(cleared + PreparedLog(w, digest, check), digest, w.gate, check)
  {
    var prepared := PreparedLog(w, digest, check);
    var log := cleared + prepared;
    var i := |cleared|;
    assert log[i..] == prepared && log[i] == Prepared(false);
    assert prepared[|prepared| - 1] == Evaluated(w.launchGate, digest);
    if check.Some? {
      assert prepared[1] == Checked(check.value);
    }
  }

  // Before a governed operation there is no other, so there is at most one.
  lemma GovernedOnce(log: seq<Event>, digest: Material, prepares: bool)
    requires AllGoverned(log, digest, prepares)
    ensures forall i, j :: 0 <= i < j < |log| && log[i].Operated? ==> !log[j].Operated?
  {
    forall i, j | 0 <= i < j < |log| && log[j].Operated? ensures !log[i].Operated? {
      assert Governed(log[..j], log[j], digest, prepares);
      assert log[..j][i] == log[i];
    }
  }
}
