/**
  * The bounded tool-use loop (src/decode/runtime/agent_loop.py:162-345), the task state it records
  * into (src/decode/schema/task_state.py:255-339) and the test that lets a saved state be resumed
  * (src/decode/universal_agent.py:278-305). What the model replies, what a tool returns, what the
  * verifier finds and where a call raises are arbitrary.
  */
module ToolLoop {
  import opened Prelude

  datatype Status = Investigating | Blocked | Complete

  datatype Action = Action(step: int, tool: string, thought: string)

  datatype Observation = Observation(step: int, tool: string, success: bool, evidence: string)

  datatype Artifact = Artifact(relatedStep: int, action: string, evidence: string)

  // The task a state belongs to, with its completion conditions as texts.
  datatype Task = Task(session: string, objective: string, conditions: seq<string>)

  datatype Snapshot = Snapshot(
    task: Task, actions: seq<Action>, observations: seq<Observation>, artifacts: seq<Artifact>,
    status: Status, revision: nat)

  // A tool's success entry: the boolean True, some other truthy value, or a falsy or absent one.
  datatype Flag = True | Truthy | Falsy

  datatype Reply = Reply(success: Flag, evidence: string)

  const REFUSED := Reply(Falsy, "")

  // Observations answer the first actions one by one: same step, same tool.
  ghost predicate Answered(s: Snapshot) {
    && |s.observations| <= |s.actions|
    && forall i :: 0 <= i < |s.observations| ==>
         s.actions[i].step == s.observations[i].step && s.actions[i].tool == s.observations[i].tool
  }

  ghost predicate Aligned(s: Snapshot) {
    Answered(s) && |s.observations| == |s.actions|
  }

  ghost predicate AwaitsOne(s: Snapshot) {
    Answered(s) && |s.observations| + 1 == |s.actions|
  }

  const NO_TASK := Task("", "", [])

  function NewState(task: Task): Snapshot {
    Snapshot(task, [], [], [], Investigating, 0)
  }

  class TaskState {
    const task: Task
    var actions: seq<Action>
    var observations: seq<Observation>
    var artifacts: seq<Artifact>
    var status: Status
    var revision: nat

    constructor Fresh(task: Task)
      ensures View() == NewState(task)
    {
      this.task := task;
      actions, observations, artifacts, status, revision := [], [], [], Investigating, 0;
    }

    constructor Copy(s: Snapshot)
      ensures View() == s
    {
      this.task := s.task;
      actions, observations, artifacts, status, revision :=
        s.actions, s.observations, s.artifacts, s.status, s.revision;
    }

    function View(): Snapshot
      reads this
    {
      Snapshot(task, actions, observations, artifacts, status, revision)
    }

    method RecordAction(tool: string, thought: string)
      modifies this
      ensures View() == WithAction(old(View()), tool, thought)
    {
      actions := actions + [Action(|actions| + 1, tool, thought)];
      revision := revision + 1;
    }

    /** Evidence that came with the observation is linked to its step. */
    method RecordObservation(tool: string, reply: Reply)
      modifies this
      ensures View() == WithObservation(old(View()), tool, reply)
    {
      var obs := Observation(|observations| + 1, tool, !reply.success.Falsy?, reply.evidence);
      observations := observations + [obs];
      if obs.evidence != "" {
        artifacts := artifacts + [Artifact(obs.step, tool, obs.evidence)];
        revision := revision + 1;
      }
      revision := revision + 1;
    }

    method Mark(status': Status)
      modifies this
      ensures View() == WithStatus(old(View()), status')
    {
      status := status';
      revision := revision + 1;
    }
  }

  function WithAction(s: Snapshot, tool: string, thought: string): Snapshot {
    s.(actions := s.actions + [Action(|s.actions| + 1, tool, thought)], revision := s.revision + 1)
  }

  function WithObservation(s: Snapshot, tool: string, reply: Reply): Snapshot {
    var step := |s.observations| + 1;
    var linked := reply.evidence != "";
    s.(observations := s.observations + [Observation(step, tool, !reply.success.Falsy?, reply.evidence)],
       artifacts := s.artifacts + (if linked then [Artifact(step, tool, reply.evidence)] else []),
       revision := s.revision + if linked then 2 else 1)
  }

  function WithStatus(s: Snapshot, status: Status): Snapshot {
    s.(status := status, revision := s.revision + 1)
  }

  // ----- One turn of the environment -----

  datatype Crash = Nowhere | AtModel | AtVerifier | AtTool

  // `tool` is empty when the reply is a final message; `reply` is what the tool would return.
  datatype Turn = Turn(
    tool: string, paramsValid: bool, thought: string, reply: Reply, verdictValid: bool, crash: Crash)

  datatype Stop = Final | VerificationFailed | ActionFailed | Budget | CutOff

  datatype Step = Step(tool: string, reply: Reply)

  // The tool call of turn `t` reaches the tool itself.
  predicate Invokes(tools: set<string>, t: Turn) {
    t.tool in tools && t.paramsValid
  }

  function ReplyOf(tools: set<string>, t: Turn): Reply {
    if Invokes(tools, t) then t.reply else REFUSED
  }

  /** The turns below `n` that call a tool. */
  function ToolTurns(env: nat -> Turn, n: nat): seq<nat> {
    if n == 0 then [] else ToolTurns(env, n - 1) + if env(n - 1).tool != "" then [n - 1] else []
  }

  function StepsOf(env: nat -> Turn, tools: set<string>, turns: seq<nat>): seq<Step> {
    seq(|turns|, i requires 0 <= i < |turns| => Step(env(turns[i]).tool, ReplyOf(tools, env(turns[i]))))
  }

  /** The final messages below `n` that were not accepted. */
  function Rejections(env: nat -> Turn, n: nat): nat {
    if n == 0 then 0 else Rejections(env, n - 1) + if env(n - 1).tool == "" then 1 else 0
  }

  // ----- The state from turn to turn -----

  // What a turn that does not end the loop leaves of the state, and what it saves on the way.
  function TurnEnd(s: Snapshot, t: Turn, tools: set<string>): Snapshot {
    if t.tool == "" then WithStatus(s, Investigating)
    else WithObservation(WithAction(s, t.tool, t.thought), t.tool, ReplyOf(tools, t))
  }

  function TurnSaves(s: Snapshot, t: Turn, tools: set<string>): seq<Snapshot> {
    (if t.tool == "" then [] else [WithAction(s, t.tool, t.thought)]) + [TurnEnd(s, t, tools)]
  }

  function Progress(s: Snapshot, env: nat -> Turn, tools: set<string>, n: nat): Snapshot {
    if n == 0 then s else TurnEnd(Progress(s, env, tools, n - 1), env(n - 1), tools)
  }

  function Saves(s: Snapshot, env: nat -> Turn, tools: set<string>, n: nat): seq<Snapshot> {
    if n == 0 then [s]
    else Saves(s, env, tools, n - 1) + TurnSaves(Progress(s, env, tools, n - 1), env(n - 1), tools)
  }

  // One invocation of a tool: in which turn, and the last state saved before it, if any was.
  datatype Invocation = Invocation(turn: nat, savedBefore: Option<Snapshot>)

  /** The invocations of the turns below `n`, each with its own action saved just before. */
  function Invocations(keeps: bool, s: Snapshot, env: nat -> Turn, tools: set<string>, n: nat): seq<Invocation> {
    if n == 0 then []
    else Invocations(keeps, s, env, tools, n - 1) + InvocationIn(keeps, s, env, tools, n - 1)
  }

  function InvocationIn(keeps: bool, s: Snapshot, env: nat -> Turn, tools: set<string>, k: nat): seq<Invocation> {
    var t := env(k);
    if t.tool == "" || !Invokes(tools, t) then []
    else [Invocation(k, if keeps then Some(WithAction(Progress(s, env, tools, k), t.tool, t.thought)) else None)]
  }

  // What each reason to stop makes of the state `s` that the turns went past, and of the saves `before`.
  ghost predicate Leaves(stop: Stop, s: Snapshot, t: Turn, tools: set<string>, stopOnFailure: bool,
      before: seq<Snapshot>, view: Snapshot, saved: seq<Snapshot>)
  {
    match stop
    case Final => view == WithStatus(s, Complete) && saved == before + [view]
    case VerificationFailed => view == WithStatus(s, Blocked) && saved == before + [view]
    case ActionFailed =>
      view == WithStatus(TurnEnd(s, t, tools), Blocked) && saved == before + TurnSaves(s, t, tools) + [view]
    case Budget =>
      if stopOnFailure then view == WithStatus(s, Blocked) && saved == before + [view] else view == s && saved == before
    case CutOff =>
      if t.crash.AtTool? then view == WithAction(s, t.tool, t.thought) && saved == before + [view]
      else view == s && saved == before
  }

  class ToolUseLoop {
    const tools: set<string>
    const maxSteps: nat
    const maxReplans: nat
    const hasVerifier: bool
    const stopOnFailure: bool
    const state: TaskState?
    var replans: nat
    // The states handed to the checkpoint callback, in order.
    var saved: seq<Snapshot>
    // The tool invocations made, in order.
    ghost var invoked: seq<Invocation>

    constructor (tools: set<string>, maxSteps: int, maxReplans: int, hasVerifier: bool, stopOnFailure: bool,
        state: TaskState?)
      ensures this.tools == tools && this.hasVerifier == hasVerifier && this.stopOnFailure == stopOnFailure
      ensures this.maxSteps == (if maxSteps < 1 then 1 else maxSteps)
          && this.maxReplans == (if maxReplans < 0 then 0 else maxReplans)
      ensures this.state == state && replans == 0 && saved == [] && invoked == []
    {
      this.tools, this.hasVerifier, this.stopOnFailure, this.state := tools, hasVerifier, stopOnFailure, state;
      this.maxSteps := if maxSteps < 1 then 1 else maxSteps;
      this.maxReplans := if maxReplans < 0 then 0 else maxReplans;
      replans, saved, invoked := 0, [], [];
    }

    // The loop goes past turn `t`.
    ghost predicate Continues(t: Turn) {
      && !Raises(t)
      && (t.tool == "" ==> state != null && hasVerifier && !t.verdictValid)
      && (t.tool != "" && stopOnFailure ==> t.tool in tools && t.paramsValid && t.reply.success == True)
    }

    predicate Raises(t: Turn) {
      match t.crash
      case Nowhere => false
      case AtModel => true
      case AtVerifier => t.tool == "" && state != null && hasVerifier
      case AtTool => t.tool != "" && Invokes(tools, t)
    }

    method SaveCheckpoint()
      modifies this`saved
      ensures saved == if state == null then old(saved) else old(saved) + [state.View()]
    {
      if state != null {
        saved := saved + [state.View()];
      }
    }

    method Mark(status: Status)
      modifies state, this`saved
      ensures state != null ==>
        state.View() == WithStatus(old(state.View()), status) && saved == old(saved) + [state.View()]
      ensures state == null ==> saved == old(saved)
    {
      if state != null {
        state.Mark(status);
      }
      SaveCheckpoint();
    }

    /** Record the action, save, call the tool if it is known and given valid parameters, record the outcome, save. */
    method CallTool(t: Turn, ghost turn: nat) returns (r: Result<Reply>)
      requires t.tool != "" && !t.crash.AtModel?
      modifies state, this`saved, this`invoked
      ensures invoked == old(invoked) + if !Invokes(tools, t) then [] else [Invocation(turn,
        if state == null then None else Some(WithAction(old(state.View()), t.tool, t.thought)))]
      ensures r == if Raises(t) then Raised else Ok(ReplyOf(tools, t))
      ensures r.Ok? ==> (r.value.success == True <==> t.tool in tools && t.paramsValid && t.reply.success == True)
      ensures state == null ==> saved == old(saved)
      ensures state != null ==>
        var s := old(state.View());
        && state.View() == (if Raises(t) then WithAction(s, t.tool, t.thought) else TurnEnd(s, t, tools))
        && saved == old(saved) + if Raises(t) then [state.View()] else TurnSaves(s, t, tools)
    {
      hide WithAction, WithObservation;
      if state != null {
        state.RecordAction(t.tool, t.thought);
      }
      SaveCheckpoint();
      var observation: Reply;
      if t.tool !in tools {
        observation := REFUSED;
      } else if !t.paramsValid {
        observation := REFUSED;
      } else {
        invoked := invoked + [Invocation(turn, if state == null then None else Some(saved[|saved| - 1]))];
        if t.crash.AtTool? {
          return Raised;
        }
        observation := t.reply;
      }
      if state != null {
        state.RecordObservation(t.tool, observation);
      }
      SaveCheckpoint();
      return Ok(observation);
    }

    /** A final message is accepted, sent back for replanning while replans are left, or given up on. */
    method FinalMessage(t: Turn) returns (ended: Option<Stop>)
      requires t.tool == "" && !t.crash.AtModel? && replans <= maxReplans
      modifies state, this`saved, this`replans
      ensures ended == (
        if Raises(t) then Some(CutOff)
        else if state == null || !hasVerifier || t.verdictValid then Some(Final)
        else if old(replans) < maxReplans then None else Some(VerificationFailed))
      ensures replans == old(replans) + if ended == None then 1 else 0
      ensures state == null || Raises(t) ==> saved == old(saved)
      ensures state != null && Raises(t) ==> state.View() == old(state.View())
      ensures state != null && !Raises(t) ==>
        && state.View() == WithStatus(old(state.View()),
             if ended == None then Investigating else if ended == Some(Final) then Complete else Blocked)
        && saved == old(saved) + [state.View()]
    {
      if state != null && hasVerifier {
        if t.crash.AtVerifier? {
          return Some(CutOff);
        }
        if !t.verdictValid {
          var canReplan := replans < maxReplans;
          if !canReplan {
            Mark(Blocked);
            return Some(VerificationFailed);
          }
          replans := replans + 1;
          Mark(Investigating);
          return None;
        }
      }
      Mark(Complete);
      return Some(Final);
    }

    /**
      * Run the loop. After `n` turns it went past, it stops for one of five reasons, each with the
      * state, the saves and the steps that reason implies.
      */
    method Run(env: nat -> Turn) returns (stop: Stop, steps: seq<Step>, n: nat)
      requires replans <= maxReplans
      modifies this, state
      ensures n <= maxSteps && forall j :: 0 <= j < n ==> Continues(env(j))
      ensures replans == old(replans) + Rejections(env, n) <= maxReplans
      ensures stop.Budget? <==> n == maxSteps
      ensures stop.CutOff? <==> n < maxSteps && Raises(env(n))
      ensures stop.CutOff? && env(n).crash.AtTool? ==> env(n).tool != ""
      ensures stop.Final? || stop.VerificationFailed? <==> n < maxSteps && !Raises(env(n)) && env(n).tool == ""
      ensures stop.Final? && state != null && hasVerifier ==> env(n).verdictValid
      ensures stop.VerificationFailed? ==> state != null && hasVerifier && !env(n).verdictValid && replans == maxReplans
      ensures stop.ActionFailed? <==>
        && n < maxSteps && !Raises(env(n)) && stopOnFailure && env(n).tool != ""
        && !(env(n).tool in tools && env(n).paramsValid && env(n).reply.success == True)
      ensures steps == StepsOf(env, tools, if stop.ActionFailed? then ToolTurns(env, n) + [n] else ToolTurns(env, n))
      ensures var s0 := if state == null then NewState(NO_TASK) else old(state.View());
        invoked == old(invoked) + Invocations(state != null, s0, env, tools, n)
          + if stop.ActionFailed? || (stop.CutOff? && env(n).crash.AtTool?)
            then InvocationIn(state != null, s0, env, tools, n) else []
      ensures state == null ==> saved == old(saved)
      ensures state != null ==>
        Leaves(stop, Progress(old(state.View()), env, tools, n), env(n), tools, stopOnFailure,
          old(saved) + Saves(old(state.View()), env, tools, n), state.View(), saved)
    {
      hide Progress, Saves, TurnEnd, TurnSaves, ToolTurns, StepsOf, Rejections, WithAction, WithObservation,
           WithStatus, ReplyOf, Invocations, InvocationIn;
      SaveCheckpoint();
      steps, n := [], 0;
      ghost var s0 := if state == null then NewState(NO_TASK) else state.View();
      Beginning(s0, env, tools);
      NoInvocation(state != null, s0, env, tools);
      while n < maxSteps
        invariant n <= maxSteps && forall j :: 0 <= j < n ==> Continues(env(j))
        invariant replans == old(replans) + Rejections(env, n) <= maxReplans
        invariant steps == StepsOf(env, tools, ToolTurns(env, n))
        invariant state == null ==> saved == old(saved)
        invariant invoked == old(invoked) + Invocations(state != null, s0, env, tools, n)
        invariant state != null ==>
          state.View() == Progress(s0, env, tools, n) && saved == old(saved) + Saves(s0, env, tools, n)
      {
        var t := env(n);
        OneTurn(s0, env, tools, n);
        OneInvocation(state != null, s0, env, tools, n);
        if t.crash.AtModel? {
          return CutOff, steps, n;
        }
        if t.tool == "" {
          var ended := FinalMessage(t);
          if ended.Some? {
            return ended.value, steps, n;
          }
          n := n + 1;
          continue;
        }
        var observation := CallTool(t, n);
        if observation.Raised? {
          return CutOff, steps, n;
        }
        steps := steps + [Step(t.tool, observation.value)];
        if stopOnFailure && !observation.value.success.True? {
          Mark(Blocked);
          return ActionFailed, steps, n;
        }
        n := n + 1;
      }
      if stopOnFailure && state != null {
        Mark(Blocked);
      }
      return Budget, steps, n;
    }
  }

  lemma Beginning(s: Snapshot, env: nat -> Turn, tools: set<string>)
    ensures Progress(s, env, tools, 0) == s && Saves(s, env, tools, 0) == [s]
    ensures ToolTurns(env, 0) == [] && StepsOf(env, tools, []) == [] && Rejections(env, 0) == 0
  {}

  lemma NoInvocation(keeps: bool, s: Snapshot, env: nat -> Turn, tools: set<string>)
    ensures Invocations(keeps, s, env, tools, 0) == []
  {}

  lemma OneInvocation(keeps: bool, s: Snapshot, env: nat -> Turn, tools: set<string>, n: nat)
    ensures Invocations(keeps, s, env, tools, n + 1)
      == Invocations(keeps, s, env, tools, n) + InvocationIn(keeps, s, env, tools, n)
    ensures InvocationIn(keeps, s, env, tools, n) == if env(n).tool == "" || !Invokes(tools, env(n)) then [] else
      [Invocation(n, if keeps then Some(WithAction(Progress(s, env, tools, n), env(n).tool, env(n).thought)) else None)]
  {}

  lemma OneTurn(s: Snapshot, env: nat -> Turn, tools: set<string>, n: nat)
    ensures Progress(s, env, tools, n + 1) == TurnEnd(Progress(s, env, tools, n), env(n), tools)
    ensures Saves(s, env, tools, n + 1) == Saves(s, env, tools, n)
        + TurnSaves(Progress(s, env, tools, n), env(n), tools)
    ensures Rejections(env, n + 1) == Rejections(env, n) + if env(n).tool == "" then 1 else 0
    ensures env(n).tool == "" ==> ToolTurns(env, n + 1) == ToolTurns(env, n)
    ensures env(n).tool != "" ==> ToolTurns(env, n + 1) == ToolTurns(env, n) + [n]
    ensures StepsOf(env, tools, ToolTurns(env, n) + [n])
      == StepsOf(env, tools, ToolTurns(env, n)) + [Step(env(n).tool, ReplyOf(tools, env(n)))]
    ensures var (p, t) := (Progress(s, env, tools, n), env(n));
      t.tool == "" ==>
        TurnEnd(p, t, tools) == WithStatus(p, Investigating) && TurnSaves(p, t, tools) == [TurnEnd(p, t, tools)]
  {}

  // ----- What every run keeps -----

  /** Every turn below `n` either calls a tool or is a rejected final message. */
  lemma {:induction false} TurnsConserved(env: nat -> Turn, n: nat)
    ensures |ToolTurns(env, n)| + Rejections(env, n) == n
  {
    if n > 0 {
      TurnsConserved(env, n - 1);
    }
  }

  lemma TurnKeepsAlignment(s: Snapshot, t: Turn, tools: set<string>)
    requires Aligned(s)
    ensures Aligned(TurnEnd(s, t, tools))
    ensures forall x :: x in TurnSaves(s, t, tools) ==> Aligned(x) || AwaitsOne(x)
    ensures t.tool != "" ==> AwaitsOne(WithAction(s, t.tool, t.thought))
  {
    hide ReplyOf;
  }

  lemma MarkKeepsAlignment(s: Snapshot, status: Status)
    ensures Aligned(WithStatus(s, status)) <==> Aligned(s)
  {}

  /** From an aligned state every turn ends aligned, and every save is aligned or awaits exactly one observation. */
  lemma {:induction false} SavesAlignedOrAwaiting(s: Snapshot, env: nat -> Turn, tools: set<string>, n: nat)
    requires Aligned(s)
    ensures Aligned(Progress(s, env, tools, n))
    ensures forall x :: x in Saves(s, env, tools, n) ==> Aligned(x) || AwaitsOne(x)
  {
    hide Aligned, AwaitsOne, TurnEnd, TurnSaves;
    if n > 0 {
      SavesAlignedOrAwaiting(s, env, tools, n - 1);
      TurnKeepsAlignment(Progress(s, env, tools, n - 1), env(n - 1), tools);
    }
  }

  // The record the tool turns leave: one action and one observation each, numbered on from `s`.
  ghost predicate Records(s: Snapshot, s': Snapshot, env: nat -> Turn, tools: set<string>, turns: seq<nat>) {
    && |s'.actions| == |s.actions| + |turns| && |s'.observations| == |s.observations| + |turns|
    && s.actions <= s'.actions && s.observations <= s'.observations
    && forall k :: 0 <= k < |turns| ==>
         var (t, reply) := (env(turns[k]), ReplyOf(tools, env(turns[k])));
         && s'.actions[|s.actions| + k] == Action(|s.actions| + k + 1, t.tool, t.thought)
         && s'.observations[|s.observations| + k]
              == Observation(|s.observations| + k + 1, t.tool, !reply.success.Falsy?, reply.evidence)
  }

  /** The state records every tool call of the run in order, with what the tool said or the refusal, and no more. */
  lemma {:induction false} ProgressRecordsCalls(s: Snapshot, env: nat -> Turn, tools: set<string>, n: nat)
    ensures Records(s, Progress(s, env, tools, n), env, tools, ToolTurns(env, n))
  {
    hide ReplyOf;
    if n > 0 {
      ProgressRecordsCalls(s, env, tools, n - 1);
    }
  }

  /** The observation of every tool turn: a refused call is recorded as a failure without evidence,
      and any other as what the tool said, a success exactly when that was not falsy. */
  lemma ObservationsMean(s: Snapshot, env: nat -> Turn, tools: set<string>, n: nat, k: nat)
    requires k < |ToolTurns(env, n)|
    ensures var (p, t) := (Progress(s, env, tools, n), env(ToolTurns(env, n)[k]));
      && |p.observations| == |s.observations| + |ToolTurns(env, n)|
      && var o := p.observations[|s.observations| + k];
      && o.tool == t.tool && o.step == |s.observations| + k + 1
      && (t.tool !in tools || !t.paramsValid ==> !o.success && o.evidence == "")
      && (t.tool in tools && t.paramsValid ==>
            o.evidence == t.reply.evidence && (o.success <==> t.reply.success == True || t.reply.success == Truthy))
  {
    ProgressRecordsCalls(s, env, tools, n);
  }

  /** The links to the evidence of observations, in their order. */
  function EvidenceOf(obs: seq<Observation>): seq<Artifact> {
    if obs == [] then []
    else
      var o := obs[|obs| - 1];
      EvidenceOf(obs[..|obs| - 1]) + if o.evidence == "" then [] else [Artifact(o.step, o.tool, o.evidence)]
  }

  lemma TurnLinks(s: Snapshot, t: Turn, tools: set<string>)
    requires s.artifacts == EvidenceOf(s.observations)
    ensures var p := TurnEnd(s, t, tools);
      && p.artifacts == EvidenceOf(p.observations) && p.task == s.task && p.revision > s.revision
      && p.status == if t.tool == "" then Investigating else s.status
  {
    hide ReplyOf;
    var p := TurnEnd(s, t, tools);
    if t.tool != "" {
      assert p.observations[..|p.observations| - 1] == s.observations;
    }
  }

  /** A run links the evidence of every observation to its step, and of nothing else; it stays on
      its task and counts up its revision in every turn. */
  lemma {:induction false} EvidenceIsLinked(s: Snapshot, env: nat -> Turn, tools: set<string>, n: nat)
    requires s.artifacts == EvidenceOf(s.observations)
    ensures var p := Progress(s, env, tools, n);
      p.artifacts == EvidenceOf(p.observations) && p.task == s.task && p.revision >= s.revision + n
  {
    hide TurnEnd, EvidenceOf;
    if n > 0 {
      EvidenceIsLinked(s, env, tools, n - 1);
      TurnLinks(Progress(s, env, tools, n - 1), env(n - 1), tools);
    }
  }

  // A turn in which the tool is invoked.
  predicate CallsTool(t: Turn, tools: set<string>) {
    t.tool != "" && t.tool in tools && t.paramsValid
  }

  // The invocations are of the turns below `n` that call a tool, one of each, in order.
  ghost predicate Exactly(made: seq<Invocation>, env: nat -> Turn, tools: set<string>, n: nat) {
    && (forall v :: v in made ==> v.turn < n && CallsTool(env(v.turn), tools))
    && (forall k: nat :: k < n && CallsTool(env(k), tools) ==> exists v :: v in made && v.turn == k)
    && (forall i, j :: 0 <= i < j < |made| ==> made[i].turn < made[j].turn)
  }

  lemma ExactlyGrows(before: seq<Invocation>, one: seq<Invocation>, env: nat -> Turn, tools: set<string>, n: nat)
    requires Exactly(before, env, tools, n)
    requires if CallsTool(env(n), tools) then |one| == 1 && one[0].turn == n else one == []
    ensures Exactly(before + one, env, tools, n + 1)
  {
    hide CallsTool;
    var made := before + one;
    forall i, j | 0 <= i < j < |made| ensures made[i].turn < made[j].turn {
      if i < |before| { assert before[i] in before; }
    }
    forall k: nat | k < n + 1 && CallsTool(env(k), tools) ensures exists v :: v in made && v.turn == k {
      if k < n {
        var v :| v in before && v.turn == k;
        assert v in made;
      } else {
        assert one[0] in made;
      }
    }
  }

  /** The tool is invoked exactly in the turns that name a known tool with valid parameters, once in each, in order. */
  lemma {:induction false} InvokedExactly(keeps: bool, s: Snapshot, env: nat -> Turn, tools: set<string>, n: nat)
    ensures var made := Invocations(keeps, s, env, tools, n);
      && (forall v :: v in made ==> v.turn < n && CallsTool(env(v.turn), tools))
      && (forall k: nat :: k < n && CallsTool(env(k), tools) ==> exists v :: v in made && v.turn == k)
      && (forall i, j :: 0 <= i < j < |made| ==> made[i].turn < made[j].turn)
  {
    hide InvocationIn, CallsTool, Invocations;
    if n == 0 {
      NoInvocation(keeps, s, env, tools);
    } else {
      InvokedExactly(keeps, s, env, tools, n - 1);
      OneInvocation(keeps, s, env, tools, n - 1);
      OneOrNone(keeps, s, env, tools, n - 1);
      ExactlyGrows(Invocations(keeps, s, env, tools, n - 1), InvocationIn(keeps, s, env, tools, n - 1), env, tools,
        n - 1);
    }
  }

  lemma OneOrNone(keeps: bool, s: Snapshot, env: nat -> Turn, tools: set<string>, k: nat)
    ensures var one := InvocationIn(keeps, s, env, tools, k);
      if CallsTool(env(k), tools) then |one| == 1 && one[0].turn == k else one == []
  {
    hide WithAction, Progress;
  }

  // The state saved last before the invocation is among the run's saves and awaits this very action's observation.
  ghost predicate RecordedFirst(v: Invocation, env: nat -> Turn, saves: seq<Snapshot>) {
    && v.savedBefore.Some? && v.savedBefore.value in saves && AwaitsOne(v.savedBefore.value)
    && v.savedBefore.value.actions[|v.savedBefore.value.actions| - 1].tool == env(v.turn).tool
  }

  /** Where states are kept, no tool is invoked before its own action was recorded and saved. */
  lemma {:induction false} InvocationsAreRecorded(s: Snapshot, env: nat -> Turn, tools: set<string>, n: nat)
    requires Aligned(s)
    ensures forall v :: v in Invocations(true, s, env, tools, n) ==> RecordedFirst(v, env, Saves(s, env, tools, n))
  {
    hide Aligned, Saves, Progress, TurnEnd, InvocationIn, Invokes;
    if n > 0 {
      InvocationsAreRecorded(s, env, tools, n - 1);
      SavesAlignedOrAwaiting(s, env, tools, n - 1);
      OneInvocation(true, s, env, tools, n - 1);
      var (p, t) := (Progress(s, env, tools, n - 1), env(n - 1));
      OneTurn(s, env, tools, n - 1);
      TurnKeepsAlignment(p, t, tools);
      if t.tool != "" {
        assert TurnSaves(p, t, tools)[0] == WithAction(p, t.tool, t.thought);
      }
    }
  }

  // ----- Resuming -----

  // The state is of the named session and the goal, and of the completion conditions if any are given.
  predicate SameTask(s: Snapshot, session: string, goal: string, conditions: Option<seq<string>>) {
    && session != "" && s.task.session == session && s.task.objective == goal
    && (conditions.Some? ==> s.task.conditions == conditions.value)
  }

  /** The two tests a saved state must pass to be resumed. */
  method AcceptsResume(s: Snapshot, session: string, goal: string, conditions: Option<seq<string>>) returns (ok: bool)
    ensures ok <==>
      && session != "" && s.task.session == session && s.task.objective == goal
      && (conditions == None || conditions == Some(s.task.conditions))
      && s.status == Investigating && Aligned(s)
  {
    if session == "" || s.task.session != session || s.task.objective != goal || !s.status.Investigating?
       || (conditions.Some? && s.task.conditions != conditions.value) {
      return false;
    }
    if |s.actions| != |s.observations| {
      return false;
    }
    for i := 0 to |s.actions|
      invariant forall k :: 0 <= k < i ==>
        s.actions[k].step == s.observations[k].step && s.actions[k].tool == s.observations[k].tool
    {
      if s.actions[i].step != s.observations[i].step || s.actions[i].tool != s.observations[i].tool {
        return false;
      }
    }
    return true;
  }

  /** The state a run starts from: an accepted copy, or a new one, or none where the resume is refused. */
  method StateFor(resume: Option<Snapshot>, session: string, newSession: string, goal: string,
      conditions: Option<seq<string>>) returns (state: TaskState?)
    ensures state == null <==> (resume.Some? && !(
      SameTask(resume.value, session, goal, conditions) && resume.value.status.Investigating? && Aligned(resume.value)))
    ensures state != null ==> fresh(state) && Aligned(state.View())
    ensures state != null && resume.Some? ==> state.View() == resume.value
  {
    hide Aligned;
    if resume.Some? {
      var ok := AcceptsResume(resume.value, session, goal, conditions);
      if !ok {
        return null;
      }
      state := new TaskState.Copy(resume.value);
    } else {
      var task :=
        Task(if session != "" then session else newSession, goal, if conditions.Some? then conditions.value else []);
      state := new TaskState.Fresh(task);
      NewIsAligned(task);
    }
  }

  datatype Settings = Settings(
    tools: set<string>, maxSteps: int, maxReplans: int, hasVerifier: bool, stopOnFailure: bool)

  /**
    * A run of the agent, fresh or resumed. A state is resumed exactly when it is of the same
    * investigating task and aligned. Everything the run saves is aligned or awaits one observation,
    * and what it saved last awaits one exactly when the run was cut off inside a tool, so a state
    * that may have acted without a recorded outcome is never resumed. It takes at most its step
    * budget, and an accepted final message is one the verifier found valid.
    */
  method RunAgent(resume: Option<Snapshot>, session: string, newSession: string, goal: string,
      conditions: Option<seq<string>>, settings: Settings, env: nat -> Turn)
    returns (r: Result<Stop>, steps: seq<Step>, saved: seq<Snapshot>, n: nat)
    ensures r.Raised? <==> (resume.Some? && !(
      SameTask(resume.value, session, goal, conditions) && resume.value.status.Investigating? && Aligned(resume.value)))
    ensures r.Raised? ==> saved == [] && steps == []
    ensures r.Ok? ==> saved != []
    ensures forall x :: x in saved ==> Aligned(x) || AwaitsOne(x)
    ensures r.Ok? ==>
      (!Aligned(saved[|saved| - 1]) <==> r.value.CutOff? && env(n).crash.AtTool?)
    ensures r.Ok? ==> |steps| <= n + 1 && |steps| <= (if settings.maxSteps < 1 then 1 else settings.maxSteps)
    ensures r == Ok(Final) ==>
      saved[|saved| - 1].status.Complete? && (settings.hasVerifier ==> env(n).tool == "" && env(n).verdictValid)
    ensures r == Ok(VerificationFailed) || r == Ok(ActionFailed) || (r == Ok(Budget) && settings.stopOnFailure) ==>
      saved[|saved| - 1].status.Blocked?
    ensures r == Ok(VerificationFailed) ==> settings.hasVerifier && !env(n).verdictValid
    ensures r == Ok(VerificationFailed) ==>
      Rejections(env, n) == (if settings.maxReplans < 0 then 0 else settings.maxReplans)
  {
    hide Aligned, AwaitsOne, Saves, Progress, TurnEnd, TurnSaves, StepsOf, ToolTurns, Rejections, WithAction, ReplyOf,
         Invocations, InvocationIn, Leaves, SameTask, ToolUseLoop.Continues, ToolUseLoop.Raises;
    steps, saved, n := [], [], 0;
    var tools := settings.tools;
    var state := StateFor(resume, session, newSession, goal, conditions);
    if state == null {
      return Raised, steps, saved, n;
    }
    ghost var s := state.View();
    var loop := new ToolUseLoop(
      tools, settings.maxSteps, settings.maxReplans, settings.hasVerifier, settings.stopOnFailure, state);
    var stop: Stop;
    stop, steps, n := loop.Run(env);
    saved := loop.saved;
    assert [] + Saves(s, env, tools, n) == Saves(s, env, tools, n);
    LeavesSafely(stop, s, env, tools, n, settings.stopOnFailure, state.View(), saved);
    StepsWithinBudget(env, tools, n);
    return Ok(stop), steps, saved, n;
  }

  /** Whatever the reason to stop, a run from an aligned state saves safely, and last as its reason says. */
  lemma LeavesSafely(stop: Stop, s: Snapshot, env: nat -> Turn, tools: set<string>, n: nat, stopOnFailure: bool,
      view: Snapshot, saved: seq<Snapshot>)
    requires Aligned(s) && (stop.CutOff? && env(n).crash.AtTool? ==> env(n).tool != "")
    requires Leaves(stop, Progress(s, env, tools, n), env(n), tools, stopOnFailure,
      Saves(s, env, tools, n), view, saved)
    ensures saved != [] && forall x :: x in saved ==> Aligned(x) || AwaitsOne(x)
    ensures !Aligned(saved[|saved| - 1]) <==> stop.CutOff? && env(n).crash.AtTool?
    ensures stop.Final? ==> saved[|saved| - 1].status.Complete?
    ensures stop.VerificationFailed? || stop.ActionFailed? || (stop.Budget? && stopOnFailure) ==>
      saved[|saved| - 1].status.Blocked?
  {
    hide Aligned, AwaitsOne, Saves, Progress, TurnEnd, TurnSaves, WithAction;
    RunSavesSafely(s, env, tools, n);
    var p := Progress(s, env, tools, n);
    AwaitingIsNotAligned(WithAction(p, env(n).tool, env(n).thought));
    MarkKeepsAlignment(p, Complete);
    MarkKeepsAlignment(p, Blocked);
    MarkKeepsAlignment(TurnEnd(p, env(n), tools), Blocked);
  }

  lemma NewIsAligned(task: Task)
    ensures Aligned(NewState(task))
  {}

  lemma AwaitingIsNotAligned(s: Snapshot)
    ensures AwaitsOne(s) ==> !Aligned(s)
  {}

  lemma StepsWithinBudget(env: nat -> Turn, tools: set<string>, n: nat)
    ensures |StepsOf(env, tools, ToolTurns(env, n))| <= n
    ensures |StepsOf(env, tools, ToolTurns(env, n) + [n])| <= n + 1
  {
    TurnsConserved(env, n);
  }

  lemma RunSavesSafely(s: Snapshot, env: nat -> Turn, tools: set<string>, n: nat)
    requires Aligned(s)
    ensures var p := Progress(s, env, tools, n);
      && Aligned(p) && Aligned(TurnEnd(p, env(n), tools))
      && (forall x :: x in Saves(s, env, tools, n) || x in TurnSaves(p, env(n), tools) ==> Aligned(x) || AwaitsOne(x))
      && Saves(s, env, tools, n) != [] && Aligned(Saves(s, env, tools, n)[|Saves(s, env, tools, n)| - 1])
      && (env(n).tool != "" ==> AwaitsOne(WithAction(p, env(n).tool, env(n).thought)))
  {
    hide Aligned, AwaitsOne, TurnEnd, TurnSaves, WithAction;
    SavesAlignedOrAwaiting(s, env, tools, n);
    TurnKeepsAlignment(Progress(s, env, tools, n), env(n), tools);
    LastSave(s, env, tools, n);
  }

  lemma LastSave(s: Snapshot, env: nat -> Turn, tools: set<string>, n: nat)
    ensures Saves(s, env, tools, n) != []
    ensures Saves(s, env, tools, n)[|Saves(s, env, tools, n)| - 1] == Progress(s, env, tools, n)
  {
    hide TurnEnd;
  }
}
