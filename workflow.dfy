/** The migration orchestrator: a state machine that generates one SQL
    script for all reconciliation contexts, validates it against the first
    context, regenerates it at most three times while validation reports
    errors, and asks for an explanation once validation passes. The four
    language-model agents are oracle functions supplied by the caller. */
module Workflow {
  import opened Models

  /** The graph state; every field has the record's default. */
  datatype State = State(
    contexts: seq<MigrationContext>,
    sqlScript: string := "",
    validationReport: Option<ValidationReport> := None,
    explanation: string := "",
    retryCount: nat := 0)

  /** The four agent calls, with the arguments the nodes pass them. */
  datatype Agents = Agents(
    generate: seq<MigrationContext> -> string,
    regenerate: (seq<MigrationContext>, ValidationReport) -> string,
    validate: (string, MigrationContext) -> ValidationReport,
    explain: (string, MigrationContext) -> string)

  /** The nodes of the graph, plus its three ways of ending: through the
      explainer, through the Fail edge, or by an exception in a node (a
      node that reads the first context of an empty list, or regenerates
      from a missing report). */
  datatype Phase = Start | Generating | Validating | Regenerating | Explaining | Passed | Failed | Crashed
  {
    predicate IsTerminal() { Passed? || Failed? || Crashed? }
  }

  /** A request issued to an agent. */
  datatype Request = GenerateRequest | ValidateRequest | RegenerateRequest | ExplainRequest

  /** A run so far: where it is, its state, and the requests issued. */
  datatype Run = Run(phase: Phase, state: State, requests: seq<Request>)

  datatype Decision = Pass | Retry | Fail

  /** The retry budget. */
  const MaxRetries: nat := 3

  /** The state the graph is invoked with. */
  function InitialState(contexts: seq<MigrationContext>): (st: State)
    ensures st.contexts == contexts && st.retryCount == 0
    ensures st.sqlScript == "" && st.explanation == "" && st.validationReport == None
  {
    State(contexts)
  }

  /** The decision after validation. */
  function CheckValidation(st: State): (d: Decision)
    requires st.validationReport.Some?
    ensures d == Pass <==> !st.validationReport.value.hasErrors
    ensures d == Retry <==> st.validationReport.value.hasErrors && st.retryCount < MaxRetries
    ensures d == Fail <==> st.validationReport.value.hasErrors && st.retryCount >= MaxRetries
  {
    if !st.validationReport.value.hasErrors then Pass
    else if st.retryCount < MaxRetries then Retry else Fail
  }

  /** The regenerator node merged into the state: a new script from all
      contexts and the latest report, and one more retry. */
  function RegeneratorNode(st: State, agents: Agents): (st': State)
    requires st.validationReport.Some?
    ensures st'.retryCount == st.retryCount + 1
    ensures st'.sqlScript == agents.regenerate(st.contexts, st.validationReport.value)
    ensures st'.contexts == st.contexts && st'.validationReport == st.validationReport
    ensures st'.explanation == st.explanation
  {
    st.(sqlScript := agents.regenerate(st.contexts, st.validationReport.value), retryCount := st.retryCount + 1)
  }

  /** One transition of the graph from a non-terminal phase: run the node
      of that phase, merge its update into the state and follow its edge. */
  function Step(p: Phase, st: State, agents: Agents): (next: Run)
    requires !p.IsTerminal()
    ensures next.state.contexts == st.contexts
    ensures next.state.retryCount == st.retryCount + (if p.Regenerating? && next.phase.Validating? then 1 else 0)
    ensures next.phase.Crashed? <==>
      ((p.Validating? || p.Explaining?) && |st.contexts| == 0) || (p.Regenerating? && st.validationReport.None?)
    ensures next.phase.Crashed? ==> next.state == st && next.requests == []
    ensures p.Start? ==> next == Run(Generating, st, [])
    ensures p.Generating? ==> next == Run(Validating, st.(sqlScript := agents.generate(st.contexts)), [GenerateRequest])
    ensures p.Validating? && |st.contexts| > 0 ==>
      && next.state == st.(validationReport := Some(agents.validate(st.sqlScript, st.contexts[0])))
      && next.requests == [ValidateRequest]
      && (next.phase.Explaining? <==> CheckValidation(next.state).Pass?)
      && (next.phase.Regenerating? <==> CheckValidation(next.state).Retry?)
      && (next.phase.Failed? <==> CheckValidation(next.state).Fail?)
    ensures p.Regenerating? && st.validationReport.Some? ==>
      && next.phase == Validating && next.requests == [RegenerateRequest]
      && next.state == st.(sqlScript := agents.regenerate(st.contexts, st.validationReport.value),
                           retryCount := st.retryCount + 1)
    ensures p.Explaining? && |st.contexts| > 0 ==>
      next == Run(Passed, st.(explanation := agents.explain(st.sqlScript, st.contexts[0])), [ExplainRequest])
  {
    match p
    case Start => Run(Generating, st, [])
    case Generating =>
      Run(Validating, st.(sqlScript := agents.generate(st.contexts)), [GenerateRequest])
    case Validating =>
      if |st.contexts| == 0 then Run(Crashed, st, [])
      else
        var st' := st.(validationReport := Some(agents.validate(st.sqlScript, st.contexts[0])));
        var next := match CheckValidation(st')
          case Pass => Explaining
          case Retry => Regenerating
          case Fail => Failed;
        Run(next, st', [ValidateRequest])
    case Regenerating =>
      if st.validationReport.None? then Run(Crashed, st, [])
      else Run(Validating, RegeneratorNode(st, agents), [RegenerateRequest])
    case Explaining =>
      if |st.contexts| == 0 then Run(Crashed, st, [])
      else Run(Passed, st.(explanation := agents.explain(st.sqlScript, st.contexts[0])), [ExplainRequest])
  }

  // ---------------------------------------------------------------------
  // The closed form of a run

  /** The script the run holds after `i` regenerations. */
  function Script(cs: seq<MigrationContext>, agents: Agents, i: nat): string
    requires |cs| > 0
    decreases i, 0
  {
    if i == 0 then agents.generate(cs)
    else agents.regenerate(cs, Report(cs, agents, i - 1))
  }

  /** The report of the validation after `i` regenerations: always against
      the first context. */
  function Report(cs: seq<MigrationContext>, agents: Agents, i: nat): ValidationReport
    requires |cs| > 0
    decreases i, 1
  {
    agents.validate(Script(cs, agents, i), cs[0])
  }

  /** The attempt the run stops at, scanning from `i`: the first clean
      validation, or the last one the budget allows. */
  function StopFrom(cs: seq<MigrationContext>, agents: Agents, i: nat): (k: nat)
    requires |cs| > 0 && i <= MaxRetries
    ensures i <= k <= MaxRetries
    ensures forall j :: i <= j < k ==> Report(cs, agents, j).hasErrors
    ensures k < MaxRetries ==> !Report(cs, agents, k).hasErrors
    decreases MaxRetries - i
  {
    if i == MaxRetries || !Report(cs, agents, i).hasErrors then i
    else StopFrom(cs, agents, i + 1)
  }

  /** The number of regenerations a run performs. */
  function Attempts(cs: seq<MigrationContext>, agents: Agents): nat
    requires |cs| > 0
  {
    StopFrom(cs, agents, 0)
  }

  /** The requests of `k` rounds of failed validation followed by
      regeneration. */
  function Rounds(k: nat): seq<Request>
  {
    if k == 0 then [] else Rounds(k - 1) + [ValidateRequest, RegenerateRequest]
  }

  function Trace(k: nat, explained: bool): seq<Request>
  {
    [GenerateRequest] + Rounds(k) + [ValidateRequest] + (if explained then [ExplainRequest] else [])
  }

  /** How a run ends, in closed form. */
  function Expected(cs: seq<MigrationContext>, agents: Agents): Run
  {
    if |cs| == 0 then
      Run(Crashed, InitialState(cs).(sqlScript := agents.generate(cs)), [GenerateRequest])
    else
      var k := Attempts(cs, agents);
      var st := State(cs, Script(cs, agents, k), Some(Report(cs, agents, k)), "", k);
      if Report(cs, agents, k).hasErrors then Run(Failed, st, Trace(k, false))
      else Run(Passed, st.(explanation := agents.explain(st.sqlScript, cs[0])), Trace(k, true))
  }

  /** Ranks the non-terminal phases along the edges that keep the retry
      count. */
  function Rank(p: Phase): nat
  {
    match p
    case Start => 5
    case Generating => 4
    case Validating => 3
    case Regenerating => 2
    case Explaining => 1
    case _ => 0
  }

  /** The compiled graph invoked with the contexts: runs the transitions
      until the graph ends. */
  method RunWorkflow(contexts: seq<MigrationContext>, agents: Agents) returns (run: Run)
    ensures run == Expected(contexts, agents)
    ensures run.phase.IsTerminal() && run.state.retryCount <= MaxRetries
  {
    var phase, st, requests := Start, InitialState(contexts), [];
    while !phase.IsTerminal()
      invariant st.contexts == contexts && st.retryCount <= MaxRetries
      invariant phase.Regenerating? ==> st.retryCount < MaxRetries
      invariant phase.Start? || phase.Generating? ==> st == InitialState(contexts) && requests == []
      invariant phase.Crashed? ==> Run(phase, st, requests) == Expected(contexts, agents)
      invariant |contexts| == 0 ==> phase.Start? || phase.Generating? || phase.Validating? || phase.Crashed?
      invariant |contexts| == 0 && phase.Validating? ==>
        Run(Crashed, st, requests) == Expected(contexts, agents)
      invariant |contexts| > 0 && (phase.Validating? || phase.Regenerating? || phase.Explaining?) ==>
        (forall j :: 0 <= j < st.retryCount ==> Report(contexts, agents, j).hasErrors)
      invariant |contexts| > 0 && phase.Validating? ==>
        && st.sqlScript == Script(contexts, agents, st.retryCount)
        && st.explanation == ""
        && (st.retryCount > 0 ==> st.validationReport == Some(Report(contexts, agents, st.retryCount - 1)))
        && requests == [GenerateRequest] + Rounds(st.retryCount)
      invariant |contexts| > 0 && (phase.Regenerating? || phase.Explaining?) ==>
        && st.sqlScript == Script(contexts, agents, st.retryCount)
        && st.explanation == ""
        && st.validationReport == Some(Report(contexts, agents, st.retryCount))
        && requests == [GenerateRequest] + Rounds(st.retryCount) + [ValidateRequest]
      invariant |contexts| > 0 && phase.Regenerating? ==> Report(contexts, agents, st.retryCount).hasErrors
      invariant |contexts| > 0 && phase.Explaining? ==> !Report(contexts, agents, st.retryCount).hasErrors
      invariant |contexts| > 0 && (phase.Passed? || phase.Failed?) ==>
        Run(phase, st, requests) == Expected(contexts, agents)
      decreases MaxRetries - st.retryCount, Rank(phase)
    {
      var next := Step(phase, st, agents);
      phase, st, requests := next.phase, next.state, requests + next.requests;
    }
    run := Run(phase, st, requests);
  }

  // ---------------------------------------------------------------------
  // Properties of a run

  /** Each round issues one validation and one regeneration request. */
  lemma {:induction false} RoundsCounts(k: nat)
    ensures multiset(Rounds(k))[ValidateRequest] == k
    ensures multiset(Rounds(k))[RegenerateRequest] == k
    ensures multiset(Rounds(k))[GenerateRequest] == 0
    ensures multiset(Rounds(k))[ExplainRequest] == 0
  {
    if k > 0 {
      RoundsCounts(k - 1);
    }
  }

  /** A run always ends, generates once, regenerates at most three times,
      validates at most four times (once more than it regenerates, unless
      it crashes on an empty context list before validating), and asks for
      an explanation only when it passes. */
  lemma RunBounds(cs: seq<MigrationContext>, agents: Agents)
    ensures var r := Expected(cs, agents);
      var n := multiset(r.requests);
      && r.phase.IsTerminal()
      && r.state.retryCount <= MaxRetries
      && n[GenerateRequest] == 1
      && n[RegenerateRequest] == r.state.retryCount
      && n[ValidateRequest] == (if r.phase.Crashed? then 0 else r.state.retryCount + 1)
      && n[ValidateRequest] <= MaxRetries + 1
      && n[ExplainRequest] == (if r.phase.Passed? then 1 else 0)
  {
    if |cs| > 0 {
      RoundsCounts(Attempts(cs, agents));
    }
  }

  /** All four validations the budget allows report errors. */
  predicate EveryValidationErrs(cs: seq<MigrationContext>, agents: Agents)
    requires |cs| > 0
  {
    forall j :: 0 <= j <= MaxRetries ==> Report(cs, agents, j).hasErrors
  }

  /** The run fails exactly when the four validations the budget allows
      (the first one and one after each of three regenerations) all report
      errors; it crashes exactly when there is no context to validate. */
  lemma FailedIffEveryValidationErrs(cs: seq<MigrationContext>, agents: Agents)
    ensures Expected(cs, agents).phase.Crashed? <==> |cs| == 0
    ensures |cs| > 0 ==>
      (Expected(cs, agents).phase.Failed? <==> EveryValidationErrs(cs, agents))
    ensures |cs| > 0 ==> (Expected(cs, agents).phase.Passed? || Expected(cs, agents).phase.Failed?)
  {
    if |cs| > 0 {
      var k := Attempts(cs, agents);
      if Report(cs, agents, k).hasErrors {
        assert k == MaxRetries;
        forall j | 0 <= j <= MaxRetries ensures Report(cs, agents, j).hasErrors {
          if j == k {
          }
        }
        assert Expected(cs, agents).phase.Failed?;
      } else {
        assert Expected(cs, agents).phase.Passed?;
        assert !(forall j :: 0 <= j <= MaxRetries ==> Report(cs, agents, j).hasErrors);
      }
    }
  }

  /** The run passes on the first validation without errors, whatever the
      retry count is then: with k regenerations behind it, it keeps that
      script and report and explains that script against the first context. */
  lemma PassesAtFirstCleanValidation(cs: seq<MigrationContext>, agents: Agents, k: nat)
    requires |cs| > 0 && k <= MaxRetries
    requires forall j :: 0 <= j < k ==> Report(cs, agents, j).hasErrors
    requires !Report(cs, agents, k).hasErrors
    ensures var r := Expected(cs, agents);
      && r.phase == Passed
      && r.state.retryCount == k
      && r.state.sqlScript == Script(cs, agents, k)
      && r.state.validationReport == Some(Report(cs, agents, k))
      && r.state.explanation == agents.explain(Script(cs, agents, k), cs[0])
  {
  }

  /** A failed run ends straight after its fourth validation: no explanation
      is requested, the explanation stays empty, and the last script and its
      report are kept for diagnosis. */
  lemma FailedKeepsLastAttempt(cs: seq<MigrationContext>, agents: Agents)
    requires Expected(cs, agents).phase.Failed?
    ensures var r := Expected(cs, agents);
      && |cs| > 0
      && r.state.retryCount == MaxRetries
      && r.state.explanation == ""
      && ExplainRequest !in r.requests
      && r.state.sqlScript == Script(cs, agents, MaxRetries)
      && r.state.validationReport == Some(Report(cs, agents, MaxRetries))
      && r.state.validationReport.value.hasErrors
  {
    var k := Attempts(cs, agents);
    RoundsCounts(k);
  }

  /** A validator that always reports errors drives the run to Failed after
      exactly three regenerations, with no explanation. */
  lemma AlwaysFailingValidationExhaustsRetries(cs: seq<MigrationContext>, agents: Agents)
    requires |cs| > 0
    requires forall sql: string, c: MigrationContext :: agents.validate(sql, c).hasErrors
    ensures var r := Expected(cs, agents);
      && r.phase == Failed
      && r.state.retryCount == MaxRetries
      && r.state.explanation == ""
      && multiset(r.requests)[RegenerateRequest] == MaxRetries
  {
    FailedIffEveryValidationErrs(cs, agents);
    var r := Expected(cs, agents);
    assert Report(cs, agents, 0).hasErrors && Report(cs, agents, 1).hasErrors;
    assert Report(cs, agents, 2).hasErrors && Report(cs, agents, 3).hasErrors;
    FailedKeepsLastAttempt(cs, agents);
    RunBounds(cs, agents);
  }
}
