/** The reasoning panel under an assistant message: consecutive steps by the
    same agent are shown as one block, and a long tool result is shown
    truncated until it is expanded. */
module ThoughtPanel {
  import opened Wrappers
  import opened ChatTypes

  /** `getStepAgent`: the agent a step is shown under; a handoff belongs to its sender. */
  function StepAgent(step: ThoughtStep): Field {
    match step
    case AgentStart(agent) => agent
    case Handoff(from, _) => from
    case ToolCall(agent, _, _) => agent
    case ToolResult(agent, _, _) => agent
  }

  /** One block of the panel: a run of steps shown under one agent. */
  datatype Group = Group(agent: Field, steps: seq<ThoughtStep>)

  /** The steps of all blocks, in order. */
  function Flatten(groups: seq<Group>): seq<ThoughtStep>
    decreases |groups|
  {
    if groups == [] then []
    else Flatten(groups[..|groups| - 1]) + groups[|groups| - 1].steps
  }

  /** A block is non-empty and every step in it belongs to its agent. */
  predicate Uniform(g: Group) {
    g.steps != [] && forall i :: 0 <= i < |g.steps| ==> StepAgent(g.steps[i]) == g.agent
  }

  /** Every block is uniform and neighbouring blocks have different agents. */
  ghost predicate WellGrouped(groups: seq<Group>) {
    && (forall i :: 0 <= i < |groups| ==> Uniform(groups[i]))
    && (forall i, j :: 0 <= i < j < |groups| && j == i + 1 ==> groups[i].agent != groups[j].agent)
  }

  /** The number of neighbouring step pairs whose agents differ. */
  function AgentChanges(steps: seq<ThoughtStep>): nat
    decreases |steps|
  {
    if |steps| <= 1 then 0
    else
      var change := if StepAgent(steps[|steps| - 2]) != StepAgent(steps[|steps| - 1]) then 1 else 0;
      AgentChanges(steps[..|steps| - 1]) + change
  }

  /** One iteration of the grouping loop: the step joins the last block when
      it has the same agent, and opens a new block otherwise. */
  function Extend(groups: seq<Group>, step: ThoughtStep): seq<Group> {
    if groups != [] && groups[|groups| - 1].agent == StepAgent(step) then
      groups[..|groups| - 1] + [groups[|groups| - 1].(steps := groups[|groups| - 1].steps + [step])]
    else
      groups + [Group(StepAgent(step), [step])]
  }

  /** The blocks the grouping loop builds. */
  function Groups(steps: seq<ThoughtStep>): seq<Group>
    decreases |steps|
  {
    if steps == [] then []
    else Extend(Groups(steps[..|steps| - 1]), steps[|steps| - 1])
  }

  lemma FlattenSnoc(groups: seq<Group>, g: Group)
    ensures Flatten(groups + [g]) == Flatten(groups) + g.steps
  {
    assert (groups + [g])[..|groups|] == groups;
  }

  /** One iteration adds the step at the end of the flattened steps and keeps
      the blocks well grouped, opening a block exactly on an agent change. */
  lemma ExtendSpec(groups: seq<Group>, step: ThoughtStep)
    requires WellGrouped(groups)
    ensures var next := Extend(groups, step);
      && Flatten(next) == Flatten(groups) + [step]
      && WellGrouped(next)
      && next[|next| - 1].agent == StepAgent(step)
      && |next| == |groups| + if groups != [] && groups[|groups| - 1].agent == StepAgent(step) then 0 else 1
  {
    var next := Extend(groups, step);
    if groups != [] && groups[|groups| - 1].agent == StepAgent(step) {
      var last := groups[|groups| - 1];
      var rest := groups[..|groups| - 1];
      var grown := last.(steps := last.steps + [step]);
      assert groups == rest + [last];
      FlattenSnoc(rest, last);
      FlattenSnoc(rest, grown);
      assert Uniform(grown);
      forall i, j | 0 <= i < j < |next| && j == i + 1 ensures next[i].agent != next[j].agent {
        assert next[i] == groups[i];
      }
    } else {
      FlattenSnoc(groups, Group(StepAgent(step), [step]));
    }
  }

  /** The blocks give back the steps exactly and are well grouped; the last
      block belongs to the last step's agent. */
  lemma {:induction false} GroupsSpec(steps: seq<ThoughtStep>)
    ensures var groups := Groups(steps);
      && Flatten(groups) == steps
      && WellGrouped(groups)
      && (groups == [] <==> steps == [])
      && (steps != [] ==> groups[|groups| - 1].agent == StepAgent(steps[|steps| - 1]))
    decreases |steps|
  {
    if steps != [] {
      var init := steps[..|steps| - 1];
      var step := steps[|steps| - 1];
      assert steps == init + [step];
      GroupsSnoc(init, step);
      GroupsSpec(init);
      ExtendSpec(Groups(init), step);
    }
  }

  /** Where a step lands: the last block then belongs to its agent, and a block
      is opened exactly when the last block's agent differs. */
  lemma ExtendShape(groups: seq<Group>, step: ThoughtStep)
    ensures var next := Extend(groups, step);
      && next != [] && next[|next| - 1].agent == StepAgent(step)
      && |next| == |groups| + if groups != [] && groups[|groups| - 1].agent == StepAgent(step) then 0 else 1
  {
  }

  lemma GroupsSnoc(steps: seq<ThoughtStep>, y: ThoughtStep)
    ensures Groups(steps + [y]) == Extend(Groups(steps), y)
  {
    assert (steps + [y])[..|steps|] == steps;
  }

  lemma AgentChangesSnoc(init: seq<ThoughtStep>, step: ThoughtStep)
    ensures AgentChanges(init + [step]) ==
      AgentChanges(init) + if init != [] && StepAgent(init[|init| - 1]) != StepAgent(step) then 1 else 0
  {
    var steps := init + [step];
    assert steps[..|steps| - 1] == init;
    if init != [] {
      assert steps[|steps| - 2] == init[|init| - 1];
    }
  }

  /** There is one block more than there are agent changes between neighbouring steps. */
  lemma {:induction false} GroupsCount(steps: seq<ThoughtStep>)
    requires steps != []
    ensures |Groups(steps)| == 1 + AgentChanges(steps)
    ensures Groups(steps)[|Groups(steps)| - 1].agent == StepAgent(steps[|steps| - 1])
    decreases |steps|
  {
    var init := steps[..|steps| - 1];
    var step := steps[|steps| - 1];
    assert steps == init + [step];
    GroupsSnoc(init, step);
    AgentChangesSnoc(init, step);
    ExtendShape(Groups(init), step);
    if init != [] {
      GroupsCount(init);
    }
  }

  /** The last block's agent differs from `agent`, or there is no block yet. */
  predicate Opens(groups: seq<Group>, agent: Field) {
    groups == [] || groups[|groups| - 1].agent != agent
  }

  /** Appending a uniform run whose agent differs from the last block's adds
      exactly one block. */
  lemma {:induction false} GroupsAppendRun(xs: seq<ThoughtStep>, run: Group)
    requires Uniform(run)
    requires Opens(Groups(xs), run.agent)
    ensures Groups(xs + run.steps) == Groups(xs) + [run]
    decreases |run.steps|
  {
    var ys := run.steps;
    var y := ys[|ys| - 1];
    var init := ys[..|ys| - 1];
    assert ys == init + [y];
    assert xs + ys == (xs + init) + [y];
    GroupsSnoc(xs + init, y);
    if init == [] {
      assert xs + init == xs;
      assert run == Group(StepAgent(y), [y]);
    } else {
      var shorter := Group(run.agent, init);
      UniformPrefix(run);
      GroupsAppendRun(xs, shorter);
      JoinBlock(Groups(xs), shorter, y);
    }
  }

  lemma UniformPrefix(run: Group)
    requires Uniform(run) && |run.steps| > 1
    ensures Uniform(Group(run.agent, run.steps[..|run.steps| - 1]))
    ensures StepAgent(run.steps[|run.steps| - 1]) == run.agent
  {
  }

  lemma JoinBlock(before: seq<Group>, g: Group, y: ThoughtStep)
    requires g.agent == StepAgent(y)
    ensures Extend(before + [g], y) == before + [g.(steps := g.steps + [y])]
  {
    assert (before + [g])[..|before|] == before;
  }

  /** The grouping is the only well-grouped way to cut the steps into blocks. */
  lemma {:induction false} GroupsUnique(groups: seq<Group>)
    requires WellGrouped(groups)
    ensures Groups(Flatten(groups)) == groups
    decreases |groups|
  {
    if groups != [] {
      var init := groups[..|groups| - 1];
      var last := groups[|groups| - 1];
      assert groups == init + [last];
      WellGroupedInit(groups);
      GroupsUnique(init);
      FlattenSnoc(init, last);
      GroupsAppendRun(Flatten(init), last);
    }
  }

  lemma WellGroupedInit(groups: seq<Group>)
    requires WellGrouped(groups) && groups != []
    ensures WellGrouped(groups[..|groups| - 1])
    ensures Uniform(groups[|groups| - 1])
    ensures Opens(groups[..|groups| - 1], groups[|groups| - 1].agent)
  {
    var init := groups[..|groups| - 1];
    if init != [] {
      assert init[|init| - 1] == groups[|groups| - 2];
    }
  }

  /** The grouping loop of `ThoughtProcess`; no panel at all for no steps. */
  method GroupThoughts(thoughts: seq<ThoughtStep>) returns (panel: Option<seq<Group>>)
    ensures panel.None? <==> thoughts == []
    ensures panel.Some? ==> panel.value == Groups(thoughts)
  {
    if |thoughts| == 0 {
      return None;
    }
    var groups: seq<Group> := [];
    for k := 0 to |thoughts|
      invariant groups == Groups(thoughts[..k])
    {
      var step := thoughts[k];
      var agent := StepAgent(step);
      assert thoughts[..k + 1][..k] == thoughts[..k];
      assert Groups(thoughts[..k + 1]) == Extend(groups, step);
      if |groups| > 0 && groups[|groups| - 1].agent == agent {
        var last := groups[|groups| - 1];
        groups := groups[..|groups| - 1] + [last.(steps := last.steps + [step])];
      } else {
        groups := groups + [Group(agent, [step])];
      }
    }
    assert thoughts[..|thoughts|] == thoughts;
    return Some(groups);
  }

  // ---------------------------------------------------------------------
  // Tool-result preview
  // ---------------------------------------------------------------------

  const PreviewLen := 120
  const Ellipsis := '…'

  /** The text a tool-result row shows, collapsed or expanded. */
  function DisplayedResult(result: string, expanded: bool): (shown: string)
    ensures expanded || |result| <= PreviewLen ==> shown == result
    ensures !expanded ==> |shown| <= PreviewLen + 1
    ensures !expanded && |result| > PreviewLen ==> shown == result[..PreviewLen] + [Ellipsis]
    ensures shown != result ==>
      && |result| > PreviewLen
      && |shown| == PreviewLen + 1
      && shown[..PreviewLen] == result[..PreviewLen]
      && shown[PreviewLen] == Ellipsis
  {
    var isLong := |result| > PreviewLen;
    if !isLong || expanded then result else result[..PreviewLen] + [Ellipsis]
  }
}
