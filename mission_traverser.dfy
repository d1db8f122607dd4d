/** `MissionTraverser`: walks a quest's node graph from the current node, tagging dialogue
    nodes for mission use, and starts tasks and checkpoints by name. */
module MissionTraversers {
  import opened Wrappers
  import opened Search

  datatype NodeKind =
    | StartMissionNode
    | StartDialogueNode
    | DialogueNode
    | EndDialogue
    | StartTaskNode
    | OtherNode

  /** The editor state of a dialogue node; only `Mission` matters here. */
  datatype EditorState = NotMission | Mission

  /** A node of the canvas, as far as the traverser reads it. `chosenOutput` is what the
      node's `Traverse()` returns; `outputs[k]` lists the node indices connected to output
      knob k, in connection order. The two fields the traverser writes (a dialogue node's
      `state`, a start-task node's `forceTask`) are kept by the traverser, one entry per node. */
  datatype Node = Node(
    kind: NodeKind,
    taskID: string,
    chosenOutput: int,
    outputs: seq<seq<nat>>)

  /** Every connection leads to a node of the canvas. */
  ghost predicate GraphValid(g: seq<Node>)
  {
    forall i :: 0 <= i < |g| ==> NodeValid(g[i], |g|)
  }

  /** Every connection of node `n` leads to one of the `size` nodes of its canvas. */
  ghost predicate NodeValid(n: Node, size: nat)
  {
    forall k, c :: 0 <= k < |n.outputs| && 0 <= c < |n.outputs[k]| ==> n.outputs[k][c] < size
  }

  /** Why a walk stopped: no current node; `Traverse()` returned -1; the chosen knob has no
      connection; the chosen knob does not exist (the source throws); the fuel ran out. */
  datatype Halt = NullNode | NoOutput | Unconnected | NoSuchKnob | OutOfFuel

  datatype StepResult = Stop(reason: Halt) | Next(node: nat)

  /** One loop iteration at node i: stop, or move along connection 0 of the chosen knob. */
  function StepFrom(g: seq<Node>, i: nat): (r: StepResult)
    requires i < |g|
    ensures r.Stop? ==> r.reason in {NoOutput, Unconnected, NoSuchKnob}
  {
    var k := g[i].chosenOutput;
    if k == -1 then Stop(NoOutput)
    else if !(0 <= k < |g[i].outputs|) then Stop(NoSuchKnob)
    else if |g[i].outputs[k]| == 0 then Stop(Unconnected)
    else Next(g[i].outputs[k][0])
  }

  datatype Walk = Walk(visited: seq<nat>, end: Option<nat>, reason: Halt)

  /** `Traverse` from `cur`, making at most `fuel` moves: the nodes it visits in order, where
      `currentNode` ends, and why it stopped. `WalkShape` states what such a walk is. */
  function WalkFrom(g: seq<Node>, cur: Option<nat>, fuel: nat): Walk
    requires GraphValid(g) && (cur.Some? ==> cur.value < |g|)
    decreases fuel
  {
    if cur.None? then Walk([], None, NullNode)
    else
      var i := cur.value;
      match StepFrom(g, i)
      case Stop(reason) => Walk([i], cur, reason)
      case Next(j) =>
        if fuel == 0 then Walk([i], cur, OutOfFuel)
        else
          var rest := WalkFrom(g, Some(j), fuel - 1);
          Walk([i] + rest.visited, rest.end, rest.reason)
  }

  /** `w` is a walk of at most `fuel` moves from `cur`: it visits nodes of the canvas, starts
      at `cur` and ends on the last node it visited, each visited node is followed by the
      node its step leads to, and it stopped either because there was no node, because the
      last node's step stops for `w.reason`, or because all `fuel` moves were made and the
      last node's step would move again. */
  ghost predicate Walked(g: seq<Node>, cur: Option<nat>, fuel: nat, w: Walk)
  {
    && |w.visited| <= fuel + 1
    && (forall k :: 0 <= k < |w.visited| ==> w.visited[k] < |g|)
    && (cur.None? <==> w.reason == NullNode)
    && (cur.None? ==> w.visited == [] && w.end == None)
    && (cur.Some? ==> |w.visited| >= 1 && w.visited[0] == cur.value
                      && w.end == Some(w.visited[|w.visited| - 1]))
    && (cur.Some? && w.reason != OutOfFuel ==> StepFrom(g, w.end.value) == Stop(w.reason))
    && (cur.Some? && w.reason == OutOfFuel ==> StepFrom(g, w.end.value).Next?)
    && (w.reason == OutOfFuel ==> |w.visited| == fuel + 1)
    && (forall k {:trigger StepFrom(g, w.visited[k])} :: 0 <= k < |w.visited| - 1 ==>
          StepFrom(g, w.visited[k]) == Next(w.visited[k + 1]))
  }

  lemma {:induction false} WalkShape(g: seq<Node>, cur: Option<nat>, fuel: nat)
    requires GraphValid(g) && (cur.Some? ==> cur.value < |g|)
    ensures Walked(g, cur, fuel, WalkFrom(g, cur, fuel))
    decreases fuel
  {
    if cur.Some? {
      var i := cur.value;
      match StepFrom(g, i)
      case Stop(_) =>
      case Next(j) =>
        if fuel > 0 {
          assert j < |g| by {
            var k := g[i].chosenOutput;
            assert NodeValid(g[i], |g|);
            assert g[i].outputs[k][0] == j;
          }
          WalkShape(g, Some(j), fuel - 1);
          var rest := WalkFrom(g, Some(j), fuel - 1);
          var w := WalkFrom(g, cur, fuel);
          assert w.visited == [i] + rest.visited;
          forall k | 0 <= k < |w.visited|
            ensures w.visited[k] < |g|
          {
            if k > 0 {
              assert w.visited[k] == rest.visited[k - 1];
            }
          }
          assert w.visited[|w.visited| - 1] == rest.visited[|rest.visited| - 1];
          forall k | 0 <= k < |w.visited| - 1
            ensures StepFrom(g, w.visited[k]) == Next(w.visited[k + 1])
          {
            if k > 0 {
              assert w.visited[k] == rest.visited[k - 1];
              assert StepFrom(g, rest.visited[k - 1]) == Next(rest.visited[k]);
            }
          }
        }
    }
  }

  /** Fuel only bounds the walk: a walk that stopped on its own is the same with more fuel. */
  lemma {:induction false} WalkFuelIrrelevant(g: seq<Node>, cur: Option<nat>, fuel: nat, more: nat)
    requires GraphValid(g) && (cur.Some? ==> cur.value < |g|)
    requires fuel <= more
    requires WalkFrom(g, cur, fuel).reason != OutOfFuel
    ensures WalkFrom(g, cur, more) == WalkFrom(g, cur, fuel)
    decreases fuel
  {
    if cur.Some? {
      match StepFrom(g, cur.value)
      case Stop(_) =>
      case Next(j) => WalkFuelIrrelevant(g, Some(j), fuel - 1, more - 1);
    }
  }

  predicate IsDialogue(n: Node)
  {
    n.kind == DialogueNode || n.kind == EndDialogue
  }

  /** The node states after the nodes in `visited` were tagged, in order; `TaggedSpec` states
      the result. */
  function Tagged(g: seq<Node>, states: seq<EditorState>, visited: seq<nat>): (r: seq<EditorState>)
    requires |states| == |g|
    ensures |r| == |g|
    decreases |visited|
  {
    if |visited| == 0 then states
    else
      var i := visited[|visited| - 1];
      var r := Tagged(g, states, visited[..|visited| - 1]);
      if i < |g| && IsDialogue(g[i]) then r[i := Mission] else r
  }

  /** Each visited dialogue or end-dialogue node is in the `Mission` state; every other node
      keeps its state. */
  lemma {:induction false} TaggedSpec(g: seq<Node>, states: seq<EditorState>, visited: seq<nat>)
    requires |states| == |g|
    ensures forall j :: 0 <= j < |g| ==>
              Tagged(g, states, visited)[j] == if j in visited && IsDialogue(g[j]) then Mission else states[j]
    decreases |visited|
  {
    if |visited| > 0 {
      var prefix := visited[..|visited| - 1];
      TaggedSpec(g, states, prefix);
      assert forall j :: j in visited <==> j in prefix || j == visited[|visited| - 1] by {
        assert visited == prefix + [visited[|visited| - 1]];
      }
    }
  }

  /** Node `i` is a start-dialogue node of the canvas. */
  predicate OpensDialogue(g: seq<Node>, i: nat)
  {
    i < |g| && g[i].kind == StartDialogueNode
  }

  /** `StartDialogueNode.missionCanvasNode` after the nodes in `visited` were seen, in order;
      `CanvasSpec` states the result. */
  function MissionCanvasAfter(previous: Option<nat>, g: seq<Node>, visited: seq<nat>): Option<nat>
    decreases |visited|
  {
    if |visited| == 0 then previous
    else if OpensDialogue(g, visited[|visited| - 1]) then Some(visited[|visited| - 1])
    else MissionCanvasAfter(previous, g, visited[..|visited| - 1])
  }

  /** `StartDialogueNode.missionCanvasNode` ends as the last start-dialogue node visited, or
      as it was when none was visited. */
  lemma {:induction false} CanvasSpec(previous: Option<nat>, g: seq<Node>, visited: seq<nat>)
    ensures (forall k :: 0 <= k < |visited| ==> !OpensDialogue(g, visited[k])) ==>
              MissionCanvasAfter(previous, g, visited) == previous
    ensures (exists k :: 0 <= k < |visited| && OpensDialogue(g, visited[k])) ==>
              exists k :: 0 <= k < |visited| && OpensDialogue(g, visited[k])
                && MissionCanvasAfter(previous, g, visited) == Some(visited[k])
                && forall m :: k < m < |visited| ==> !OpensDialogue(g, visited[m])
    decreases |visited|
  {
    if |visited| > 0 {
      var n := |visited| - 1;
      var prefix := visited[..n];
      CanvasSpec(previous, g, prefix);
      assert forall k :: 0 <= k < n ==> prefix[k] == visited[k];
      if !OpensDialogue(g, visited[n]) {
        if exists k :: 0 <= k < |visited| && OpensDialogue(g, visited[k]) {
          var k :| 0 <= k < |visited| && OpensDialogue(g, visited[k]);
          assert OpensDialogue(g, prefix[k]);
        }
      }
    }
  }

  /** `visited` followed by the walk `w`. */
  function Prepend(visited: seq<nat>, w: Walk): Walk
  {
    Walk(visited + w.visited, w.end, w.reason)
  }

  /** One iteration of the loop that implements `WalkFrom`: a walk still to be made from
      node `i`, after `visited`, either stops at `i` or continues from the next node. */
  lemma WalkAdvance(g: seq<Node>, whole: Walk, visited: seq<nat>, i: nat, fuel: nat)
    requires GraphValid(g) && i < |g|
    requires whole == Prepend(visited, WalkFrom(g, Some(i), fuel))
    ensures StepFrom(g, i).Stop? ==> whole == Walk(visited + [i], Some(i), StepFrom(g, i).reason)
    ensures StepFrom(g, i).Next? && fuel == 0 ==> whole == Walk(visited + [i], Some(i), OutOfFuel)
    ensures StepFrom(g, i).Next? && fuel > 0 ==>
              StepFrom(g, i).node < |g|
              && whole == Prepend(visited + [i], WalkFrom(g, Some(StepFrom(g, i).node), fuel - 1))
  {
    if StepFrom(g, i).Next? && fuel > 0 {
      var j := StepFrom(g, i).node;
      assert j < |g| by {
        assert NodeValid(g[i], |g|);
        assert g[i].outputs[g[i].chosenOutput][0] == j;
      }
      var rest := WalkFrom(g, Some(j), fuel - 1);
      assert visited + ([i] + rest.visited) == (visited + [i]) + rest.visited;
    }
  }

  lemma TagStep(g: seq<Node>, states: seq<EditorState>, visited: seq<nat>, i: nat)
    requires |states| == |g| && i < |g|
    ensures (if IsDialogue(g[i]) then Tagged(g, states, visited)[i := Mission] else Tagged(g, states, visited))
              == Tagged(g, states, visited + [i])
  {
    assert (visited + [i])[..|visited|] == visited;
  }

  lemma CanvasStep(previous: Option<nat>, g: seq<Node>, visited: seq<nat>, i: nat)
    requires i < |g|
    ensures MissionCanvasAfter(previous, g, visited + [i])
              == if g[i].kind == StartDialogueNode then Some(i) else MissionCanvasAfter(previous, g, visited)
  {
    assert (visited + [i])[..|visited|] == visited;
  }

  predicate CheckpointMatch(missionName: string, cpName: string, n: Node)
  {
    n.kind == StartTaskNode && missionName + "_" + n.taskID == cpName
  }

  predicate TaskMatch(id: string, n: Node)
  {
    n.kind == StartTaskNode && n.taskID == id
  }

  class MissionTraverser {
    /** `nodeCanvas.nodes`. */
    const nodes: seq<Node>
    /** The `state` field of each node (meaningful for dialogue nodes) and the `forceTask`
        field of each node (meaningful for start-task nodes). */
    var states: seq<EditorState>
    var forceTask: seq<bool>
    var currentNode: Option<nat>
    /** The static `StartDialogueNode.missionCanvasNode`, as this traverser sees it: the
        value it had when the traverser was made, then this traverser's own writes. */
    var missionCanvasNode: Option<nat>
    var cpName: string
    /** `nodeCanvas.missionName`. */
    var missionName: string
    /** The mission name of the root start-mission node (`findRoot().missionName`). */
    const rootMissionName: string
    /** Calls into the base `Traverser`, whose code is not part of this model, in order. */
    var baseSetNodeCalls: seq<nat>
    var baseCheckpointCalls: seq<string>
    var baseStartQuestCalls: nat
    /** Nodes whose `StartTask()` was called, in order. */
    var startedTasks: seq<nat>
    /** Whether `TaskManager.RemoveTraverser(this)` was called. */
    var removed: bool

    ghost predicate Valid()
      reads this
    {
      && GraphValid(nodes)
      && |states| == |nodes| && |forceTask| == |nodes|
      && (currentNode.Some? ==> currentNode.value < |nodes|)
    }

    /** The constructor leaves the static `missionCanvasNode` as it finds it. */
    constructor (nodes: seq<Node>, states: seq<EditorState>, forceTask: seq<bool>, rootMissionName: string,
                 missionCanvasNode: Option<nat>)
      requires GraphValid(nodes) && |states| == |nodes| && |forceTask| == |nodes|
      ensures Valid()
      ensures this.nodes == nodes && this.states == states && this.forceTask == forceTask
      ensures this.rootMissionName == rootMissionName && this.missionCanvasNode == missionCanvasNode
      ensures currentNode == None && cpName == ""
      ensures baseSetNodeCalls == [] && baseCheckpointCalls == [] && baseStartQuestCalls == 0
      ensures startedTasks == [] && !removed
    {
      this.nodes := nodes;
      this.states := states;
      this.forceTask := forceTask;
      this.rootMissionName := rootMissionName;
      currentNode := None;
      this.missionCanvasNode := missionCanvasNode;
      cpName := "";
      missionName := "";
      baseSetNodeCalls := [];
      baseCheckpointCalls := [];
      baseStartQuestCalls := 0;
      startedTasks := [];
      removed := false;
    }

    /** The tagging both `SetNode` and each `Traverse` iteration do: a start-dialogue node
        becomes `StartDialogueNode.missionCanvasNode`, a dialogue or end-dialogue node is put
        in the `Mission` state. */
    method Tag(i: nat)
      requires Valid() && i < |nodes|
      modifies this`states, this`missionCanvasNode
      ensures Valid()
      ensures states == Tagged(nodes, old(states), [i])
      ensures missionCanvasNode == MissionCanvasAfter(old(missionCanvasNode), nodes, [i])
    {
      TagStep(nodes, states, [], i);
      CanvasStep(missionCanvasNode, nodes, [], i);
      assert Tagged(nodes, states, []) == states;
      if nodes[i].kind == StartDialogueNode {
        missionCanvasNode := Some(i);
      }
      if nodes[i].kind == DialogueNode || nodes[i].kind == EndDialogue {
        states := states[i := Mission];
      }
    }

    /** `SetNode(node)`: tag the node, then hand it to the base class. */
    method SetNode(i: nat)
      requires Valid() && i < |nodes|
      modifies this`states, this`missionCanvasNode, this`baseSetNodeCalls
      ensures Valid()
      ensures states == Tagged(nodes, old(states), [i])
      ensures missionCanvasNode == MissionCanvasAfter(old(missionCanvasNode), nodes, [i])
      ensures baseSetNodeCalls == old(baseSetNodeCalls) + [i]
    {
      Tag(i);
      baseSetNodeCalls := baseSetNodeCalls + [i];
    }

    /** `Traverse`, making at most `fuel` moves (the source loops without bound). */
    method Traverse(fuel: nat) returns (reason: Halt)
      requires Valid()
      modifies this`states, this`missionCanvasNode, this`currentNode
      ensures Valid()
      ensures var w := WalkFrom(nodes, old(currentNode), fuel);
              && reason == w.reason
              && currentNode == w.end
              && states == Tagged(nodes, old(states), w.visited)
              && missionCanvasNode == MissionCanvasAfter(old(missionCanvasNode), nodes, w.visited)
    {
      ghost var whole := WalkFrom(nodes, currentNode, fuel);
      ghost var states0, canvas0 := states, missionCanvasNode;
      ghost var visited: seq<nat> := [];
      var left := fuel;
      var done := false;
      reason := NullNode;
      while !done
        invariant Valid()
        invariant states == Tagged(nodes, states0, visited)
        invariant missionCanvasNode == MissionCanvasAfter(canvas0, nodes, visited)
        invariant !done ==> whole == Prepend(visited, WalkFrom(nodes, currentNode, left))
        invariant done ==> whole == Walk(visited, currentNode, reason)
        decreases !done, left
      {
        if currentNode.None? {
          reason, done := NullNode, true;
          assert visited + [] == visited;
        } else {
          ghost var i := currentNode.value;
          reason, done := TraverseStep(whole, visited, states0, canvas0, left);
          visited := visited + [i];
          if !done {
            left := left - 1;
          }
        }
      }
    }

    /** One iteration of the loop of `Traverse` at the current node, which the walk `whole`
        reaches after `visited`: tag the node, then stop for `reason` (`done`) or move along
        connection 0 of the chosen knob, using up one move. */
    method TraverseStep(ghost whole: Walk, ghost visited: seq<nat>, ghost states0: seq<EditorState>,
                        ghost canvas0: Option<nat>, left: nat) returns (reason: Halt, done: bool)
      requires Valid() && currentNode.Some? && |states0| == |nodes|
      requires states == Tagged(nodes, states0, visited)
      requires missionCanvasNode == MissionCanvasAfter(canvas0, nodes, visited)
      requires whole == Prepend(visited, WalkFrom(nodes, currentNode, left))
      modifies this`states, this`missionCanvasNode, this`currentNode
      ensures Valid()
      ensures states == Tagged(nodes, states0, visited + [old(currentNode).value])
      ensures missionCanvasNode == MissionCanvasAfter(canvas0, nodes, visited + [old(currentNode).value])
      ensures done ==> whole == Walk(visited + [old(currentNode).value], currentNode, reason)
      ensures !done ==> left > 0 && whole == Prepend(visited + [old(currentNode).value],
                                                     WalkFrom(nodes, currentNode, left - 1))
    {
      var i := currentNode.value;
      TagStep(nodes, states0, visited, i);
      CanvasStep(canvas0, nodes, visited, i);
      WalkAdvance(nodes, whole, visited, i, left);
      Tag(i);
      reason, done := NullNode, true;
      var outputIndex := nodes[i].chosenOutput;
      if outputIndex == -1 {
        reason := NoOutput;
      } else if !(0 <= outputIndex < |nodes[i].outputs|) {
        reason := NoSuchKnob;
      } else if |nodes[i].outputs[outputIndex]| == 0 {
        reason := Unconnected;
      } else if left == 0 {
        reason := OutOfFuel;
      } else {
        currentNode := Some(nodes[i].outputs[outputIndex][0]);
        done := false;
      }
    }

    /** `activateCheckpoint(name)`: remember the checkpoint, refresh the mission name, call
        the base class, then force and set every start-task node named by the checkpoint. */
    method ActivateCheckpoint(name: string)
      requires Valid()
      modifies this`cpName, this`missionName, this`baseCheckpointCalls, this`forceTask,
               this`states, this`missionCanvasNode, this`baseSetNodeCalls
      ensures Valid()
      ensures cpName == name && missionName == rootMissionName
      ensures baseCheckpointCalls == old(baseCheckpointCalls) + [name]
      ensures baseSetNodeCalls == old(baseSetNodeCalls)
                + IndicesWhere(nodes, (n: Node) => CheckpointMatch(rootMissionName, name, n))
      ensures forall j :: 0 <= j < |nodes| ==>
                forceTask[j] == (CheckpointMatch(rootMissionName, name, nodes[j]) || old(forceTask)[j])
      ensures states == old(states) && missionCanvasNode == old(missionCanvasNode)
    {
      cpName := name;
      missionName := rootMissionName;
      baseCheckpointCalls := baseCheckpointCalls + [name];
      ForceCheckpointTasks(name);
    }

    /** The loop of `activateCheckpoint`: in node-list order, every start-task node whose
        `missionName + "_" + taskID` is the checkpoint name is forced and set. Setting a
        start-task node tags nothing. */
    method ForceCheckpointTasks(name: string)
      requires Valid() && missionName == rootMissionName
      modifies this`forceTask, this`states, this`missionCanvasNode, this`baseSetNodeCalls
      ensures Valid()
      ensures baseSetNodeCalls == old(baseSetNodeCalls)
                + IndicesWhere(nodes, (n: Node) => CheckpointMatch(rootMissionName, name, n))
      ensures forall j :: 0 <= j < |nodes| ==>
                forceTask[j] == (CheckpointMatch(rootMissionName, name, nodes[j]) || old(forceTask)[j])
      ensures states == old(states) && missionCanvasNode == old(missionCanvasNode)
    {
      ghost var p := (n: Node) => CheckpointMatch(rootMissionName, name, n);
      var i := 0;
      while i < |nodes|
        invariant Valid() && 0 <= i <= |nodes|
        invariant forall j :: 0 <= j < i ==> forceTask[j] == (p(nodes[j]) || old(forceTask)[j])
        invariant forall j :: i <= j < |nodes| ==> forceTask[j] == old(forceTask)[j]
        invariant baseSetNodeCalls == old(baseSetNodeCalls) + IndicesWhere(nodes[..i], p)
        invariant states == old(states) && missionCanvasNode == old(missionCanvasNode)
      {
        assert nodes[..i + 1][..i] == nodes[..i];
        var node := nodes[i];
        if node.kind == StartTaskNode && missionName + "_" + node.taskID == name {
          forceTask := forceTask[i := true];
          SetNode(i);
        }
        i := i + 1;
      }
      assert nodes[..|nodes|] == nodes;
    }

    /** `ActivateTask(id)`: start every start-task node with that task id, in node-list order. */
    method ActivateTask(id: string)
      requires Valid()
      modifies this`startedTasks
      ensures startedTasks == old(startedTasks) + IndicesWhere(nodes, (n: Node) => TaskMatch(id, n))
    {
      var i := 0;
      while i < |nodes|
        invariant 0 <= i <= |nodes|
        invariant startedTasks == old(startedTasks) + IndicesWhere(nodes[..i], (n: Node) => TaskMatch(id, n))
      {
        assert nodes[..i + 1][..i] == nodes[..i];
        if nodes[i].kind == StartTaskNode && nodes[i].taskID == id {
          startedTasks := startedTasks + [i];
        }
        i := i + 1;
      }
      assert nodes[..|nodes|] == nodes;
    }

    /** `StartQuest`: refresh the mission name and, unless the last checkpoint completed the
        mission, let the base class start the quest (leaving `currentNode` at `afterBase`)
        and give up the traverser when no node is current. */
    method StartQuest(afterBase: Option<nat>) returns (started: bool)
      requires Valid() && (afterBase.Some? ==> afterBase.value < |nodes|)
      modifies this`missionName, this`baseStartQuestCalls, this`currentNode, this`removed
      ensures Valid() && missionName == rootMissionName
      ensures started <==> cpName != rootMissionName + "_complete"
      ensures !started ==> currentNode == old(currentNode) && baseStartQuestCalls == old(baseStartQuestCalls)
                           && removed == old(removed)
      ensures started ==> currentNode == afterBase && baseStartQuestCalls == old(baseStartQuestCalls) + 1
                          && removed == (old(removed) || afterBase.None?)
    {
      missionName := rootMissionName;
      if cpName == missionName + "_complete" {
        return false;
      }
      baseStartQuestCalls := baseStartQuestCalls + 1;
      currentNode := afterBase;
      if currentNode.None? {
        removed := true;
      }
      return true;
    }
  }
}
