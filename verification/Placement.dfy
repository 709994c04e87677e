/** Placement of a task on a node: the Spread and Pack policies and the global scheduler's node view. */
module Placement {
  import opened Prelude
  import opened ResourceSets

  datatype NodeId = NodeId(bytes: Bytes)

  datatype NodeView = NodeView(nodeId: NodeId, available: Quantities, total: Quantities, isAlive: bool)

  datatype Policy = Spread | Pack

  datatype PlacementError = SchedulingFailed | InsufficientResources

  datatype Result<+T> = Ok(value: T) | Err(error: PlacementError)

  function Cpu(node: NodeView): real {
    Get(node.available, "CPU")
  }

  function Eligible(nodes: seq<NodeView>, required: Quantities): seq<NodeView> {
    Filter(nodes, (n: NodeView) => CanSatisfy(n.available, required))
  }

  /** Rust's `max_by`: the last of several equal maxima. */
  function MaxByCpu(nodes: seq<NodeView>): NodeView
    requires nodes != []
  {
    var last := nodes[|nodes| - 1];
    if |nodes| == 1 then last
    else
      var best := MaxByCpu(nodes[..|nodes| - 1]);
      if Cpu(best) > Cpu(last) then best else last
  }

  /** Rust's `min_by`: the first of several equal minima. */
  function MinByCpu(nodes: seq<NodeView>): NodeView
    requires nodes != []
  {
    var last := nodes[|nodes| - 1];
    if |nodes| == 1 then last
    else
      var best := MinByCpu(nodes[..|nodes| - 1]);
      if Cpu(best) > Cpu(last) then last else best
  }

  function SelectNode(policy: Policy, nodes: seq<NodeView>, required: Quantities): Result<NodeView> {
    var eligible := Eligible(nodes, required);
    if eligible == [] then Err(InsufficientResources)
    else Ok(if policy == Spread then MaxByCpu(eligible) else MinByCpu(eligible))
  }

  lemma {:induction false} MaxIsLastMaximum(nodes: seq<NodeView>) returns (i: nat)
    requires nodes != []
    ensures i < |nodes| && nodes[i] == MaxByCpu(nodes)
    ensures forall j :: 0 <= j < |nodes| ==> Get(nodes[j].available, "CPU") <= Get(nodes[i].available, "CPU")
    ensures forall j :: i < j < |nodes| ==> Get(nodes[j].available, "CPU") < Get(nodes[i].available, "CPU")
  {
    var n := |nodes| - 1;
    if n == 0 {
      i := 0;
    } else {
      var front := nodes[..n];
      i := MaxIsLastMaximum(front);
      assert forall j :: 0 <= j < n ==> nodes[j] == front[j];
      if Cpu(front[i]) <= Cpu(nodes[n]) {
        i := n;
      }
    }
  }

  lemma {:induction false} MinIsFirstMinimum(nodes: seq<NodeView>) returns (i: nat)
    requires nodes != []
    ensures i < |nodes| && nodes[i] == MinByCpu(nodes)
    ensures forall j :: 0 <= j < |nodes| ==> Get(nodes[i].available, "CPU") <= Get(nodes[j].available, "CPU")
    ensures forall j :: 0 <= j < i ==> Get(nodes[i].available, "CPU") < Get(nodes[j].available, "CPU")
  {
    var n := |nodes| - 1;
    if n == 0 {
      i := 0;
    } else {
      var front := nodes[..n];
      i := MinIsFirstMinimum(front);
      assert forall j :: 0 <= j < n ==> nodes[j] == front[j];
      if Cpu(nodes[n]) < Cpu(front[i]) {
        i := n;
      }
    }
  }

  lemma EligibleExactly(nodes: seq<NodeView>, required: Quantities)
    ensures forall n :: n in Eligible(nodes, required) <==> n in nodes && CanSatisfy(n.available, required)
  {
    FilterPartition(nodes, (n: NodeView) => CanSatisfy(n.available, required),
                    (n: NodeView) => !CanSatisfy(n.available, required));
  }

  /** Selection succeeds exactly when some node satisfies the requirement, and then picks such a node that no
      other eligible node beats under the policy. */
  lemma SelectionIsOptimal(policy: Policy, nodes: seq<NodeView>, required: Quantities)
    ensures SelectNode(policy, nodes, required).Ok? <==> exists n :: n in nodes && CanSatisfy(n.available, required)
    ensures SelectNode(policy, nodes, required).Ok? ==>
              var chosen := SelectNode(policy, nodes, required).value;
              && chosen in nodes && CanSatisfy(chosen.available, required)
              && forall n | n in nodes && CanSatisfy(n.available, required) ::
                   match policy
                   case Spread => Get(n.available, "CPU") <= Get(chosen.available, "CPU")
                   case Pack => Get(chosen.available, "CPU") <= Get(n.available, "CPU")
  {
    var eligible := Eligible(nodes, required);
    EligibleExactly(nodes, required);
    if eligible != [] {
      assert eligible[0] in eligible;
      var max := MaxIsLastMaximum(eligible);
      var min := MinIsFirstMinimum(eligible);
    }
  }

  /** Outcome and chosen CPU value do not depend on the order in which the nodes are visited. */
  lemma SelectionIgnoresOrder(policy: Policy, nodes: seq<NodeView>, other: seq<NodeView>, required: Quantities)
    requires forall n :: n in nodes <==> n in other
    ensures var a, b := SelectNode(policy, nodes, required), SelectNode(policy, other, required);
            && (a.Ok? <==> b.Ok?)
            && (a.Ok? ==> Get(a.value.available, "CPU") == Get(b.value.available, "CPU"))
            && (a.Err? ==> a == b)
  {
    SelectionIsOptimal(policy, nodes, required);
    SelectionIsOptimal(policy, other, required);
  }

  /** If the chosen node's view does not overstate what it really has, allocating there succeeds. */
  lemma ChosenNodeAdmits(policy: Policy, nodes: seq<NodeView>, required: Quantities, truth: map<NodeId, Quantities>)
    requires SelectNode(policy, nodes, required).Ok?
    requires forall n | n in nodes :: n.nodeId in truth && NoMoreThan(n.available, truth[n.nodeId])
    ensures var id := SelectNode(policy, nodes, required).value.nodeId;
            id in truth && CanSatisfy(truth[id], required)
  {
    SelectionIsOptimal(policy, nodes, required);
    var chosen := SelectNode(policy, nodes, required).value;
    forall name | name in required ensures required[name] <= Get(truth[chosen.nodeId], name) {
      assert Get(chosen.available, name) <= Get(truth[chosen.nodeId], name);
    }
  }

  class GlobalScheduler {
    const policy: Policy
    var nodes: map<NodeId, NodeView>

    ghost predicate Valid()
      reads this
    {
      forall id | id in nodes :: nodes[id].nodeId == id
    }

    /** Alive nodes that satisfy the requirement. */
    ghost predicate CanHost(id: NodeId, required: Quantities)
      reads this
    {
      id in nodes && nodes[id].isAlive && CanSatisfy(nodes[id].available, required)
    }

    constructor (policy: Policy)
      ensures Valid() && this.policy == policy && nodes == map[]
    {
      this.policy, nodes := policy, map[];
    }

    method UpdateNode(view: NodeView)
      requires Valid()
      modifies this
      ensures Valid() && nodes == old(nodes)[view.nodeId := view]
    {
      nodes := nodes[view.nodeId := view];
    }

    method RemoveNode(id: NodeId)
      requires Valid()
      modifies this
      ensures Valid() && nodes == old(nodes) - {id}
    {
      nodes := nodes - {id};
    }

    /** The alive views, in whatever order the map is visited. */
    method AliveNodes() returns (alive: seq<NodeView>)
      ensures forall v :: v in alive <==> exists id :: id in nodes && nodes[id] == v && v.isAlive
      ensures forall id | id in nodes && nodes[id].isAlive :: nodes[id] in alive
    {
      alive := [];
      var todo := nodes.Keys;
      while todo != {}
        invariant todo <= nodes.Keys
        invariant forall v :: v in alive <==> exists id :: id in nodes.Keys - todo && nodes[id] == v && v.isAlive
        decreases todo
      {
        var id :| id in todo;
        ghost var before, rest := alive, todo;
        if nodes[id].isAlive {
          alive := alive + [nodes[id]];
        }
        todo := todo - {id};
        forall v ensures v in alive <==> exists other :: other in nodes.Keys - todo && nodes[other] == v && v.isAlive {
          if v in before {
            var other :| other in nodes.Keys - rest && nodes[other] == v && v.isAlive;
            assert other in nodes.Keys - todo;
          } else if v in alive {
            assert id in nodes.Keys - todo;
          }
        }
      }
    }

    /** A node is found exactly when some alive node satisfies the requirement; it is an alive, satisfying node
        that no other such node beats. With no alive node the error differs from having none that fits. */
    method ScheduleTask(required: Quantities) returns (placed: Result<NodeId>)
      requires Valid()
      ensures placed.Ok? <==> exists id :: CanHost(id, required)
      ensures placed.Ok? ==> CanHost(placed.value, required)
      ensures placed.Ok? && policy == Spread ==>
                forall id | CanHost(id, required) ::
                  Get(nodes[id].available, "CPU") <= Get(nodes[placed.value].available, "CPU")
      ensures placed.Ok? && policy == Pack ==>
                forall id | CanHost(id, required) ::
                  Get(nodes[placed.value].available, "CPU") <= Get(nodes[id].available, "CPU")
      ensures placed.Err? ==> (placed.error == SchedulingFailed <==> forall id | id in nodes :: !nodes[id].isAlive)
    {
      var alive := AliveNodes();
      if alive == [] {
        return Err(SchedulingFailed);
      }
      SelectionIsOptimal(policy, alive, required);
      assert alive[0] in alive;
      var chosen := SelectNode(policy, alive, required);
      match chosen
      case Err(error) => placed := Err(error);
      case Ok(view) =>
        assert forall id | CanHost(id, required) :: nodes[id] in alive;
        var id :| id in nodes && nodes[id] == view && view.isAlive;
        assert CanHost(id, required);
        placed := Ok(view.nodeId);
    }
  }
}
