/** `JointHierarchy::try_from` and its `build_hierarchy`: copy the joints, starting at the
    root, into an owned tree whose children are built in the order the joint lists them.
    The parser's joints are a flat array whose records name their children by index; as
    in BVH files, which list joints in pre-order, every child comes after its parent. */
module Hierarchy {
  import opened Common
  import opened LoaderTypes

  /** The `JointHierarchy` tree. */
  datatype JointHierarchy = JointHierarchy(
    name: string,
    offset: Vec3,
    end: Option<Vec3>,
    children: seq<JointHierarchy>)

  /** Every child index is a joint that comes after its parent. */
  predicate ChildrenFollowParents(joints: seq<JointRecord>) {
    forall i, k :: 0 <= i < |joints| && 0 <= k < |joints[i].children| ==>
      i < joints[i].children[k] < |joints|
  }

  /** `build_hierarchy`. */
  function BuildHierarchy(joints: seq<JointRecord>, i: nat): JointHierarchy
    requires ChildrenFollowParents(joints) && i < |joints|
    decreases |joints| - i
  {
    var joint := joints[i];
    JointHierarchy(
      joint.name,
      joint.offset,
      joint.endSite,
      seq(|joint.children|, k requires 0 <= k < |joint.children| => BuildHierarchy(joints, joint.children[k])))
  }

  /** `JointHierarchy::try_from`: the tree of the first joint, or `UnexpectedData` when the
      file has no joint at all. */
  function HierarchyOf(joints: seq<JointRecord>): (r: Outcome<JointHierarchy, LoaderError>)
    requires ChildrenFollowParents(joints)
    ensures r.Ok? <==> |joints| > 0
    ensures r.Err? ==> r.error == UnexpectedData(NoRootJoint)
    ensures r.Ok? ==> r.value.name == joints[0].name && |r.value.children| == |joints[0].children|
  {
    if |joints| == 0 then Err(UnexpectedData(NoRootJoint)) else Ok(BuildHierarchy(joints, 0))
  }

  // ---------------------------------------------------------------------------------
  // Addressing a node by its route of child positions, in the tree and in the records

  /** The joint index reached from joint `i` by taking child `route[0]`, then child
      `route[1]` of that joint, and so on. */
  function FollowRecords(joints: seq<JointRecord>, i: nat, route: seq<nat>): Option<nat>
    requires ChildrenFollowParents(joints) && i < |joints|
    decreases |route|
  {
    if |route| == 0 then Some(i)
    else if route[0] < |joints[i].children| then FollowRecords(joints, joints[i].children[route[0]], route[1..])
    else None
  }

  /** The subtree reached by the same route in a tree. */
  function FollowTree(t: JointHierarchy, route: seq<nat>): Option<JointHierarchy>
    decreases |route|
  {
    if |route| == 0 then Some(t)
    else if route[0] < |t.children| then FollowTree(t.children[route[0]], route[1..])
    else None
  }

  /** Building commutes with navigation: the node a route reaches in the built tree is the
      tree of the joint the same route reaches in the records, so every node of the tree
      carries its joint's name, offset and end site and has that joint's children, in the
      order listed. */
  lemma {:induction false} BuildFollows(joints: seq<JointRecord>, i: nat, route: seq<nat>)
    requires ChildrenFollowParents(joints) && i < |joints|
    ensures FollowTree(BuildHierarchy(joints, i), route).Some? <==> FollowRecords(joints, i, route).Some?
    ensures FollowRecords(joints, i, route).Some? ==>
              var n := FollowRecords(joints, i, route).value;
              var node := FollowTree(BuildHierarchy(joints, i), route).value;
              && n < |joints|
              && node == BuildHierarchy(joints, n)
              && node.name == joints[n].name
              && node.offset == joints[n].offset
              && node.end == joints[n].endSite
              && |node.children| == |joints[n].children|
    decreases |route|
  {
    if |route| > 0 && route[0] < |joints[i].children| {
      BuildFollows(joints, joints[i].children[route[0]], route[1..]);
    }
  }

  /** The nodes of a tree in pre-order, as the names they carry. */
  function PreOrderNames(t: JointHierarchy): seq<string>
    decreases t, 1
  {
    [t.name] + ChildrenPreOrderNames(t, 0)
  }

  function ChildrenPreOrderNames(t: JointHierarchy, k: nat): seq<string>
    requires k <= |t.children|
    decreases t, 0, |t.children| - k
  {
    if k == |t.children| then [] else PreOrderNames(t.children[k]) + ChildrenPreOrderNames(t, k + 1)
  }

  /** The joints reached from joint `i` in pre-order, by index. */
  function PreOrderIndices(joints: seq<JointRecord>, i: nat): seq<nat>
    requires ChildrenFollowParents(joints) && i < |joints|
    decreases |joints| - i, 1
  {
    [i] + ChildrenPreOrderIndices(joints, i, 0)
  }

  function ChildrenPreOrderIndices(joints: seq<JointRecord>, i: nat, k: nat): seq<nat>
    requires ChildrenFollowParents(joints) && i < |joints| && k <= |joints[i].children|
    decreases |joints| - i, 0, |joints[i].children| - k
  {
    if k == |joints[i].children| then []
    else PreOrderIndices(joints, joints[i].children[k]) + ChildrenPreOrderIndices(joints, i, k + 1)
  }

  /** A pre-order walk of the built tree meets the joints' names in the same order as a
      pre-order walk of the records. */
  lemma {:induction false} PreOrderMatches(joints: seq<JointRecord>, i: nat)
    requires ChildrenFollowParents(joints) && i < |joints|
    ensures var idx := PreOrderIndices(joints, i);
      && (forall m :: 0 <= m < |idx| ==> idx[m] < |joints|)
      && PreOrderNames(BuildHierarchy(joints, i)) == seq(|idx|, m requires 0 <= m < |idx| => joints[idx[m]].name)
    decreases |joints| - i, 1
  {
    ChildrenPreOrderMatches(joints, i, 0);
  }

  lemma {:induction false} ChildrenPreOrderMatches(joints: seq<JointRecord>, i: nat, k: nat)
    requires ChildrenFollowParents(joints) && i < |joints| && k <= |joints[i].children|
    ensures var idx := ChildrenPreOrderIndices(joints, i, k);
      && (forall m :: 0 <= m < |idx| ==> idx[m] < |joints|)
      && ChildrenPreOrderNames(BuildHierarchy(joints, i), k)
         == seq(|idx|, m requires 0 <= m < |idx| => joints[idx[m]].name)
    decreases |joints| - i, 0, |joints[i].children| - k
  {
    if k < |joints[i].children| {
      var c := joints[i].children[k];
      PreOrderMatches(joints, c);
      ChildrenPreOrderMatches(joints, i, k + 1);
      assert BuildHierarchy(joints, i).children[k] == BuildHierarchy(joints, c);
      var a, b := PreOrderIndices(joints, c), ChildrenPreOrderIndices(joints, i, k + 1);
      assert forall m :: 0 <= m < |a + b| ==> (a + b)[m] < |joints|;
    }
  }
}
