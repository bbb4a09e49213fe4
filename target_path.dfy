/** `target_id` and `JointHierarchy::target_id`: a pre-order search of the joint tree
    for the first node with a given name, keeping the names from the root on a mutable
    stack. A node pushes its own name on entry; when the search below a child fails, the
    child's name is popped before the next sibling is tried. The animation target id is
    built from the stack, so it is modelled as the sequence of names itself. */
module TargetPath {
  import opened Common
  import opened Hierarchy

  /** The `Vec<&str>` path shared by the recursive calls. */
  class PathStack {
    var names: seq<string>

    constructor ()
      ensures names == []
    {
      names := [];
    }

    /** `Vec::push`. */
    method Push(name: string)
      modifies this
      ensures names == old(names) + [name]
    {
      names := names + [name];
    }

    /** `Vec::pop`, its result ignored: removes the last name, if any. */
    method Pop()
      modifies this
      ensures names == if old(names) == [] then [] else old(names)[..|old(names)| - 1]
    {
      if names != [] {
        names := names[..|names| - 1];
      }
    }
  }

  // ---------------------------------------------------------------------------------
  // What the search computes

  /** The names from `t` down to the first node, in pre-order, named `boneName`. */
  function FindPath(t: JointHierarchy, boneName: string): Option<seq<string>>
    decreases t, 1
  {
    if boneName == t.name then Some([t.name])
    else
      match FindInChildren(t, boneName, 0)
      case None => None
      case Some(below) => Some([t.name] + below)
  }

  /** The first success among the searches below children `k`, `k + 1`, ... of `t`. */
  function FindInChildren(t: JointHierarchy, boneName: string, k: nat): Option<seq<string>>
    requires k <= |t.children|
    decreases t, 0, |t.children| - k
  {
    if k == |t.children| then None
    else
      match FindPath(t.children[k], boneName)
      case Some(found) => Some(found)
      case None => FindInChildren(t, boneName, k + 1)
  }

  // ---------------------------------------------------------------------------------
  // The search as the source writes it

  /** The free function `target_id`. A success leaves the whole path to the match on the
      stack and returns it; a failure leaves the stack one name longer, this node's own,
      which the caller pops, so each sibling's search starts from the parent's path. */
  method SearchPath(node: JointHierarchy, boneName: string, path: PathStack) returns (id: Option<seq<string>>)
    modifies path
    decreases node
    ensures FindPath(node, boneName).Some? ==>
              id == Some(old(path.names) + FindPath(node, boneName).value) && path.names == id.value
    ensures FindPath(node, boneName).None? ==>
              id == None && path.names == old(path.names) + [node.name]
  {
    path.Push(node.name);
    if boneName == node.name {
      return Some(path.names);
    }
    var k := 0;
    while k < |node.children|
      invariant 0 <= k <= |node.children|
      invariant path.names == old(path.names) + [node.name]
      invariant FindInChildren(node, boneName, 0) == FindInChildren(node, boneName, k)
    {
      var found := SearchPath(node.children[k], boneName, path);
      if found.Some? {
        assert FindInChildren(node, boneName, k) == FindPath(node.children[k], boneName);
        assert old(path.names) + [node.name] + FindPath(node.children[k], boneName).value
            == old(path.names) + ([node.name] + FindPath(node.children[k], boneName).value);
        return found;
      }
      path.Pop();
      k := k + 1;
    }
    return None;
  }

  /** `JointHierarchy::target_id`: the search from the root with an empty stack. */
  method TargetId(hierarchy: JointHierarchy, boneName: string) returns (id: Option<seq<string>>)
    ensures id == FindPath(hierarchy, boneName)
  {
    var path := new PathStack();
    id := SearchPath(hierarchy, boneName, path);
    assert id.Some? ==> [] + FindPath(hierarchy, boneName).value == FindPath(hierarchy, boneName).value;
  }

  // ---------------------------------------------------------------------------------
  // A reference definition: every root-to-node name path, in pre-order

  function AllPaths(t: JointHierarchy): seq<seq<string>>
    decreases t, 1
  {
    [[t.name]] + Prefixed(t.name, ChildrenPaths(t, 0))
  }

  function ChildrenPaths(t: JointHierarchy, k: nat): seq<seq<string>>
    requires k <= |t.children|
    decreases t, 0, |t.children| - k
  {
    if k == |t.children| then [] else AllPaths(t.children[k]) + ChildrenPaths(t, k + 1)
  }

  function Prefixed(name: string, paths: seq<seq<string>>): (r: seq<seq<string>>)
    ensures |r| == |paths| && forall i :: 0 <= i < |paths| ==> r[i] == [name] + paths[i]
  {
    seq(|paths|, i requires 0 <= i < |paths| => [name] + paths[i])
  }

  predicate EndsWith(path: seq<string>, boneName: string) {
    |path| > 0 && path[|path| - 1] == boneName
  }

  /** The first path of a list that ends with `boneName`. */
  function FirstEndingWith(paths: seq<seq<string>>, boneName: string): Option<seq<string>>
    decreases |paths|
  {
    if |paths| == 0 then None
    else if EndsWith(paths[0], boneName) then Some(paths[0])
    else FirstEndingWith(paths[1..], boneName)
  }

  lemma {:induction false} FirstOfConcat(a: seq<seq<string>>, b: seq<seq<string>>, boneName: string)
    ensures FirstEndingWith(a + b, boneName)
         == if FirstEndingWith(a, boneName).Some? then FirstEndingWith(a, boneName) else FirstEndingWith(b, boneName)
    decreases |a|
  {
    if |a| > 0 {
      assert (a + b)[1..] == a[1..] + b;
      FirstOfConcat(a[1..], b, boneName);
    } else {
      assert a + b == b;
    }
  }

  lemma {:induction false} FirstOfPrefixed(name: string, paths: seq<seq<string>>, boneName: string)
    requires forall i :: 0 <= i < |paths| ==> |paths[i]| > 0
    ensures FirstEndingWith(Prefixed(name, paths), boneName)
         == match FirstEndingWith(paths, boneName)
            case None => None
            case Some(p) => Some([name] + p)
    decreases |paths|
  {
    if |paths| > 0 {
      assert Prefixed(name, paths)[1..] == Prefixed(name, paths[1..]);
      FirstOfPrefixed(name, paths[1..], boneName);
    }
  }

  lemma {:induction false} AllPathsNonEmpty(t: JointHierarchy)
    ensures forall i :: 0 <= i < |AllPaths(t)| ==> |AllPaths(t)[i]| > 0
    decreases t, 1
  {
    ChildrenPathsNonEmpty(t, 0);
  }

  lemma {:induction false} ChildrenPathsNonEmpty(t: JointHierarchy, k: nat)
    requires k <= |t.children|
    ensures forall i :: 0 <= i < |ChildrenPaths(t, k)| ==> |ChildrenPaths(t, k)[i]| > 0
    decreases t, 0, |t.children| - k
  {
    if k < |t.children| {
      AllPathsNonEmpty(t.children[k]);
      ChildrenPathsNonEmpty(t, k + 1);
    }
  }

  /** The search returns the first root-to-node path, in pre-order, that ends at a node
      named `boneName`. */
  lemma {:induction false} FindPathIsFirstInPreOrder(t: JointHierarchy, boneName: string)
    ensures FindPath(t, boneName) == FirstEndingWith(AllPaths(t), boneName)
    decreases t, 1
  {
    ChildrenPathsNonEmpty(t, 0);
    FirstOfPrefixed(t.name, ChildrenPaths(t, 0), boneName);
    FindInChildrenIsFirst(t, boneName, 0);
    assert AllPaths(t)[1..] == Prefixed(t.name, ChildrenPaths(t, 0));
  }

  lemma {:induction false} FindInChildrenIsFirst(t: JointHierarchy, boneName: string, k: nat)
    requires k <= |t.children|
    ensures FindInChildren(t, boneName, k) == FirstEndingWith(ChildrenPaths(t, k), boneName)
    decreases t, 0, |t.children| - k
  {
    if k < |t.children| {
      FindPathIsFirstInPreOrder(t.children[k], boneName);
      FindInChildrenIsFirst(t, boneName, k + 1);
      FirstOfConcat(AllPaths(t.children[k]), ChildrenPaths(t, k + 1), boneName);
    }
  }

  /** The search fails exactly when no node of the tree carries the name. */
  lemma {:induction false} FindPathNoneIff(t: JointHierarchy, boneName: string)
    ensures FindPath(t, boneName).None? <==> boneName !in PreOrderNames(t)
    decreases t, 1
  {
    FindInChildrenNoneIff(t, boneName, 0);
  }

  lemma {:induction false} FindInChildrenNoneIff(t: JointHierarchy, boneName: string, k: nat)
    requires k <= |t.children|
    ensures FindInChildren(t, boneName, k).None? <==> boneName !in ChildrenPreOrderNames(t, k)
    decreases t, 0, |t.children| - k
  {
    if k < |t.children| {
      FindPathNoneIff(t.children[k], boneName);
      FindInChildrenNoneIff(t, boneName, k + 1);
    }
  }

  // ---------------------------------------------------------------------------------
  // The names along a route of child positions

  function NamesAlong(t: JointHierarchy, route: seq<nat>): Option<seq<string>>
    decreases |route|
  {
    if |route| == 0 then Some([t.name])
    else if route[0] < |t.children| then
      match NamesAlong(t.children[route[0]], route[1..])
      case None => None
      case Some(below) => Some([t.name] + below)
    else None
  }

  /** A found path is the sequence of names along an actual route from the root to a node
      that carries the requested name. */
  lemma {:induction false} FindPathRoute(t: JointHierarchy, boneName: string) returns (route: seq<nat>)
    requires FindPath(t, boneName).Some?
    ensures NamesAlong(t, route) == FindPath(t, boneName)
    ensures FollowTree(t, route).Some? && FollowTree(t, route).value.name == boneName
    decreases t, 1
  {
    if boneName == t.name {
      route := [];
    } else {
      var k := FindInChildrenRoute(t, boneName, 0);
      var below := FindPathRoute(t.children[k], boneName);
      route := [k] + below;
      assert route[1..] == below;
    }
  }

  lemma {:induction false} FindInChildrenRoute(t: JointHierarchy, boneName: string, k: nat) returns (c: nat)
    requires k <= |t.children|
    requires FindInChildren(t, boneName, k).Some?
    ensures k <= c < |t.children| && FindPath(t.children[c], boneName) == FindInChildren(t, boneName, k)
    decreases |t.children| - k
  {
    if FindPath(t.children[k], boneName).Some? {
      c := k;
    } else {
      c := FindInChildrenRoute(t, boneName, k + 1);
    }
  }

  // ---------------------------------------------------------------------------------
  // Scenarios

  /** The hierarchy root -> child1 -> child2 of the source's unit test. */
  lemma SimpleHierarchyTargets()
    ensures var child2 := JointHierarchy("child2", Vec3(0.0, 0.0, 0.0), None, []);
      var child1 := JointHierarchy("child1", Vec3(0.0, 0.0, 0.0), None, [child2]);
      var root := JointHierarchy("root", Vec3(0.0, 0.0, 0.0), None, [child1]);
      && FindPath(root, "child2") == Some(["root", "child1", "child2"])
      && FindPath(root, "root") == Some(["root"])
      && FindPath(root, "not_a_joint") == None
  {
    var child2 := JointHierarchy("child2", Vec3(0.0, 0.0, 0.0), None, []);
    var child1 := JointHierarchy("child1", Vec3(0.0, 0.0, 0.0), None, [child2]);
    var root := JointHierarchy("root", Vec3(0.0, 0.0, 0.0), None, [child1]);
    assert "child2"[5] != "child1"[5];
    assert FindPath(child2, "child2") == Some(["child2"]);
    assert FindInChildren(child1, "child2", 0) == Some(["child2"]);
    assert FindPath(child1, "child2") == Some(["child1"] + ["child2"]);
    assert ["child1"] + ["child2"] == ["child1", "child2"];
    assert FindInChildren(root, "child2", 0) == Some(["child1", "child2"]);
    assert ["root"] + ["child1", "child2"] == ["root", "child1", "child2"];
    assert FindInChildren(child2, "not_a_joint", 0) == None;
    assert FindInChildren(child1, "not_a_joint", 0) == None;
    assert FindInChildren(root, "not_a_joint", 0) == None;
  }

  /** Backtracking: in root -> A -> B, root -> C, the search for C fails below A first and
      still returns [root, C], with nothing of A or B left on the path. */
  lemma BacktrackingScenario()
    ensures var b := JointHierarchy("B", Vec3(0.0, 0.0, 0.0), None, []);
      var a := JointHierarchy("A", Vec3(0.0, 0.0, 0.0), None, [b]);
      var c := JointHierarchy("C", Vec3(0.0, 0.0, 0.0), None, []);
      var root := JointHierarchy("root", Vec3(0.0, 0.0, 0.0), None, [a, c]);
      && FindPath(a, "C") == None
      && FindPath(root, "C") == Some(["root", "C"])
  {
    var b := JointHierarchy("B", Vec3(0.0, 0.0, 0.0), None, []);
    var a := JointHierarchy("A", Vec3(0.0, 0.0, 0.0), None, [b]);
    var c := JointHierarchy("C", Vec3(0.0, 0.0, 0.0), None, []);
    var root := JointHierarchy("root", Vec3(0.0, 0.0, 0.0), None, [a, c]);
    assert FindInChildren(b, "C", 0) == None;
    assert FindInChildren(a, "C", 0) == None;
    assert FindPath(a, "C") == None;
    assert FindPath(c, "C") == Some(["C"]);
    assert FindInChildren(root, "C", 1) == Some(["C"]);
    assert FindInChildren(root, "C", 0) == Some(["C"]);
    assert ["root"] + ["C"] == ["root", "C"];
  }
}
