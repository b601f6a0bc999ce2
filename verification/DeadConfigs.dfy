/** Which configurations no function called by the runtime bootstrap refers to. */
module DeadConfigs {

  type Name = string

  /** For each function defined in the file, the names it calls. */
  type CallGraph = map<Name, set<Name>>

  function Calls(graph: CallGraph, caller: Name): set<Name> {
    if caller in graph then graph[caller] else {}
  }

  ghost predicate IsCallChain(graph: CallGraph, path: seq<Name>) {
    forall i :: 0 <= i < |path| - 1 ==> path[i + 1] in Calls(graph, path[i])
  }

  /** `to` is called from `from`, directly or through others: one call or more. */
  ghost predicate Reaches(graph: CallGraph, from: Name, to': Name) {
    exists path :: ChainBetween(graph, path, from, to')
  }

  ghost predicate ChainBetween(graph: CallGraph, path: seq<Name>, from: Name, to': Name) {
    |path| >= 2 && path[0] == from && path[|path| - 1] == to' && IsCallChain(graph, path)
  }

  lemma ReachesDirectly(graph: CallGraph, from: Name, callee: Name)
    requires callee in Calls(graph, from)
    ensures Reaches(graph, from, callee)
  {
    assert ChainBetween(graph, [from, callee], from, callee);
  }

  lemma ReachesOneFurther(graph: CallGraph, from: Name, via: Name, callee: Name)
    requires Reaches(graph, from, via) && callee in Calls(graph, via)
    ensures Reaches(graph, from, callee)
  {
    var path :| ChainBetween(graph, path, from, via);
    assert ChainBetween(graph, path + [callee], from, callee);
  }

  /** A set that holds the first calls and every call of its members holds
      everything a chain of calls ends in. */
  lemma {:induction false} ClosedSetHoldsChain(graph: CallGraph, closed: set<Name>, path: seq<Name>)
    requires |path| >= 2 && IsCallChain(graph, path)
    requires Calls(graph, path[0]) <= closed
    requires forall f :: f in closed ==> Calls(graph, f) <= closed
    ensures path[|path| - 1] in closed
  {
    assert path[1] in Calls(graph, path[0]);
    if |path| > 2 {
      ClosedSetHoldsChain(graph, closed, path[1..]);
    }
  }

  function AllCallees(graph: CallGraph): set<Name> {
    set caller, callee | caller in graph && callee in graph[caller] :: callee
  }

  /** The names of a set in some order. */
  method Listed(names: set<Name>) returns (list: seq<Name>)
    ensures forall n :: n in list <==> n in names
  {
    list := [];
    var rest := names;
    while rest != {}
      invariant rest <= names
      invariant forall n :: n in list <==> n in names - rest
      decreases rest
    {
      var n :| n in rest;
      list := list + [n];
      rest := rest - {n};
    }
  }

  /** Callees not yet reached, in some order. */
  method Pending(callees: set<Name>, reachable: set<Name>) returns (list: seq<Name>)
    ensures forall n :: n in list <==> n in callees && n !in reachable
  {
    list := Listed(callees - reachable);
  }

  /** The work-list loop; the queue may hold a name many times. */
  method RuntimeCalls(graph: CallGraph, root: Name) returns (reachable: set<Name>)
    ensures forall f :: f in reachable <==> Reaches(graph, root, f)
  {
    reachable := {};
    if root !in graph {
      NothingFromUnknown(graph, root);
      return;
    }
    var queue := Listed(graph[root]);
    ghost var universe := AllCallees(graph);
    forall f | f in queue
      ensures Reaches(graph, root, f)
    {
      ReachesDirectly(graph, root, f);
    }
    while queue != []
      invariant forall f :: f in queue || f in reachable ==> f in universe && Reaches(graph, root, f)
      invariant forall f :: f in Calls(graph, root) ==> f in reachable || f in queue
      invariant forall f, g :: f in reachable && g in Calls(graph, f) ==> g in reachable || g in queue
      decreases universe - reachable, |queue|
    {
      var func := queue[0];
      ghost var before := queue;
      queue := queue[1..];
      assert forall f :: f in before ==> f == func || f in queue;
      if func in reachable {
        continue;
      }
      ghost var left := universe - reachable;
      reachable := reachable + {func};
      assert func in left && func !in universe - reachable;
      if func in graph {
        forall f | f in graph[func]
          ensures Reaches(graph, root, f)
        {
          ReachesOneFurther(graph, root, func, f);
        }
        var more := Pending(graph[func], reachable);
        queue := queue + more;
      }
    }
    forall f | Reaches(graph, root, f)
      ensures f in reachable
    {
      var path :| ChainBetween(graph, path, root, f);
      ClosedSetHoldsChain(graph, reachable, path);
    }
  }

  lemma CallerIsDefined(graph: CallGraph, path: seq<Name>, root: Name, f: Name)
    requires ChainBetween(graph, path, root, f)
    ensures root in graph
  {
    assert path[1] in Calls(graph, path[0]);
  }

  lemma NothingFromUnknown(graph: CallGraph, root: Name)
    ensures forall f :: Reaches(graph, root, f) ==> root in graph
  {
    forall f | Reaches(graph, root, f)
      ensures root in graph
    {
      var path :| ChainBetween(graph, path, root, f);
      CallerIsDefined(graph, path, root, f);
    }
  }

  ghost predicate UsedAtRuntime(graph: CallGraph, root: Name, references: set<Name>) {
    exists f :: f in references && Reaches(graph, root, f)
  }

  /** A call chain back to the root ends with a call of the root by something it reaches. */
  lemma CycleHasLastCall(graph: CallGraph, root: Name)
    requires Reaches(graph, root, root)
    ensures root in Calls(graph, root) || exists f :: Reaches(graph, root, f) && root in Calls(graph, f)
  {
    var path :| ChainBetween(graph, path, root, root);
    var n := |path| - 1;
    assert path[n] in Calls(graph, path[n - 1]);
    if n > 1 {
      assert ChainBetween(graph, path[..n], root, path[n - 1]);
      assert Reaches(graph, root, path[n - 1]);
    }
  }

  /** The root itself is not among the names it reaches, so what only the root refers to
      counts as unused unless the root, or something it reaches, calls the root again. */
  lemma RootsOwnConfiguration(graph: CallGraph, root: Name)
    ensures UsedAtRuntime(graph, root, {root}) <==>
            root in Calls(graph, root) || exists f :: Reaches(graph, root, f) && root in Calls(graph, f)
  {
    if UsedAtRuntime(graph, root, {root}) {
      CycleHasLastCall(graph, root);
    }
    if root in Calls(graph, root) {
      ReachesDirectly(graph, root, root);
    }
    if f :| Reaches(graph, root, f) && root in Calls(graph, f) {
      ReachesOneFurther(graph, root, f, root);
    }
  }

  /** A configuration is reported exactly when none of the functions referring to
      it is called from the root; the report keeps the given order. */
  method DeadConfigurations(graph: CallGraph, root: Name, configs: seq<Name>, references: map<Name, set<Name>>)
    returns (dead: seq<Name>)
    requires forall c :: c in configs ==> c in references
    ensures forall c :: c in dead <==> c in configs && !UsedAtRuntime(graph, root, references[c])
    ensures IsSubsequence(dead, configs)
  {
    var runtime := RuntimeCalls(graph, root);
    dead := [];
    for i := 0 to |configs|
      invariant forall c :: c in dead <==> c in configs[..i] && !UsedAtRuntime(graph, root, references[c])
      invariant IsSubsequence(dead, configs[..i])
    {
      assert configs[..i + 1] == configs[..i] + [configs[i]];
      var referencing := references[configs[i]];
      SubsequenceExtends(dead, configs[..i], configs[i]);
      if referencing == {} {
        dead := dead + [configs[i]];
        continue;
      }
      var reachable := exists func :: func in referencing && func in runtime;
      if !reachable {
        dead := dead + [configs[i]];
      }
    }
    assert configs[..|configs|] == configs;
  }

  predicate IsSubsequence(part: seq<Name>, whole: seq<Name>) {
    part == [] ||
    (whole != [] &&
     ((part[|part| - 1] == whole[|whole| - 1] && IsSubsequence(part[..|part| - 1], whole[..|whole| - 1]))
      || IsSubsequence(part, whole[..|whole| - 1])))
  }

  lemma SubsequenceExtends(part: seq<Name>, whole: seq<Name>, name: Name)
    requires IsSubsequence(part, whole)
    ensures IsSubsequence(part, whole + [name])
    ensures IsSubsequence(part + [name], whole + [name])
  {
    assert (whole + [name])[..|whole|] == whole;
    assert (part + [name])[..|part|] == part;
  }
}
