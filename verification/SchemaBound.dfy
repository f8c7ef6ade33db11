/** `_bound_schema`: the depth and node limits of tool schemas. */
module SchemaBound {
  import opened Wrappers
  import opened Json
  import opened Schema
  import opened Seqs

  const MAX_DEPTH: nat := 64
  const MAX_NODES: nat := 4096

  /** `nodes` lists every visited address below `at` of a schema once. */
  ghost predicate Lists(v: Json, at: seq<Step>, nodes: seq<seq<Step>>) {
    && Distinct(nodes)
    && forall a :: a in nodes <==> at <= a && Visits(v, a[|at|..])
  }

  /** The schema keeps within both limits. */
  ghost predicate Bounded(v: Json) {
    && (forall a | Visits(v, a) :: |a| <= 64)
    && exists nodes :: Lists(v, [], nodes) && |nodes| <= 4096
  }

  /** Why a schema is refused: an address that is too deep, or more addresses than allowed. */
  ghost predicate TooDeep(v: Json) { exists a :: Visits(v, a) && |a| > MAX_DEPTH }

  ghost predicate TooMany(v: Json) {
    exists nodes :: Distinct(nodes) && |nodes| > MAX_NODES && forall a | a in nodes :: Visits(v, a)
  }

  lemma SubsetSize<T>(a: set<T>, b: set<T>)
    requires a <= b
    ensures |a| <= |b|
  {
    assert b == a + (b - a) && a !! (b - a);
  }

  /** The two refusals are exactly the failures of the bound. */
  lemma RefusedNotBounded(v: Json)
    requires TooDeep(v) || TooMany(v)
    ensures !Bounded(v)
  {
    if Bounded(v) && TooMany(v) {
      var nodes :| Lists(v, [], nodes) && |nodes| <= MAX_NODES;
      var more :| Distinct(more) && |more| > MAX_NODES && forall a | a in more :: Visits(v, a);
      forall a | a in more ensures a in nodes { assert a[0..] == a; }
      DistinctSize(nodes);
      DistinctSize(more);
      SubsetSize(ToSet(more), ToSet(nodes));
    }
  }

  /** The advertised schema is bounded exactly when the enforced one is. */
  lemma StripKeepsBound(v: Json)
    ensures Bounded(Strip(v)) <==> Bounded(v)
  {
    forall a ensures Visits(Strip(v), a) <==> Visits(v, a) { StripLeavesNoMark(v, a); }
    forall nodes ensures Lists(Strip(v), [], nodes) <==> Lists(v, [], nodes) { }
  }

  // ---------- the walk ----------

  /** `_bound_schema`, for schemas without references. */
  class BoundWalk {
    var nodes: nat
    ghost var visited: seq<seq<Step>>

    constructor ()
      ensures nodes == 0 && visited == []
    {
      nodes := 0;
      visited := [];
    }

    /** The nested `walk`: `at` is the address of `v` in `root`. */
    method Walk(ghost root: Json, v: Json, depth: nat, ghost at: seq<Step>) returns (ok: bool)
      requires depth == |at| && nodes == |visited| && nodes <= MAX_NODES
      requires Visits(root, at) && At(root, at) == v
      requires Distinct(visited) && forall a | a in visited :: Visits(root, a) && !(at <= a)
      modifies this
      ensures nodes == |visited| && Distinct(visited)
      ensures !ok ==> TooDeep(root) || TooMany(root)
      ensures ok ==> nodes <= MAX_NODES && forall a | a in visited :: Visits(root, a)
      ensures ok ==> forall a :: a in visited <==> a in old(visited) || (at <= a && Visits(v, a[|at|..]))
      ensures ok ==> forall a | at <= a && Visits(v, a[|at|..]) :: |a| <= MAX_DEPTH
      decreases v, 1
    {
      nodes := nodes + 1;
      visited := visited + [at];
      if depth > MAX_DEPTH || nodes > MAX_NODES { return false; }
      if !v.Obj? {
        LeafOnly(v, at);
        return true;
      }
      var children, steps := SchemaChildren(v, {});
      ok := WalkChildren(root, v, depth, at, children, steps, old(visited));
      BelowAll(v, at, steps);
    }

    /** The loop of `walk` over the children. */
    method WalkChildren(ghost root: Json, v: Json, depth: nat, ghost at: seq<Step>,
                        children: seq<Json>, ghost steps: seq<Step>, ghost before: seq<seq<Step>>) returns (ok: bool)
      requires depth == |at| <= MAX_DEPTH && nodes == |visited| && nodes <= MAX_NODES
      requires Visits(root, at) && At(root, at) == v
      requires Distinct(visited) && forall a | a in visited :: Visits(root, a)
      requires (forall a | a in before :: !(at <= a)) && visited == before + [at]
      requires |children| == |steps| && Distinct(steps)
      requires forall i | 0 <= i < |steps| :: Child(v, steps[i]) == Some(children[i])
      modifies this
      ensures nodes == |visited| && Distinct(visited)
      ensures !ok ==> TooDeep(root) || TooMany(root)
      ensures ok ==> nodes <= MAX_NODES && forall a | a in visited :: Visits(root, a)
      ensures ok ==> forall a :: a in visited <==> a in before || BelowFirst(v, at, steps, a)
      ensures ok ==> forall a | BelowFirst(v, at, steps, a) :: |a| <= MAX_DEPTH
      decreases v, 0
    {
      for i := 0 to |children|
        invariant nodes == |visited| && nodes <= MAX_NODES && Distinct(visited)
        invariant forall a | a in visited :: Visits(root, a)
        invariant forall a :: a in visited <==> a in before || BelowFirst(v, at, steps[..i], a)
        invariant forall a | BelowFirst(v, at, steps[..i], a) :: |a| <= MAX_DEPTH
      {
        AtExtends(root, v, at, steps[i]);
        NotYet(v, at, steps, i);
        var more := Walk(root, children[i], depth + 1, at + [steps[i]]);
        if !more { return false; }
        BelowNext(v, at, steps, i, children[i]);
      }
      assert steps[..|steps|] == steps;
      return true;
    }
  }

  lemma LeafOnly(v: Json, at: seq<Step>)
    requires !v.Obj?
    ensures forall a :: at <= a && Visits(v, a[|at|..]) <==> a == at
  {
    forall a ensures at <= a && Visits(v, a[|at|..]) <==> a == at {
      if at <= a { assert a == at + a[|at|..]; }
    }
  }

  /** The node at `at` itself, and everything below it through one of `steps`. */
  ghost predicate BelowFirst(v: Json, at: seq<Step>, steps: seq<Step>, a: seq<Step>) {
    a == at || (at <= a && |a| > |at| && a[|at|] in steps && Visits(v, a[|at|..]))
  }

  lemma {:induction false} AtExtends(root: Json, v: Json, at: seq<Step>, step: Step)
    requires Visits(root, at) && At(root, at) == v && Child(v, step).Some?
    ensures Visits(root, at + [step]) && At(root, at + [step]) == Child(v, step).value
    decreases |at|
  {
    if at == [] {
      assert [step][1..] == [];
    } else {
      assert (at + [step])[1..] == at[1..] + [step];
      AtExtends(Child(root, at[0]).value, v, at[1..], step);
    }
  }

  lemma NotYet(v: Json, at: seq<Step>, steps: seq<Step>, i: nat)
    requires Distinct(steps) && i < |steps|
    ensures forall a | BelowFirst(v, at, steps[..i], a) :: !(at + [steps[i]] <= a)
  {
  }

  lemma BelowNext(v: Json, at: seq<Step>, steps: seq<Step>, i: nat, c: Json)
    requires i < |steps| && Child(v, steps[i]) == Some(c)
    ensures forall a :: BelowFirst(v, at, steps[..i + 1], a) <==>
              BelowFirst(v, at, steps[..i], a) || (at + [steps[i]] <= a && Visits(c, a[|at| + 1..]))
  {
    forall a
      ensures BelowFirst(v, at, steps[..i + 1], a) <==>
              BelowFirst(v, at, steps[..i], a) || (at + [steps[i]] <= a && Visits(c, a[|at| + 1..]))
    {
      assert steps[..i + 1] == steps[..i] + [steps[i]];
      if at <= a && |a| > |at| { assert a[|at|..][1..] == a[|at| + 1..]; }
    }
  }

  lemma BelowAll(v: Json, at: seq<Step>, steps: seq<Step>)
    requires forall step :: step in steps <==> Child(v, step).Some?
    ensures forall a :: BelowFirst(v, at, steps, a) <==> at <= a && Visits(v, a[|at|..])
  {
    forall a ensures BelowFirst(v, at, steps, a) <==> at <= a && Visits(v, a[|at|..]) {
      if at <= a && a[|at|..] == [] { assert a == at; }
    }
  }

  /** `_bound_schema` passes exactly the bounded schemas. */
  method BoundSchema(v: Json) returns (ok: bool)
    ensures ok <==> Bounded(v)
  {
    var walk := new BoundWalk();
    ok := walk.Walk(v, v, 0, []);
    if ok {
      forall a | Visits(v, a) ensures |a| <= MAX_DEPTH { assert a[0..] == a; }
      assert Lists(v, [], walk.visited);
    } else {
      RefusedNotBounded(v);
    }
  }
}
