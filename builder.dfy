/** `build_random_function`: the recursive random expression-tree builder.
    The random source is the sequence of values `random.choice` would return, consumed
    left to right; a choice among `n` items takes the next value modulo `n`. */
module Builder {
  import opened Expressions

  /** What one call of the builder returns: the tree (None where the source falls off
      the end of the function and returns None) and the unused rest of the choice source. */
  datatype Built = Built(tree: Option<Expr>, rest: seq<nat>)

  /** One call of `random.choice`: the next value of the source and the rest.
      An exhausted source reads as an endless run of zeros. */
  function Draw(s: seq<nat>): (nat, seq<nat>)
  {
    if s == [] then (0, []) else (s[0], s[1..])
  }

  /** The builder, branch for branch. Defined for every bound pair except a maximum
      below a minimum that is at least 1, where the source can recurse without end. */
  function BuildRandomFunction(s: seq<nat>, minDepth: int, maxDepth: int): (r: Built)
    requires minDepth < 1 || minDepth <= maxDepth
    ensures 1 <= minDepth ==> r.tree.Some?
    ensures minDepth < 1 ==> (r.tree.Some? <==> maxDepth == 1)
    decreases maxDepth
  {
    var (c, s1) := Draw(s);
    var op := Blocks[c % |Blocks|];
    if minDepth > 1 then
      var first := BuildRandomFunction(s1, minDepth - 1, maxDepth - 1);
      if TakesTwo(op) then
        var second := BuildRandomFunction(first.rest, minDepth - 1, maxDepth - 1);
        Built(Some(Node(op, [first.tree.value, second.tree.value])), second.rest)
      else
        Built(Some(Node(op, [first.tree.value])), first.rest)
    else if maxDepth == 1 then
      var (t, s2) := Draw(s1);
      Built(Some(Node(Terminals[t % |Terminals|], [])), s2)
    else if minDepth == 1 then
      if IsTerminal(op) then
        Built(Some(Node(op, [])), s1)
      else
        var first := BuildRandomFunction(s1, minDepth, maxDepth - 1);
        if IsPairing(op) then
          var second := BuildRandomFunction(first.rest, minDepth, maxDepth - 1);
          Built(Some(Node(op, [first.tree.value, second.tree.value])), second.rest)
        else
          Built(Some(Node(op, [first.tree.value])), first.rest)
    else
      Built(None, s1)
  }

  /** The trees the recursive policy allows for the bounds `minDepth`, `maxDepth`,
      whatever the random choices: an independent description of the builder's range. */
  predicate Grown(e: Expr, minDepth: int, maxDepth: int)
    requires 1 <= minDepth <= maxDepth
    decreases maxDepth
  {
    if minDepth > 1 then
      if TakesTwo(e.op) then
        && |e.kids| == 2
        && Grown(e.kids[0], minDepth - 1, maxDepth - 1)
        && Grown(e.kids[1], minDepth - 1, maxDepth - 1)
      else
        |e.kids| == 1 && Grown(e.kids[0], minDepth - 1, maxDepth - 1)
    else if maxDepth == 1 then
      IsTerminal(e.op) && e.kids == []
    else
      || (IsTerminal(e.op) && e.kids == [])
      || (&& IsPairing(e.op) && |e.kids| == 2
          && Grown(e.kids[0], 1, maxDepth - 1) && Grown(e.kids[1], 1, maxDepth - 1))
      || (IsUnary(e.op) && |e.kids| == 1 && Grown(e.kids[0], 1, maxDepth - 1))
  }

  /** The choice values that make the builder produce `e`. */
  function Draws(e: Expr, minDepth: int, maxDepth: int): (d: seq<nat>)
    requires 1 <= minDepth <= maxDepth && Grown(e, minDepth, maxDepth)
    decreases maxDepth
  {
    if minDepth > 1 then
      [OpIndex(e.op)] + Draws(e.kids[0], minDepth - 1, maxDepth - 1)
        + (if TakesTwo(e.op) then Draws(e.kids[1], minDepth - 1, maxDepth - 1) else [])
    else if maxDepth == 1 then
      [0, TerminalIndex(e.op)]
    else if e.kids == [] then
      [OpIndex(e.op)]
    else
      [OpIndex(e.op)] + Draws(e.kids[0], 1, maxDepth - 1)
        + (if IsPairing(e.op) then Draws(e.kids[1], 1, maxDepth - 1) else [])
  }

  /** Every tree the builder returns follows the recursive policy. */
  lemma {:induction false} BuildGrown(s: seq<nat>, minDepth: int, maxDepth: int)
    requires 1 <= minDepth <= maxDepth
    ensures Grown(BuildRandomFunction(s, minDepth, maxDepth).tree.value, minDepth, maxDepth)
    decreases maxDepth
  {
    var (c, s1) := Draw(s);
    var k := c % |Blocks|;
    if minDepth > 1 || (maxDepth > 1 && !IsTerminal(Blocks[k])) {
      var lo, hi := if minDepth > 1 then minDepth - 1 else 1, maxDepth - 1;
      var first := BuildRandomFunction(s1, lo, hi);
      BuildGrown(s1, lo, hi);
      BuildGrown(first.rest, lo, hi);
      BuildStepAny(s, minDepth, maxDepth);
    }
  }

  /** Every tree the policy allows is produced by some choice sequence: feeding the
      builder `Draws(e, ...)` rebuilds `e` and leaves the rest of the source untouched. */
  lemma {:induction false} Replay(e: Expr, minDepth: int, maxDepth: int, rest: seq<nat>)
    requires 1 <= minDepth <= maxDepth && Grown(e, minDepth, maxDepth)
    ensures BuildRandomFunction(Draws(e, minDepth, maxDepth) + rest, minDepth, maxDepth)
            == Built(Some(e), rest)
    decreases maxDepth, 1
  {
    var s := Draws(e, minDepth, maxDepth) + rest;
    if minDepth > 1 || e.kids != [] {
      ReplayNode(e, minDepth, maxDepth, rest);
    } else if maxDepth == 1 {
      assert s == [0] + ([TerminalIndex(e.op)] + rest);
      assert Draw(s).1 == [TerminalIndex(e.op)] + rest;
      assert e == Node(e.op, []);
    } else {
      assert s == [OpIndex(e.op)] + rest;
      assert Draw(s) == (OpIndex(e.op), rest);
    }
  }

  /** `Replay` for a tree with children: the first draw picks the root operator, then
      the children are rebuilt from consecutive stretches of the source. */
  lemma {:induction false} ReplayNode(e: Expr, minDepth: int, maxDepth: int, rest: seq<nat>)
    requires 1 <= minDepth <= maxDepth && Grown(e, minDepth, maxDepth)
    requires minDepth > 1 || e.kids != []
    ensures BuildRandomFunction(Draws(e, minDepth, maxDepth) + rest, minDepth, maxDepth)
            == Built(Some(e), rest)
    decreases maxDepth, 0
  {
    DrawsOfNode(e, minDepth, maxDepth);
    var lo, hi := if minDepth > 1 then minDepth - 1 else 1, maxDepth - 1;
    var d0 := Draws(e.kids[0], lo, hi);
    var d1 := if |e.kids| == 2 then Draws(e.kids[1], lo, hi) else [];
    assert Draws(e, minDepth, maxDepth) + rest == [OpIndex(e.op)] + (d0 + (d1 + rest));
    Replay(e.kids[0], lo, hi, d1 + rest);
    if |e.kids| == 2 {
      Replay(e.kids[1], lo, hi, rest);
    }
    ReplayRoot(e, minDepth, maxDepth, d0 + (d1 + rest), d1 + rest, rest);
  }

  /** The root step of `ReplayNode`, once the children are known to be rebuilt. */
  lemma ReplayRoot(e: Expr, minDepth: int, maxDepth: int, t: seq<nat>, mid: seq<nat>, rest: seq<nat>)
    requires 1 <= minDepth <= maxDepth && 1 < maxDepth
    requires |e.kids| == 1 || |e.kids| == 2
    requires (|e.kids| == 2) == TakesTwo(e.op)
    requires minDepth == 1 ==> !IsTerminal(e.op)
    requires var lo, hi := if minDepth > 1 then minDepth - 1 else 1, maxDepth - 1;
             && BuildRandomFunction(t, lo, hi) == Built(Some(e.kids[0]), mid)
             && (|e.kids| == 2 ==> BuildRandomFunction(mid, lo, hi) == Built(Some(e.kids[1]), rest))
             && (|e.kids| == 1 ==> mid == rest)
    ensures BuildRandomFunction([OpIndex(e.op)] + t, minDepth, maxDepth) == Built(Some(e), rest)
  {
    BuildStep(OpIndex(e.op), t, minDepth, maxDepth);
    if |e.kids| == 2 {
      assert e == Node(e.op, [e.kids[0], e.kids[1]]);
    } else {
      assert e == Node(e.op, [e.kids[0]]);
    }
  }

  /** The draws of a tree with children: its operator, then those of each child. */
  lemma DrawsOfNode(e: Expr, minDepth: int, maxDepth: int)
    requires 1 <= minDepth <= maxDepth && Grown(e, minDepth, maxDepth)
    requires minDepth > 1 || e.kids != []
    ensures 1 < maxDepth && (|e.kids| == 1 || |e.kids| == 2)
    ensures (|e.kids| == 2) == TakesTwo(e.op)
    ensures minDepth == 1 ==> !IsTerminal(e.op)
    ensures var lo, hi := if minDepth > 1 then minDepth - 1 else 1, maxDepth - 1;
            && Grown(e.kids[0], lo, hi)
            && (|e.kids| == 2 ==> Grown(e.kids[1], lo, hi))
            && Draws(e, minDepth, maxDepth)
               == [OpIndex(e.op)] + Draws(e.kids[0], lo, hi)
                  + (if |e.kids| == 2 then Draws(e.kids[1], lo, hi) else [])
  {
  }

  /** `BuildStep` for any source: only the first value modulo 8 matters. */
  lemma BuildStepAny(s: seq<nat>, minDepth: int, maxDepth: int)
    requires 1 <= minDepth <= maxDepth && 1 < maxDepth
    requires minDepth > 1 || !IsTerminal(Blocks[Draw(s).0 % |Blocks|])
    ensures var op := Blocks[Draw(s).0 % |Blocks|];
            var lo, hi := if minDepth > 1 then minDepth - 1 else 1, maxDepth - 1;
            var first := BuildRandomFunction(Draw(s).1, lo, hi);
            var second := BuildRandomFunction(first.rest, lo, hi);
            BuildRandomFunction(s, minDepth, maxDepth)
            == if TakesTwo(op) then Built(Some(Node(op, [first.tree.value, second.tree.value])), second.rest)
               else Built(Some(Node(op, [first.tree.value])), first.rest)
  {
  }

  /** One unfolding of the builder on a source whose first value `k` selects an operator
      that gets children under the bounds. */
  lemma BuildStep(k: nat, t: seq<nat>, minDepth: int, maxDepth: int)
    requires 1 <= minDepth <= maxDepth && 1 < maxDepth && k < |Blocks|
    requires minDepth > 1 || !IsTerminal(Blocks[k])
    ensures var op := Blocks[k];
            var lo, hi := if minDepth > 1 then minDepth - 1 else 1, maxDepth - 1;
            var first := BuildRandomFunction(t, lo, hi);
            var second := BuildRandomFunction(first.rest, lo, hi);
            BuildRandomFunction([k] + t, minDepth, maxDepth)
            == if TakesTwo(op) then Built(Some(Node(op, [first.tree.value, second.tree.value])), second.rest)
               else Built(Some(Node(op, [first.tree.value])), first.rest)
  {
    assert Draw([k] + t) == (k, t);
    assert |Blocks| == 8;
    assert k % |Blocks| == k;
  }

  /** A tree the policy allows has a depth between the two bounds. */
  lemma {:induction false} GrownDepth(e: Expr, minDepth: int, maxDepth: int)
    requires 1 <= minDepth <= maxDepth && Grown(e, minDepth, maxDepth)
    ensures minDepth <= Depth(e) <= maxDepth
    decreases maxDepth
  {
    if e.kids == [] {
      DepthOfLeaf(e.op);
      assert e == Node(e.op, []);
    } else {
      var lo, hi := if minDepth > 1 then minDepth - 1 else 1, maxDepth - 1;
      assert maxDepth > 1;
      GrownDepth(e.kids[0], lo, hi);
      if |e.kids| == 2 {
        GrownDepth(e.kids[1], lo, hi);
        DepthOfTwoKids(e.op, e.kids[0], e.kids[1]);
        assert e == Node(e.op, [e.kids[0], e.kids[1]]);
      } else {
        DepthOfOneKid(e.op, e.kids[0]);
        assert e == Node(e.op, [e.kids[0]]);
      }
    }
  }

  /** A tree the policy allows is well formed. */
  lemma {:induction false} GrownWellFormed(e: Expr, minDepth: int, maxDepth: int)
    requires 1 <= minDepth <= maxDepth && Grown(e, minDepth, maxDepth)
    ensures WellFormed(e)
    decreases maxDepth
  {
    if e.kids != [] {
      var lo, hi := if minDepth > 1 then minDepth - 1 else 1, maxDepth - 1;
      GrownWellFormed(e.kids[0], lo, hi);
      if |e.kids| == 2 {
        GrownWellFormed(e.kids[1], lo, hi);
      }
    }
  }

  /** The docstring's promise: for bounds with 1 <= min_depth <= max_depth the builder
      returns a tree of depth at least min_depth and at most max_depth; for min_depth < 1
      a tree comes back only when max_depth is 1, and it is a leaf. */
  lemma BuildDepth(s: seq<nat>, minDepth: int, maxDepth: int)
    requires minDepth < 1 || minDepth <= maxDepth
    ensures var r := BuildRandomFunction(s, minDepth, maxDepth);
            (1 <= minDepth ==> r.tree.Some?)
            && (r.tree.Some? ==> minDepth <= Depth(r.tree.value) <= maxDepth)
  {
    var r := BuildRandomFunction(s, minDepth, maxDepth);
    if 1 <= minDepth {
      BuildGrown(s, minDepth, maxDepth);
      GrownDepth(r.tree.value, minDepth, maxDepth);
    } else if r.tree.Some? {
      DepthOfLeaf(r.tree.value.op);
    }
  }

  /** Builder output is well formed. */
  lemma BuildWellFormed(s: seq<nat>, minDepth: int, maxDepth: int)
    requires minDepth < 1 || minDepth <= maxDepth
    ensures var r := BuildRandomFunction(s, minDepth, maxDepth);
            r.tree.Some? ==> WellFormed(r.tree.value)
  {
    if 1 <= minDepth {
      BuildGrown(s, minDepth, maxDepth);
      GrownWellFormed(BuildRandomFunction(s, minDepth, maxDepth).tree.value, minDepth, maxDepth);
    }
  }

  /** With max_depth 1 the result is a leaf `x` or `y` chosen by the second draw,
      whatever operator the first draw picked. */
  lemma MaxDepthOneIsTerminal(c: nat, c': nat, s: seq<nat>, minDepth: int)
    requires minDepth <= 1
    ensures var r := BuildRandomFunction([c] + s, minDepth, 1);
            && r == BuildRandomFunction([c'] + s, minDepth, 1)
            && r.tree.Some? && IsTerminal(r.tree.value.op) && r.tree.value.kids == []
  {
    assert ([c] + s)[1..] == s && ([c'] + s)[1..] == s;
  }
}
