/** The random functions of recursive_art.py: nested lists `[op, child...]`
    over eight building blocks, written here as a tree datatype. */
module Expressions {

  datatype Option<+T> = None | Some(value: T)

  /** The eight building-block names of the source, in the order of its `blocks` list. */
  datatype Op = Prod | Avg | CosPi | SinPi | X | Y | Cube | Atan

  /** `Node(op, kids)` is the list `[op] + kids`; a leaf is a one-element list such as `['x']`. */
  datatype Expr = Node(op: Op, kids: seq<Expr>)

  /** The `blocks` list that `random.choice` picks from. */
  const Blocks: seq<Op> := [Prod, Avg, CosPi, SinPi, X, Y, Cube, Atan]

  /** The list `['x', 'y']` used once the maximum depth is reached. */
  const Terminals: seq<Op> := [X, Y]

  predicate IsTerminal(op: Op) { op == X || op == Y }

  /** The operators the builder and the evaluator give two inputs when a node is not a leaf:
      `x`, `y`, `avg` and `prod`. */
  predicate TakesTwo(op: Op) { op == X || op == Y || op == Avg || op == Prod }

  /** The genuinely binary operators. */
  predicate IsPairing(op: Op) { op == Avg || op == Prod }

  predicate IsUnary(op: Op) { op == CosPi || op == SinPi || op == Cube || op == Atan }

  /** The position of `op` in `Blocks`. */
  function OpIndex(op: Op): (k: nat)
    ensures k < |Blocks| && Blocks[k] == op
  {
    match op
    case Prod => 0
    case Avg => 1
    case CosPi => 2
    case SinPi => 3
    case X => 4
    case Y => 5
    case Cube => 6
    case Atan => 7
  }

  /** The position of a terminal in `Terminals`. */
  function TerminalIndex(op: Op): (k: nat)
    requires IsTerminal(op)
    ensures k < |Terminals| && Terminals[k] == op
  {
    if op == X then 0 else 1
  }

  /** The interval [-1, 1] that coordinates and evaluations live in. */
  predicate InUnit(v: real) { -1.0 <= v <= 1.0 }

  function Max(a: nat, b: nat): nat { if a < b then b else a }

  /** Depth: 1 for a leaf, 1 + the largest depth of the children otherwise. */
  function Depth(e: Expr): nat
    decreases e, |e.kids| + 1
  {
    1 + KidsDepth(e, |e.kids|)
  }

  /** The largest depth among the first `n` children of `e` (0 when `n` is 0). */
  function KidsDepth(e: Expr, n: nat): nat
    requires n <= |e.kids|
    decreases e, n
  {
    if n == 0 then 0 else Max(KidsDepth(e, n - 1), Depth(e.kids[n - 1]))
  }

  lemma DepthOfLeaf(op: Op)
    ensures Depth(Node(op, [])) == 1
  {
  }

  lemma DepthOfOneKid(op: Op, k: Expr)
    ensures Depth(Node(op, [k])) == 1 + Depth(k)
  {
    var e := Node(op, [k]);
    assert e.kids[0] == k;
    assert KidsDepth(e, 1) == Max(KidsDepth(e, 0), Depth(k));
  }

  lemma DepthOfTwoKids(op: Op, k0: Expr, k1: Expr)
    ensures Depth(Node(op, [k0, k1])) == 1 + Max(Depth(k0), Depth(k1))
  {
    var e := Node(op, [k0, k1]);
    assert e.kids[0] == k0 && e.kids[1] == k1;
    assert KidsDepth(e, 1) == Depth(k0);
    assert KidsDepth(e, 2) == Max(KidsDepth(e, 1), Depth(k1));
  }

  /** The shapes the builder is meant to produce: leaves are `x` or `y`; `avg` and `prod`
      have two children; `cos_pi`, `sin_pi`, `cube` and `atan` have one; `x` and `y` have
      none, or two when they were drawn while the minimum depth was still above 1. */
  predicate WellFormed(e: Expr)
    decreases e
  {
    && (e.kids == [] ==> IsTerminal(e.op))
    && (IsPairing(e.op) ==> |e.kids| == 2)
    && (IsUnary(e.op) ==> |e.kids| == 1)
    && (IsTerminal(e.op) ==> |e.kids| == 0 || |e.kids| == 2)
    && forall i :: 0 <= i < |e.kids| ==> WellFormed(e.kids[i])
  }
}
