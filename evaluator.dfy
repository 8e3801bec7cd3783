/** `evaluate_random_function`: evaluation of a random function at a point (x, y),
    over the reals. The two trigonometric building blocks are parameters. */
module Evaluator {
  import opened Expressions

  /** `cos_pi(a) = cos(pi * a)` and `sin_pi(a) = sin(pi * a)`, supplied by the caller. */
  datatype Trig = Trig(cosPi: real -> real, sinPi: real -> real)

  /** What the real cosine and sine guarantee and the closure property needs. */
  ghost predicate Bounded(t: Trig)
  {
    forall a :: -1.0 <= t.cosPi(a) <= 1.0 && -1.0 <= t.sinPi(a) <= 1.0
  }

  /** The building blocks as the evaluator applies them, with `a` its first input and
      `b` its second (unary blocks ignore `b`). The `atan` block applies `cube`, as the
      evaluator's last branch does. Every block keeps [-1, 1] closed, given that the
      values of `cos_pi` and `sin_pi` at `a` are in [-1, 1]. */
  function Apply(op: Op, a: real, b: real, t: Trig): (r: real)
    ensures InUnit(a) && InUnit(b) && InUnit(t.cosPi(a)) && InUnit(t.sinPi(a)) ==> InUnit(r)
  {
    ProductInUnit(a, b);
    ProductInUnit(a, a);
    ProductInUnit(a * a, a);
    match op
    case Prod => a * b
    case Avg => 0.5 * (a + b)
    case CosPi => t.cosPi(a)
    case SinPi => t.sinPi(a)
    case X => a
    case Y => b
    case Cube => a * a * a
    case Atan => a * a * a
  }

  /** The evaluator. A leaf takes its inputs from the point; any other node evaluates its
      first child, and its second one when the operator takes two inputs. None stands for
      the IndexError the source raises when a node taking two inputs has only one child;
      evaluation succeeds, at every point, exactly on the evaluable trees. */
  function Evaluate(e: Expr, x: real, y: real, t: Trig): (r: Option<real>)
    ensures r.Some? <==> Evaluable(e)
    decreases e
  {
    if e.kids == [] then
      Some(Apply(e.op, x, y, t))
    else
      match Evaluate(e.kids[0], x, y, t)
      case None => None
      case Some(a) =>
        if !TakesTwo(e.op) then
          Some(Apply(e.op, a, 0.0, t))
        else if |e.kids| < 2 then
          None
        else
          match Evaluate(e.kids[1], x, y, t)
          case None => None
          case Some(b) => Some(Apply(e.op, a, b, t))
  }

  /** The trees the evaluator accepts: every node it descends into that takes two
      inputs has a second child. Children past those it reads are never looked at. */
  predicate Evaluable(e: Expr)
    decreases e
  {
    e.kids == []
    || (&& Evaluable(e.kids[0])
        && (TakesTwo(e.op) ==> |e.kids| >= 2 && Evaluable(e.kids[1])))
  }

  /** Well-formed trees, and so every tree the builder returns, are evaluable. */
  lemma {:induction false} WellFormedEvaluable(e: Expr)
    requires WellFormed(e)
    ensures Evaluable(e)
    decreases e
  {
    if e.kids != [] {
      WellFormedEvaluable(e.kids[0]);
      if TakesTwo(e.op) {
        WellFormedEvaluable(e.kids[1]);
      }
    }
  }

  lemma ProductInUnit(a: real, b: real)
    ensures InUnit(a) && InUnit(b) ==> InUnit(a * b)
  {
    if !(InUnit(a) && InUnit(b)) {
    } else if a >= 0.0 {
      if b >= 0.0 {
        assert a * b <= 1.0 * b;
      } else {
        assert a * b >= a * -1.0;
      }
    } else {
      if b >= 0.0 {
        assert a * b >= -1.0 * b;
      } else {
        assert a * b <= -1.0 * b;
      }
    }
  }

  /** Closure: with the point in [-1, 1] x [-1, 1] and bounded trigonometric blocks,
      every successful evaluation lies in [-1, 1]. */
  lemma {:induction false} EvaluateInUnit(e: Expr, x: real, y: real, t: Trig)
    requires Bounded(t) && InUnit(x) && InUnit(y)
    ensures Evaluate(e, x, y, t).Some? ==> InUnit(Evaluate(e, x, y, t).value)
    decreases e
  {
    if e.kids == [] {
      assert InUnit(t.cosPi(x)) && InUnit(t.sinPi(x));
    } else {
      EvaluateInUnit(e.kids[0], x, y, t);
      var first := Evaluate(e.kids[0], x, y, t);
      if first.Some? {
        if !TakesTwo(e.op) {
          assert InUnit(t.cosPi(first.value)) && InUnit(t.sinPi(first.value));
        } else if |e.kids| >= 2 {
          EvaluateInUnit(e.kids[1], x, y, t);
          var second := Evaluate(e.kids[1], x, y, t);
          if second.Some? {
            assert InUnit(t.cosPi(first.value)) && InUnit(t.sinPi(first.value));
          }
        }
      }
    }
  }

  /** A leaf applies its block to the point itself: `x` gives x, `y` gives y, and a bare
      non-terminal leaf such as `['prod']` gives the block applied to (x, y). */
  lemma EvaluateLeaf(x: real, y: real, t: Trig)
    ensures Evaluate(Node(X, []), x, y, t) == Some(x)
    ensures Evaluate(Node(Y, []), x, y, t) == Some(y)
    ensures Evaluate(Node(Prod, []), x, y, t) == Some(x * y)
    ensures Evaluate(Node(Avg, []), x, y, t) == Some(0.5 * (x + y))
    ensures Evaluate(Node(CosPi, []), x, y, t) == Some(t.cosPi(x))
    ensures Evaluate(Node(SinPi, []), x, y, t) == Some(t.sinPi(x))
    ensures Evaluate(Node(Cube, []), x, y, t) == Some(x * x * x)
    ensures Evaluate(Node(Atan, []), x, y, t) == Some(x * x * x)
  {
    assert Apply(Prod, x, y, t) == x * y;
    assert Apply(Cube, x, y, t) == x * x * x;
    assert Apply(Atan, x, y, t) == x * x * x;
  }

  /** The doctests: `['x']` at (-0.5, 0.75) is -0.5, `['y']` at (0.1, 0.02) is 0.02, and
      `['sin_pi', ['y']]` at (0.9, 0.5) is sin_pi(0.5). */
  lemma EvaluateDoctests(t: Trig)
    ensures Evaluate(Node(X, []), -0.5, 0.75, t) == Some(-0.5)
    ensures Evaluate(Node(Y, []), 0.1, 0.02, t) == Some(0.02)
    ensures Evaluate(Node(SinPi, [Node(Y, [])]), 0.9, 0.5, t) == Some(t.sinPi(0.5))
  {
    var e := Node(SinPi, [Node(Y, [])]);
    assert e.kids[0] == Node(Y, []);
  }

  /** Nodes with two children: `prod` multiplies, `avg` averages, a two-child `x` node
      gives its first child's value and a two-child `y` node its second's. */
  lemma EvaluateTwoKids(k0: Expr, k1: Expr, x: real, y: real, t: Trig)
    requires Evaluate(k0, x, y, t).Some? && Evaluate(k1, x, y, t).Some?
    ensures var a, b := Evaluate(k0, x, y, t).value, Evaluate(k1, x, y, t).value;
            && Evaluate(Node(Prod, [k0, k1]), x, y, t) == Some(a * b)
            && Evaluate(Node(Avg, [k0, k1]), x, y, t) == Some(0.5 * (a + b))
            && Evaluate(Node(X, [k0, k1]), x, y, t) == Some(a)
            && Evaluate(Node(Y, [k0, k1]), x, y, t) == Some(b)
  {
    var kids := [k0, k1];
    assert kids[0] == k0 && kids[1] == k1;
    var a, b := Evaluate(k0, x, y, t).value, Evaluate(k1, x, y, t).value;
    assert Evaluate(Node(Prod, kids), x, y, t) == Some(Apply(Prod, a, b, t));
    assert Evaluate(Node(Avg, kids), x, y, t) == Some(Apply(Avg, a, b, t));
    assert Evaluate(Node(X, kids), x, y, t) == Some(Apply(X, a, b, t));
    assert Evaluate(Node(Y, kids), x, y, t) == Some(Apply(Y, a, b, t));
  }

  /** Nodes with one child: `cube` and (as written) `atan` cube the child's value,
      `cos_pi` and `sin_pi` apply to it. */
  lemma EvaluateOneKid(k0: Expr, x: real, y: real, t: Trig)
    requires Evaluate(k0, x, y, t).Some?
    ensures var a := Evaluate(k0, x, y, t).value;
            && Evaluate(Node(Cube, [k0]), x, y, t) == Some(a * a * a)
            && Evaluate(Node(Atan, [k0]), x, y, t) == Some(a * a * a)
            && Evaluate(Node(CosPi, [k0]), x, y, t) == Some(t.cosPi(a))
            && Evaluate(Node(SinPi, [k0]), x, y, t) == Some(t.sinPi(a))
  {
    assert [k0][0] == k0;
    var a := Evaluate(k0, x, y, t).value;
    assert Apply(Cube, a, 0.0, t) == a * a * a;
    assert Apply(Atan, a, 0.0, t) == a * a * a;
  }

  /** A two-input node with a single child cannot be evaluated. */
  lemma EvaluateMissingSecond(op: Op, k0: Expr, x: real, y: real, t: Trig)
    requires TakesTwo(op)
    ensures Evaluate(Node(op, [k0]), x, y, t) == None
  {
    assert [k0][0] == k0;
  }
}
