# Recursive art: a verified model

`recursive_art.py` draws abstract pictures. It builds three random expression trees,
one each for red, green and blue. The trees are nested lists over eight building blocks:
`prod`, `avg`, `cos_pi`, `sin_pi`, `x`, `y`, `cube`, `atan`. For every pixel (i, j), the
program remaps the pixel coordinates into [-1, 1], evaluates the three trees there, and
turns each value into a colour channel in [0, 255].

This project models that core in Dafny, in five modules:

- `Expressions` (`expressions.dfy`): the building blocks (`Op`) and the trees. `Node(op, kids)`
  stands for the list `[op] + kids`. The module also defines tree depth (1 for a leaf,
  1 + the largest child depth otherwise) and the well-formedness of builder output.
- `Builder` (`builder.dfy`): `build_random_function`, branch for branch. The random source is
  the sequence of values that successive `random.choice` calls return. A choice among `n`
  items takes the next value modulo `n`, and the builder returns the unused rest of the
  sequence. `Grown` states independently which trees the recursive policy allows. `Draws`
  gives the choice values that rebuild a given tree. Three lemmas prove the builder's range
  is exactly the `Grown` trees and that those trees have the promised depth:
  - `BuildGrown`: every tree the builder returns is a `Grown` tree.
  - `Replay`: every `Grown` tree is returned for some choice sequence.
  - `GrownDepth`: `Grown` trees have a depth between the two bounds.
- `Evaluator` (`evaluator.dfy`): `evaluate_random_function` over the reals. `cos_pi` and `sin_pi`
  are passed in as a `Trig` record. The closure property assumes they are bounded by [-1, 1].
  The result is `None` where the source raises an IndexError: a node that takes two inputs
  but has only one child.
- `Remapping` (`remapping.dfy`): `remap_interval`, Python's truncating `int`, and `color_map`.
- `Art` (`art.dfy`): the pixel loop of `generate_art` over a two-dimensional array of colour
  triples. It builds the three trees with depth bounds 7 and 9 from one choice source,
  then writes every cell exactly once. The outer loop runs over the first array index,
  which is the image's x coordinate, so each pass of it fills one image column.

The model follows the code as written, including these quirks:

- An `atan` node evaluates to the cube of its input. The evaluator's last branch applies
  `cube`, and the arctangent it defines is never used.
- With `min_depth > 1`, a drawn `x` or `y` gets two children. A two-child `x` then
  evaluates to its first child's value, and a two-child `y` to its second child's.
- A bare leaf of any block applies that block to the point itself, so `['prod']`
  evaluates to x * y.
- The builder raises no error on bad bounds. With `min_depth < 1` it returns a leaf when
  `max_depth` is 1, and otherwise falls off the end and returns None.
- The `max_depth == 1` branch makes two draws. The first draw, of a block, is ignored.
- `color_map` does not clamp its result. `int` truncates toward zero, so inputs slightly
  below -1 still give 0.

## Model

| member | source | states |
|---|---|---|
| `Builder.BuildRandomFunction` | recursive_art.py:8-52 | with min_depth >= 1 a tree is always returned; with min_depth < 1 a tree is returned exactly when max_depth is 1 (otherwise the function's implicit None) |
| `Builder.BuildGrown` | recursive_art.py:25-52 | every tree built with 1 <= min_depth <= max_depth follows the recursive policy `Grown` for those bounds |
| `Builder.Replay` | recursive_art.py:21-52 | every tree the policy allows is built from the choice values `Draws` gives, followed by any rest, which is returned untouched |
| `Builder.GrownDepth` | recursive_art.py:8-10 | a tree the policy allows for bounds (min, max) has depth between min and max |
| `Builder.GrownWellFormed` | recursive_art.py:25-52 | a tree the policy allows is well formed: leaves are `x`/`y`, `avg`/`prod` have two children, `cos_pi`/`sin_pi`/`cube`/`atan` one, `x`/`y` none or two |
| `Builder.BuildDepth` | recursive_art.py:8-10 | the docstring's promise: a tree comes back for 1 <= min_depth <= max_depth, and every returned tree has depth in [min_depth, max_depth] |
| `Builder.BuildWellFormed` | recursive_art.py:25-52 | every tree the builder returns is well formed |
| `Builder.MaxDepthOneIsTerminal` | recursive_art.py:35-38 | with max_depth 1 the result is a leaf `x` or `y`, and whatever the first draw was, the result is the same |
| `Evaluator.Evaluate` | recursive_art.py:54-107 | evaluation succeeds (no IndexError), at any point, exactly when the tree is `Evaluable`: every node it descends into that takes two inputs has a second child |
| `Evaluator.Apply` | recursive_art.py:72-107 | each building block, including `atan` as written (cube), maps inputs in [-1, 1] into [-1, 1] whenever the cos_pi and sin_pi values at its first input are in [-1, 1] |
| `Evaluator.WellFormedEvaluable` | recursive_art.py:83-90 | well-formed trees, hence builder output, never hit the missing-second-child error |
| `Evaluator.EvaluateInUnit` | recursive_art.py:54-107 | closure: with x, y in [-1, 1] and bounded cos_pi/sin_pi, every successful evaluation lies in [-1, 1] |
| `Evaluator.EvaluateLeaf` | recursive_art.py:82-85 | a leaf applies its block to (x, y): `x` gives x, `y` gives y, `prod` x*y, `avg` 0.5*(x+y), `cube` and `atan` x*x*x, `cos_pi`/`sin_pi` of x |
| `Evaluator.EvaluateDoctests` | recursive_art.py:63-68 | `['x']` at (-0.5, 0.75) is -0.5, `['y']` at (0.1, 0.02) is 0.02, `['sin_pi', ['y']]` at (0.9, 0.5) is sin_pi(0.5) |
| `Evaluator.EvaluateTwoKids` | recursive_art.py:86-103 | with both children evaluable, to values a and b: `prod` gives a*b, `avg` 0.5*(a+b), a two-child `x` a and a two-child `y` b |
| `Evaluator.EvaluateOneKid` | recursive_art.py:86-107 | with the one child evaluable, to value a: `cube` and `atan` give a*a*a, `cos_pi` and `sin_pi` their value at a |
| `Evaluator.EvaluateMissingSecond` | recursive_art.py:89-90 | a node taking two inputs with a single child cannot be evaluated |
| `Remapping.RemapInterval` | recursive_art.py:132-133 | for a nonzero input width, the result's offset from the output start times the input width equals the value's offset from the input start times the output width |
| `Remapping.RemapEndpoints` | recursive_art.py:110-112 | the input start maps to the output start and the input end to the output end |
| `Remapping.RemapWithin` | recursive_art.py:110-112 | a value inside an ordered input interval lands inside the output interval, in either orientation |
| `Remapping.RemapInverse` | recursive_art.py:132-133 | remapping from the output interval back to the input interval returns the original value |
| `Remapping.RemapDoctests` | recursive_art.py:125-130 | (0.5, 0, 1, 0, 10) gives 5, (5, 4, 6, 0, 2) gives 1, (5, 4, 6, 1, 2) gives 1.5 |
| `Remapping.PixelCoordinate` | recursive_art.py:193-194 | a pixel index i < size is remapped into [-1, 1) |
| `Remapping.Trunc` | recursive_art.py:154 | `int` truncates toward zero: the result has the input's sign and lies within 1 of it, never further from zero |
| `Remapping.ColorMap` | recursive_art.py:136-154 | for a value in [-1, 1] the result is in [0, 255] and is the floor of (val + 1) * 127.5 |
| `Remapping.ColorMapDoctests` | recursive_art.py:143-150 | -1 gives 0, 1 gives 255, 0 gives 127, 0.5 gives 191 |
| `Remapping.ColorMapInRangeIff` | recursive_art.py:137-141 | the result is in [0, 255] exactly when the input is strictly between -257/255 and 257/255 (no clamping) |
| `Remapping.ColorMapMonotone` | recursive_art.py:153-154 | a larger value never gets a smaller channel value |
| `Art.PixelColor` | recursive_art.py:193-198 | the colour of pixel (i, j): with bounded cos_pi/sin_pi each of its three channels is in [0, 255] |
| `Art.GenerateArt` | recursive_art.py:177-199 | the three channel trees are built with bounds (7, 9) one after another from the choice source; the new buffer has the requested size; every cell holds the colour of the three evaluations at its remapped coordinates, in [0, 255] for bounded cos_pi/sin_pi; each cell is written once |
| `Art.FillPixels` | recursive_art.py:191-199 | the nested loop writes every cell with its pixel colour, and its write log has no repeats and covers the whole grid |
| `Art.FillColumn` | recursive_art.py:192-199 | the inner loop writes the cells with first index i (x coordinate i), y after y, with their pixel colours, logs exactly (i, 0), ..., (i, ySize - 1), and leaves every other cell unchanged |
| `Art.SetPixel` | recursive_art.py:195-199 | the assignment `pixels[i, j] = ...` writes cell (i, j), leaves every other cell unchanged, and appends (i, j) to the write log |

## Left out

- The image library: creating the image, the pixel-access object and `im.save` (recursive_art.py:5, 189-190, 201). The buffer is a fresh Dafny array, and saving is file I/O.
- `test_image` (recursive_art.py:157-174): it fills random noise and saves it.
- The `__main__` block: the doctest runner and the call to `generate_art` (recursive_art.py:204-214).
- Floating point: the model computes over exact reals, so float rounding is not modelled.
- The values of `math.cos`, `math.sin` and `math.pi`, and the unused `atan` lambda. `cos_pi` and `sin_pi` are caller-supplied functions. The closure lemmas assume them bounded by [-1, 1], which the real functions are. The doctest value sin_pi(0.5) == 1.0 is stated only as "evaluates to sin_pi(0.5)".
- Randomness: `random.choice` is an explicit sequence of choice values. Uniformity and other distributional properties are not modelled. An exhausted sequence reads as zeros.
- Builder.BuildRandomFunction: not defined when 1 <= min_depth and max_depth < min_depth. For some choice sequences the source recurses without bound there, so the function cannot be total on those bounds.
- Remapping.RemapInterval: requires a nonzero input width, where the source would raise ZeroDivisionError (recursive_art.py:132). Every call site meets it: `color_map` passes the interval (-1, 1), and `generate_art` remaps only inside `range(x_size)` and `range(y_size)`, so the size there is positive.
