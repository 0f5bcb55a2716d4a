/**
 One drawable primitive of a genome: a circle or square with a position,
 an RGBA colour and a length (radius of a circle, side of a square), with
 its three mutation operators. The mutations are pure functions here: every
 value the operator would draw from the random source is a parameter,
 constrained to the inclusive range the operator asks the source for.
 */
module Genes {
  import opened CppInt

  datatype Color = Color(r: uint8, g: uint8, b: uint8, a: uint8)

  datatype Position = Position(x: int, y: int)

  datatype ShapeType = Circle | Square

  datatype Gene = Gene(position: Position, color: Color, shape: ShapeType, length: int)

  /** A gene whose position lies on a `width` x `height` canvas and whose
      length is at least 1: the invariant every mutation keeps. */
  predicate ValidGene(g: Gene, width: int, height: int)
  {
    && 0 <= g.position.x < width
    && 0 <= g.position.y < height
    && g.length >= 1
  }

  /** The copy a gene makes of itself, rebuilt field by field. */
  function Clone(g: Gene): (c: Gene)
    ensures c == g
  {
    Gene(Position(g.position.x, g.position.y), g.color, g.shape, g.length)
  }

  /** The bounds the position mutation asks the random source for: the
      draw for a dimension of size `limit` lies in `[-limit / 10, limit / 10]`. */
  predicate PositionDrawOk(limit: int, d: int)
  {
    TruncDiv(-limit, 10) <= d <= TruncDiv(limit, 10)
  }

  /** The toroidal wrap of a coordinate into [0, limit), with the guard that
      collapses a coordinate to 0 when the limit is not positive. */
  function Wrap(v: int, limit: int): (r: int)
    ensures limit <= 0 ==> r == 0
    ensures limit > 0 ==> 0 <= r < limit && r == v % limit
  {
    if limit <= 0 then 0
    else
      var m := TruncRem(v, limit);
      var r := if m < 0 then m + limit else m;
      assert r == v % limit by {
        if m < 0 {
          ModOfDecomposition(v, limit, TruncDiv(v, limit) - 1, m + limit);
        } else {
          ModOfDecomposition(v, limit, TruncDiv(v, limit), m);
        }
      }
      r
  }

  /** Moves a gene by `(dx, dy)` and wraps the result around the canvas. */
  function MutatePosition(g: Gene, imgWidth: int, imgHeight: int, dx: int, dy: int): (m: Gene)
    requires PositionDrawOk(imgWidth, dx) && PositionDrawOk(imgHeight, dy)
    ensures imgWidth > 0 ==> 0 <= m.position.x < imgWidth && m.position.x == (g.position.x + dx) % imgWidth
    ensures imgHeight > 0 ==> 0 <= m.position.y < imgHeight && m.position.y == (g.position.y + dy) % imgHeight
    ensures imgWidth <= 0 ==> m.position.x == 0
    ensures imgHeight <= 0 ==> m.position.y == 0
    ensures m.color == g.color && m.shape == g.shape && m.length == g.length
  {
    g.(position := Position(Wrap(g.position.x + dx, imgWidth), Wrap(g.position.y + dy, imgHeight)))
  }

  /** One colour channel after adding an offset in `[-10, 10]`: the sum is
      reduced by C++ `% 256` and converted back to `uint8_t`. */
  function ShiftChannel(c: uint8, d: int): (r: uint8)
    requires -10 <= d <= 10
    ensures r == (c + d) % 256
    ensures 0 <= c + d < 256 ==> r == c + d
    ensures c + d < 0 ==> r == c + d + 256
    ensures c + d >= 256 ==> r == c + d - 256
  {
    ToUint8(TruncRem(c + d, 256))
  }

  /** Shifts each of the four channels by its own offset in `[-10, 10]`. */
  function MutateColor(g: Gene, dr: int, dg: int, db: int, da: int): (m: Gene)
    requires -10 <= dr <= 10 && -10 <= dg <= 10 && -10 <= db <= 10 && -10 <= da <= 10
    ensures m.color.r == (g.color.r + dr) % 256
    ensures m.color.g == (g.color.g + dg) % 256
    ensures m.color.b == (g.color.b + db) % 256
    ensures m.color.a == (g.color.a + da) % 256
    ensures m.position == g.position && m.shape == g.shape && m.length == g.length
  {
    g.(color := Color(ShiftChannel(g.color.r, dr), ShiftChannel(g.color.g, dg),
                      ShiftChannel(g.color.b, db), ShiftChannel(g.color.a, da)))
  }

  /** `int delta = length * 0.2`: a fifth of the length, truncated toward zero. */
  function LengthStep(length: int): int
  {
    TruncDiv(length, 5)
  }

  /** Changes the length by a draw `d` in `[-delta, delta]`, with a floor of 1. */
  function MutateLength(g: Gene, d: int): (m: Gene)
    requires -LengthStep(g.length) <= d <= LengthStep(g.length)
    ensures m.length >= 1
    ensures g.length >= 1 ==> 1 <= g.length - g.length / 5 <= m.length <= g.length + g.length / 5
    ensures 1 <= g.length <= 4 ==> m.length == g.length
    ensures g.length + d >= 1 ==> m.length == g.length + d
    ensures g.length + d < 1 ==> m.length == 1
    ensures m.position == g.position && m.color == g.color && m.shape == g.shape
  {
    var length := if 1 < g.length + d then g.length + d else 1;
    g.(length := length)
  }

  /** The draw range of a position step is symmetric, so every step can be
      taken back. */
  lemma PositionDrawSymmetric(limit: int, d: int)
    ensures PositionDrawOk(limit, d) <==> PositionDrawOk(limit, -d)
  {
  }

  /** A toroidal move of an on-canvas gene is undone by the opposite move. */
  lemma {:induction false} MutatePositionInverse(g: Gene, imgWidth: int, imgHeight: int, dx: int, dy: int)
    requires imgWidth > 0 && imgHeight > 0
    requires ValidGene(g, imgWidth, imgHeight)
    requires PositionDrawOk(imgWidth, dx) && PositionDrawOk(imgHeight, dy)
    ensures PositionDrawOk(imgWidth, -dx) && PositionDrawOk(imgHeight, -dy)
    ensures MutatePosition(MutatePosition(g, imgWidth, imgHeight, dx, dy), imgWidth, imgHeight, -dx, -dy) == g
  {
    PositionDrawSymmetric(imgWidth, dx);
    PositionDrawSymmetric(imgHeight, dy);
    var x, y := g.position.x, g.position.y;
    ModOfSum(x + dx, -dx, imgWidth);
    ModOfSum(y + dy, -dy, imgHeight);
    ModOfDecomposition(x, imgWidth, 0, x);
    ModOfDecomposition(y, imgHeight, 0, y);
  }

  /** On a canvas narrower than ten pixels the only admissible step is 0,
      so the position mutation leaves an on-canvas coordinate where it is. */
  lemma NarrowCanvasNeverMoves(g: Gene, imgWidth: int, imgHeight: int, dx: int, dy: int)
    requires 0 < imgWidth < 10 && 0 < imgHeight < 10
    requires ValidGene(g, imgWidth, imgHeight)
    requires PositionDrawOk(imgWidth, dx) && PositionDrawOk(imgHeight, dy)
    ensures MutatePosition(g, imgWidth, imgHeight, dx, dy) == g
  {
    assert dx == 0 && dy == 0;
    ModOfDecomposition(g.position.x, imgWidth, 0, g.position.x);
    ModOfDecomposition(g.position.y, imgHeight, 0, g.position.y);
  }

  /** Colour channels wrap around instead of saturating. */
  lemma ColorWrapsAround()
    ensures ShiftChannel(255, 1) == 0
    ensures ShiftChannel(0, -1) == 255
    ensures ShiftChannel(250, 10) == 4
  {
  }

  /** A colour shift is undone by the opposite shift. */
  lemma MutateColorInverse(g: Gene, dr: int, dg: int, db: int, da: int)
    requires -10 <= dr <= 10 && -10 <= dg <= 10 && -10 <= db <= 10 && -10 <= da <= 10
    ensures MutateColor(MutateColor(g, dr, dg, db, da), -dr, -dg, -db, -da) == g
  {
  }

  /** `length * 0.2` truncated to `int` is the Euclidean fifth of a
      non-negative length: the largest `k` with `5 * k <= length`. */
  lemma LengthStepIsFifth(length: int)
    requires length >= 0
    ensures LengthStep(length) == length / 5
    ensures 5 * LengthStep(length) <= length < 5 * LengthStep(length) + 5
  {
  }

  /** Each of the three mutations keeps a valid gene valid and never changes
      its shape. */
  lemma MutationsPreserveValid(g: Gene, imgWidth: int, imgHeight: int, dx: int, dy: int,
                               dr: int, dg: int, db: int, da: int, dl: int)
    requires ValidGene(g, imgWidth, imgHeight)
    requires PositionDrawOk(imgWidth, dx) && PositionDrawOk(imgHeight, dy)
    requires -10 <= dr <= 10 && -10 <= dg <= 10 && -10 <= db <= 10 && -10 <= da <= 10
    requires -LengthStep(g.length) <= dl <= LengthStep(g.length)
    ensures ValidGene(MutatePosition(g, imgWidth, imgHeight, dx, dy), imgWidth, imgHeight)
    ensures ValidGene(MutateColor(g, dr, dg, db, da), imgWidth, imgHeight)
    ensures ValidGene(MutateLength(g, dl), imgWidth, imgHeight)
  {
  }
}
