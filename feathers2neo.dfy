/**
 * The FeatherS2 Neo helper library (client/feathers2neo.py): the RGB colour wheel
 * and the trail animation drawn on the board's 5x5 NeoPixel matrix.
 *
 * The animation's brightness `alpha` is a float that starts at 0.2 * (trail_length - 1)
 * and drops by 0.2 per lit trail entry. It is kept here exactly, in fifths: a pixel
 * written with `Shade(c, k)` shows colour `c` scaled by 0.2 * k.
 */
module Feathers2Neo {
  import opened Wrappers

  /** The NeoPixel matrix is 5 x 5; pixel 0 is top left and indices run along rows. */
  const PixelCount := 25
  const MinTrailLength := 1
  const MaxTrailLength := 20

  datatype Rgb = Rgb(red: int, green: int, blue: int)

  // ---------------------------------------------------------------------------
  // Colour wheel
  // ---------------------------------------------------------------------------

  /** `rgb_color_wheel`: a position on a 255-step rainbow, as an RGB triple. */
  function ColorWheel(pos: int): (c: Rgb)
    ensures 0 <= c.red <= 255 && 0 <= c.green <= 255 && 0 <= c.blue <= 255
    ensures c.red + c.green + c.blue == 255
    ensures pos % 255 < 85 ==> c.green == 0
    ensures 85 <= pos % 255 < 170 ==> c.red == 0
    ensures 170 <= pos % 255 ==> c.blue == 0
  {
    var p := pos % 255;
    if p < 85 then Rgb(255 - p * 3, 0, p * 3)
    else if p < 170 then Rgb(0, (p - 85) * 3, 255 - (p - 85) * 3)
    else Rgb((p - 170) * 3, 255 - (p - 170) * 3, 0)
  }

  /** The wheel depends only on the position modulo 255. */
  lemma ColorWheelPeriodic(pos: int, k: int)
    ensures ColorWheel(pos) == ColorWheel(pos % 255)
    ensures ColorWheel(pos + 255 * k) == ColorWheel(pos)
  {
    assert (pos + 255 * k) % 255 == pos % 255;
  }

  /** One step along the wheel moves each channel by at most 3, including the step from 254 to 255. */
  lemma ColorWheelSmooth(pos: int)
    ensures -3 <= ColorWheel(pos + 1).red - ColorWheel(pos).red <= 3
    ensures -3 <= ColorWheel(pos + 1).green - ColorWheel(pos).green <= 3
    ensures -3 <= ColorWheel(pos + 1).blue - ColorWheel(pos).blue <= 3
  {
    var p := pos % 255;
    assert (pos + 1) % 255 == if p == 254 then 0 else p + 1;
  }

  /** The 255 positions of one turn give 255 different colours. */
  lemma ColorWheelInjective(p: int, q: int)
    requires 0 <= p < 255 && 0 <= q < 255
    requires ColorWheel(p) == ColorWheel(q)
    ensures p == q
  {
  }

  // ---------------------------------------------------------------------------
  // Shape table
  // ---------------------------------------------------------------------------

  const Square: seq<int> := [0, 1, 2, 3, 4, 9, 14, 19, 24, 23, 22, 21, 20, 15, 10, 5]
  const Circle: seq<int> := [1, 2, 3, 9, 14, 19, 23, 22, 21, 15, 10, 5]
  const Diamond: seq<int> := [2, 8, 14, 18, 22, 16, 10, 6]
  const Plus: seq<int> := [2, 7, 12, 17, 22, 10, 11, 12, 13, 14]
  const Cross: seq<int> := [0, 6, 12, 18, 24, 4, 8, 12, 16, 20]
  /** The spiral runs out from the centre to pixel 0, back in to the centre, then pauses for 7 steps. */
  const SpiralOut: seq<int> := [12, 13, 18, 17, 16, 11, 6, 7, 8, 9, 14, 19, 24, 23, 22, 21, 20, 15, 10, 5, 0]
  const SpiralIn: seq<int> := [1, 2, 3, 4, 9, 14, 19, 24, 23, 22, 21, 20, 15, 10, 5, 6, 7, 8, 13, 18, 17, 16, 11, 12]
  const SpiralPause: seq<int> := [-1, -1, -1, -1, -1, -1, -1]
  const Spiral: seq<int> := SpiralOut + SpiralIn + SpiralPause

  /** `matrix_display_shapes`: each shape is the sequence of pixels the trail head visits; -1 shows nothing. */
  function Shapes(): (t: map<string, seq<int>>)
    ensures t.Keys == {"square", "circle", "diamond", "plus", "cross", "spiral"}
    ensures |t["square"]| == 16 && |t["circle"]| == 12 && |t["diamond"]| == 8
    ensures |t["plus"]| == 10 && |t["cross"]| == 10 && |t["spiral"]| == 52
  {
    map["square" := Square, "circle" := Circle, "diamond" := Diamond,
        "plus" := Plus, "cross" := Cross, "spiral" := Spiral]
  }

  /** A shape is non-empty and every entry is -1 or a pixel of a matrix of `size` pixels. */
  predicate ShapeFits(shape: seq<int>, size: int) {
    |shape| > 0 && forall i :: 0 <= i < |shape| ==> -1 <= shape[i] < size
  }

  lemma SpiralFits()
    ensures ShapeFits(Spiral, PixelCount)
  {
    assert ShapeFits(SpiralOut, PixelCount) && ShapeFits(SpiralIn, PixelCount) && ShapeFits(SpiralPause, PixelCount);
  }

  /** Every shape of the table fits the 25-pixel matrix. */
  lemma ShapesFitMatrix(name: string)
    requires name in Shapes()
    ensures ShapeFits(Shapes()[name], PixelCount)
  {
    SpiralFits();
    assert ShapeFits(Square, PixelCount) && ShapeFits(Circle, PixelCount) && ShapeFits(Diamond, PixelCount);
    assert ShapeFits(Plus, PixelCount) && ShapeFits(Cross, PixelCount);
  }

  // ---------------------------------------------------------------------------
  // The trail, as values
  // ---------------------------------------------------------------------------

  /** `[x for x in range(0, -len, -1)]`: the head at step 0 and the rest of the trail not yet shown. */
  function InitialTrail(len: nat): (t: seq<int>)
    ensures |t| == len
    ensures forall i :: 0 <= i < len ==> t[i] == -i
  {
    seq(len, i => -i)
  }

  /** `inc_anim_index` on one entry: advance and wrap to 0 at the shape length. */
  function Step(v: int, n: int): (r: int)
    ensures 0 < n && v < n ==> r < n
    ensures r == v + 1 || r == 0
    ensures r == 0 <==> v + 1 == n || v == -1
  {
    if v + 1 == n then 0 else v + 1
  }

  /** Every entry of the trail advanced once, as one call to `animate` does. */
  function Advanced(trail: seq<int>, n: int): (t: seq<int>)
    ensures |t| == |trail|
    ensures forall i :: 0 <= i < |trail| ==> t[i] == Step(trail[i], n)
  {
    seq(|trail|, i requires 0 <= i < |trail| => Step(trail[i], n))
  }

  /** Entries of a trail of length `len` for a shape of `n` entries: not yet shown, or a position in the shape. */
  predicate TrailInRange(trail: seq<int>, len: int, n: int) {
    forall i :: 0 <= i < |trail| ==> -(len - 1) <= trail[i] < n
  }

  /** Advancing keeps every entry in [-(len - 1), n - 1]. */
  lemma AdvancedInRange(trail: seq<int>, len: int, n: int)
    requires n > 0 && len >= 1 && TrailInRange(trail, len, n)
    ensures TrailInRange(Advanced(trail, n), len, n)
  {
  }

  /**
   * The trail after `k` animation steps: entry `i` is the head's position `k - i`
   * taken modulo the shape length once it is shown, and `k - i < 0` before that.
   */
  function TrailAt(k: nat, len: nat, n: int): (t: seq<int>)
    requires n > 0
    ensures |t| == len
  {
    seq(len, i => if k < i then k - i else (k - i) % n)
  }

  lemma {:induction false} MulAtLeast(n: int, d: int)
    requires n > 0 && d >= 1
    ensures n * d >= n
    decreases d
  {
    if d > 1 {
      MulAtLeast(n, d - 1);
      assert n * d == n * (d - 1) + n;
    }
  }

  /** Euclidean division has one remainder. */
  lemma ModUnique(x: int, n: int, q: int, r: int)
    requires n > 0 && 0 <= r < n && x == n * q + r
    ensures x % n == r
  {
    var q', r' := x / n, x % n;
    assert x == n * q' + r';
    assert n * (q - q') == r' - r;
    if q > q' {
      MulAtLeast(n, q - q');
    } else if q < q' {
      MulAtLeast(n, q' - q);
    }
  }

  /** Stepping a position modulo `n` is adding one modulo `n`. */
  lemma ModSucc(a: int, n: int)
    requires n > 0
    ensures (a + 1) % n == Step(a % n, n)
  {
    var q, r := a / n, a % n;
    assert a == n * q + r;
    if r + 1 == n {
      ModUnique(a + 1, n, q + 1, 0);
    } else {
      ModUnique(a + 1, n, q, r + 1);
    }
  }

  /** The animation starts at step 0 and each call to `animate` moves the whole trail one step on. */
  lemma {:induction false} TrailFollowsHead(k: nat, len: nat, n: int)
    requires n > 0
    ensures InitialTrail(len) == TrailAt(0, len, n)
    ensures Advanced(TrailAt(k, len, n), n) == TrailAt(k + 1, len, n)
  {
    forall i | 0 <= i < len
      ensures Advanced(TrailAt(k, len, n), n)[i] == TrailAt(k + 1, len, n)[i]
    {
      if k < i {
      } else {
        ModSucc(k - i, n);
      }
    }
  }

  /** At step `k`, exactly the entries `0..k` are shown. */
  lemma TrailShownPrefix(k: nat, len: nat, n: int, i: int)
    requires n > 0 && 0 <= i < len
    ensures TrailAt(k, len, n)[i] >= 0 <==> i <= k
  {
  }

  // ---------------------------------------------------------------------------
  // Painting, as values
  // ---------------------------------------------------------------------------

  /** A colour scaled by `fifths` / 5, the brightness `alpha` of the source in units of 0.2. */
  datatype Shade = Shade(colour: Rgb, fifths: int)

  /** `alpha = alpha - 0.2 if alpha > 0.2 else 0`, in fifths. */
  function Fade(level: int): (r: int)
    ensures r >= 0 && r >= level - 1
    ensures level > 0 ==> r < level
    ensures level <= 1 ==> r == 0
  {
    if level > 1 then level - 1 else 0
  }

  /** The trail entries point into the shape, and the shape's entries into the matrix. */
  predicate CanPaint(size: int, shape: seq<int>, trail: seq<int>) {
    (forall i :: 0 <= i < |shape| ==> shape[i] < size) &&
    (forall i :: 0 <= i < |trail| ==> trail[i] < |shape|)
  }

  /**
   * The matrix after the drawing part of `animate`, entries taken in order: an entry that is
   * shown (>= 0) paints its shape pixel unless that is -1, and dims the next one.
   */
  function Painted(m: seq<Shade>, shape: seq<int>, trail: seq<int>, colour: Rgb, level: int): (r: seq<Shade>)
    requires CanPaint(|m|, shape, trail)
    ensures |r| == |m|
    decreases |trail|
  {
    if trail == [] then m
    else if trail[0] > -1 then
      var p := shape[trail[0]];
      Painted(if p > -1 then m[p := Shade(colour, level)] else m, shape, trail[1..], colour, Fade(level))
    else
      Painted(m, shape, trail[1..], colour, level)
  }

  /** The pixels the trail paints. */
  function Targets(shape: seq<int>, trail: seq<int>): (s: set<int>)
    requires forall i :: 0 <= i < |trail| ==> trail[i] < |shape|
  {
    set i | 0 <= i < |trail| && trail[i] >= 0 && shape[trail[i]] > -1 :: shape[trail[i]]
  }

  /** Nothing but the trail's pixels changes, and each of them is painted in the animation colour. */
  lemma {:induction false} PaintedFrame(m: seq<Shade>, shape: seq<int>, trail: seq<int>, colour: Rgb,
                                        level: int, p: int)
    requires CanPaint(|m|, shape, trail) && 0 <= p < |m|
    ensures p !in Targets(shape, trail) ==> Painted(m, shape, trail, colour, level)[p] == m[p]
    ensures p in Targets(shape, trail) ==> Painted(m, shape, trail, colour, level)[p].colour == colour
    decreases |trail|
  {
    if trail != [] {
      var m' := if trail[0] > -1 && shape[trail[0]] > -1 then m[shape[trail[0]] := Shade(colour, level)] else m;
      var level' := if trail[0] > -1 then Fade(level) else level;
      PaintedFrame(m', shape, trail[1..], colour, level', p);
      assert Targets(shape, trail) ==
             Targets(shape, trail[1..]) + (if trail[0] >= 0 && shape[trail[0]] > -1 then {shape[trail[0]]} else {}) by {
        forall x | x in Targets(shape, trail)
          ensures x in Targets(shape, trail[1..]) || (trail[0] >= 0 && x == shape[trail[0]])
        {
          var i :| 0 <= i < |trail| && trail[i] >= 0 && shape[trail[i]] > -1 && shape[trail[i]] == x;
          if i > 0 { assert trail[1..][i - 1] == trail[i]; }
        }
        forall x | x in Targets(shape, trail[1..])
          ensures x in Targets(shape, trail)
        {
          var i :| 0 <= i < |trail[1..]| && trail[1..][i] >= 0 && shape[trail[1..][i]] > -1 && shape[trail[1..][i]] == x;
          assert trail[i + 1] == trail[1..][i];
        }
      }
    }
  }

  /** Every pixel the trail of a table shape paints is on the matrix. */
  lemma TargetsOnMatrix(shape: seq<int>, trail: seq<int>)
    requires ShapeFits(shape, PixelCount)
    requires forall i :: 0 <= i < |trail| ==> trail[i] < |shape|
    ensures forall p :: p in Targets(shape, trail) ==> 0 <= p < PixelCount
  {
  }

  // ---------------------------------------------------------------------------
  // The animation object
  // ---------------------------------------------------------------------------

  /** `matrix_animation`: a trail of indices into one shape, drawn on `matrix`. */
  class MatrixAnimation {
    var matrix: array<Shade>
    var animType: string
    var error: bool
    /** One more than the trail length given to the constructor. */
    var trailLength: int
    var animTrail: seq<int>
    var currentAnim: seq<int>

    /** The state a successful constructor sets up and every method keeps. */
    ghost predicate Valid()
      reads this
    {
      !error ==>
        && animType in Shapes()
        && currentAnim == Shapes()[animType]
        && ShapeFits(currentAnim, matrix.Length)
        && matrix.Length == PixelCount
        && MinTrailLength + 1 <= trailLength <= MaxTrailLength + 1
        && |animTrail| == trailLength
        && TrailInRange(animTrail, trailLength, |currentAnim|)
    }

    /**
     * `__init__`: `error` is set for an unknown shape or a trail length outside [1, 20];
     * otherwise the trail starts at `[0, -1, ..., -trailLength]`.
     * The remaining fields of an errored instance are never read.
     */
    constructor (matrix: array<Shade>, animType: string, trailLength: int)
      requires matrix.Length == PixelCount
      ensures Valid()
      ensures error <==> animType !in Shapes() || trailLength < MinTrailLength || trailLength > MaxTrailLength
      ensures !error ==>
                && this.matrix == matrix
                && this.animType == animType
                && this.trailLength == trailLength + 1
                && animTrail == InitialTrail(trailLength + 1)
                && currentAnim == Shapes()[animType]
    {
      this.matrix := matrix;
      this.animType := animType;
      if animType !in Shapes() {
        error := true;
      } else if trailLength < MinTrailLength || trailLength > MaxTrailLength {
        error := true;
      } else {
        error := false;
      }
      new;
      if !error {
        this.trailLength := trailLength + 1;
        animTrail := InitialTrail(trailLength + 1);
        currentAnim := Shapes()[animType];
        ShapesFitMatrix(animType);
      }
    }

    /** `inc_anim_index`: advances one trail entry, wrapping at the shape length; the others stay. */
    method IncAnimIndex(index: int)
      requires Valid() && !error && 0 <= index < |animTrail|
      modifies this`animTrail
      ensures Valid()
      ensures animTrail == old(animTrail)[index := Step(old(animTrail)[index], |currentAnim|)]
    {
      animTrail := animTrail[index := animTrail[index] + 1];
      if animTrail[index] == |currentAnim| {
        animTrail := animTrail[index := 0];
      }
    }

    /**
     * `get_anim_index`: the shape entry at trail entry `index`, with Python's indexing,
     * where a negative position counts from the end and one before the start is an IndexError (None).
     */
    function GetAnimIndex(index: int): (r: Option<int>)
      reads this
      requires Valid() && !error && 0 <= index < |animTrail|
      ensures r.Some? ==> -1 <= r.value < PixelCount
      ensures animTrail[index] >= 0 ==> r == Some(currentAnim[animTrail[index]])
      ensures -|currentAnim| <= animTrail[index] < 0 ==> r == Some(currentAnim[|currentAnim| + animTrail[index]])
      ensures r.None? <==> animTrail[index] < -|currentAnim|
    {
      var v := animTrail[index];
      if v >= 0 then Some(currentAnim[v])
      else if v >= -|currentAnim| then Some(currentAnim[|currentAnim| + v])
      else None
    }

    /**
     * `animate`: an errored instance does nothing; otherwise each trail entry that is shown
     * paints its pixel, dimming as it goes, and every entry advances once.
     */
    method Animate(r: int, g: int, b: int)
      requires Valid()
      modifies this`animTrail, matrix
      ensures Valid()
      ensures error ==> animTrail == old(animTrail) && matrix[..] == old(matrix[..])
      ensures !error ==> animTrail == Advanced(old(animTrail), |currentAnim|)
      ensures !error ==>
                matrix[..] == Painted(old(matrix[..]), currentAnim, old(animTrail), Rgb(r, g, b), trailLength - 1)
    {
      if error {
        return;
      }
      var alpha := trailLength - 1;
      ghost var trail0 := animTrail;
      ghost var painted := Painted(matrix[..], currentAnim, trail0, Rgb(r, g, b), alpha);
      for index := 0 to trailLength
        invariant Valid()
        invariant |animTrail| == |trail0|
        invariant forall i :: 0 <= i < index ==> animTrail[i] == Step(trail0[i], |currentAnim|)
        invariant animTrail[index..] == trail0[index..]
        invariant Painted(matrix[..], currentAnim, trail0[index..], Rgb(r, g, b), alpha) == painted
      {
        assert trail0[index..][1..] == trail0[index + 1..];
        if animTrail[index] > -1 {
          var target := GetAnimIndex(index);
          if target.value > -1 {
            matrix[target.value] := Shade(Rgb(r, g, b), alpha);
          }
          alpha := Fade(alpha);
        }
        IncAnimIndex(index);
      }
    }
  }
}
