/**
 * evaluate_envelope: the position and rotation offset a position envelope
 * gives a moving quad at a server tick. Floats are idealised as reals; the
 * final conversion of the rotation from degrees to radians is not modelled,
 * so the third component is in degrees.
 */
module EnvelopeEval {
  import opened Arith
  import opened EnvPoints
  import opened Wrappers
  import MovingTiles

  /** SERVER_TICK_SPEED: ticks per second. */
  const SERVER_TICK_SPEED: int := 50

  /** Nanoseconds per tick (1 s / SERVER_TICK_SPEED). */
  const TickToNanoSeconds: int := 20_000_000

  /** Nanoseconds per millisecond. */
  const NanosPerMilli: int := 1_000_000

  /** The evaluated offset (vec3), or a float result that is not finite. */
  datatype Offset = Offset(x: real, y: real, rotation: real) | NonFinite

  /** The first three channels of a keyframe as an offset. */
  function KeyframeValue(p: EnvPoint): Offset
  {
    Offset(Fx2f(p.values[0]), Fx2f(p.values[1]), Fx2f(p.values[2]))
  }

  /**
   * The envelope clock: the quad's offset in milliseconds plus the elapsed
   * ticks plus the truncated fraction of the current tick, in nanoseconds.
   */
  function TimeNanos(offsetMs: int, tick: int, intraTick: real): int
  {
    offsetMs * NanosPerMilli + TickToNanoSeconds * tick + TruncReal(TickToNanoSeconds as real * intraTick)
  }

  /**
   * The clock wrapped into the envelope's period: the C++ remainder by the
   * last keyframe's time when that is positive, otherwise 0.
   */
  function WrappedNanos(nanos: int, maxPointTime: int): (r: int)
    ensures maxPointTime > 0 && nanos >= 0 ==> 0 <= r < maxPointTime
    ensures maxPointTime > 0 && nanos < 0 ==> -maxPointTime < r <= 0
    ensures maxPointTime <= 0 ==> r == 0
    ensures maxPointTime > 0 ==> nanos == TruncDiv(nanos, maxPointTime) * maxPointTime + r
  {
    if maxPointTime > 0 then TruncMod(nanos, maxPointTime) else 0
  }

  /**
   * C++'s `%` truncates, so a negative clock wraps into (-T, 0]. Adding one
   * period to such a clock moves it into [0, T), so the wrap is not periodic
   * across zero.
   */
  lemma WrappedNanosNotPeriodicAcrossZero()
    ensures WrappedNanos(-5, 10) == -5
    ensures WrappedNanos(-5 + 1 * 10, 10) == 5
  {
    TruncDivUnique(5, 10, 0, 5);
  }

  /** Adding whole periods to a non-negative clock does not change the wrapped clock. */
  lemma {:induction false} WrappedNanosPeriodic(nanos: int, maxPointTime: int, m: nat)
    requires nanos >= 0 && maxPointTime > 0
    ensures WrappedNanos(nanos + m * maxPointTime, maxPointTime) == WrappedNanos(nanos, maxPointTime)
  {
    var q := TruncDiv(nanos, maxPointTime);
    var r := TruncMod(nanos, maxPointTime);
    assert nanos + m * maxPointTime == (q + m) * maxPointTime + r;
    TruncDivUnique(nanos + m * maxPointTime, maxPointTime, q + m, r);
  }

  /** The non-negative C++ quotient and remainder are the unique ones. */
  lemma TruncDivUnique(n: int, b: int, q: int, r: int)
    requires n >= 0 && b > 0 && 0 <= r < b && n == q * b + r
    ensures TruncDiv(n, b) == q && TruncMod(n, b) == r
  {
    var q' := TruncDiv(n, b);
    assert q' * b <= n < q' * b + b;
    assert (q - q') * b == n - r - q' * b;
    SmallMultipleIsZero(q - q', b);
  }

  /** The only multiple of b strictly between -b and b is 0. */
  lemma SmallMultipleIsZero(k: int, b: int)
    requires b > 0 && -b < k * b < b
    ensures k == 0
  {
    if k >= 1 {
      assert k * b == (k - 1) * b + b;
      MulNonnegInt(k - 1, b);
      assert false;
    } else if k <= -1 {
      assert k * b == -((-k - 1) * b) - b;
      MulNonnegInt(-k - 1, b);
      assert false;
    }
  }

  lemma MulNonnegInt(x: int, y: int)
    requires x >= 0 && y >= 0
    ensures x * y >= 0
  {
  }

  /** Keyframe i and i + 1 bracket the millisecond clock. */
  predicate Brackets(k: seq<EnvPoint>, ms: int, i: int)
    requires 0 <= i < |k| - 1
  {
    ms >= k[i].time && ms <= k[i + 1].time
  }

  /**
   * The segment the scan of evaluate_envelope settles on when it has looked
   * at the first m segments: the last one that brackets the clock, since
   * every match overwrites the previous one.
   */
  function LastBracketBelow(k: seq<EnvPoint>, ms: int, m: int): (r: Option<int>)
    requires 0 <= m <= |k| - 1
    ensures r.Some? ==> 0 <= r.value < m && Brackets(k, ms, r.value)
    ensures r.Some? ==> forall j :: r.value < j < m ==> !Brackets(k, ms, j)
    ensures r.None? ==> forall j :: 0 <= j < m ==> !Brackets(k, ms, j)
  {
    if m == 0 then None
    else if Brackets(k, ms, m - 1) then Some(m - 1)
    else LastBracketBelow(k, ms, m - 1)
  }

  /**
   * The curve shaping of the interpolation parameter, chosen by the curve
   * type of the segment's left keyframe: smooth is the second hermite basis,
   * slow is cubic, fast is the mirrored cubic, step holds the left value,
   * and every other type (linear, and bezier, which this code does not treat
   * separately) is linear.
   */
  function Reshape(curve: int, a: real): (r: real)
    ensures curve == CURVETYPE_STEP ==> r == 0.0
    ensures a == 0.0 ==> r == 0.0
    ensures curve != CURVETYPE_STEP && a == 1.0 ==> r == 1.0
    ensures curve !in {CURVETYPE_STEP, CURVETYPE_SLOW, CURVETYPE_FAST, CURVETYPE_SMOOTH} ==> r == a
    ensures 0.0 <= a <= 1.0 ==> 0.0 <= r <= 1.0
  {
    if curve == CURVETYPE_SMOOTH then
      SmoothInUnit(a);
      -2.0 * a * a * a + 3.0 * a * a
    else if curve == CURVETYPE_SLOW then
      CubeInUnit(a);
      a * a * a
    else if curve == CURVETYPE_FAST then
      var b := 1.0 - a;
      CubeInUnit(b);
      1.0 - b * b * b
    else if curve == CURVETYPE_STEP then 0.0
    else a
  }

  lemma CubeInUnit(a: real)
    ensures 0.0 <= a <= 1.0 ==> 0.0 <= a * a * a <= 1.0
  {
    if 0.0 <= a <= 1.0 {
      assert 0.0 <= a * a <= a;
      assert a * a * a <= a * a;
    }
  }

  lemma SmoothInUnit(a: real)
    ensures 0.0 <= a <= 1.0 ==> 0.0 <= -2.0 * a * a * a + 3.0 * a * a <= 1.0
  {
    if 0.0 <= a <= 1.0 {
      SmoothFactors(a);
    }
  }

  lemma SmoothFactors(a: real)
    requires 0.0 <= a <= 1.0
    ensures 0.0 <= -2.0 * a * a * a + 3.0 * a * a <= 1.0
  {
    var s := -2.0 * a * a * a + 3.0 * a * a;
    assert s == (a * a) * (3.0 - 2.0 * a);
    assert 1.0 - s == ((1.0 - a) * (1.0 - a)) * (1.0 + 2.0 * a);
    MulNonneg(a, a);
    MulNonneg(a * a, 3.0 - 2.0 * a);
    MulNonneg(1.0 - a, 1.0 - a);
    MulNonneg((1.0 - a) * (1.0 - a), 1.0 + 2.0 * a);
  }

  lemma MulNonneg(x: real, y: real)
    requires x >= 0.0 && y >= 0.0
    ensures x * y >= 0.0
  {
  }

  /** v0 + (v1 - v0) * a. */
  function Mix(v0: real, v1: real, a: real): real
  {
    v0 + (v1 - v0) * a
  }

  /** Interpolating with a parameter in [0, 1] stays between the two values. */
  lemma MixBetween(v0: real, v1: real, a: real)
    ensures 0.0 <= a <= 1.0 && v0 <= v1 ==> v0 <= Mix(v0, v1, a) <= v1
    ensures 0.0 <= a <= 1.0 && v1 <= v0 ==> v1 <= Mix(v0, v1, a) <= v0
  {
    if 0.0 <= a <= 1.0 {
      var d := v1 - v0;
      assert d - d * a == d * (1.0 - a);
      if v0 <= v1 {
        MulNonneg(d, a);
        MulNonneg(d, 1.0 - a);
      } else {
        MulNonneg(-d, a);
        MulNonneg(-d, 1.0 - a);
        assert -d * a == -(d * a);
        assert -d * (1.0 - a) == -(d * (1.0 - a));
      }
    }
  }

  /** The first three channels interpolated between two keyframes with parameter a. */
  function Interpolate(p0: EnvPoint, p1: EnvPoint, a: real): Offset
  {
    Offset(Mix(Fx2f(p0.values[0]), Fx2f(p1.values[0]), a),
           Mix(Fx2f(p0.values[1]), Fx2f(p1.values[1]), a),
           Mix(Fx2f(p0.values[2]), Fx2f(p1.values[2]), a))
  }

  /** (TimeNanos / 1 ms - t_i) / Delta, the raw position in segment i. */
  function RawParameter(k: seq<EnvPoint>, i: int, nanos: int): real
    requires 0 <= i < |k| - 1
    requires k[i + 1].time != k[i].time
  {
    (nanos as real / NanosPerMilli as real - k[i].time as real) / (k[i + 1].time - k[i].time) as real
  }

  /**
   * The value on segment i. A segment of zero length divides by zero: a
   * step segment then still yields its left value, any other curve a
   * non-finite float.
   */
  function Segment(k: seq<EnvPoint>, i: int, nanos: int): Offset
    requires 0 <= i < |k| - 1
  {
    if k[i].curve == CURVETYPE_STEP then Interpolate(k[i], k[i + 1], 0.0)
    else if k[i + 1].time == k[i].time then NonFinite
    else Interpolate(k[i], k[i + 1], Reshape(k[i].curve, RawParameter(k, i, nanos)))
  }

  /** The value of an envelope of at least two keyframes at the clock `nanos`. */
  function EvalKeyframes(k: seq<EnvPoint>, nanos: int): Offset
    requires |k| >= 2
  {
    var t := WrappedNanos(nanos, k[|k| - 1].time * NanosPerMilli);
    var ms := TruncDiv(t, NanosPerMilli);
    match LastBracketBelow(k, ms, |k| - 1)
    case Some(i) => Segment(k, i, t)
    case None => KeyframeValue(k[|k| - 1])
  }

  /** The keyframes of the quad's envelope exist (`at` would throw otherwise). */
  predicate KeyframesExist(tile: MovingTiles.MovingTileData, points: seq<EnvPoint>)
  {
    tile.numEnvPoints >= 0 &&
    (tile.numEnvPoints > 0 ==> 0 <= tile.startEnvPoint && tile.startEnvPoint + tile.numEnvPoints <= |points|)
  }

  function Keyframes(tile: MovingTiles.MovingTileData, points: seq<EnvPoint>): (r: seq<EnvPoint>)
    requires KeyframesExist(tile, points)
    ensures |r| == tile.numEnvPoints
    ensures forall i :: 0 <= i < |r| ==> r[i] == points[tile.startEnvPoint + i]
  {
    if tile.numEnvPoints == 0 then [] else points[tile.startEnvPoint..tile.startEnvPoint + tile.numEnvPoints]
  }

  /** The offset evaluate_envelope computes, as a function of its inputs. */
  function EnvelopeAt(tick: int, intraTick: real, tile: MovingTiles.MovingTileData, points: seq<EnvPoint>): Offset
    requires KeyframesExist(tile, points)
  {
    var k := Keyframes(tile, points);
    if |k| == 0 then Offset(0.0, 0.0, 0.0)
    else if |k| == 1 then KeyframeValue(k[0])
    else EvalKeyframes(k, TimeNanos(tile.posEnvOffset, tick, intraTick))
  }

  /**
   * evaluate_envelope: no keyframes give no offset, one keyframe a constant
   * offset; otherwise the clock is wrapped into the envelope's period and the
   * scan over the segments keeps the value of the last segment that
   * brackets it, falling back to the last keyframe when none does.
   */
  method EvaluateEnvelope(tick: int, intraTick: real, tile: MovingTiles.MovingTileData, points: seq<EnvPoint>) returns (r: Offset)
    requires KeyframesExist(tile, points)
    ensures r == EnvelopeAt(tick, intraTick, tile, points)
  {
    var timeNanos := TimeNanos(tile.posEnvOffset, tick, intraTick);
    var start, n := tile.startEnvPoint, tile.numEnvPoints;
    if n == 0 {
      r := Offset(0.0, 0.0, 0.0);
    } else if n == 1 {
      r := KeyframeValue(points[start]);
    } else {
      ghost var k := points[start..start + n];
      ghost var clock := timeNanos;
      r := Offset(0.0, 0.0, 0.0);
      var maxPointTime := points[start + n - 1].time * NanosPerMilli;
      assert maxPointTime == k[|k| - 1].time * NanosPerMilli;
      if maxPointTime > 0 {
        timeNanos := TruncMod(timeNanos, maxPointTime);
      } else {
        timeNanos := 0;
      }
      assert timeNanos == WrappedNanos(clock, maxPointTime);
      var timeMillis := TruncDiv(timeNanos, NanosPerMilli);
      var inAnyRange := false;
      var i := 0;
      while i < n - 1
        invariant 0 <= i <= n - 1
        invariant inAnyRange <==> LastBracketBelow(k, timeMillis, i).Some?
        invariant inAnyRange ==> r == Segment(k, LastBracketBelow(k, timeMillis, i).value, timeNanos)
      {
        if timeMillis >= points[start + i].time && timeMillis <= points[start + i + 1].time {
          inAnyRange := true;
          r := EvaluateSegment(k, points[start + i], points[start + i + 1], i, timeNanos);
        }
        i := i + 1;
      }
      if !inAnyRange {
        r := KeyframeValue(points[start + n - 1]);
      }
      assert r == EvalKeyframes(k, clock);
      assert k == Keyframes(tile, points);
    }
  }

  /** The body of the scan for segment i, whose keyframes are p0 and p1. */
  method EvaluateSegment(ghost k: seq<EnvPoint>, p0: EnvPoint, p1: EnvPoint, i: int, timeNanos: int) returns (r: Offset)
    requires 0 <= i < |k| - 1 && p0 == k[i] && p1 == k[i + 1]
    ensures r == Segment(k, i, timeNanos)
  {
    if p0.curve == CURVETYPE_STEP {
      r := Interpolate(p0, p1, 0.0);
    } else if p1.time == p0.time {
      r := NonFinite;
    } else {
      var delta := (p1.time - p0.time) as real;
      var a := (timeNanos as real / NanosPerMilli as real - p0.time as real) / delta;
      a := Reshape(p0.curve, a);
      r := Interpolate(p0, p1, a);
    }
  }

  // ---------------------------------------------------------------------
  // Properties

  /** An envelope with a single keyframe does not move: every tick gives that keyframe's values. */
  lemma SingleKeyframeConstant(tick1: int, intra1: real, tick2: int, intra2: real, tile: MovingTiles.MovingTileData, points: seq<EnvPoint>)
    requires KeyframesExist(tile, points) && tile.numEnvPoints == 1
    ensures EnvelopeAt(tick1, intra1, tile, points) == EnvelopeAt(tick2, intra2, tile, points) == KeyframeValue(points[tile.startEnvPoint])
  {
  }

  /**
   * The envelope is periodic in its last keyframe's time: advancing the
   * server by dt ticks, where dt ticks are m whole periods, gives the same
   * offset (for a non-negative clock, where the C++ remainder is the
   * mathematical one).
   */
  lemma EnvelopePeriodic(tick: int, dt: nat, m: nat, intraTick: real, tile: MovingTiles.MovingTileData, points: seq<EnvPoint>)
    requires KeyframesExist(tile, points) && tile.numEnvPoints >= 2
    requires TimeNanos(tile.posEnvOffset, tick, intraTick) >= 0
    requires TickToNanoSeconds * dt == m * (points[tile.startEnvPoint + tile.numEnvPoints - 1].time * NanosPerMilli)
    ensures EnvelopeAt(tick + dt, intraTick, tile, points) == EnvelopeAt(tick, intraTick, tile, points)
  {
    var k := Keyframes(tile, points);
    var maxT := k[|k| - 1].time * NanosPerMilli;
    var t0 := TimeNanos(tile.posEnvOffset, tick, intraTick);
    assert TimeNanos(tile.posEnvOffset, tick + dt, intraTick) == t0 + m * maxT;
    if maxT > 0 {
      WrappedNanosPeriodic(t0, maxT, m);
    }
  }

  /** Keyframe times never decrease along the envelope. */
  predicate Sorted(k: seq<EnvPoint>)
  {
    forall i :: 0 <= i < |k| - 1 ==> k[i].time <= k[i + 1].time
  }

  /**
   * The fallback to the last keyframe is only taken outside the keyframes'
   * range: a clock between the first and the m-th keyframe is bracketed by
   * some segment below m.
   */
  lemma {:induction false} BracketExists(k: seq<EnvPoint>, ms: int, m: int)
    requires 1 <= m <= |k| - 1
    requires k[0].time <= ms <= k[m].time
    ensures LastBracketBelow(k, ms, m).Some?
  {
    if !Brackets(k, ms, m - 1) {
      assert ms < k[m - 1].time;
      BracketExists(k, ms, m - 1);
    }
  }

  /**
   * Because the last match wins, on sorted keyframes a clock that lies
   * before the last keyframe lands strictly before the right end of the
   * chosen segment: a clock equal to an inner keyframe's time goes to the
   * segment starting there.
   */
  lemma ChosenSegmentHalfOpen(k: seq<EnvPoint>, ms: int)
    requires |k| >= 2 && Sorted(k)
    requires ms < k[|k| - 1].time
    requires LastBracketBelow(k, ms, |k| - 1).Some?
    ensures var i := LastBracketBelow(k, ms, |k| - 1).value;
      k[i].time <= ms < k[i + 1].time
  {
    var i := LastBracketBelow(k, ms, |k| - 1).value;
    if ms == k[i + 1].time {
      assert i + 1 < |k| - 1;
      assert Brackets(k, ms, i + 1);
    }
  }

  /** An offset whose channels lie between those of two keyframes. */
  predicate Between(r: Offset, p0: EnvPoint, p1: EnvPoint)
  {
    r.Offset? &&
    InRange(r.x, Fx2f(p0.values[0]), Fx2f(p1.values[0])) &&
    InRange(r.y, Fx2f(p0.values[1]), Fx2f(p1.values[1])) &&
    InRange(r.rotation, Fx2f(p0.values[2]), Fx2f(p1.values[2]))
  }

  predicate InRange(v: real, a: real, b: real)
  {
    (a <= b && a <= v <= b) || (b <= a && b <= v <= a)
  }

  /**
   * On sorted keyframes and a clock past the first keyframe, the envelope
   * never overshoots: the offset is finite and each channel lies between the
   * values of the two keyframes bracketing the wrapped clock.
   */
  lemma EnvelopeWithinKeyframes(k: seq<EnvPoint>, nanos: int)
    requires |k| >= 2 && Sorted(k) && k[|k| - 1].time > 0
    requires nanos >= 0
    requires k[0].time * NanosPerMilli <= WrappedNanos(nanos, k[|k| - 1].time * NanosPerMilli)
    ensures exists i :: 0 <= i < |k| - 1 && k[i].time <= k[i + 1].time && Between(EvalKeyframes(k, nanos), k[i], k[i + 1])
  {
    var maxT := k[|k| - 1].time * NanosPerMilli;
    var t := WrappedNanos(nanos, maxT);
    var ms := TruncDiv(t, NanosPerMilli);
    assert 0 <= t < maxT;
    assert ms * NanosPerMilli <= t < ms * NanosPerMilli + NanosPerMilli;
    assert k[0].time <= ms;
    assert ms < k[|k| - 1].time;
    BracketExists(k, ms, |k| - 1);
    ChosenSegmentHalfOpen(k, ms);
    var i := LastBracketBelow(k, ms, |k| - 1).value;
    assert EvalKeyframes(k, nanos) == Segment(k, i, t);
    if k[i].curve == CURVETYPE_STEP {
      InterpolateBetween(k[i], k[i + 1], 0.0);
    } else {
      SegmentParameterInUnit(k, i, t, ms);
      InterpolateBetween(k[i], k[i + 1], Reshape(k[i].curve, RawParameter(k, i, t)));
    }
  }

  /** Inside a half-open segment the raw parameter lies in [0, 1). */
  lemma SegmentParameterInUnit(k: seq<EnvPoint>, i: int, t: int, ms: int)
    requires 0 <= i < |k| - 1
    requires k[i].time <= ms < k[i + 1].time
    requires ms * NanosPerMilli <= t < ms * NanosPerMilli + NanosPerMilli
    ensures 0.0 <= RawParameter(k, i, t) < 1.0
  {
    var u := t as real / NanosPerMilli as real;
    assert ms as real <= u < ms as real + 1.0;
    var delta := (k[i + 1].time - k[i].time) as real;
    assert delta >= 1.0;
    var num := u - k[i].time as real;
    assert 0.0 <= num < delta;
    assert RawParameter(k, i, t) == num / delta;
    DivInUnit(num, delta);
  }

  lemma DivInUnit(num: real, delta: real)
    requires delta > 0.0 && 0.0 <= num < delta
    ensures 0.0 <= num / delta < 1.0
  {
    var q := num / delta;
    assert q * delta == num;
    MulSign(q, delta);
    assert (q - 1.0) * delta == num - delta;
    MulSign(q - 1.0, delta);
  }

  /** Multiplying by a positive factor keeps the sign. */
  lemma MulSign(x: real, y: real)
    requires y > 0.0
    ensures x * y >= 0.0 <==> x >= 0.0
  {
    if x >= 0.0 {
      MulNonneg(x, y);
    } else {
      assert x * y == -((-x) * y);
      MulPos(-x, y);
    }
  }

  lemma MulPos(x: real, y: real)
    requires x > 0.0 && y > 0.0
    ensures x * y > 0.0
  {
  }

  lemma InterpolateBetween(p0: EnvPoint, p1: EnvPoint, a: real)
    requires 0.0 <= a <= 1.0
    ensures Between(Interpolate(p0, p1, a), p0, p1)
  {
    MixBetween(Fx2f(p0.values[0]), Fx2f(p1.values[0]), a);
    MixBetween(Fx2f(p0.values[1]), Fx2f(p1.values[1]), a);
    MixBetween(Fx2f(p0.values[2]), Fx2f(p1.values[2]), a);
  }

  /** A step segment holds its left keyframe's values over the whole segment. */
  lemma StepHoldsLeftValue(k: seq<EnvPoint>, i: int, nanos: int)
    requires 0 <= i < |k| - 1 && k[i].curve == CURVETYPE_STEP
    ensures Segment(k, i, nanos) == KeyframeValue(k[i])
  {
  }

  /**
   * Every non-step segment starts at its left keyframe: a clock exactly at
   * the left keyframe's time gives that keyframe's values.
   */
  lemma SegmentStartsAtLeftKeyframe(k: seq<EnvPoint>, i: int)
    requires 0 <= i < |k| - 1 && k[i + 1].time != k[i].time
    ensures Segment(k, i, k[i].time * NanosPerMilli) == KeyframeValue(k[i])
  {
    assert RawParameter(k, i, k[i].time * NanosPerMilli) == 0.0;
  }
}
