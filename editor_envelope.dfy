/**
 * The editor's envelope: a growable list of keyframe points together with
 * the kind of value it animates (a position, a colour or a sound volume).
 * It is edited in place, so it is a class whose point list is a field.
 */
module EditorEnvelope {
  import opened EnvPoints
  import opened Wrappers

  /** CEnvelope::EType. */
  datatype EnvelopeType = Position | Color | Sound

  /** The envelope type an editor envelope with n channels has, if n is a valid channel count. */
  function TypeForChannels(n: int): (r: Option<EnvelopeType>)
    ensures r.Some? <==> n == 1 || n == 3 || n == 4
  {
    if n == 1 then Some(Sound)
    else if n == 3 then Some(Position)
    else if n == 4 then Some(Color)
    else None
  }

  /** CEnvelopePoint: a keyframe together with its bezier handles. */
  datatype EnvelopePoint = EnvelopePoint(point: EnvPoint, bezier: Bezier)

  /** The point AddPoint creates: linear segment, the given values, zero tangents. */
  function NewPoint(time: int, v0: int, v1: int, v2: int, v3: int): EnvelopePoint
  {
    EnvelopePoint(EnvPoint(time, CURVETYPE_LINEAR, [v0, v1, v2, v3]), ZeroBezier)
  }

  // ---------------------------------------------------------------------
  // The point order. CEnvelopePoint's comparison is defined outside this
  // model; the sort only relies on it being a strict weak order, that is,
  // on "not after" being a total preorder.

  /** `le(a, b)`: point a is not ordered after point b. */
  ghost predicate TotalPreorder(le: (EnvelopePoint, EnvelopePoint) -> bool)
  {
    (forall a, b :: le(a, b) || le(b, a)) &&
    (forall a, b, c :: le(a, b) && le(b, c) ==> le(a, c))
  }

  /** Every point is not after any later point. */
  ghost predicate SortedBy(s: seq<EnvelopePoint>, le: (EnvelopePoint, EnvelopePoint) -> bool)
  {
    forall i, j :: 0 <= i < j < |s| ==> le(s[i], s[j])
  }

  /** s with x placed before the first element it is not after. */
  function Insert(x: EnvelopePoint, s: seq<EnvelopePoint>, le: (EnvelopePoint, EnvelopePoint) -> bool): (r: seq<EnvelopePoint>)
    ensures multiset(r) == multiset(s) + multiset{x}
    ensures |r| == |s| + 1
  {
    if |s| == 0 then [x]
    else if le(x, s[0]) then [x] + s
    else
      assert s == [s[0]] + s[1..];
      [s[0]] + Insert(x, s[1..], le)
  }

  /** Inserting into a sorted list keeps it sorted. */
  lemma {:induction false} InsertSorted(x: EnvelopePoint, s: seq<EnvelopePoint>, le: (EnvelopePoint, EnvelopePoint) -> bool)
    requires TotalPreorder(le) && SortedBy(s, le)
    ensures SortedBy(Insert(x, s, le), le)
  {
    if |s| == 0 {
    } else if le(x, s[0]) {
      var r := [x] + s;
      forall i, j | 0 <= i < j < |r|
        ensures le(r[i], r[j])
      {
        if i > 0 {
          assert r[i] == s[i - 1] && r[j] == s[j - 1];
        } else {
          assert r[j] == s[j - 1];
          if j > 1 {
            assert le(s[0], s[j - 1]);
          }
        }
      }
    } else {
      var rest := Insert(x, s[1..], le);
      InsertSorted(x, s[1..], le);
      assert le(s[0], x);
      forall k | 0 <= k < |rest|
        ensures le(s[0], rest[k])
      {
        assert rest[k] in multiset(rest);
        assert rest[k] in multiset(s[1..]) || rest[k] == x;
        if rest[k] != x {
          var m :| 1 <= m < |s| && s[m] == rest[k] by {
            assert rest[k] in s[1..];
          }
        }
      }
      var r := [s[0]] + rest;
      forall i, j | 0 <= i < j < |r|
        ensures le(r[i], r[j])
      {
        if i > 0 {
          assert r[i] == rest[i - 1] && r[j] == rest[j - 1];
        } else {
          assert r[j] == rest[j - 1];
        }
      }
    }
  }

  /** One step of the insertion sort: the sorted prefix grows by the next point. */
  lemma InsertStep(s: seq<EnvelopePoint>, i: int, sorted: seq<EnvelopePoint>, le: (EnvelopePoint, EnvelopePoint) -> bool)
    requires TotalPreorder(le) && SortedBy(sorted, le)
    requires 0 <= i < |s| && multiset(sorted) == multiset(s[..i])
    ensures SortedBy(Insert(s[i], sorted, le), le)
    ensures multiset(Insert(s[i], sorted, le)) == multiset(s[..i + 1])
  {
    InsertSorted(s[i], sorted, le);
    assert s[..i + 1] == s[..i] + [s[i]];
  }

  // ---------------------------------------------------------------------
  // CEnvelopePointAccess: read access to the point list for the envelope
  // evaluator.

  /** CEnvelopePointAccess::NumPoints. */
  function NumPoints(points: seq<EnvelopePoint>): (r: int)
    ensures r >= 0
    ensures r == |points|
  {
    |points|
  }

  /** CEnvelopePointAccess::GetPoint: the keyframe at index, none out of range. */
  function GetPoint(points: seq<EnvelopePoint>, index: int): (r: Option<EnvPoint>)
    ensures r.None? <==> index < 0 || index >= NumPoints(points)
    ensures r.Some? ==> r.value == points[index].point
  {
    if index < 0 || index >= |points| then None else Some(points[index].point)
  }

  /** CEnvelopePointAccess::GetBezier: the bezier handles at index, none out of range. */
  function GetBezier(points: seq<EnvelopePoint>, index: int): (r: Option<Bezier>)
    ensures r.None? <==> index < 0 || index >= NumPoints(points)
    ensures r.Some? ==> r.value == points[index].bezier
  {
    if index < 0 || index >= |points| then None else Some(points[index].bezier)
  }

  /**
   * The two accessors agree on which indices exist, and together give back
   * the stored point.
   */
  lemma AccessorsAgree(points: seq<EnvelopePoint>, index: int)
    ensures GetPoint(points, index).Some? <==> GetBezier(points, index).Some?
    ensures GetPoint(points, index).Some? ==>
      EnvelopePoint(GetPoint(points, index).value, GetBezier(points, index).value) == points[index]
  {
  }

  /** CEnvelope. */
  class Envelope {
    var points: seq<EnvelopePoint>
    var kind: EnvelopeType

    /** CEnvelope(EType): an empty envelope of the given type. */
    constructor OfType(t: EnvelopeType)
      ensures kind == t && points == []
    {
      kind := t;
      points := [];
    }

    /**
     * CEnvelope(int): an empty envelope of the type with NumChannels
     * channels; any other count is an assertion failure.
     */
    constructor (numChannels: int)
      requires numChannels == 1 || numChannels == 3 || numChannels == 4
      ensures GetChannels() == numChannels && points == []
      ensures TypeForChannels(numChannels) == Some(kind)
    {
      points := [];
      if numChannels == 1 {
        kind := Sound;
      } else if numChannels == 3 {
        kind := Position;
      } else {
        kind := Color;
      }
    }

    /** CEnvelope::GetChannels: the channel count of the type; the type is recovered from it. */
    function GetChannels(): (r: int)
      reads this
      ensures r == 1 || r == 3 || r == 4
      ensures TypeForChannels(r) == Some(kind)
    {
      match kind
      case Position => 3
      case Color => 4
      case Sound => 1
    }

    /**
     * CEnvelope::EndTime: 0 for an empty envelope, otherwise the time of the
     * last stored point.
     */
    function EndTime(): (r: int)
      reads this
      ensures |points| == 0 ==> r == 0
      ensures |points| > 0 ==> r == points[|points| - 1].point.time
      ensures r == 0 || exists i :: 0 <= i < |points| && points[i].point.time == r
    {
      if |points| == 0 then 0 else points[|points| - 1].point.time
    }

    /** CEnvelope::Resort: sort the points under the point order. */
    method Resort(le: (EnvelopePoint, EnvelopePoint) -> bool)
      requires TotalPreorder(le)
      modifies this
      ensures SortedBy(points, le)
      ensures multiset(points) == multiset(old(points))
      ensures kind == old(kind)
    {
      var unsorted := points;
      var sorted: seq<EnvelopePoint> := [];
      var i := 0;
      while i < |unsorted|
        invariant 0 <= i <= |unsorted|
        invariant SortedBy(sorted, le)
        invariant multiset(sorted) == multiset(unsorted[..i])
        invariant kind == old(kind)
      {
        InsertStep(unsorted, i, sorted, le);
        sorted := Insert(unsorted[i], sorted, le);
        i := i + 1;
      }
      assert unsorted[..i] == unsorted;
      points := sorted;
    }

    /**
     * CEnvelope::AddPoint: append a linear point with the given time and
     * values and zero tangents, then re-sort. The envelope gains exactly
     * that point and ends up sorted.
     */
    method AddPoint(le: (EnvelopePoint, EnvelopePoint) -> bool, time: int, v0: int, v1: int := 0, v2: int := 0, v3: int := 0)
      requires TotalPreorder(le)
      modifies this
      ensures |points| == |old(points)| + 1
      ensures multiset(points) == multiset(old(points)) + multiset{NewPoint(time, v0, v1, v2, v3)}
      ensures NewPoint(time, v0, v1, v2, v3) in points
      ensures SortedBy(points, le)
      ensures kind == old(kind)
    {
      var p := NewPoint(time, v0, v1, v2, v3);
      points := points + [p];
      Resort(le);
      assert p in multiset(points);
    }
  }

  /**
   * With an order that never puts a later time first, the end time of a
   * sorted envelope is the latest time it stores.
   */
  lemma EndTimeIsLatest(e: Envelope, le: (EnvelopePoint, EnvelopePoint) -> bool)
    requires SortedBy(e.points, le)
    requires forall a, b :: le(a, b) ==> a.point.time <= b.point.time
    ensures forall i :: 0 <= i < |e.points| ==> e.points[i].point.time <= e.EndTime()
  {
    forall i | 0 <= i < |e.points|
      ensures e.points[i].point.time <= e.EndTime()
    {
      if i < |e.points| - 1 {
        assert le(e.points[i], e.points[|e.points| - 1]);
      }
    }
  }

  /** Distinct valid channel counts name distinct envelope types. */
  lemma ChannelsInjective(n1: int, n2: int)
    requires TypeForChannels(n1).Some? && TypeForChannels(n1) == TypeForChannels(n2)
    ensures n1 == n2
  {
  }

  /**
   * GetChannels is the one channel count that names the envelope's type:
   * constructing from a count and reading the count back are inverse.
   */
  lemma ChannelsRoundTrip(e: Envelope, n: int)
    ensures TypeForChannels(n) == Some(e.kind) <==> n == e.GetChannels()
  {
    if TypeForChannels(n) == Some(e.kind) {
      ChannelsInjective(n, e.GetChannels());
    }
  }
}
