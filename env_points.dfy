/**
 * Envelope keyframes as the map format stores them (CEnvPoint and
 * CEnvPointBezier of game/mapitems.h, which is not part of this model):
 * a time in milliseconds, a curve type for the segment that starts at the
 * point, and four fixed-point channel values.
 */
module EnvPoints {

  const CURVETYPE_STEP: int := 0
  const CURVETYPE_LINEAR: int := 1
  const CURVETYPE_SLOW: int := 2
  const CURVETYPE_FAST: int := 3
  const CURVETYPE_SMOOTH: int := 4
  const CURVETYPE_BEZIER: int := 5

  /** CEnvPoint::MAX_CHANNELS. */
  const MAX_CHANNELS: int := 4

  /** One fixed-point value per channel. */
  type Channels = s: seq<int> | |s| == MAX_CHANNELS
    witness [0, 0, 0, 0]

  const ZeroChannels: Channels := [0, 0, 0, 0]

  /** CEnvPoint. */
  datatype EnvPoint = EnvPoint(time: int, curve: int, values: Channels)

  /** CEnvPointBezier: the tangent handles of a bezier segment, per channel. */
  datatype Bezier = Bezier(inTangentDeltaX: Channels, inTangentDeltaY: Channels, outTangentDeltaX: Channels, outTangentDeltaY: Channels)

  const ZeroBezier: Bezier := Bezier(ZeroChannels, ZeroChannels, ZeroChannels, ZeroChannels)

  /** fx2f: a 22.10 fixed-point value as a (real-valued) float. */
  function Fx2f(v: int): real
  {
    v as real / 1024.0
  }
}
