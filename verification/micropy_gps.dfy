/**
 * The NMEA sentence decoder the log reader drives (a MicropyGPS object).
 * Its code is not part of this model: the decoder is a value of type GpsState
 * advanced one character at a time by a caller-supplied step function, so every
 * property proved about the reader and the aggregator holds for any decoder.
 * GpsState carries the fields of the decoder object that the aggregator reads.
 */
module MicropyGps {
  import opened Wrappers

  /** The decoder's `timestamp`, `[hours, minutes, seconds]` of UTC time of day. */
  datatype Timestamp = Timestamp(hour: int, minute: int, second: int)

  /** A latitude or longitude as the decoder keeps it: `[degrees, minutes, hemisphere]`. */
  datatype Angle = Angle(degrees: int, minutes: real, hemisphere: char)

  /** One entry of `satellite_data`: PRN key and `(elevation, azimuth, snr)`, each possibly `None`. */
  datatype Satellite = Satellite(prn: int, elevation: Option<int>, azimuth: Option<int>, snr: Option<real>)

  /**
   * A decoder state. `satelliteData` lists the items of the decoder's satellite
   * dictionary in iteration order; `pending` stands for the decoder's private
   * sentence-in-progress state (buffer, checksum, field index).
   */
  datatype GpsState = GpsState(
    timestamp: Timestamp,
    latitude: Angle,
    longitude: Angle,
    altitude: real,
    hdop: real,
    satellitesInUse: int,
    fixType: int,
    satelliteData: seq<Satellite>,
    pending: seq<char>)

  /** `decoder.update(c)`: consume one character. */
  type Step = (GpsState, char) -> GpsState

  /** The decoder state after `update` has been called on each character of `chars`, in order. */
  function Feed(step: Step, g: GpsState, chars: string): GpsState
  {
    if |chars| == 0 then g else step(Feed(step, g, chars[..|chars| - 1]), chars[|chars| - 1])
  }

  /** Feeding two strings one after the other is feeding their concatenation. */
  lemma {:induction false} FeedAppend(step: Step, g: GpsState, a: string, b: string)
    ensures Feed(step, g, a + b) == Feed(step, Feed(step, g, a), b)
  {
    if |b| > 0 {
      var ab := a + b;
      assert ab[..|ab| - 1] == a + b[..|b| - 1];
      assert ab[|ab| - 1] == b[|b| - 1];
      FeedAppend(step, g, a, b[..|b| - 1]);
    } else {
      assert a + b == a;
    }
  }
}
