/** From what the schedule editor shows to what the device drives. */
module Pipeline {
  import opened Rounding
  import opened Schedule
  import opened Firmware
  import opened DraftPoints
  import opened Canonical
  import opened CanonicalValues

  /** The percentage a device computes for a minute once the draft is canonicalised and compiled. */
  function DevicePercent(d: Draft, throttle: real, gain: real, minute: int): int
    requires Canonicalises(d)
  {
    ScheduledValue(CompileGraph(CanonicalGraph(d), throttle, gain), minute)
  }

  lemma TimesDifference(x: real, y: real, f: real, bound: real)
    requires 0.0 <= f <= 1.0 && Abs(x - y) <= bound
    ensures Abs(Times(x, f) - Times(y, f)) <= bound
  {
    TimesAbs(x - y, f);
    assert Times(x, f) - Times(y, f) == Times(x - y, f);
  }

  lemma SomeValue(g: Graph, minute: real) returns (percent: real)
    requires Periodic(g) && 0.0 <= minute <= LAST_MINUTE
    ensures HasValue(g, minute, percent) && ValidPercent(percent)
  {
    var i := SomeSegmentCovers(g, minute, |g| - 1);
    InterpolateBetween(g[i], minute);
    percent := Interpolate(g[i], minute);
  }

  /** End to end: the device's percentage stays within the wrap slope plus the compiler's rounding and
      the firmware's truncation of the editor's own reading, scaled by throttle and gain. */
  lemma DeviceTracksDraft(d: Draft, throttle: real, gain: real, minute: int)
    requires ValidPoints(d.points) && Canonicalises(d)
    requires ValidPercent(throttle) && 0.0 <= gain <= 1.0 && 0 <= minute <= 1439
    ensures var o := Curve(Normalize(d.points));
            && Cycle(o)
            && var shown := Times(Reading(d, minute as real), Factor(throttle, gain));
               var drift := if First(o).minute <= minute as real <= Last(o).minute && !Clash(o) then 0.0
                            else Abs(WrapSlope(o));
               shown - drift - 1.5 - SLACK < DevicePercent(d, throttle, gain, minute) as real
                 <= shown + drift + 0.5 + SLACK
  {
    CanonicalGraphIsPeriodic(d);
    var percent := SomeValue(CanonicalGraph(d), minute as real);
    CanonicalTracksDraft(d, minute as real, percent);
    FirmwareTracksSchedule(CanonicalGraph(d), throttle, gain, minute, percent);
    FactorBounds(throttle, gain);
    TimesDifference(percent, Reading(d, minute as real), Factor(throttle, gain),
      Abs(percent - Reading(d, minute as real)));
  }
}
