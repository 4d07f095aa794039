/**
 * The client-side auto-sync throttle: sync when the user has never synced, or
 * when at least the interval has passed since the last sync.
 */
module AutoSync {

  /** `last_sync_at` as the throttle sees it: absent (null or ""), a parsed
      instant in milliseconds, or a string `Date` cannot parse (NaN). */
  datatype LastSync = Never | At(ms: int) | Unparseable

  const DefaultIntervalMinutes: int := 60
  const MsPerMinute: int := 1000 * 60

  /** `shouldAutoSync(lastSyncAt, intervalMinutes)` with the clock read as `nowMs`:
      the elapsed time, in fractional minutes, is compared with the interval. */
  function ShouldAutoSync(last: LastSync, nowMs: int, intervalMinutes: int): bool {
    match last
    case Never => true
    case Unparseable => false
    case At(t) => (nowMs - t) as real / MsPerMinute as real >= intervalMinutes as real
  }

  /** The fractional-minute comparison is the same as comparing milliseconds:
      the throttle opens exactly when `interval * 60000` ms have elapsed. */
  lemma ShouldAutoSyncIff(t: int, nowMs: int, intervalMinutes: int)
    ensures ShouldAutoSync(At(t), nowMs, intervalMinutes) <==> nowMs - t >= intervalMinutes * 60000
  {
    var d := (nowMs - t) as real;
    var i := intervalMinutes as real;
    assert d / 60000.0 >= i <==> d >= i * 60000.0;
  }

  /** A user who never synced is always due; an unparseable timestamp never is. */
  lemma NeverAndUnparseable(nowMs: int, intervalMinutes: int)
    ensures ShouldAutoSync(Never, nowMs, intervalMinutes)
    ensures !ShouldAutoSync(Unparseable, nowMs, intervalMinutes)
  {
  }

  /** Once due, a sync stays due as time passes. */
  lemma DueIsMonotone(t: int, now1: int, now2: int, intervalMinutes: int)
    requires now1 <= now2
    requires ShouldAutoSync(At(t), now1, intervalMinutes)
    ensures ShouldAutoSync(At(t), now2, intervalMinutes)
  {
    ShouldAutoSyncIff(t, now1, intervalMinutes);
    ShouldAutoSyncIff(t, now2, intervalMinutes);
  }

  /** A last sync stamped in the future (a clock that moved back) is never
      due, whatever the positive interval. */
  lemma FutureNeverDue(t: int, nowMs: int, intervalMinutes: int)
    requires nowMs < t && intervalMinutes > 0
    ensures !ShouldAutoSync(At(t), nowMs, intervalMinutes)
  {
    ShouldAutoSyncIff(t, nowMs, intervalMinutes);
  }

  /** With the default hour, a sync 59 minutes ago is not due and one 60
      minutes ago is; a last sync in the future is never due. */
  lemma DefaultHour(t: int)
    ensures !ShouldAutoSync(At(t), t + 59 * 60000, DefaultIntervalMinutes)
    ensures ShouldAutoSync(At(t), t + 60 * 60000, DefaultIntervalMinutes)
    ensures forall now :: now < t ==> !ShouldAutoSync(At(t), now, DefaultIntervalMinutes)
  {
    ShouldAutoSyncIff(t, t + 59 * 60000, DefaultIntervalMinutes);
    ShouldAutoSyncIff(t, t + 60 * 60000, DefaultIntervalMinutes);
    forall now | now < t
      ensures !ShouldAutoSync(At(t), now, DefaultIntervalMinutes)
    {
      FutureNeverDue(t, now, DefaultIntervalMinutes);
    }
  }
}
