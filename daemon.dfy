/**
 * One pass of the main loop of athan_automation.py: reload the settings,
 * pick the next row of the prayer-times table, sleep until shortly before
 * it, reload again, choose the device and the audio file, cast, and pause.
 * Everything the pass reads from outside (the settings file, the table,
 * the clock, the audio folders, the tags, the device) is a `World` input.
 */
module Daemon {
  import opened Wrappers
  import opened Settings
  import opened Schedule
  import opened Casting

  /** The pause after an announcement, so that the same row is not picked again. */
  const COOLDOWN: nat := 180

  /** What one pass reads from outside. */
  datatype World = World(
    before: ReloadProbe,                           // the settings file when the pass starts
    readTable: string -> Option<seq<Entry>>,       // the table at a path; None when reading fails
    now: int,                                      // the clock when the table is read
    wake: ReloadProbe,                             // the settings file after the sleep
    listdir: string -> Option<seq<string>>,        // the audio folders
    readTags: string -> Option<Tags>,              // the ID3 tags of a local file
    dev: DeviceScript)                             // what the device answers

  /** How a pass ends. */
  datatype Cycle =
    | Finished                                     // no upcoming row: the loop stops
    | Skipped(entry: Entry)                        // no audio file: straight to the next pass
    | Announced(entry: Entry, device: string, url: string, outcome: SessionOutcome)

  /** The sleep of `wait_until_next_prayer`, if any. */
  function WaitActions(e: Entry, now: int): (acts: seq<Action>)
    ensures |acts| <= 1
    ensures acts == [] <==> WaitFor(e.time, e.name, e.month, now) == AlreadyPassed
  {
    match WaitFor(e.time, e.name, e.month, now)
    case SleepFor(s) => [Sleep(s)]
    case AlreadyPassed => []
  }

  /**
   * What a pass may do from settings state `s0` in world `w`: `cycle`,
   * `trace` and the final settings state `s`. The choice of the audio file
   * is free among the listed files.
   */
  ghost predicate CycleAllows(s0: ReloadState, w: World, cycle: Cycle, trace: seq<Action>, s: ReloadState) {
    var s1 := ReloadStep(s0, w.before);
    match NextPrayer(w.readTable(s1.config.prayerTimesFile), w.now)
    case None => cycle == Finished && trace == [] && s == s1
    case Some(e) =>
      var s2 := ReloadStep(s1, w.wake);
      var cfg := s2.config;
      var c := CategoryOf(e.name, e.month);
      var listing := w.listdir(FolderPath(cfg, c));
      s == s2
      && if listing.None? || listing.value == [] then
        cycle == Skipped(e) && trace == WaitActions(e, w.now)
      else
        cycle.Announced? && cycle.entry == e && cycle.device == DeviceFor(cfg, e.name, e.month)
        && (exists file :: file in listing.value && cycle.url == AudioUrl(cfg.baseUrl, c, file))
        && var session := Session(cfg, cycle.url, cycle.device, e.name, w.readTags, w.dev);
        cycle.outcome == session.outcome
        && trace == WaitActions(e, w.now) + session.trace + [Sleep(COOLDOWN)]
  }

  /** One pass of the `while True` loop, with no exception escaping to its handler. */
  method RunCycle(st: ConfigState, w: World) returns (cycle: Cycle, trace: seq<Action>)
    modifies st
    ensures CycleAllows(old(st.State()), w, cycle, trace, st.State())
  {
    st.CheckAndReload(w.before);
    var next := NextPrayer(w.readTable(st.config.prayerTimesFile), w.now);
    if next.None? {
      return Finished, [];
    }
    var e := next.value;
    trace := WaitActions(e, w.now);
    st.CheckAndReload(w.wake);
    var cfg := st.config;
    var device := DeviceFor(cfg, e.name, e.month);
    var url := SelectAudio(cfg, e.name, e.month, w.listdir);
    if url.None? {
      return Skipped(e), trace;
    }
    var outcome, session := CastAnnouncement(cfg, url.value, device, e.name, w.readTags, w.dev);
    trace := trace + session + [Sleep(COOLDOWN)];
    cycle := Announced(e, device, url.value, outcome);
  }

  /**
   * An announced pass uses the settings read after waking: the iftar device
   * exactly for the Ramadan Maghrib, and a file of the folder its category
   * names.
   */
  lemma AnnouncedChoices(s0: ReloadState, w: World, cycle: Cycle, trace: seq<Action>, s: ReloadState)
    requires CycleAllows(s0, w, cycle, trace, s) && cycle.Announced?
    ensures var e := cycle.entry;
      (cycle.device == s.config.iftarDevice || cycle.device == s.config.athanDevice)
      && (CategoryOf(e.name, e.month) == IftarAudio ==> cycle.device == s.config.iftarDevice)
      && (CategoryOf(e.name, e.month) != IftarAudio ==> cycle.device == s.config.athanDevice)
      && exists file :: file in w.listdir(FolderPath(s.config, CategoryOf(e.name, e.month))).value
           && cycle.url == AudioUrl(s.config.baseUrl, CategoryOf(e.name, e.month), file)
  {
    IftarChoicesAgree(s.config, cycle.entry.name, cycle.entry.month);
  }

  /** A pass with no audio file sends nothing to a device: at most the wait's sleep. */
  lemma SkippedCastsNothing(s0: ReloadState, w: World, cycle: Cycle, trace: seq<Action>, s: ReloadState)
    requires CycleAllows(s0, w, cycle, trace, s) && cycle.Skipped?
    ensures |trace| <= 1 && forall a :: a in trace ==> a.Sleep?
  {
  }

  /**
   * While the clock has not reached the chosen row's time, the same row is
   * chosen again: a skipped pass is followed by passes for the same prayer
   * until its time has come.
   */
  lemma NextPrayerStable(rows: seq<Entry>, now: int, later: int)
    requires NextPrayer(Some(rows), now).Some?
    requires now <= later < NextPrayer(Some(rows), now).value.time
    ensures NextPrayer(Some(rows), later) == NextPrayer(Some(rows), now)
  {
    NextPrayerIsFirstUpcoming(rows, now);
    NextPrayerIsFirstUpcoming(rows, later);
    var k :| 0 <= k < |rows| && rows[k] == NextPrayer(Some(rows), now).value
      && rows[k].time > now && forall j :: 0 <= j < k ==> rows[j].time <= now;
    var m :| 0 <= m < |rows| && rows[m] == NextPrayer(Some(rows), later).value
      && rows[m].time > later && forall j :: 0 <= j < m ==> rows[j].time <= later;
    assert !(m < k);
    assert !(k < m);
  }

  /**
   * The pause outlasts every lead-in: a pass that woke for row `e` and then
   * paused next chooses a row strictly later than `e`, so no prayer is
   * announced twice.
   */
  lemma NoRepeatAfterCooldown(rows: seq<Entry>, now: int, woke: int, later: int)
    requires NextPrayer(Some(rows), now).Some?
    requires var e := NextPrayer(Some(rows), now).value;
      woke >= e.time - LeadIn(e.name, e.month)
    requires later >= woke + COOLDOWN
    ensures NextPrayer(Some(rows), later).Some? ==>
      NextPrayer(Some(rows), later).value.time > NextPrayer(Some(rows), now).value.time
  {
    var e := NextPrayer(Some(rows), now).value;
    assert LeadIn(e.name, e.month) < COOLDOWN;
    NextPrayerIsFirstUpcoming(rows, later);
  }

  /** The pass wakes no earlier than the lead-in before the row's time, whether it slept or not. */
  lemma WakeTime(e: Entry, now: int)
    ensures now + (if WaitActions(e, now) == [] then 0 else WaitActions(e, now)[0].seconds)
      >= e.time - LeadIn(e.name, e.month)
  {
  }
}
