# Athan automation — a Dafny model

The athan automation daemon reads a table of prayer times. It sleeps until
shortly before the next prayer. Then it picks an audio file at random from
the folder for that prayer and casts the file to a Google Cast speaker. The
table comes from a companion generator script. That script asks for a
location, a calculation method and a date range, and writes one row per
prayer per day.

This project models the decisions both programs make. It does not model
the libraries they call.

- `Wrappers` (`wrappers.dfy`): the `Option` type.
- `Text` (`text.dfy`): the parts of Python's `str` the programs rely on:
  `lower()`, `in`, `replace()`, `split(':')`, `int()` on a string and
  `%02d`. It also proves the round trip `int(str(i)) == i`.
- `Settings` (`settings.dfy`): the configuration, the reload decision
  `check_and_reload_config` as a pure step function, and a `ConfigState`
  class holding the module globals that the reload updates in place.
- `Schedule` (`schedule.dfy`):
  - the next table row (`get_next_prayer_time`);
  - the folder, device, volume and lead-in choices for a prayer;
  - the sleep of `wait_until_next_prayer`;
  - the random file choice (`get_random_athan_file`);
  - the artwork choice and the ID3 metadata defaults.
- `Casting` (`casting.dfy`): `cast_announcement_and_athan` as a method. It
  runs against a scripted device, which answers each discovery, idle check,
  play attempt and status poll. The method returns the sequence of actions
  it performs, and it is proved equal to the specification function
  `Session`.
- `SessionProperties` (`session_properties.dfy`): what every session does.
  This covers the discovery retries, the volume, the abandoned playback, the
  completion rule and the disconnect.
- `PrayerTable` (`prayer_table.dfy`): the generator:
  - the menu-choice rule of `get_choice_input`;
  - `get_hijri_month_name`;
  - the `HH:MM:00` time formatting;
  - the loop that builds the rows, proved equal to the function `Table`.
- `Daemon` (`daemon.dfy`): one pass of the main `while True` loop. It
  reloads the settings, picks the next row, waits, reloads again, picks the
  device and the file, casts and pauses. It also proves that the 180-second
  pause keeps a prayer from being announced twice.

Behaviours a reader of the code may not expect, each stated by a lemma:

- The next prayer is the first later row in table order, not the earliest
  later row. The two agree on a table sorted by time
  (`NextPrayerEarliestWhenSorted`), but not otherwise
  (`NextPrayerKeepsTableOrder`).
- The completion wait counts non-playing polls cumulatively. A `PLAYING`
  poll between two of them does not reset the count (`PlayingDoesNotReset`,
  `NonConsecutiveExit`).
- The generator writes a header row (`Prayer Name`, `Time and Date`,
  `Month`), although the comment beside its CSV writer at
  `tools/prayer_times_python.py:190` says there is none. The
  daemon's table reader at `athan_automation.py:288` needs that header.
- Fajr uses the fajr folder, the athan device and the fajr volume, Ramadan
  or not (`FajrInRamadan`).
- The artwork test is a substring test on the whole URL. A file named
  `iftar_dua.mp3` in the ordinary prayer folder also gets the iftar artwork
  (`IftarArtBeyondIftarFolder`).
- At start-up, logging reaches LOG_FILE only if loading the settings logs
  no warning. A missing prayer times file makes `logging` fall back to
  standard error at WARNING level, and the later `basicConfig` has no
  effect (`StartupLogging`). Logging stays on standard error until a
  reload names a different LOG_FILE and opening it succeeds
  (`ReloadLoggingOnlyOnNewLogFile`).
- When the folder is empty, the pass is skipped and the loop starts again
  immediately. It chooses the same row until that row's time has passed
  (`NextPrayerStable`).

Clock readings, directory listings, the settings file's modification time
and contents, the ID3 tags, and every answer of the speaker are inputs
(`World`, `DeviceScript`, `ReloadProbe`). Sleeping is recorded as a
`Sleep(seconds)` action in the trace rather than performed.

## Model

| member | source | states |
|---|---|---|
| Text.ParseShowInt | tools/prayer_times_python.py:176-177 | `int()` reads back every integer that `str()` writes |
| Settings.ReloadSkipped | athan_automation.py:77-82 | a missing config file, an unchanged mtime or a failing load leaves the whole state unchanged |
| Settings.ReloadIsAtomic | athan_automation.py:82-92 | config and mtime are replaced together by what `load_config` returned, exactly when the file changed, loaded, and any needed logging re-setup succeeded; otherwise both stay |
| Settings.ReloadLoggingOnlyOnNewLogFile | athan_automation.py:85-92 | the logging target and level change only when the reload goes ahead with a different LOG_FILE; logging then goes to the new file with INFO enabled when `setup_logging` opens it, and otherwise to standard error, where the error report of line 92 installs a handler, with the level unchanged |
| Settings.ReloadIdempotent | athan_automation.py:77-92 | a second reload with the same file changes nothing once the first recorded its mtime |
| Settings.ConfigState.constructor | athan_automation.py:46-75 | the start-up globals are `StartState` of the loaded settings and of whether `load_config` logged a warning |
| Settings.StartupLogging | athan_automation.py:46-75 | at start-up the loaded config and mtime are kept; logging goes to LOG_FILE with INFO enabled iff `load_config` logged no warning, and otherwise to standard error at WARNING level, since the first warning installed a handler and `basicConfig` without `force` then changes nothing |
| Settings.ConfigState.CheckAndReload | athan_automation.py:77-92 | the globals after `check_and_reload_config` are the reload step applied to the globals before |
| Schedule.NextPrayerIsFirstUpcoming | athan_automation.py:283-298 | the returned row lies after `now` and every earlier row in the table does not; None iff no row lies after `now` |
| Schedule.NextPrayerUnreadable | athan_automation.py:299-301 | an unreadable table yields no next prayer |
| Schedule.NextPrayerEarliestWhenSorted | athan_automation.py:289-295 | on a table sorted by time, the returned row is the earliest row after `now` |
| Schedule.NextPrayerKeepsTableOrder | athan_automation.py:292-295 | on an unsorted table, the first later row in table order is returned even when a later row in the table is earlier in time |
| Schedule.CategoryOf | athan_automation.py:127-135 | the fajr folder iff the lowered name is "fajr"; the iftar folder iff the name is "maghrib" in Ramadan; the prayer folder otherwise |
| Schedule.IftarChoicesAgree | athan_automation.py:228 | the iftar folder, the iftar device (line 328) and the 150 s lead-in (lines 307-308) go together; the fajr volume goes with the fajr folder |
| Schedule.FajrInRamadan | athan_automation.py:130-131 | Fajr in Ramadan keeps the fajr folder, the athan device, the fajr volume and the 3 s lead-in |
| Schedule.ScenarioDecisions | athan_automation.py:307-328 | the choices for the table's own spellings "Fajr" and "Maghrib" |
| Schedule.WaitFor | athan_automation.py:303-317 | it sleeps iff the lead-in point is still ahead, and then it wakes exactly at that point |
| Schedule.WaitWakesBeforeTarget | athan_automation.py:307-315 | a wait that sleeps wakes strictly before the prayer time, and for a Ramadan Maghrib it wakes 147 s earlier than the same Maghrib outside Ramadan |
| Schedule.SelectAudio | athan_automation.py:123-146 | None iff the category's folder cannot be listed or is empty; otherwise the URL `base/folder/file` of some listed file |
| Schedule.IftarAudioGetsIftarArt | athan_automation.py:174-177 | a file from the iftar folder always gets the iftar artwork |
| Schedule.IftarArtBeyondIftarFolder | athan_automation.py:174-177 | a prayer-folder file whose name contains "iftar" also gets the iftar artwork |
| Schedule.Id3Metadata | athan_automation.py:148-161 | the result is `{}` iff the file cannot be read or some tag is present with an empty list; otherwise it has exactly the keys title, artist and album, whose values `Id3MetadataValues` states |
| Schedule.Id3MetadataValues | athan_automation.py:153-157 | when the result is not `{}`, each of title, artist and album is the tag's first value or, when the tag is absent, its own "Unknown …" default |
| Schedule.MetadataDefaults | athan_automation.py:153-156 | unreadable file: "Athan" / "Unknown Reciter" / "Islamic Prayers"; readable file with no tags: "Unknown Title" / "Unknown Artist" / "Unknown Album"; all three tags present and non-empty: their first values (lines 231-237) |
| Schedule.MetadataPerTag | athan_automation.py:148-161 | for every input: an unreadable file or any empty tag list gives the cast defaults in every field, even for tags that were read (lines 235-237); otherwise each field is its tag's first value or that tag's own "Unknown …" default |
| Schedule.MetadataMixedTags | athan_automation.py:153-156 | title "T", no artist, album "B" is cast as "T" / "Unknown Artist" / "B"; the same with an empty artist list is cast as "Athan" / "Unknown Reciter" / "Islamic Prayers" |
| Schedule.LocalPathOfAudio | athan_automation.py:171 | the tags of a selected file are read at `/var/www/html/athan/<folder>/<file>`, with the folder named in its URL, whatever local folders the settings name, when the rest of the URL does not contain the base URL |
| Casting.SucceededIff | athan_automation.py:184-199 | a bounded retry succeeds iff one of its tries would; it makes all tries when none does and stops at the first that does |
| Casting.BoundedRetry | athan_automation.py:184-199 | the discovery loop's result is that success, and its actions are the attempts made with a sleep between consecutive ones |
| Casting.AwaitIdle | athan_automation.py:214-223 | the one-second idle checks stop at the first idle answer or after 30 seconds |
| Casting.ExitFrom | athan_automation.py:261-270 | the poll found is after the current one and is where the second non-playing status is seen; none means fewer than two are seen |
| Casting.AwaitCompletion | athan_automation.py:261-270 | the polling loop finishes iff two non-playing polls occur, after exactly the polls up to the second one; otherwise the poll beyond the script raises |
| Casting.CastAnnouncement | athan_automation.py:164-280 | the whole session: its outcome and its action trace are those of `Session` |
| SessionProperties.ExitPollIff | athan_automation.py:262-270 | the wait ends iff at least two polls report a non-playing status, and then at the second one |
| SessionProperties.ExitPollUnique | athan_automation.py:267-270 | only one poll can be the one where the wait ends |
| SessionProperties.PlayingDoesNotReset | athan_automation.py:265-268 | a run of PLAYING polls after the first non-playing one does not reset the count |
| SessionProperties.NonConsecutiveExit | athan_automation.py:265-268 | PAUSED, PLAYING, IDLE ends the wait at the third poll |
| SessionProperties.DeviceNotFoundAfterThreeAttempts | athan_automation.py:184-199 | when no discovery finds the device, the session is exactly three discoveries with a 5 s sleep between them, and nothing is sent to any device |
| SessionProperties.DiscoveryStopsAtFirstSuccess | athan_automation.py:184-190 | the session starts with discoveries up to the first success and never discovers again |
| SessionProperties.VolumeByPrayer | athan_automation.py:228-229 | once the device is found, the volume is set; it is always the fajr level for Fajr and the standard level otherwise |
| SessionProperties.PlaybackFailureAbandons | athan_automation.py:242-257 | three failed play attempts end the session with no status poll, no quit and no disconnect |
| SessionProperties.PreemptSleeps | athan_automation.py:209-223 | only a known streaming app is stopped, and the idle wait after it sleeps at most 30 times |
| SessionProperties.CompletionAtSecondInactivePoll | athan_automation.py:258-278 | the session completes iff the device is found, playback starts and two non-playing polls occur; it polls exactly up to the second of them and ends with the disconnect |
| SessionProperties.TeardownQuitsOnlyDefaultReceiver | athan_automation.py:272-277 | a completed session ends with a disconnect, and the action before it is the quit of the app exactly when the device's display name is "Default Media Receiver" |
| SessionProperties.DisconnectOnlyOnCompletion | athan_automation.py:271-278 | the device is disconnected iff the session completed |
| SessionProperties.IdleWaitBounded | athan_automation.py:209-223 | a session sleeps one second at most 30 times, and only after stopping a streaming app |
| PrayerTable.ChoiceInput | tools/prayer_times_python.py:40-53 | the choice is the first reply that parses to 1..len(options), minus one; all earlier replies were refused; None iff no reply is accepted |
| PrayerTable.HijriMonthName | tools/prayer_times_python.py:56-66 | the name is "Ramadan" iff the month is the ninth |
| PrayerTable.HijriMonthNamesDistinct | tools/prayer_times_python.py:58-62 | different months have different names |
| PrayerTable.TimestampShape | tools/prayer_times_python.py:164-181 | every time stamp starts with the date and a space and ends in `:00` |
| PrayerTable.ClockFieldPads | tools/prayer_times_python.py:173-179 | a time whose first two ':' fields are decimal numerals, padded or not, possibly with more fields after them, becomes `HH:MM:00` with both values zero-padded |
| PrayerTable.ClockFieldKeepsTwoDigits | tools/prayer_times_python.py:172-179 | an already zero-padded 24-hour `HH:MM` time is kept as it is, with `:00` appended |
| PrayerTable.ClockFieldOfPaddedTime | tools/prayer_times_python.py:172-179 | "05:07" becomes "05:07:00" |
| PrayerTable.PaddedIsClock | tools/prayer_times_python.py:179 | the padded field is two-digit hours and minutes that read back as `h` and `m`, then `:00` |
| PrayerTable.ClockFieldFallback | tools/prayer_times_python.py:180-181 | a time without ':' has no second field (`time_parts[1]` raises IndexError, or `int()` already fails on the first), so the bare `except` keeps it with `:00` appended |
| PrayerTable.ClockFieldOfInvalidTime | tools/prayer_times_python.py:180-181 | the "-----" placeholder for an uncomputable time becomes "-----:00" |
| PrayerTable.AppendDayRows | tools/prayer_times_python.py:167-183 | the inner loop appends exactly the day's five rows |
| PrayerTable.AppendPrayerRows | tools/prayer_times_python.py:170-183 | the `zip` loop over names and times appends one row per prayer, in order, each with the date, that prayer's formatted time and the month |
| PrayerTable.BuildRows | tools/prayer_times_python.py:116-185 | the rows built by the date loop are `Table`: none when the end date precedes the start, otherwise the header and then each day's rows in order |
| PrayerTable.TableLength | tools/prayer_times_python.py:116-185 | no table iff the end precedes the start; otherwise 1 + 5 × days rows |
| PrayerTable.TableRow | tools/prayer_times_python.py:145-183 | row 0 is the header; row 1 + 5d + i has prayer name i, the day's Hijri month, and the day's date with prayer i's formatted time |
| PrayerTable.TableCategories | tools/prayer_times_python.py:167-183 | in the generated table, the daemon's iftar choice applies exactly to the Maghrib rows of Ramadan days and the fajr choice exactly to the Fajr rows (athan_automation.py:127-133) |
| PrayerTable.LowerPrayerNames | tools/prayer_times_python.py:168 | of the generated names, only "Fajr" lowers to "fajr" and only "Maghrib" to "maghrib" |
| Daemon.WaitActions | athan_automation.py:314-317 | a pass sleeps at most once, and does not sleep iff the prayer's lead-in point has passed |
| Daemon.RunCycle | athan_automation.py:319-345 | one pass: the reloads, the row, the wait, the device, the file, the session and the 180 s pause, as `CycleAllows` relates them to the settings state before and after |
| Daemon.AnnouncedChoices | athan_automation.py:322-337 | an announced pass uses the settings read after waking: the iftar device exactly for a Ramadan Maghrib, and a file listed in the category's folder |
| Daemon.SkippedCastsNothing | athan_automation.py:331-333 | a pass with no audio file does nothing but the wait |
| Daemon.NextPrayerStable | athan_automation.py:319-333 | until the chosen row's time comes, every later pass chooses the same row |
| Daemon.NoRepeatAfterCooldown | athan_automation.py:340-343 | after the wake-up and the 180 s pause, the next chosen row is strictly later than the announced one |
| Daemon.WakeTime | athan_automation.py:303-317 | a pass wakes no earlier than the lead-in before the prayer, whether it slept or not |
| Schedule.NextPrayer | athan_automation.py:283-301 | definition of `get_next_prayer_time` (the first row after `now`, None when unreadable or none is later); its properties are the `NextPrayer…` lemmas |
| Settings.StartState | athan_automation.py:46-75 | definition of the start-up globals and logging target; stated by `StartupLogging` |
| Settings.ReloadStep | athan_automation.py:77-92 | definition of the reload decision of `check_and_reload_config`; its properties are the `Reload…` lemmas |
| Schedule.DeviceFor | athan_automation.py:328 | definition of the device choice; stated by `IftarChoicesAgree` and `AnnouncedChoices` |
| Schedule.VolumeFor | athan_automation.py:228 | definition of the volume choice; stated by `IftarChoicesAgree` and `VolumeByPrayer` |
| Schedule.LeadIn | athan_automation.py:307-311 | definition of the lead-in, 150 s for a Ramadan Maghrib and 3 s otherwise; stated by `IftarChoicesAgree` and `WaitWakesBeforeTarget` |
| Schedule.ThumbnailFor | athan_automation.py:174-177 | definition of the artwork choice; stated by `IftarAudioGetsIftarArt` and `IftarArtBeyondIftarFolder` |
| Schedule.LocalPath | athan_automation.py:171 | definition of the URL-to-path rewrite; stated by `LocalPathOfAudio` |
| Schedule.CastMetadata | athan_automation.py:232-239 | definition of the `media_metadata` dictionary; stated by `MetadataPerTag` |
| Casting.Session | athan_automation.py:164-280 | definition of a whole session (outcome and action trace); implemented by `CastAnnouncement` and stated by the `SessionProperties` lemmas |
| Casting.Teardown | athan_automation.py:271-277 | definition of the closing actions: quit only on the Default Media Receiver, then disconnect; stated by `TeardownQuitsOnlyDefaultReceiver` |
| PrayerTable.ClockField | tools/prayer_times_python.py:173-181 | definition of the time formatting with its fallback; stated by the `ClockField…` lemmas and `TimestampShape` |
| PrayerTable.Table | tools/prayer_times_python.py:116-185 | definition of the rows `main` builds; implemented by `BuildRows` and stated by `TableLength`, `TableRow` and `TableCategories` |
| Daemon.CycleAllows | athan_automation.py:319-345 | definition of what one pass of the main loop may do; established by `RunCycle` and stated by the other `Daemon` lemmas |

## Left out

- The Google Cast protocol: zeroconf, `get_listed_chromecasts`, `cast.wait`, `stop_discovery`, `zconf.close`. Each device answer is an input of `DeviceScript`.
- Exceptions raised by `set_volume`, `quit_app`, `wait` and `disconnect`; the model assumes these calls succeed.
- The unbounded polling loop. The script of player states is finite; a poll beyond it stands for `update_status` raising, and it ends the session as `StatusLost`.
- Volume levels are opaque values. The config defaults of `load_config`, and the failure of `expanduser(None)` for a missing key, are not modelled; a load is an input that either yields a config or fails.
- The text of log messages and the rotating handler's size and backups. Only where logging writes and whether INFO gets through are modelled. Whether the start-up load logs a warning is an input of the constructor.
- The outer loop's exception handlers and their 60-second back-off.
- Daemon.RunCycle: reads the clock once per pass, and the iteration of the `while True` loop is not modelled. Consecutive passes are related by the lemmas over `NextPrayer`.
- Text.ParseInt: leaves out non-ASCII digits and whitespace, and underscores between digits. Text.Lower lowers only ASCII letters.
- The prayer-time astronomy (the PrayTimes library), the Gregorian-to-Hijri conversion (hijridate) and the timezone offset (`get_timezone_offset`). The calendar is an input that gives each day's date, times and Hijri month number.
- `get_float_input` and `get_date_input`, the method parameter table and `pt.adjust`, the CSV writer, and the printed messages of `main`.
- PrayerTable.ChoiceInput: the replies are a finite list. When every reply is refused, the model stops where the program would keep prompting.
- Dates are day numbers and times are whole seconds. pandas' date parsing of the table is not modelled; a table that cannot be read is `None`.
