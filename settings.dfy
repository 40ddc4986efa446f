/**
 * The daemon's configuration and its reload on modification
 * (`load_config`'s result and `check_and_reload_config` in
 * athan_automation.py). Reading the ini file is outside the model: a reload
 * attempt is described by a `ReloadProbe` that says what the file system and
 * `load_config` answered.
 */
module Settings {
  import opened Wrappers

  /** A volume level exactly as configured; it is only ever selected. */
  datatype Volume = Volume(setting: string)

  /** The settings dictionary built by `load_config`. */
  datatype Config = Config(
    fajrFolder: string,
    prayerFolder: string,
    iftarFolder: string,
    prayerTimesFile: string,
    baseUrl: string,
    athanArtUrl: string,
    iftarArtUrl: string,
    athanDevice: string,
    iftarDevice: string,
    logFile: string,
    athanVolume: Volume,
    fajrVolume: Volume)

  /** What a successful `load_config()` returns: settings and the file's mtime (None once the file is gone). */
  datatype Loaded = Loaded(config: Config, mtime: Option<int>)

  /**
   * One call of `check_and_reload_config`, as seen from outside:
   * whether the config file exists, its current mtime, what `load_config`
   * returned (`None`: it raised), and whether re-opening the log file
   * succeeds should the log path have changed.
   */
  datatype ReloadProbe = ReloadProbe(present: bool, mtime: int, loaded: Option<Loaded>, logSetupOk: bool)

  /**
   * Where the root logger writes: a rotating log file, or standard error
   * through the handler that `logging` installs by itself when a message is
   * logged while the root logger has no handler.
   */
  datatype LogSink = FileSink(path: string) | StderrSink

  /**
   * The module-level state the reload touches: `current_config`,
   * `last_mtime`, the root logger's sink, and whether its level lets INFO
   * messages through (an explicit `basicConfig(level=INFO)` took effect)
   * or stays at the default WARNING.
   */
  datatype ReloadState = ReloadState(config: Config, lastMtime: Option<int>, logSink: LogSink, infoLogged: bool)

  /**
   * Start-up: `load_config()` and then `logging.basicConfig` on its
   * LOG_FILE. `warned` says whether `load_config` logged that the prayer
   * times file is missing. That first message, logged while the root
   * logger has no handler, makes `logging` install a standard-error
   * handler at the default WARNING level, and the later `basicConfig`
   * (no `force`) then leaves the root logger as it is.
   */
  function StartState(initial: Loaded, warned: bool): ReloadState {
    if warned then ReloadState(initial.config, initial.mtime, StderrSink, false)
    else ReloadState(initial.config, initial.mtime, FileSink(initial.config.logFile), true)
  }

  /**
   * The daemon logs to its LOG_FILE, INFO included, exactly when loading the
   * settings at start-up logged no warning; otherwise only warnings and
   * errors appear, on standard error.
   */
  lemma StartupLogging(initial: Loaded, warned: bool)
    ensures var s := StartState(initial, warned);
      s.config == initial.config && s.lastMtime == initial.mtime
      && (s.logSink == FileSink(initial.config.logFile) <==> !warned)
      && (s.infoLogged <==> !warned)
      && (warned ==> s.logSink == StderrSink)
  {
  }

  /** The reload decision, as a function of the state before and the probe. */
  function ReloadStep(s: ReloadState, p: ReloadProbe): ReloadState {
    if !p.present || Some(p.mtime) == s.lastMtime || p.loaded.None? then s
    else
      var loaded := p.loaded.value;
      if loaded.config.logFile != s.config.logFile then
        if p.logSetupOk then ReloadState(loaded.config, loaded.mtime, FileSink(loaded.config.logFile), true)
        else s.(logSink := StderrSink)
      else s.(config := loaded.config, lastMtime := loaded.mtime)
  }

  /** A missing file, an unchanged mtime or a failing `load_config` leave config and mtime as they were. */
  lemma ReloadSkipped(s: ReloadState, p: ReloadProbe)
    requires !p.present || Some(p.mtime) == s.lastMtime || p.loaded.None?
    ensures ReloadStep(s, p) == s
  {
  }

  /**
   * The configuration is swapped as a whole: afterwards config and mtime are
   * either both the old ones or both what `load_config` returned, and they
   * are the new ones exactly when the file changed, loaded, and any needed
   * log re-opening succeeded.
   */
  lemma ReloadIsAtomic(s: ReloadState, p: ReloadProbe)
    ensures var t := ReloadStep(s, p);
      var swapped := p.present && Some(p.mtime) != s.lastMtime && p.loaded.Some?
        && (p.loaded.value.config.logFile != s.config.logFile ==> p.logSetupOk);
      if swapped then t.config == p.loaded.value.config && t.lastMtime == p.loaded.value.mtime
      else t.config == s.config && t.lastMtime == s.lastMtime
  {
  }

  /**
   * Logging is touched only when the reloaded LOG_FILE differs from the
   * current one. It then writes to the new file with INFO enabled, or, when
   * opening that file failed after the old handler was removed, to standard
   * error, where the error report about the failure installs a handler.
   */
  lemma ReloadLoggingOnlyOnNewLogFile(s: ReloadState, p: ReloadProbe)
    ensures var t := ReloadStep(s, p);
      (t.logSink, t.infoLogged) != (s.logSink, s.infoLogged) ==>
        p.loaded.Some? && p.loaded.value.config.logFile != s.config.logFile
    ensures var t := ReloadStep(s, p);
      var goesAhead := p.present && Some(p.mtime) != s.lastMtime && p.loaded.Some?;
      if goesAhead && p.loaded.value.config.logFile != s.config.logFile then
        t.logSink == (if p.logSetupOk then FileSink(p.loaded.value.config.logFile) else StderrSink)
        && t.infoLogged == (p.logSetupOk || s.infoLogged)
      else t.logSink == s.logSink && t.infoLogged == s.infoLogged
  {
  }

  /** Once a reload has recorded the probed mtime, probing the same file again changes nothing. */
  lemma ReloadIdempotent(s: ReloadState, p: ReloadProbe)
    requires p.loaded.Some? ==> p.loaded.value.mtime == Some(p.mtime)
    ensures ReloadStep(ReloadStep(s, p), p) == ReloadStep(s, p)
  {
  }

  /** The globals `current_config` and `last_mtime` with the logging target they set up. */
  class ConfigState {
    var config: Config
    var lastMtime: Option<int>
    var logSink: LogSink
    var infoLogged: bool

    function State(): ReloadState
      reads this
    {
      ReloadState(config, lastMtime, logSink, infoLogged)
    }

    /** Start-up; `warned` says whether `load_config` logged a warning. */
    constructor (initial: Loaded, warned: bool)
      ensures State() == StartState(initial, warned)
    {
      config := initial.config;
      lastMtime := initial.mtime;
      if warned {
        logSink := StderrSink;
        infoLogged := false;
      } else {
        logSink := FileSink(initial.config.logFile);
        infoLogged := true;
      }
    }

    /** `check_and_reload_config()`. */
    method CheckAndReload(p: ReloadProbe)
      modifies this
      ensures State() == ReloadStep(old(State()), p)
    {
      if !p.present {
        return;
      }
      if Some(p.mtime) != lastMtime {
        match p.loaded {
          case None =>
            // load_config raised: logged, nothing changes
          case Some(loaded) =>
            if loaded.config.logFile != config.logFile {
              // setup_logging removes the old handler before opening the new file
              if !p.logSetupOk {
                // the error report finds no handler and installs one on stderr
                logSink := StderrSink;
                return;
              }
              logSink := FileSink(loaded.config.logFile);
              infoLogged := true;
            }
            config := loaded.config;
            lastMtime := loaded.mtime;
        }
      }
    }
  }
}
