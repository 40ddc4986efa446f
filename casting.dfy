/**
 * `cast_announcement_and_athan` in athan_automation.py: find the device,
 * stop a streaming app, set the volume, start playback with retries, poll
 * until playback has ended, then tear down and disconnect.
 *
 * The device and the network are replaced by a script (`DeviceScript`)
 * that answers each call in turn; every call the session makes on the
 * device, and every sleep, is recorded as an `Action`. `Session` is the
 * specification of the whole run; `CastAnnouncement` computes the same run
 * with the loops of `cast_announcement_and_athan`.
 */
module Casting {
  import opened Wrappers
  import opened Settings
  import opened Schedule

  const MAX_RETRIES: nat := 3        // discovery attempts
  const RETRY_DELAY: nat := 5        // seconds between discovery attempts
  const IDLE_TIMEOUT: nat := 30      // one-second idle checks after stopping an app
  const PLAY_RETRIES: nat := 3
  const PLAY_RETRY_DELAY: nat := 5
  const POLL_INTERVAL: nat := 5
  const DONE_POLLS: nat := 2         // non-playing polls that end the wait
  const STREAMING_APPS: seq<string> := ["CC32E753", "705D30C6"]
  const DEFAULT_RECEIVER := "Default Media Receiver"
  const AUDIO_MIME := "audio/mp3"

  /** What the session does to the device, and its sleeps. */
  datatype Action =
    | Discover(device: string)
    | Sleep(seconds: nat)
    | QuitApp
    | SetVolume(level: Volume)
    | Play(url: string, mime: string, metadata: MediaMetadata)
    | Poll
    | Disconnect

  /** `mc.status.player_state`. */
  type PlayerState = string

  predicate IsActive(state: PlayerState) { state == "PLAYING" || state == "BUFFERING" }

  /**
   * The device's answers, in order. `found[i]`: the i-th discovery call
   * listed the device (false also when the call raised); `appId`: the
   * running app once connected; `idle[i]`: the app id reads None at the
   * i-th idle check; `plays[i]`: the i-th play attempt went through;
   * `states[i]`: the player state after the i-th status update, an update
   * beyond the script raising; `displayName`: the app shown at teardown.
   * An answer beyond the end of `found`, `idle` or `plays` is a failure.
   */
  datatype DeviceScript = DeviceScript(
    found: seq<bool>,
    appId: Option<string>,
    idle: seq<bool>,
    plays: seq<bool>,
    states: seq<PlayerState>,
    displayName: string)

  /** How the session ended; every failure is swallowed by the caller-facing `except`. */
  datatype SessionOutcome = DeviceNotFound | PlaybackFailed | StatusLost | Completed

  datatype SessionResult = SessionResult(outcome: SessionOutcome, trace: seq<Action>)

  function Nth(ok: seq<bool>, i: nat): bool { i < |ok| && ok[i] }

  // ------------------------------------------------------ traces

  /** `n` attempts of `a` with a sleep between two attempts and none after the last. */
  function Retried(n: nat, a: Action, delay: nat): seq<Action>
    decreases n
  {
    if n == 0 then [] else if n == 1 then [a] else Retried(n - 1, a, delay) + [Sleep(delay), a]
  }

  function Repeat(block: seq<Action>, n: nat): seq<Action>
    decreases n
  {
    if n == 0 then [] else Repeat(block, n - 1) + block
  }

  function CountOf(t: seq<Action>, a: Action): nat
    decreases |t|
  {
    if t == [] then 0 else CountOf(t[..|t| - 1], a) + (if t[|t| - 1] == a then 1 else 0)
  }

  lemma {:induction false} CountConcat(s: seq<Action>, t: seq<Action>, a: Action)
    ensures CountOf(s + t, a) == CountOf(s, a) + CountOf(t, a)
    decreases |t|
  {
    if t == [] {
      assert s + t == s;
    } else {
      assert (s + t)[..|s + t| - 1] == s + t[..|t| - 1];
      CountConcat(s, t[..|t| - 1], a);
    }
  }

  lemma {:induction false} CountAbsent(t: seq<Action>, a: Action)
    requires a !in t
    ensures CountOf(t, a) == 0
    decreases |t|
  {
    if t != [] {
      assert forall x :: x in t[..|t| - 1] ==> x in t;
      CountAbsent(t[..|t| - 1], a);
    }
  }

  lemma {:induction false} InRetried(n: nat, a: Action, delay: nat, x: Action)
    requires x in Retried(n, a, delay)
    ensures x == a || x == Sleep(delay)
    decreases n
  {
    if n > 1 && x in Retried(n - 1, a, delay) {
      InRetried(n - 1, a, delay, x);
    }
  }

  lemma {:induction false} CountRetried(n: nat, a: Action, delay: nat)
    requires a != Sleep(delay)
    ensures CountOf(Retried(n, a, delay), a) == n
    decreases n
  {
    if n == 1 {
      assert [a][..0] == [];
    } else if n > 1 {
      CountRetried(n - 1, a, delay);
      CountConcat(Retried(n - 1, a, delay), [Sleep(delay), a], a);
      assert [Sleep(delay), a][..1] == [Sleep(delay)] && [Sleep(delay)][..0] == [];
      assert CountOf([Sleep(delay)], a) == 0;
      assert CountOf([Sleep(delay), a], a) == 1;
    }
  }

  lemma {:induction false} InRepeat(block: seq<Action>, n: nat, x: Action)
    requires x in Repeat(block, n)
    ensures x in block
    decreases n
  {
    if n > 0 && x in Repeat(block, n - 1) {
      InRepeat(block, n - 1, x);
    }
  }

  lemma {:induction false} CountRepeat(block: seq<Action>, n: nat, a: Action)
    ensures CountOf(Repeat(block, n), a) == n * CountOf(block, a)
    decreases n
  {
    if n > 0 {
      var c := CountOf(block, a);
      CountRepeat(block, n - 1, a);
      CountConcat(Repeat(block, n - 1), block, a);
      assert (n - 1) * c + c == n * c;
    }
  }

  // ------------------------------------------------ bounded retry

  /** The attempt count of a retry loop of `limit` tries that is already past `start` failed tries. */
  function AttemptsFrom(ok: seq<bool>, start: nat, limit: nat): (n: nat)
    requires start <= limit
    ensures start <= n <= limit
    ensures start < limit ==> start < n
    ensures forall i :: start <= i < n - 1 ==> !Nth(ok, i)
    ensures n < limit ==> Nth(ok, n - 1)
    decreases limit - start
  {
    if start == limit then limit
    else if Nth(ok, start) then start + 1
    else AttemptsFrom(ok, start + 1, limit)
  }

  /** How many tries a retry loop of `limit` tries makes: up to and including the first success. */
  function Attempts(ok: seq<bool>, limit: nat): nat {
    AttemptsFrom(ok, 0, limit)
  }

  predicate Succeeded(ok: seq<bool>, limit: nat) {
    Attempts(ok, limit) > 0 && Nth(ok, Attempts(ok, limit) - 1)
  }

  /** A retry loop succeeds iff one of its `limit` tries would succeed, and stops at the first such try. */
  lemma SucceededIff(ok: seq<bool>, limit: nat)
    ensures Succeeded(ok, limit) <==> exists i :: 0 <= i < limit && Nth(ok, i)
    ensures !Succeeded(ok, limit) ==> Attempts(ok, limit) == limit
    ensures Succeeded(ok, limit) ==> forall i :: 0 <= i < Attempts(ok, limit) - 1 ==> !Nth(ok, i)
  {
    var n := Attempts(ok, limit);
    if exists i :: 0 <= i < limit && Nth(ok, i) {
      var i :| 0 <= i < limit && Nth(ok, i);
      assert n < limit || i == limit - 1 || !(i < n - 1);
    }
  }

  /**
   * The `for attempt in range(limit)` loops of discovery and playback: try,
   * stop at the first success, sleep `delay` seconds after a failure unless
   * it was the last try.
   */
  method BoundedRetry(ok: seq<bool>, limit: nat, attempt: Action, delay: nat)
    returns (succeeded: bool, trace: seq<Action>)
    ensures succeeded == Succeeded(ok, limit)
    ensures trace == Retried(Attempts(ok, limit), attempt, delay)
  {
    succeeded := false;
    trace := [];
    var i := 0;
    while i < limit
      invariant 0 <= i <= limit && (limit > 0 ==> i < limit)
      invariant AttemptsFrom(ok, i, limit) == Attempts(ok, limit)
      invariant trace == Retried(i, attempt, delay) + (if i > 0 then [Sleep(delay)] else [])
    {
      trace := trace + [attempt];
      assert i > 0 ==> trace == Retried(i + 1, attempt, delay);
      if Nth(ok, i) {
        succeeded := true;
        return;
      }
      if i == limit - 1 {
        return;
      }
      trace := trace + [Sleep(delay)];
      i := i + 1;
    }
  }

  // ------------------------------------------- stopping a streaming app

  predicate IsStreaming(appId: Option<string>) {
    appId.Some? && appId.value in STREAMING_APPS
  }

  /** One-second sleeps while waiting for the device to go idle: none once it is idle, 30 at most. */
  function IdleSleeps(idle: seq<bool>): nat {
    if Succeeded(idle, IDLE_TIMEOUT) then Attempts(idle, IDLE_TIMEOUT) - 1 else Attempts(idle, IDLE_TIMEOUT)
  }

  /** The timeout loop after `quit_app`: check for idle, else sleep a second, for 30 seconds. */
  method AwaitIdle(idle: seq<bool>) returns (trace: seq<Action>)
    ensures trace == Repeat([Sleep(1)], IdleSleeps(idle))
  {
    trace := [];
    var ticks := 0;
    while ticks < IDLE_TIMEOUT
      invariant 0 <= ticks <= IDLE_TIMEOUT
      invariant AttemptsFrom(idle, ticks, IDLE_TIMEOUT) == Attempts(idle, IDLE_TIMEOUT)
      invariant ticks > 0 ==> !Nth(idle, ticks - 1)
      invariant trace == Repeat([Sleep(1)], ticks)
    {
      if Nth(idle, ticks) {
        return;
      }
      trace := trace + [Sleep(1)];
      ticks := ticks + 1;
    }
  }

  function Preempt(appId: Option<string>, idle: seq<bool>): seq<Action> {
    if IsStreaming(appId) then [QuitApp] + Repeat([Sleep(1)], IdleSleeps(idle)) else []
  }

  // -------------------------------------------- waiting for the end

  /** The polls among `states` that are neither PLAYING nor BUFFERING. */
  function InactiveCount(states: seq<PlayerState>): nat
    decreases |states|
  {
    if states == [] then 0
    else InactiveCount(states[..|states| - 1]) + (if IsActive(states[|states| - 1]) then 0 else 1)
  }

  /** The wait ends at poll `n`: the n-th poll is the second non-playing one in all. */
  ghost predicate ExitsAt(states: seq<PlayerState>, n: nat) {
    1 <= n <= |states| && InactiveCount(states[..n]) == DONE_POLLS && !IsActive(states[n - 1])
  }

  function ExitFrom(states: seq<PlayerState>, i: nat, seen: nat): (r: Option<nat>)
    requires i <= |states| && seen == InactiveCount(states[..i]) && seen < DONE_POLLS
    ensures r.Some? ==> i < r.value && ExitsAt(states, r.value)
    ensures r.None? ==> InactiveCount(states) < DONE_POLLS
    decreases |states| - i
  {
    if i == |states| then
      assert states[..i] == states;
      None
    else
      assert states[..i + 1][..i] == states[..i];
      var count := seen + if IsActive(states[i]) then 0 else 1;
      if count >= DONE_POLLS then Some(i + 1) else ExitFrom(states, i + 1, count)
  }

  /** The poll at which the completion loop stops, if the script reaches it. */
  function ExitPoll(states: seq<PlayerState>): Option<nat> {
    assert states[..0] == [];
    ExitFrom(states, 0, 0)
  }

  const POLL_STEP := [Sleep(POLL_INTERVAL), Poll]

  /**
   * The `while True` completion loop: sleep, update the status, count the
   * polls that are neither PLAYING nor BUFFERING, stop at the second. The
   * count is never reset. A status update beyond the script raises.
   */
  method AwaitCompletion(states: seq<PlayerState>) returns (finished: bool, trace: seq<Action>)
    ensures finished == ExitPoll(states).Some?
    ensures trace == Repeat(POLL_STEP, if finished then ExitPoll(states).value else |states| + 1)
  {
    var stateCount := 0;
    var polls := 0;
    trace := [];
    assert states[..0] == [];
    while true
      invariant polls <= |states|
      invariant stateCount == InactiveCount(states[..polls]) && stateCount < DONE_POLLS
      invariant ExitFrom(states, polls, stateCount) == ExitPoll(states)
      invariant trace == Repeat(POLL_STEP, polls)
      decreases |states| - polls
    {
      trace := trace + POLL_STEP;
      if polls == |states| {
        return false, trace;
      }
      var state := states[polls];
      assert states[..polls + 1][..polls] == states[..polls];
      polls := polls + 1;
      if !IsActive(state) {
        stateCount := stateCount + 1;
        if stateCount >= DONE_POLLS {
          return true, trace;
        }
      }
    }
  }

  // ------------------------------------------------------ the session

  function Teardown(displayName: string): seq<Action> {
    (if displayName == DEFAULT_RECEIVER then [QuitApp] else []) + [Disconnect]
  }

  /** The play command of a session. */
  function PlayCommand(cfg: Config, url: string, readTags: string -> Option<Tags>): Action {
    Play(url, AUDIO_MIME, CastMetadata(cfg, url, readTags(LocalPath(cfg, url))))
  }

  /** Everything before the play attempts, once the device was found. */
  function Prepare(cfg: Config, device: string, name: string, dev: DeviceScript): seq<Action> {
    Retried(Attempts(dev.found, MAX_RETRIES), Discover(device), RETRY_DELAY)
      + Preempt(dev.appId, dev.idle) + [SetVolume(VolumeFor(cfg, name))]
  }

  /** Everything up to the last play attempt, once the device was found. */
  function Playing(cfg: Config, url: string, device: string, name: string,
                   readTags: string -> Option<Tags>, dev: DeviceScript): seq<Action>
  {
    Prepare(cfg, device, name, dev)
      + Retried(Attempts(dev.plays, PLAY_RETRIES), PlayCommand(cfg, url, readTags), PLAY_RETRY_DELAY)
  }

  /** What follows a successful play: the polls and the teardown, or a lost status update. */
  function Ending(dev: DeviceScript): SessionResult {
    if !Succeeded(dev.plays, PLAY_RETRIES) then SessionResult(PlaybackFailed, [])
    else match ExitPoll(dev.states)
      case None => SessionResult(StatusLost, Repeat(POLL_STEP, |dev.states| + 1))
      case Some(n) => SessionResult(Completed, Repeat(POLL_STEP, n) + Teardown(dev.displayName))
  }

  /** The specification of one announcement session. */
  function Session(cfg: Config, url: string, device: string, name: string,
                   readTags: string -> Option<Tags>, dev: DeviceScript): SessionResult
  {
    if !Succeeded(dev.found, MAX_RETRIES) then
      SessionResult(DeviceNotFound, Retried(Attempts(dev.found, MAX_RETRIES), Discover(device), RETRY_DELAY))
    else
      var ending := Ending(dev);
      SessionResult(ending.outcome, Playing(cfg, url, device, name, readTags, dev) + ending.trace)
  }

  /** `cast_announcement_and_athan(audio_url, device_name, prayer_name)`. */
  method CastAnnouncement(cfg: Config, url: string, device: string, name: string,
                          readTags: string -> Option<Tags>, dev: DeviceScript)
    returns (outcome: SessionOutcome, trace: seq<Action>)
    ensures SessionResult(outcome, trace) == Session(cfg, url, device, name, readTags, dev)
  {
    var metadata := CastMetadata(cfg, url, readTags(LocalPath(cfg, url)));
    var found;
    found, trace := BoundedRetry(dev.found, MAX_RETRIES, Discover(device), RETRY_DELAY);
    if !found {
      return DeviceNotFound, trace;
    }
    if IsStreaming(dev.appId) {
      trace := trace + [QuitApp];
      var waited := AwaitIdle(dev.idle);
      trace := trace + waited;
    }
    trace := trace + [SetVolume(VolumeFor(cfg, name))];
    assert trace == Prepare(cfg, device, name, dev);
    var played, attempts := BoundedRetry(dev.plays, PLAY_RETRIES, Play(url, AUDIO_MIME, metadata), PLAY_RETRY_DELAY);
    trace := trace + attempts;
    assert trace == Playing(cfg, url, device, name, readTags, dev);
    if !played {
      assert trace == trace + [];
      return PlaybackFailed, trace;
    }
    var finished, polls := AwaitCompletion(dev.states);
    trace := trace + polls;
    if !finished {
      return StatusLost, trace;
    }
    if dev.displayName == DEFAULT_RECEIVER {
      trace := trace + [QuitApp];
    }
    trace := trace + [Disconnect];
    outcome := Completed;
  }
}
