/**
 * What one announcement session does, stated over `Casting.Session` for
 * every device script: how discovery and playback retries are bounded,
 * when polling stops, and when the device is disconnected.
 */
module SessionProperties {
  import opened Wrappers
  import opened Settings
  import opened Schedule
  import opened Casting

  // ------------------------------------------------------ trace lemmas

  lemma {:induction false} RetriedLength(n: nat, a: Action, delay: nat)
    requires n > 0
    ensures |Retried(n, a, delay)| == 2 * n - 1
    ensures Retried(n, a, delay)[2 * n - 2] == a
    decreases n
  {
    if n > 1 {
      RetriedLength(n - 1, a, delay);
    }
  }

  lemma {:induction false} InactiveCountConcat(a: seq<PlayerState>, b: seq<PlayerState>)
    ensures InactiveCount(a + b) == InactiveCount(a) + InactiveCount(b)
    decreases |b|
  {
    if b == [] {
      assert a + b == a;
    } else {
      assert (a + b)[..|a + b| - 1] == a + b[..|b| - 1];
      InactiveCountConcat(a, b[..|b| - 1]);
    }
  }

  lemma InactivePrefix(states: seq<PlayerState>, n: nat)
    requires n <= |states|
    ensures InactiveCount(states[..n]) <= InactiveCount(states)
    ensures 0 < n ==> InactiveCount(states[..n]) == InactiveCount(states[..n - 1]) + (if IsActive(states[n - 1]) then 0 else 1)
  {
    assert states == states[..n] + states[n..];
    InactiveCountConcat(states[..n], states[n..]);
    if 0 < n {
      assert states[..n][..n - 1] == states[..n - 1];
    }
  }

  // ------------------------------------------------------ completion

  /** The completion loop stops iff two non-playing polls are seen in all. */
  lemma ExitPollIff(states: seq<PlayerState>)
    ensures ExitPoll(states).Some? <==> InactiveCount(states) >= DONE_POLLS
    ensures ExitPoll(states).Some? ==> ExitsAt(states, ExitPoll(states).value)
  {
    if ExitPoll(states).Some? {
      InactivePrefix(states, ExitPoll(states).value);
    }
  }

  /** The poll at which the wait ends is determined: at most one poll is the second non-playing one. */
  lemma ExitPollUnique(states: seq<PlayerState>, n: nat, m: nat)
    requires ExitsAt(states, n) && ExitsAt(states, m)
    ensures n == m
  {
    if n != m {
      var lo := if n < m then n else m;
      var hi := if n < m then m else n;
      InactivePrefix(states, hi);
      InactiveMonotone(states, lo, hi - 1);
    }
  }

  lemma InactiveMonotone(states: seq<PlayerState>, i: nat, j: nat)
    requires i <= j <= |states|
    ensures InactiveCount(states[..i]) <= InactiveCount(states[..j])
  {
    InactivePrefix(states[..j], i);
    assert states[..j][..i] == states[..i];
  }

  /**
   * A PLAYING or BUFFERING poll does not reset the count: after one
   * non-playing poll, any run of playing polls and one more non-playing
   * poll end the wait.
   */
  lemma PlayingDoesNotReset(before: seq<PlayerState>, playing: seq<PlayerState>, last: PlayerState)
    requires InactiveCount(before) == 1
    requires forall i :: 0 <= i < |playing| ==> IsActive(playing[i])
    requires !IsActive(last)
    ensures ExitPoll(before + playing + [last]) == Some(|before| + |playing| + 1)
  {
    var states := before + playing + [last];
    assert InactiveCount(playing) == 0 by {
      ActiveRunCount(playing);
    }
    InactiveCountConcat(before, playing);
    InactiveCountConcat(before + playing, [last]);
    assert [last][..0] == [];
    assert states[..|states|] == states;
    ExitPollIff(states);
    ExitPollUnique(states, ExitPoll(states).value, |states|);
  }

  lemma {:induction false} ActiveRunCount(playing: seq<PlayerState>)
    requires forall i :: 0 <= i < |playing| ==> IsActive(playing[i])
    ensures InactiveCount(playing) == 0
    decreases |playing|
  {
    if playing != [] {
      ActiveRunCount(playing[..|playing| - 1]);
    }
  }

  /** PAUSED, PLAYING, IDLE: the wait ends at the third poll, though no two non-playing polls are adjacent. */
  lemma NonConsecutiveExit()
    ensures ExitPoll(["PAUSED", "PLAYING", "IDLE"]) == Some(3)
  {
    assert InactiveCount(["PAUSED"]) == 1 by {
      assert ["PAUSED"][..0] == [];
    }
    PlayingDoesNotReset(["PAUSED"], ["PLAYING"], "IDLE");
    assert ["PAUSED"] + ["PLAYING"] + ["IDLE"] == ["PAUSED", "PLAYING", "IDLE"];
  }

  // ------------------------------------------------------ the session

  /** The shape of `Session`: discovery alone, or everything up to the play attempts and then `Ending`. */
  lemma SessionShape(cfg: Config, url: string, device: string, name: string,
                     readTags: string -> Option<Tags>, dev: DeviceScript)
    ensures var r := Session(cfg, url, device, name, readTags, dev);
      if !Succeeded(dev.found, MAX_RETRIES) then
        r == SessionResult(DeviceNotFound, Retried(Attempts(dev.found, MAX_RETRIES), Discover(device), RETRY_DELAY))
      else
        r.outcome == Ending(dev).outcome
        && r.trace == Prepare(cfg, device, name, dev)
             + Retried(Attempts(dev.plays, PLAY_RETRIES), PlayCommand(cfg, url, readTags), PLAY_RETRY_DELAY)
             + Ending(dev).trace
  {
  }

  lemma EndingShape(dev: DeviceScript)
    ensures Ending(dev).outcome != DeviceNotFound
    ensures Ending(dev).outcome == PlaybackFailed <==> !Succeeded(dev.plays, PLAY_RETRIES)
    ensures Ending(dev).outcome == PlaybackFailed ==> Ending(dev).trace == []
    ensures Ending(dev).outcome == StatusLost ==> Ending(dev).trace == Repeat(POLL_STEP, |dev.states| + 1)
    ensures Ending(dev).outcome == Completed <==> Succeeded(dev.plays, PLAY_RETRIES) && ExitPoll(dev.states).Some?
    ensures Ending(dev).outcome == Completed ==>
      Ending(dev).trace == Repeat(POLL_STEP, ExitPoll(dev.states).value) + Teardown(dev.displayName)
  {
  }

  /** Every action before the play attempts is one of these. */
  lemma PrepareActions(cfg: Config, device: string, name: string, dev: DeviceScript, x: Action)
    requires x in Prepare(cfg, device, name, dev)
    ensures x in {Discover(device), Sleep(RETRY_DELAY), QuitApp, Sleep(1), SetVolume(VolumeFor(cfg, name))}
  {
    var n := Attempts(dev.found, MAX_RETRIES);
    if x in Retried(n, Discover(device), RETRY_DELAY) {
      InRetried(n, Discover(device), RETRY_DELAY, x);
    } else if x in Preempt(dev.appId, dev.idle) && x != QuitApp {
      InRepeat([Sleep(1)], IdleSleeps(dev.idle), x);
    }
  }

  /** Every action after the play attempts is one of these. */
  lemma EndingActions(dev: DeviceScript, x: Action)
    requires x in Ending(dev).trace
    ensures x in {Sleep(POLL_INTERVAL), Poll, QuitApp, Disconnect}
    ensures Ending(dev).outcome != Completed ==> x in POLL_STEP
  {
    EndingShape(dev);
    if Ending(dev).outcome == StatusLost {
      InRepeat(POLL_STEP, |dev.states| + 1, x);
    } else if Ending(dev).outcome == Completed {
      if x in Repeat(POLL_STEP, ExitPoll(dev.states).value) {
        InRepeat(POLL_STEP, ExitPoll(dev.states).value, x);
      }
    }
  }

  lemma PlayActions(n: nat, play: Action, x: Action)
    requires x in Retried(n, play, PLAY_RETRY_DELAY)
    ensures x == play || x == Sleep(PLAY_RETRY_DELAY)
  {
    InRetried(n, play, PLAY_RETRY_DELAY, x);
  }

  /**
   * Discovery makes at most three attempts with a sleep between two of
   * them; when none finds the device the session is exactly three
   * discoveries and two sleeps, so no volume or play command is sent.
   */
  lemma DeviceNotFoundAfterThreeAttempts(cfg: Config, url: string, device: string, name: string,
                                         readTags: string -> Option<Tags>, dev: DeviceScript)
    ensures var r := Session(cfg, url, device, name, readTags, dev);
      (r.outcome == DeviceNotFound <==> forall i :: 0 <= i < MAX_RETRIES ==> !Nth(dev.found, i))
      && (r.outcome == DeviceNotFound ==>
            r.trace == [Discover(device), Sleep(RETRY_DELAY), Discover(device), Sleep(RETRY_DELAY), Discover(device)])
  {
    SucceededIff(dev.found, MAX_RETRIES);
    SessionShape(cfg, url, device, name, readTags, dev);
    EndingShape(dev);
    assert Retried(2, Discover(device), RETRY_DELAY) == [Discover(device), Sleep(RETRY_DELAY), Discover(device)];
  }

  /**
   * Discovery stops at the first attempt that finds the device: the session
   * begins with that many discoveries, separated by sleeps, and never
   * discovers again.
   */
  lemma DiscoveryStopsAtFirstSuccess(cfg: Config, url: string, device: string, name: string,
                                     readTags: string -> Option<Tags>, dev: DeviceScript, k: nat)
    requires k < MAX_RETRIES && Nth(dev.found, k)
    requires forall i :: 0 <= i < k ==> !Nth(dev.found, i)
    ensures var r := Session(cfg, url, device, name, readTags, dev);
      r.outcome != DeviceNotFound && 2 * k + 1 <= |r.trace|
      && r.trace[..2 * k + 1] == Retried(k + 1, Discover(device), RETRY_DELAY)
      && forall j :: 2 * k + 1 <= j < |r.trace| ==> !r.trace[j].Discover?
  {
    AttemptsAtFirstSuccess(dev.found, MAX_RETRIES, k);
    var play := PlayCommand(cfg, url, readTags);
    var discovery := Retried(k + 1, Discover(device), RETRY_DELAY);
    var rest := Preempt(dev.appId, dev.idle) + [SetVolume(VolumeFor(cfg, name))]
      + Retried(Attempts(dev.plays, PLAY_RETRIES), play, PLAY_RETRY_DELAY) + Ending(dev).trace;
    FoundTrace(cfg, url, device, name, readTags, dev);
    RetriedLength(k + 1, Discover(device), RETRY_DELAY);
    forall x | x in rest ensures !x.Discover? {
      NoDiscoveryAfterFound(dev, VolumeFor(cfg, name), play, x);
    }
    ConcatParts(discovery, rest);
  }

  /** A retry loop whose first success is try `k` makes `k + 1` tries and succeeds. */
  lemma AttemptsAtFirstSuccess(ok: seq<bool>, limit: nat, k: nat)
    requires k < limit && Nth(ok, k)
    requires forall i :: 0 <= i < k ==> !Nth(ok, i)
    ensures Attempts(ok, limit) == k + 1 && Succeeded(ok, limit)
  {
  }

  /** Once the device is found, the session's trace is the discovery loop followed by the rest. */
  lemma FoundTrace(cfg: Config, url: string, device: string, name: string,
                   readTags: string -> Option<Tags>, dev: DeviceScript)
    requires Succeeded(dev.found, MAX_RETRIES)
    ensures Session(cfg, url, device, name, readTags, dev).outcome != DeviceNotFound
    ensures Session(cfg, url, device, name, readTags, dev).trace
      == Retried(Attempts(dev.found, MAX_RETRIES), Discover(device), RETRY_DELAY)
        + (Preempt(dev.appId, dev.idle) + [SetVolume(VolumeFor(cfg, name))]
           + Retried(Attempts(dev.plays, PLAY_RETRIES), PlayCommand(cfg, url, readTags), PLAY_RETRY_DELAY)
           + Ending(dev).trace)
  {
    SessionShape(cfg, url, device, name, readTags, dev);
    EndingShape(dev);
  }

  /** The parts of a concatenation, by index. */
  lemma ConcatParts(a: seq<Action>, b: seq<Action>)
    ensures (a + b)[..|a|] == a
    ensures forall j :: |a| <= j < |a + b| ==> (a + b)[j] in b
  {
    forall j | |a| <= j < |a + b| ensures (a + b)[j] in b {
      assert (a + b)[j] == b[j - |a|];
    }
  }

  /** Nothing after the discovery loop is a discovery. */
  lemma NoDiscoveryAfterFound(dev: DeviceScript, volume: Volume, play: Action, x: Action)
    requires play.Play?
    requires x in Preempt(dev.appId, dev.idle) + [SetVolume(volume)]
      + Retried(Attempts(dev.plays, PLAY_RETRIES), play, PLAY_RETRY_DELAY) + Ending(dev).trace
    ensures !x.Discover?
  {
    if x in Retried(Attempts(dev.plays, PLAY_RETRIES), play, PLAY_RETRY_DELAY) {
      PlayActions(Attempts(dev.plays, PLAY_RETRIES), play, x);
    } else if x in Ending(dev).trace {
      EndingActions(dev, x);
    } else if x in Preempt(dev.appId, dev.idle) && x != QuitApp {
      InRepeat([Sleep(1)], IdleSleeps(dev.idle), x);
    }
  }

  /**
   * The volume sent is the fajr level for a prayer whose name lower-cases
   * to "fajr" and the standard level otherwise, and it is sent whenever the
   * device was found.
   */
  lemma VolumeByPrayer(cfg: Config, url: string, device: string, name: string,
                       readTags: string -> Option<Tags>, dev: DeviceScript)
    ensures var r := Session(cfg, url, device, name, readTags, dev);
      (forall v :: SetVolume(v) in r.trace ==> v == VolumeFor(cfg, name))
      && (r.outcome != DeviceNotFound ==> SetVolume(VolumeFor(cfg, name)) in r.trace)
  {
    SessionShape(cfg, url, device, name, readTags, dev);
    EndingShape(dev);
    var r := Session(cfg, url, device, name, readTags, dev);
    var n := Attempts(dev.found, MAX_RETRIES);
    var prepare := Prepare(cfg, device, name, dev);
    var play := PlayCommand(cfg, url, readTags);
    var attempts := Retried(Attempts(dev.plays, PLAY_RETRIES), play, PLAY_RETRY_DELAY);
    forall v | SetVolume(v) in r.trace ensures v == VolumeFor(cfg, name) {
      if !Succeeded(dev.found, MAX_RETRIES) {
        InRetried(n, Discover(device), RETRY_DELAY, SetVolume(v));
      } else if SetVolume(v) in prepare {
        PrepareActions(cfg, device, name, dev, SetVolume(v));
      } else if SetVolume(v) in attempts {
        PlayActions(Attempts(dev.plays, PLAY_RETRIES), play, SetVolume(v));
      } else {
        EndingActions(dev, SetVolume(v));
      }
    }
    if r.outcome != DeviceNotFound {
      assert SetVolume(VolumeFor(cfg, name)) in prepare;
    }
  }

  /**
   * Playback is attempted at most three times; when all three fail the
   * session ends on the third attempt: no status poll, no quit, no
   * disconnect.
   */
  lemma PlaybackFailureAbandons(cfg: Config, url: string, device: string, name: string,
                                readTags: string -> Option<Tags>, dev: DeviceScript)
    ensures var r := Session(cfg, url, device, name, readTags, dev);
      var play := PlayCommand(cfg, url, readTags);
      (r.outcome == PlaybackFailed <==>
         Succeeded(dev.found, MAX_RETRIES) && forall i :: 0 <= i < PLAY_RETRIES ==> !Nth(dev.plays, i))
      && (r.outcome == PlaybackFailed ==>
            |r.trace| >= 5
            && r.trace[|r.trace| - 5..] == [play, Sleep(PLAY_RETRY_DELAY), play, Sleep(PLAY_RETRY_DELAY), play]
            && CountOf(r.trace, play) == PLAY_RETRIES
            && Poll !in r.trace && Disconnect !in r.trace)
  {
    SucceededIff(dev.plays, PLAY_RETRIES);
    SessionShape(cfg, url, device, name, readTags, dev);
    EndingShape(dev);
    var r := Session(cfg, url, device, name, readTags, dev);
    var play := PlayCommand(cfg, url, readTags);
    if r.outcome == PlaybackFailed {
      var prepare := Prepare(cfg, device, name, dev);
      forall x | x in prepare ensures x != play && x != Poll && x != Disconnect {
        PrepareActions(cfg, device, name, dev, x);
      }
      FailedPlaysTrace(dev, play, prepare);
    }
  }

  /** After three failed play attempts nothing follows them. */
  lemma FailedPlaysTrace(dev: DeviceScript, play: Action, prepare: seq<Action>)
    requires play.Play? && !Succeeded(dev.plays, PLAY_RETRIES)
    requires forall x :: x in prepare ==> x != play && x != Poll && x != Disconnect
    ensures var t := prepare + Retried(Attempts(dev.plays, PLAY_RETRIES), play, PLAY_RETRY_DELAY) + Ending(dev).trace;
      |t| >= 5
      && t[|t| - 5..] == [play, Sleep(PLAY_RETRY_DELAY), play, Sleep(PLAY_RETRY_DELAY), play]
      && CountOf(t, play) == PLAY_RETRIES
      && Poll !in t && Disconnect !in t
  {
    SucceededIff(dev.plays, PLAY_RETRIES);
    EndingShape(dev);
    var attempts := Retried(PLAY_RETRIES, play, PLAY_RETRY_DELAY);
    assert attempts == [play, Sleep(PLAY_RETRY_DELAY), play, Sleep(PLAY_RETRY_DELAY), play];
    var t := prepare + attempts + Ending(dev).trace;
    assert t == prepare + attempts;
    assert t[|t| - 5..] == attempts;
    CountAbsent(prepare, play);
    CountRetried(PLAY_RETRIES, play, PLAY_RETRY_DELAY);
    CountConcat(prepare, attempts, play);
  }

  /** Polls are counted only in the polling phase, and a completed session ends with a disconnect. */
  lemma PollsThenTeardown(prefix: seq<Action>, n: nat, displayName: string)
    requires Poll !in prefix
    ensures var t := prefix + Repeat(POLL_STEP, n) + Teardown(displayName);
      CountOf(t, Poll) == n && t[|t| - 1] == Disconnect
  {
    var polls := Repeat(POLL_STEP, n);
    var teardown := Teardown(displayName);
    CountAbsent(prefix, Poll);
    CountAbsent(teardown, Poll);
    PollStepCount();
    CountRepeat(POLL_STEP, n, Poll);
    CountConcat(prefix, polls, Poll);
    CountConcat(prefix + polls, teardown, Poll);
    assert teardown[|teardown| - 1] == Disconnect;
  }

  /** One polling step polls once. */
  lemma PollStepCount()
    ensures CountOf(POLL_STEP, Poll) == 1
  {
    var first := [Sleep(POLL_INTERVAL)];
    assert POLL_STEP[..1] == first && first[..0] == [];
    assert CountOf(first, Poll) == CountOf([], Poll) + 0;
    assert CountOf(POLL_STEP, Poll) == CountOf(first, Poll) + 1;
  }

  /** Stopping a streaming app is followed by at most 30 one-second sleeps; nothing else sleeps one second there. */
  lemma PreemptSleeps(appId: Option<string>, idle: seq<bool>)
    ensures CountOf(Preempt(appId, idle), Sleep(1)) <= IDLE_TIMEOUT
    ensures !IsStreaming(appId) ==> Preempt(appId, idle) == []
  {
    if IsStreaming(appId) {
      var ticks := Repeat([Sleep(1)], IdleSleeps(idle));
      SleepTicks(IdleSleeps(idle));
      assert [QuitApp][..0] == [];
      assert CountOf([QuitApp], Sleep(1)) == 0;
      CountConcat([QuitApp], ticks, Sleep(1));
      assert IdleSleeps(idle) <= IDLE_TIMEOUT;
    }
  }

  /** `n` one-second ticks sleep one second `n` times. */
  lemma SleepTicks(n: nat)
    ensures CountOf(Repeat([Sleep(1)], n), Sleep(1)) == n
  {
    CountRepeat([Sleep(1)], n, Sleep(1));
    assert [Sleep(1)][..0] == [];
    assert CountOf([Sleep(1)], Sleep(1)) == 1;
  }

  /**
   * The session completes iff the device is found, playback starts and two
   * non-playing polls are seen in all; it then has polled exactly up to
   * the second of them and ends with a disconnect.
   */
  lemma CompletionAtSecondInactivePoll(cfg: Config, url: string, device: string, name: string,
                                       readTags: string -> Option<Tags>, dev: DeviceScript)
    ensures var r := Session(cfg, url, device, name, readTags, dev);
      (r.outcome == Completed <==>
         Succeeded(dev.found, MAX_RETRIES) && Succeeded(dev.plays, PLAY_RETRIES)
         && InactiveCount(dev.states) >= DONE_POLLS)
      && (r.outcome == Completed ==>
            ExitsAt(dev.states, CountOf(r.trace, Poll)) && r.trace[|r.trace| - 1] == Disconnect)
  {
    ExitPollIff(dev.states);
    SessionShape(cfg, url, device, name, readTags, dev);
    EndingShape(dev);
    var r := Session(cfg, url, device, name, readTags, dev);
    if r.outcome == Completed {
      var prepare := Prepare(cfg, device, name, dev);
      var play := PlayCommand(cfg, url, readTags);
      var attempts := Retried(Attempts(dev.plays, PLAY_RETRIES), play, PLAY_RETRY_DELAY);
      if Poll in prepare + attempts {
        if Poll in prepare {
          PrepareActions(cfg, device, name, dev, Poll);
        } else {
          PlayActions(Attempts(dev.plays, PLAY_RETRIES), play, Poll);
        }
      }
      PollsThenTeardown(prepare + attempts, ExitPoll(dev.states).value, dev.displayName);
      assert r.trace == prepare + attempts + Repeat(POLL_STEP, ExitPoll(dev.states).value) + Teardown(dev.displayName);
    }
  }

  /**
   * A completed session closes by quitting the app only on the Default
   * Media Receiver and then disconnecting: the next-to-last action is
   * `QuitApp` exactly for that display name, the last is `Disconnect`.
   */
  lemma TeardownQuitsOnlyDefaultReceiver(cfg: Config, url: string, device: string, name: string,
                                         readTags: string -> Option<Tags>, dev: DeviceScript)
    ensures var r := Session(cfg, url, device, name, readTags, dev);
      r.outcome == Completed ==>
        |r.trace| >= 2 && r.trace[|r.trace| - 1] == Disconnect
        && (r.trace[|r.trace| - 2] == QuitApp <==> dev.displayName == DEFAULT_RECEIVER)
  {
    SessionShape(cfg, url, device, name, readTags, dev);
    EndingShape(dev);
    ExitPollIff(dev.states);
    var r := Session(cfg, url, device, name, readTags, dev);
    if r.outcome == Completed {
      var prefix := Prepare(cfg, device, name, dev)
        + Retried(Attempts(dev.plays, PLAY_RETRIES), PlayCommand(cfg, url, readTags), PLAY_RETRY_DELAY);
      assert r.trace == prefix + Repeat(POLL_STEP, ExitPoll(dev.states).value) + Teardown(dev.displayName);
      TeardownTail(prefix, ExitPoll(dev.states).value, dev.displayName);
    }
  }

  /** After at least one poll, the teardown's quit is the next-to-last action exactly on the Default Media Receiver. */
  lemma TeardownTail(prefix: seq<Action>, n: nat, displayName: string)
    requires n >= 1
    ensures var t := prefix + Repeat(POLL_STEP, n) + Teardown(displayName);
      |t| >= 2 && t[|t| - 1] == Disconnect
      && (t[|t| - 2] == QuitApp <==> displayName == DEFAULT_RECEIVER)
  {
    var polls := Repeat(POLL_STEP, n);
    assert polls == Repeat(POLL_STEP, n - 1) + POLL_STEP;
    assert polls[|polls| - 1] == Poll;
    var t := prefix + polls + Teardown(displayName);
    if displayName == DEFAULT_RECEIVER {
      assert t == prefix + polls + [QuitApp, Disconnect];
    } else {
      assert t == prefix + polls + [Disconnect];
      assert t[|t| - 2] == polls[|polls| - 1];
    }
  }

  /** The device is disconnected iff the session completed. */
  lemma DisconnectOnlyOnCompletion(cfg: Config, url: string, device: string, name: string,
                                   readTags: string -> Option<Tags>, dev: DeviceScript)
    ensures var r := Session(cfg, url, device, name, readTags, dev);
      Disconnect in r.trace <==> r.outcome == Completed
  {
    SessionShape(cfg, url, device, name, readTags, dev);
    EndingShape(dev);
    var r := Session(cfg, url, device, name, readTags, dev);
    var n := Attempts(dev.found, MAX_RETRIES);
    if Disconnect in r.trace && r.outcome != Completed {
      if !Succeeded(dev.found, MAX_RETRIES) {
        InRetried(n, Discover(device), RETRY_DELAY, Disconnect);
      } else {
        var play := PlayCommand(cfg, url, readTags);
        var attempts := Retried(Attempts(dev.plays, PLAY_RETRIES), play, PLAY_RETRY_DELAY);
        if Disconnect in Prepare(cfg, device, name, dev) {
          PrepareActions(cfg, device, name, dev, Disconnect);
        } else if Disconnect in attempts {
          PlayActions(Attempts(dev.plays, PLAY_RETRIES), play, Disconnect);
        } else {
          EndingActions(dev, Disconnect);
        }
      }
    }
  }

  /**
   * Waiting for a stopped streaming app is bounded: the session sleeps one
   * second at a time at most 30 times, and only after stopping such an app.
   */
  lemma IdleWaitBounded(cfg: Config, url: string, device: string, name: string,
                        readTags: string -> Option<Tags>, dev: DeviceScript)
    ensures var r := Session(cfg, url, device, name, readTags, dev);
      CountOf(r.trace, Sleep(1)) <= IDLE_TIMEOUT
      && (!IsStreaming(dev.appId) ==> Sleep(1) !in r.trace)
  {
    var found := Attempts(dev.found, MAX_RETRIES);
    var discovery := Retried(found, Discover(device), RETRY_DELAY);
    if Sleep(1) in discovery {
      InRetried(found, Discover(device), RETRY_DELAY, Sleep(1));
    }
    if Succeeded(dev.found, MAX_RETRIES) {
      FoundTrace(cfg, url, device, name, readTags, dev);
      IdleSleepsAfterFound(dev, VolumeFor(cfg, name), PlayCommand(cfg, url, readTags), discovery);
    } else {
      CountAbsent(discovery, Sleep(1));
    }
  }

  /** The one-second sleeps of a session in which the device was found all come from the idle wait. */
  lemma IdleSleepsAfterFound(dev: DeviceScript, volume: Volume, play: Action, discovery: seq<Action>)
    requires play.Play? && Sleep(1) !in discovery
    ensures var t := discovery + (Preempt(dev.appId, dev.idle) + [SetVolume(volume)]
      + Retried(Attempts(dev.plays, PLAY_RETRIES), play, PLAY_RETRY_DELAY) + Ending(dev).trace);
      CountOf(t, Sleep(1)) <= IDLE_TIMEOUT && (!IsStreaming(dev.appId) ==> Sleep(1) !in t)
  {
    var preempt := Preempt(dev.appId, dev.idle);
    var attempts := Retried(Attempts(dev.plays, PLAY_RETRIES), play, PLAY_RETRY_DELAY);
    var rest := [SetVolume(volume)] + attempts + Ending(dev).trace;
    var t := discovery + (preempt + [SetVolume(volume)] + attempts + Ending(dev).trace);
    assert t == discovery + preempt + rest;
    if Sleep(1) in rest {
      if Sleep(1) in attempts {
        PlayActions(Attempts(dev.plays, PLAY_RETRIES), play, Sleep(1));
      } else if Sleep(1) in Ending(dev).trace {
        EndingActions(dev, Sleep(1));
      }
    }
    CountAbsent(discovery, Sleep(1));
    CountAbsent(rest, Sleep(1));
    PreemptSleeps(dev.appId, dev.idle);
    CountConcat(discovery, preempt, Sleep(1));
    CountConcat(discovery + preempt, rest, Sleep(1));
  }
}
