/**
 * Processes as the daemon sees them, and the sliding crash window shared
 * by both script managers: at most 5 restarts within 300 seconds.
 */
module CrashWindow {

  /** What `poll()` reports: still running, or exited with a code. */
  datatype ProcStatus = Running | Exited(code: int)

  /** A child process the daemon started. */
  datatype Proc = Proc(pid: nat, status: ProcStatus)

  /**
   * How an attempt to run a script goes: the spawn raises, or the process
   * ends with an exit code, or a run with a timeout times out. A spawned
   * process that is not waited for is running whatever comes after.
   */
  datatype RunOutcome = SpawnFails | Finished(code: int) | TimedOut

  /** A process launch: the command line and its working directory. */
  datatype Launch = Launch(argv: seq<string>, cwd: string)

  const RestartLimit: nat := 5

  /** The window in seconds. */
  const RestartWindow: int := 300

  /** The timestamps younger than the window at `now`, in order. */
  function Recent(history: seq<int>, now: int): (r: seq<int>)
    ensures |r| <= |history|
    ensures forall i | 0 <= i < |r| :: r[i] in history && now - r[i] < RestartWindow
    ensures forall i | 0 <= i < |history| && now - history[i] < RestartWindow :: history[i] in r
  {
    if history == [] then []
    else
      var rest := Recent(history[..|history| - 1], now);
      var ts := history[|history| - 1];
      assert forall i | 0 <= i < |history| - 1 :: history[..|history| - 1][i] == history[i];
      if now - ts < RestartWindow then rest + [ts] else rest
  }

  /** One timestamp is kept exactly when it is inside the window. */
  lemma RecentSingle(t: int, now: int)
    ensures Recent([t], now) == if now - t < RestartWindow then [t] else []
  {
    assert [t][..0] == [];
  }

  /** Filtering a concatenation filters each part and keeps them in order, so order and repeats are kept. */
  lemma {:induction false} RecentConcat(a: seq<int>, b: seq<int>, now: int)
    ensures Recent(a + b, now) == Recent(a, now) + Recent(b, now)
  {
    if b == [] {
      assert a + b == a;
    } else {
      var init := b[..|b| - 1];
      assert (a + b)[..|a + b| - 1] == a + init;
      RecentConcat(a, init, now);
    }
  }

  /** The history after a restart at `now`: the recent timestamps, then `now`. */
  function Recorded(history: seq<int>, now: int): (r: seq<int>)
    ensures |r| >= 1 && r[|r| - 1] == now
  {
    Recent(history, now) + [now]
  }

  /** A restart at `now` goes ahead when the recorded history holds at most the limit. */
  predicate Allowed(history: seq<int>, now: int)
  {
    |Recorded(history, now)| <= RestartLimit
  }

  /** The history after restarts at `times`, in order. */
  function HistoryAfter(history: seq<int>, times: seq<int>): seq<int>
  {
    if times == [] then history else Recorded(HistoryAfter(history, times[..|times| - 1]), times[|times| - 1])
  }

  /** When every timestamp is younger than the window, none is dropped. */
  lemma {:induction false} RecentKeepsYoung(history: seq<int>, now: int)
    requires forall i | 0 <= i < |history| :: now - history[i] < RestartWindow
    ensures Recent(history, now) == history
    decreases |history|
  {
    if history != [] {
      RecentKeepsYoung(history[..|history| - 1], now);
      assert history[..|history| - 1] + [history[|history| - 1]] == history;
    }
  }

  /** When every timestamp is at least the window old, a restart starts a fresh history and is allowed. */
  lemma OldCrashesForgotten(history: seq<int>, now: int)
    requires forall i | 0 <= i < |history| :: now - history[i] >= RestartWindow
    ensures Recorded(history, now) == [now] && Allowed(history, now)
  {
    RecentDropsOld(history, now);
  }

  lemma {:induction false} RecentDropsOld(history: seq<int>, now: int)
    requires forall i | 0 <= i < |history| :: now - history[i] >= RestartWindow
    ensures Recent(history, now) == []
    decreases |history|
  {
    if history != [] {
      RecentDropsOld(history[..|history| - 1], now);
    }
  }

  /** Restarts that all fall within one window keep every timestamp. */
  lemma {:induction false} BurstKeepsAll(times: seq<int>)
    requires forall i, j | 0 <= i < |times| && 0 <= j < |times| :: times[i] - times[j] < RestartWindow
    ensures HistoryAfter([], times) == times
    decreases |times|
  {
    if times != [] {
      var init := times[..|times| - 1];
      var last := times[|times| - 1];
      BurstKeepsAll(init);
      RecentKeepsYoung(init, last);
      assert init + [last] == times;
    }
  }

  /**
   * Within one window, restart number `k` (from 0) goes ahead exactly when
   * `k < 5`: six restarts give five that go ahead, then a refusal.
   */
  lemma BurstAllowsFive(times: seq<int>, k: nat)
    requires k < |times|
    requires forall i, j | 0 <= i < |times| && 0 <= j < |times| :: times[i] - times[j] < RestartWindow
    ensures Allowed(HistoryAfter([], times[..k]), times[k]) <==> k < RestartLimit
  {
    var prefix := times[..k];
    BurstKeepsAll(prefix);
    RecentKeepsYoung(prefix, times[k]);
  }
}
