/** The timer that reverts an unconfirmed window: when it may act, when it must, and how often it retries. */
module Watchdog {
  import opened Options
  import opened RevertMerge
  import opened ConfirmWindow

  const MAX_BACKOFF := 60 * SECOND
  const TWO_63 := 0x8000_0000_0000_0000

  /** Go's 64-bit duration arithmetic. */
  function Wrap64(x: int): int { (x + TWO_63) % (2 * TWO_63) - TWO_63 }

  function NextRevertBackoff(current: int, interval: int): int {
    if current <= 0 then (if interval <= 0 || interval > MAX_BACKOFF then MAX_BACKOFF else interval)
    else
      var next := Wrap64(current * 2);
      if next > MAX_BACKOFF || next <= 0 then MAX_BACKOFF else next
  }

  /** Only the failure of a revert spaces the attempts out. */
  function NextRevertPace(reply: Reply, current: int, interval: int): int {
    if reply == RevertFailed then NextRevertBackoff(current, interval) else 0
  }

  /** The variables of the loop: the spacing, and the instant before which a tick is skipped. */
  datatype Watch = Watch(backoff: int, next: Option<int>)

  predicate Skips(v: Watch, mono: int) { v.next.Some? && mono < v.next.value }

  function AfterAttempt(v: Watch, reply: Reply, mono: int, interval: int): Watch {
    if reply == Done then Watch(0, None)
    else
      var backoff := NextRevertPace(reply, v.backoff, interval);
      Watch(backoff, if backoff > 0 then Some(mono + backoff) else None)
  }

  function Pow2(n: nat): nat { if n == 0 then 1 else 2 * Pow2(n - 1) }

  function Min(a: int, b: int): int { if a <= b then a else b }

  /** The spacing after `k` failed reverts in a row. */
  function BackoffAfter(k: nat, interval: int): int {
    if k == 0 then 0 else NextRevertBackoff(BackoffAfter(k - 1, interval), interval)
  }

  /** It starts at the timer's interval, doubles, and stops at a minute; it never overflows. */
  lemma {:induction false} BackoffDoublesToAMinute(k: nat, interval: int)
    requires 0 < interval <= MAX_BACKOFF && k > 0
    ensures BackoffAfter(k, interval) == Min(MAX_BACKOFF, interval * Pow2(k - 1))
    ensures 0 < BackoffAfter(k, interval) <= MAX_BACKOFF
  {
    if k == 1 {
      assert BackoffAfter(0, interval) == 0;
      assert Pow2(0) == 1;
    } else {
      BackoffDoublesToAMinute(k - 1, interval);
      Doubling(interval, Pow2(k - 2));
      var b := BackoffAfter(k - 1, interval);
      NoOverflow(b);
    }
  }

  lemma Doubling(x: int, p: nat)
    ensures x * (2 * p) == 2 * (x * p)
  {
  }

  lemma NoOverflow(x: int)
    requires 0 < x <= MAX_BACKOFF
    ensures Wrap64(x * 2) == x * 2
  {
  }

  // ----- when a tick acts

  predicate OwnWindow(w: World) {
    w.pending.Some? && !w.pending.value.reverting && w.deadline.Some? && w.deadline.value.id == w.pending.value.id
  }

  /** From its deadline on every check attempts the revert, whatever the wall clock says. */
  lemma AttemptedOnceExpired(w: World, f: Faults, now: int, mono: int)
    requires OwnWindow(w) && mono >= w.deadline.value.at
    ensures CheckExpired(w, true, f, now, mono) == Revert(w, f)
  {
  }

  /** Everything else that happens to the world while the timer runs. */
  datatype Operation =
    | Opens(readOk: bool, clearOk: bool, saveOk: bool, now: int)
    | Confirms(id: WindowId, clearOk: bool)
    | Discards(id: WindowId, clearOk: bool)
    | Marks(id: WindowId, ok: bool)
    | Reverts(id: WindowId, f: Faults)
    | Boots(readOk: bool, f: Faults)
    | Finishes(clearOk: bool)
    | Writes(db: Snapshot)
    | Reconciles

  ghost function Operated(w: World, o: Operation, mono: int): World {
    match o
    case Opens(readOk, clearOk, saveOk, now) => OpenWindow(w, readOk, clearOk, saveOk, now, mono).0
    case Confirms(id, clearOk) => Confirm(w, id, clearOk).0
    case Discards(id, clearOk) => Discard(w, id, clearOk).0
    case Marks(id, ok) => MarkApplied(w, id, ok)
    case Reverts(id, f) => RevertById(w, id, f).0
    case Boots(readOk, f) => RevertOnBoot(w, readOk, f).0
    case Finishes(clearOk) => FinishSettled(w, clearOk).0
    case Writes(db) => w.(db := db)
    case Reconciles => w.(live := w.db)
  }

  predicate Opening(w: World, o: Operation, mono: int) {
    o.Opens? && OpenWindow(w, o.readOk, o.clearOk, o.saveOk, o.now, mono).1 == Done
  }

  /**
   The process: its world, its timer, the monotonic clock, and whether the window now open
   has been attempted since its deadline.
   */
  datatype Process = Process(w: World, v: Watch, mono: int, tried: bool)

  /** A tick reads the clock before, during and after its check. */
  datatype Event =
    | Tick(readOk: bool, f: Faults, now: int, m1: int, m2: int, m3: int)
    | Elsewhere(o: Operation, m: int)

  ghost predicate Advances(p: Process, e: Event, interval: int, q: Process) {
    match e
    case Tick(readOk, f, now, m1, m2, m3) =>
      && p.mono <= m1 <= m2 <= m3
      && if Skips(p.v, m1) then q == p.(mono := m1)
         else
           var (w, reply) := CheckExpired(p.w, readOk, f, now, m2);
           q == Process(w, AfterAttempt(p.v, reply, m3, interval), m3,
                        p.tried || (readOk && OwnWindow(p.w) && m2 >= p.w.deadline.value.at))
    case Elsewhere(o, m) =>
      p.mono <= m && q == Process(Operated(p.w, o, m), p.v, m, p.tried && !Opening(p.w, o, m))
  }

  /** A life of the process, from a start in which it has opened no window. */
  datatype Life = Born(p: Process) | Later(before: Life, e: Event, p: Process)

  function Now(l: Life): Process { l.p }

  ghost predicate Lives(l: Life, interval: int) {
    match l
    case Born(p) => p.v == Watch(0, None) && p.w.deadline == None
    case Later(before, e, p) => Lives(before, interval) && Advances(Now(before), e, interval, p)
  }

  /** The instant at which the last window was opened. */
  function OpenedAt(l: Life): int {
    match l
    case Born(_) => 0
    case Later(before, e, _) =>
      if e.Elsewhere? && Opening(Now(before).w, e.o, e.m) then e.m else OpenedAt(before)
  }

  /** Only opening a window sets a deadline, and only the end of a window forgets it. */
  lemma DeadlineAfter(w: World, o: Operation, mono: int)
    ensures var v := Operated(w, o, mono);
      if Opening(w, o, mono) then v.deadline.Some? && v.deadline.value.at == mono + CONFIRM_WINDOW
      else v.deadline == w.deadline || v.deadline == None
    ensures OwnWindow(Operated(w, o, mono)) && !Opening(w, o, mono) ==> OwnWindow(w)
  {
    if o.Reverts? && w.pending.Some? { DeadlineAfterRevert(w, o.f); }
    if o.Boots? && w.pending.Some? { DeadlineAfterRevert(w, o.f); }
  }

  lemma DeadlineAfterRevert(w: World, f: Faults)
    requires w.pending.Some?
    ensures var v := Revert(w, f).0;
      (v.deadline == w.deadline || v.deadline == None) && (OwnWindow(v) ==> OwnWindow(w) && v.deadline == w.deadline)
  {
  }

  lemma {:induction false} DeadlineIsNinetySecondsLater(l: Life, interval: int)
    requires Lives(l, interval)
    ensures Now(l).w.deadline.Some? ==> Now(l).w.deadline.value.at == OpenedAt(l) + CONFIRM_WINDOW
  {
    if l.Later? {
      DeadlineIsNinetySecondsLater(l.before, interval);
      var w := Now(l.before).w;
      match l.e
      case Tick(_, f, _, _, _, _) => if w.pending.Some? { DeadlineAfterRevert(w, f); }
      case Elsewhere(o, m) => DeadlineAfter(w, o, m);
    }
  }

  /**
   Through any life, and whatever the wall clock says, a check that touches a window opened in
   this process comes at least 90 seconds, by the monotonic clock, after it was opened.
   */
  lemma NeverRevertedEarly(l: Life, interval: int, readOk: bool, f: Faults, now: int, mono: int)
    requires Lives(l, interval) && OwnWindow(Now(l).w)
    ensures CheckExpired(Now(l).w, readOk, f, now, mono) != (Now(l).w, if readOk then Done else Broken)
            ==> mono >= OpenedAt(l) + CONFIRM_WINDOW
  {
    DeadlineIsNinetySecondsLater(l, interval);
  }

  /** Nothing the timer waits for outlasts a minute, nor the deadline of a window it has not attempted yet. */
  ghost predicate Timely(p: Process) {
    && (p.v.next.Some? ==> p.v.next.value <= p.mono + MAX_BACKOFF)
    && (OwnWindow(p.w) && !p.tried && p.v.next.Some? ==> p.v.next.value < p.w.deadline.value.at)
  }

  lemma BackoffIsShort(v: Watch, reply: Reply, interval: int)
    ensures NextRevertPace(reply, v.backoff, interval) <= MAX_BACKOFF
  {
  }

  /** A check opens no window: one of this process that is open afterwards was open before. */
  lemma SameWindowAfterCheck(w: World, readOk: bool, f: Faults, now: int, mono: int)
    requires OwnWindow(CheckExpired(w, readOk, f, now, mono).0)
    ensures OwnWindow(w) && w.deadline == CheckExpired(w, readOk, f, now, mono).0.deadline
  {
    if w.pending.Some? { DeadlineAfterRevert(w, f); }
  }

  lemma StepIsTimely(p: Process, e: Event, interval: int, q: Process)
    requires Timely(p) && Advances(p, e, interval, q)
    ensures Timely(q)
  {
    match e
    case Tick(readOk, f, now, m1, m2, m3) =>
      if !Skips(p.v, m1) {
        var (w, reply) := CheckExpired(p.w, readOk, f, now, m2);
        BackoffIsShort(p.v, reply, interval);
        if OwnWindow(w) && !q.tried { SameWindowAfterCheck(p.w, readOk, f, now, m2); }
      }
    case Elsewhere(o, m) => DeadlineAfter(p.w, o, m);
  }

  lemma {:induction false} EveryLifeIsTimely(l: Life, interval: int)
    requires Lives(l, interval)
    ensures Timely(Now(l))
  {
    if l.Later? {
      EveryLifeIsTimely(l.before, interval);
      StepIsTimely(Now(l.before), l.e, interval, l.p);
    }
  }

  /**
   Whatever earlier windows and failures the timer went through, the first tick at least 90
   seconds after the opening of a window is not skipped, and it attempts the revert.
   */
  lemma FirstTickAfterDeadlineAttempts(l: Life, interval: int, f: Faults, now: int, m1: int, m2: int)
    requires Lives(l, interval) && OwnWindow(Now(l).w) && !Now(l).tried
    requires OpenedAt(l) + CONFIRM_WINDOW <= m1 <= m2
    ensures !Skips(Now(l).v, m1)
    ensures CheckExpired(Now(l).w, true, f, now, m2) == Revert(Now(l).w, f)
  {
    EveryLifeIsTimely(l, interval);
    DeadlineIsNinetySecondsLater(l, interval);
    AttemptedOnceExpired(Now(l).w, f, now, m2);
  }

  /** A failed revert asks for at most a minute of patience. */
  lemma PatienceAfterFailure(v: Watch, failedAt: int, interval: int)
    requires interval > 0
    ensures var u := AfterAttempt(v, RevertFailed, failedAt, interval);
            u.next.Some? && failedAt < u.next.value <= failedAt + MAX_BACKOFF
  {
  }

  /** One tick of the loop and what its check would answer at that moment. */
  datatype Beat = Beat(mono: int, reply: Reply, after: int)

  function WatchAfter(beats: seq<Beat>, interval: int): Watch
    decreases |beats|
  {
    if beats == [] then Watch(0, None)
    else
      var v := WatchAfter(beats[..|beats| - 1], interval);
      var b := beats[|beats| - 1];
      if Skips(v, b.mono) then v else AfterAttempt(v, b.reply, b.after, interval)
  }

  /** The ticks at which a check runs. */
  function Attempts(beats: seq<Beat>, interval: int): seq<nat>
    decreases |beats|
  {
    if beats == [] then []
    else
      var n := |beats| - 1;
      Attempts(beats[..n], interval) + (if Skips(WatchAfter(beats[..n], interval), beats[n].mono) then [] else [n])
  }

  /** A tick is attempted exactly when it comes at or after what the last failure before it asked for. */
  lemma {:induction false} AttemptedIffNotSkipped(beats: seq<Beat>, interval: int, i: nat)
    requires i < |beats|
    ensures i in Attempts(beats, interval) <==> !Skips(WatchAfter(beats[..i], interval), beats[i].mono)
    decreases |beats|
  {
    var n := |beats| - 1;
    if i < n {
      AttemptedIffNotSkipped(beats[..n], interval, i);
      assert beats[..n][..i] == beats[..i];
    } else {
      AttemptsAreTicks(beats[..n], interval);
    }
  }

  lemma {:induction false} AttemptsAreTicks(beats: seq<Beat>, interval: int)
    ensures forall k | k in Attempts(beats, interval) :: k < |beats|
    decreases |beats|
  {
    if beats != [] { AttemptsAreTicks(beats[..|beats| - 1], interval); }
  }

  /** The loop itself, over the ticks it receives. */
  method WatchPending(beats: seq<Beat>, interval: int) returns (attempts: seq<nat>)
    ensures attempts == Attempts(beats, interval)
  {
    attempts := [];
    var backoff, next := 0, None;
    for t := 0 to |beats|
      invariant Watch(backoff, next) == WatchAfter(beats[..t], interval)
      invariant attempts == Attempts(beats[..t], interval)
    {
      var b := beats[t];
      assert beats[..t + 1][..t] == beats[..t];
      if next.Some? && b.mono < next.value { continue; }
      attempts := attempts + [t];
      if b.reply == Done {
        backoff, next := 0, None;
        continue;
      }
      backoff := NextRevertPace(b.reply, backoff, interval);
      next := if backoff > 0 then Some(b.after + backoff) else None;
    }
    assert beats[..|beats|] == beats;
  }

  // ----- the spacing of the loop's attempts

  /** How many attempts in a row, up to the last one, ended in a failed revert. */
  function Streak(beats: seq<Beat>, interval: int): nat
    decreases |beats|
  {
    if beats == [] then 0
    else
      var n := |beats| - 1;
      if Skips(WatchAfter(beats[..n], interval), beats[n].mono) then Streak(beats[..n], interval)
      else if beats[n].reply == RevertFailed then Streak(beats[..n], interval) + 1
      else 0
  }

  /**
   After `k` failed attempts in a row, skipped ticks between them or not, the loop waits what the k-th doubling says.
   */
  lemma {:induction false} BackoffOfTheLoop(beats: seq<Beat>, interval: int)
    ensures WatchAfter(beats, interval).backoff == BackoffAfter(Streak(beats, interval), interval)
    decreases |beats|
  {
    if beats != [] { BackoffOfTheLoop(beats[..|beats| - 1], interval); }
  }

  lemma LoopBackoffDoublesToAMinute(beats: seq<Beat>, interval: int)
    requires 0 < interval <= MAX_BACKOFF && Streak(beats, interval) > 0
    ensures WatchAfter(beats, interval).backoff == Min(MAX_BACKOFF, interval * Pow2(Streak(beats, interval) - 1))
  {
    BackoffOfTheLoop(beats, interval);
    BackoffDoublesToAMinute(Streak(beats, interval), interval);
  }

  /** Ticks come at most one interval after the loop is ready for them; a skipped tick takes no time. */
  ghost predicate Regular(beats: seq<Beat>, interval: int) {
    && (forall k | 0 <= k < |beats| :: beats[k].mono <= beats[k].after)
    && (forall k: nat | k < |beats| && Skips(WatchAfter(beats[..k], interval), beats[k].mono) ::
         beats[k].after == beats[k].mono)
    && (forall k | 0 < k < |beats| :: beats[k].mono <= beats[k - 1].after + interval)
  }

  lemma NotAttemptedIsSkipped(beats: seq<Beat>, interval: int, i: nat, j: nat)
    requires i < j <= |beats| && forall k | i < k < j :: k !in Attempts(beats, interval)
    ensures forall k: nat | i < k < j :: Skips(WatchAfter(beats[..k], interval), beats[k].mono)
  {
    forall k: nat | i < k < j ensures Skips(WatchAfter(beats[..k], interval), beats[k].mono) {
      AttemptedIffNotSkipped(beats, interval, k);
    }
  }

  /** Between an attempt and the tick `j`, all skipped, the loop waits for the same instant. */
  lemma {:induction false} WaitsForTheSame(beats: seq<Beat>, interval: int, i: nat, j: nat)
    requires i < j <= |beats| && forall k | i < k < j :: k !in Attempts(beats, interval)
    ensures WatchAfter(beats[..j], interval) == WatchAfter(beats[..i + 1], interval)
  {
    if i + 1 < j {
      WaitsForTheSame(beats, interval, i, j - 1);
      AttemptedIffNotSkipped(beats, interval, j - 1);
      SkippedChangesNothing(beats, interval, j - 1);
    }
  }

  lemma SkippedChangesNothing(beats: seq<Beat>, interval: int, k: nat)
    requires k < |beats| && Skips(WatchAfter(beats[..k], interval), beats[k].mono)
    ensures WatchAfter(beats[..k + 1], interval) == WatchAfter(beats[..k], interval)
  {
    assert beats[..k + 1][..k] == beats[..k];
  }

  lemma WaitAfterAttempt(beats: seq<Beat>, interval: int, i: nat)
    requires i in Attempts(beats, interval) && i < |beats|
    ensures var v := WatchAfter(beats[..i + 1], interval);
      v.next.Some? ==> v.next.value <= beats[i].after + MAX_BACKOFF
  {
    AttemptedIffNotSkipped(beats, interval, i);
    assert beats[..i + 1][..i] == beats[..i];
    BackoffIsShort(WatchAfter(beats[..i], interval), beats[i].reply, interval);
  }

  /** Consecutive attempts of the loop are less than a minute and an interval apart. */
  lemma AttemptsAreClose(beats: seq<Beat>, interval: int, i: nat, j: nat)
    requires interval > 0 && Regular(beats, interval) && i < j < |beats|
    requires i in Attempts(beats, interval) && forall k | i < k < j :: k !in Attempts(beats, interval)
    ensures beats[j].mono < beats[i].after + MAX_BACKOFF + interval
  {
    if i + 1 < j {
      WaitAfterAttempt(beats, interval, i);
      NotAttemptedIsSkipped(beats, interval, i, j);
      WaitsForTheSame(beats, interval, i, j - 1);
    }
  }

  /** And while ticks keep coming there is a next one. */
  lemma {:induction false} NextAttemptComes(beats: seq<Beat>, interval: int, i: nat) returns (j: nat)
    requires i in Attempts(beats, interval) && i + 1 < |beats|
    requires beats[|beats| - 1].mono >= beats[i].after + MAX_BACKOFF
    ensures i < j < |beats| && j in Attempts(beats, interval)
    ensures forall k | i < k < j :: k !in Attempts(beats, interval)
  {
    WaitAfterAttempt(beats, interval, i);
    j := i + 1;
    while j !in Attempts(beats, interval)
      invariant i < j < |beats| && forall k | i < k < j :: k !in Attempts(beats, interval)
      decreases |beats| - j
    {
      if j == |beats| - 1 {
        WaitsForTheSame(beats, interval, i, j);
        AttemptedIffNotSkipped(beats, interval, j);
      }
      j := j + 1;
    }
  }

  /** After a failed revert the loop does wait what it asked for: the next attempt comes no earlier. */
  lemma AttemptsAreSpaced(beats: seq<Beat>, interval: int, i: nat, j: nat)
    requires 0 < interval <= MAX_BACKOFF && i < j < |beats| && beats[i].reply == RevertFailed
    requires i in Attempts(beats, interval) && j in Attempts(beats, interval)
    requires forall k | i < k < j :: k !in Attempts(beats, interval)
    ensures var k := Streak(beats[..i + 1], interval);
      k > 0 && beats[j].mono >= beats[i].after + Min(MAX_BACKOFF, interval * Pow2(k - 1))
  {
    AttemptedIffNotSkipped(beats, interval, i);
    AttemptedIffNotSkipped(beats, interval, j);
    WaitsForTheSame(beats, interval, i, j);
    assert beats[..i + 1][..i] == beats[..i];
    LoopBackoffDoublesToAMinute(beats[..i + 1], interval);
    BackoffDoublesToAMinute(Streak(beats[..i + 1], interval), interval);
  }
}
