/**
 The failure window of the passive health checker in pkg/healthcheck/healthcheck.go. The checker
 keeps a list of failures for each target, cuts off the old end of it when it looks at a target
 and counts what is left. Requests run at the same time; what a request does under the lock is one
 event, and the start of a window is read before the lock is taken.
 */
module PassiveHealth {
  import opened Wrappers

  predicate Sorted(s: seq<int>) {
    forall i, j :: 0 <= i <= j < |s| ==> s[i] <= s[j]
  }

  predicate AllOld(s: seq<int>, windowStart: int) {
    forall i :: 0 <= i < |s| ==> s[i] <= windowStart
  }

  predicate AllNew(s: seq<int>, windowStart: int) {
    forall i :: 0 <= i < |s| ==> s[i] > windowStart
  }

  function Newest(times: seq<int>): int
    requires times != []
  {
    times[|times| - 1]
  }

  /** How many of the times lie inside the window. */
  function Recent(times: seq<int>, windowStart: int): nat {
    if times == [] then 0
    else Recent(times[..|times| - 1], windowStart) + if times[|times| - 1] > windowStart then 1 else 0
  }

  /** The list from its first time inside the window on; the whole list when none is inside. */
  function Cut(times: seq<int>, windowStart: int): seq<int> {
    CutFrom(times, windowStart, 0)
  }

  function CutFrom(times: seq<int>, windowStart: int, i: nat): seq<int>
    requires i <= |times|
    decreases |times| - i
  {
    if i == |times| then times
    else if times[i] > windowStart then times[i..]
    else CutFrom(times, windowStart, i + 1)
  }

  lemma {:induction false} RecentConcat(a: seq<int>, b: seq<int>, windowStart: int)
    ensures Recent(a + b, windowStart) == Recent(a, windowStart) + Recent(b, windowStart)
    decreases |b|
  {
    if b == [] {
      assert a + b == a;
    } else {
      RecentConcat(a, b[..|b| - 1], windowStart);
      assert (a + b)[..|a + b| - 1] == a + b[..|b| - 1];
    }
  }

  lemma {:induction false} NoneRecent(times: seq<int>, windowStart: int)
    requires AllOld(times, windowStart)
    ensures Recent(times, windowStart) == 0
    decreases |times|
  {
    if times != [] {
      NoneRecent(times[..|times| - 1], windowStart);
    }
  }

  lemma {:induction false} AllRecent(times: seq<int>, windowStart: int)
    requires AllNew(times, windowStart)
    ensures Recent(times, windowStart) == |times|
    decreases |times|
  {
    if times != [] {
      AllRecent(times[..|times| - 1], windowStart);
    }
  }

  lemma SplitCount(times: seq<int>, windowStart: int, i: nat)
    requires i <= |times| && AllOld(times[..i], windowStart) && AllNew(times[i..], windowStart)
    ensures Recent(times, windowStart) == |times| - i
  {
    assert times == times[..i] + times[i..];
    RecentConcat(times[..i], times[i..], windowStart);
    NoneRecent(times[..i], windowStart);
    AllRecent(times[i..], windowStart);
  }

  lemma TailIsNew(times: seq<int>, windowStart: int, i: nat)
    requires Sorted(times) && i < |times| && times[i] > windowStart
    ensures AllNew(times[i..], windowStart) && |times| - |times[i..]| == i
  {
    forall j | 0 <= j < |times[i..]| ensures times[i..][j] > windowStart {
      assert times[i] <= times[i + j];
    }
  }

  /** Cutting a sorted list whose newest time is inside the window leaves exactly the times inside. */
  lemma {:induction false} CutsTheOld(times: seq<int>, windowStart: int, i: nat)
    requires Sorted(times) && i < |times| && Newest(times) > windowStart
    requires AllOld(times[..i], windowStart)
    ensures var r := CutFrom(times, windowStart, i);
            && r != [] && |r| <= |times| && r == times[|times| - |r|..]
            && AllOld(times[..|times| - |r|], windowStart) && AllNew(r, windowStart)
            && |r| == Recent(times, windowStart)
    decreases |times| - i
  {
    if times[i] > windowStart {
      TailIsNew(times, windowStart, i);
      SplitCount(times, windowStart, i);
    } else {
      assert times[..i + 1] == times[..i] + [times[i]];
      CutsTheOld(times, windowStart, i + 1);
    }
  }

  /** Nothing is cut off when every time is outside the window. */
  lemma {:induction false} CutsNothing(times: seq<int>, windowStart: int, i: nat)
    requires i <= |times| && AllOld(times, windowStart)
    ensures CutFrom(times, windowStart, i) == times
    decreases |times| - i
  {
    if i < |times| {
      CutsNothing(times, windowStart, i + 1);
    }
  }

  lemma CutIsSuffix(times: seq<int>, windowStart: int)
    requires Sorted(times)
    ensures var r := Cut(times, windowStart);
            && |r| <= |times| && r == times[|times| - |r|..] && (r == [] <==> times == [])
            && AllOld(times[..|times| - |r|], windowStart)
  {
    if times != [] && Newest(times) > windowStart {
      CutsTheOld(times, windowStart, 0);
    } else {
      CutsNothing(times, windowStart, 0);
    }
  }

  // ---------------------------------------------------------------------------
  // The events at one target
  // ---------------------------------------------------------------------------

  /** What the requests to one target do under the lock, in the order in which they get it. */
  datatype Event = Success | Failure(at: int) | Look(windowStart: int)

  function Before(run: seq<Event>): seq<Event>
    requires run != []
  {
    run[..|run| - 1]
  }

  function Last(run: seq<Event>): Event
    requires run != []
  {
    run[|run| - 1]
  }

  /** All failures since the last success. */
  function Failures(run: seq<Event>): seq<int> {
    if run == [] then []
    else match Last(run)
      case Success => []
      case Failure(at) => Failures(Before(run)) + [at]
      case Look(_) => Failures(Before(run))
  }

  /** The list the checker holds. */
  function Kept(run: seq<Event>): seq<int> {
    if run == [] then []
    else match Last(run)
      case Success => []
      case Failure(at) => Kept(Before(run)) + [at]
      case Look(windowStart) => Cut(Kept(Before(run)), windowStart)
  }

  /** Failures are timed under the lock by a clock that does not go back. */
  ghost predicate InOrder(run: seq<Event>) {
    forall i, j :: 0 <= i < j < |run| && run[i].Failure? && run[j].Failure? ==> run[i].at <= run[j].at
  }

  lemma {:induction false} FailuresAreEvents(run: seq<Event>, t: int)
    requires t in Failures(run)
    ensures exists i :: 0 <= i < |run| && run[i] == Failure(t)
    decreases |run|
  {
    if Last(run) != Failure(t) {
      FailuresAreEvents(Before(run), t);
      var i :| 0 <= i < |Before(run)| && Before(run)[i] == Failure(t);
      assert run[i] == Failure(t);
    } else {
      assert run[|run| - 1] == Failure(t);
    }
  }

  lemma {:induction false} FailuresInOrder(run: seq<Event>)
    requires InOrder(run)
    ensures Sorted(Failures(run))
    decreases |run|
  {
    if run != [] {
      FailuresInOrder(Before(run));
      if Last(run).Failure? {
        var earlier := Failures(Before(run));
        forall k | 0 <= k < |earlier| ensures earlier[k] <= Last(run).at {
          FailuresAreEvents(Before(run), earlier[k]);
        }
      }
    }
  }

  /** What the looks have cut off since the last success. */
  ghost function Dropped(run: seq<Event>): seq<int> {
    if run == [] then []
    else match Last(run)
      case Success => []
      case Failure(_) => Dropped(Before(run))
      case Look(windowStart) =>
        var kept := Kept(Before(run));
        Dropped(Before(run)) + kept[..Off(kept, windowStart)]
  }

  /** How much of the list a look cuts off. */
  function Off(times: seq<int>, windowStart: int): (n: nat)
    ensures n <= |times|
  {
    var r := Cut(times, windowStart);
    if |r| <= |times| then |times| - |r| else 0
  }

  lemma SortedParts(a: seq<int>, b: seq<int>)
    requires Sorted(a + b)
    ensures Sorted(a) && Sorted(b)
  {
    var all := a + b;
    assert forall i :: 0 <= i < |a| ==> a[i] == all[i];
    assert forall i :: 0 <= i < |b| ==> b[i] == all[|a| + i];
  }

  /** What was cut off and what is kept make up all failures, and a look never empties the list. */
  lemma {:induction false} DroppedAndKept(run: seq<Event>)
    requires InOrder(run)
    ensures Failures(run) == Dropped(run) + Kept(run) && (Kept(run) == [] ==> Failures(run) == [])
    decreases |run|
  {
    if run != [] {
      DroppedAndKept(Before(run));
      var dropped, kept := Dropped(Before(run)), Kept(Before(run));
      match Last(run)
      case Success =>
      case Failure(at) =>
        assert dropped + (kept + [at]) == (dropped + kept) + [at];
      case Look(windowStart) =>
        FailuresInOrder(Before(run));
        SortedParts(dropped, kept);
        CutIsSuffix(kept, windowStart);
        var n := Off(kept, windowStart);
        assert dropped + kept == (dropped + kept[..n]) + kept[n..];
    }
  }

  // ---------------------------------------------------------------------------
  // When the kept list counts like the full history
  // ---------------------------------------------------------------------------

  ghost predicate AnyInside(times: seq<int>, windowStart: int) {
    exists t :: t in times && t > windowStart
  }

  /** A look at `cutStart` with these failures behind it cuts off one inside the window. */
  ghost predicate CutsInside(times: seq<int>, cutStart: int, windowStart: int) {
    && times != [] && Newest(times) > cutStart
    && exists t :: t in times && windowStart < t <= cutStart
  }

  ghost predicate ForgotAt(run: seq<Event>, j: nat, windowStart: int) {
    && j < |run| && run[j].Look? && (forall i :: j <= i < |run| ==> !run[i].Success?)
    && CutsInside(Failures(run[..j]), run[j].windowStart, windowStart)
  }

  /** Since the last success, a look with a later window cut off a failure inside this window. */
  ghost predicate Forgot(run: seq<Event>, windowStart: int) {
    exists j: nat :: ForgotAt(run, j, windowStart)
  }

  lemma ForgotNext(run: seq<Event>, windowStart: int)
    requires run != []
    ensures Forgot(run, windowStart) <==>
            !Last(run).Success? &&
            (Forgot(Before(run), windowStart) ||
             (Last(run).Look? && CutsInside(Failures(Before(run)), Last(run).windowStart, windowStart)))
  {
    var n, earlier := |run| - 1, Before(run);
    forall j: nat | j < n ensures run[..j] == earlier[..j] && run[j] == earlier[j] {
    }
    if Forgot(run, windowStart) {
      var j: nat :| ForgotAt(run, j, windowStart);
      assert !run[n].Success?;
      assert j < n ==> ForgotAt(earlier, j, windowStart);
    }
    if !Last(run).Success? && Forgot(earlier, windowStart) {
      var j: nat :| ForgotAt(earlier, j, windowStart);
      forall i | j <= i < |run| ensures !run[i].Success? {
        if i < n { assert earlier[i] == run[i]; }
      }
      assert ForgotAt(run, j, windowStart);
    }
    if Last(run).Look? && CutsInside(Failures(earlier), Last(run).windowStart, windowStart) {
      assert ForgotAt(run, n, windowStart);
    }
  }

  /** A look cuts off exactly the failures up to its start, if a later one stays. */
  lemma CutOff(kept: seq<int>, cutStart: int, windowStart: int)
    requires Sorted(kept)
    ensures AnyInside(kept[..Off(kept, cutStart)], windowStart) <==> CutsInside(kept, cutStart, windowStart)
  {
    var n := Off(kept, cutStart);
    if kept != [] && Newest(kept) > cutStart {
      CutsTheOld(kept, cutStart, 0);
      assert forall t :: t in kept[..n] ==> t in kept && t <= cutStart;
      forall t | t in kept && t <= cutStart ensures t in kept[..n] {
        assert kept == kept[..n] + kept[n..];
      }
    } else {
      CutsNothing(kept, cutStart, 0);
    }
  }

  lemma InsideConcat(a: seq<int>, b: seq<int>, windowStart: int)
    ensures AnyInside(a + b, windowStart) <==> AnyInside(a, windowStart) || AnyInside(b, windowStart)
  {
    assert forall t :: t in a + b <==> t in a || t in b;
  }

  lemma LookDrops(dropped: seq<int>, kept: seq<int>, cutStart: int, windowStart: int)
    requires Sorted(kept) && (kept == [] ==> dropped == [])
    ensures AnyInside(dropped + kept[..Off(kept, cutStart)], windowStart) <==>
            AnyInside(dropped, windowStart) || CutsInside(dropped + kept, cutStart, windowStart)
  {
    var cut := kept[..Off(kept, cutStart)];
    CutOff(kept, cutStart, windowStart);
    InsideConcat(dropped, cut, windowStart);
    if kept != [] {
      assert Newest(dropped + kept) == Newest(kept);
      assert forall t :: t in dropped + kept <==> t in dropped || t in kept;
    }
  }

  /** Something inside the window was cut off exactly when some look did so. */
  lemma {:induction false} DroppedIffForgot(run: seq<Event>, windowStart: int)
    requires InOrder(run)
    ensures AnyInside(Dropped(run), windowStart) <==> Forgot(run, windowStart)
    decreases |run|
  {
    if run != [] {
      DroppedIffForgot(Before(run), windowStart);
      ForgotNext(run, windowStart);
      if Last(run).Look? {
        DroppedAndKept(Before(run));
        FailuresInOrder(Before(run));
        SortedParts(Dropped(Before(run)), Kept(Before(run)));
        LookDrops(Dropped(Before(run)), Kept(Before(run)), Last(run).windowStart, windowStart);
      }
    }
  }

  lemma {:induction false} SomeRecent(times: seq<int>, windowStart: int)
    ensures Recent(times, windowStart) > 0 <==> AnyInside(times, windowStart)
    decreases |times|
  {
    if times != [] {
      SomeRecent(times[..|times| - 1], windowStart);
      assert times == times[..|times| - 1] + [Newest(times)];
      InsideConcat(times[..|times| - 1], [Newest(times)], windowStart);
      assert Newest(times) in [Newest(times)];
    }
  }

  /** The list is too short exactly by what was cut off inside the window, unless every failure is outside it. */
  lemma CountIsOff(run: seq<Event>, windowStart: int)
    requires InOrder(run) && Failures(run) != []
    ensures var counted := |Cut(Kept(run), windowStart)|;
            if Newest(Failures(run)) > windowStart
            then Recent(Failures(run), windowStart) == counted + Recent(Dropped(run), windowStart)
            else Recent(Failures(run), windowStart) == 0 && counted == |Kept(run)| > 0
  {
    DroppedAndKept(run);
    FailuresInOrder(run);
    SortedParts(Dropped(run), Kept(run));
    assert Newest(Failures(run)) == Newest(Kept(run));
    if Newest(Failures(run)) > windowStart {
      RecentConcat(Dropped(run), Kept(run), windowStart);
      CutsTheOld(Kept(run), windowStart, 0);
    } else {
      NoneRecent(Failures(run), windowStart);
      CutsNothing(Kept(run), windowStart, 0);
    }
  }

  /**
   There was no failure since the last success, or the newest one is inside the window and no look of
   another request has cut off a failure inside it.
   */
  ghost predicate Trusted(run: seq<Event>, windowStart: int) {
    Failures(run) == [] || (Newest(Failures(run)) > windowStart && !Forgot(run, windowStart))
  }

  /** In every interleaving of requests, the kept list gives the count of the full history exactly under this condition. */
  lemma CountIsExact(run: seq<Event>, windowStart: int)
    requires InOrder(run)
    ensures |Cut(Kept(run), windowStart)| == Recent(Failures(run), windowStart) <==> Trusted(run, windowStart)
  {
    DroppedAndKept(run);
    DroppedIffForgot(run, windowStart);
    SomeRecent(Dropped(run), windowStart);
    if Failures(run) != [] {
      CountIsOff(run, windowStart);
    }
  }

  /** Window starts of the looks since the last success are not later than this one. */
  ghost predicate NoLaterLook(run: seq<Event>, windowStart: int) {
    forall j :: 0 <= j < |run| && run[j].Look? && run[j].windowStart > windowStart ==>
      exists i :: j < i < |run| && run[i].Success?
  }

  /**
   The verdict from the kept list is the verdict from the full history, when window starts do not go
   back and the newest failure is inside the window.
   */
  lemma VerdictRefines(run: seq<Event>, windowStart: int, max: int)
    requires InOrder(run) && NoLaterLook(run, windowStart)
    requires Failures(run) != [] ==> Newest(Failures(run)) > windowStart
    ensures |Cut(Kept(run), windowStart)| >= max <==> Recent(Failures(run), windowStart) >= max
  {
    CountIsExact(run, windowStart);
  }

  /** A failure is still there, or a success or a later failure came after it. */
  lemma {:induction false} NewestIsLater(run: seq<Event>, i: nat)
    requires InOrder(run) && i < |run| && run[i].Failure?
    ensures Failures(run) == [] || Newest(Failures(run)) >= run[i].at
    decreases |run|
  {
    if i < |run| - 1 && !Last(run).Success? {
      assert Before(run)[i] == run[i];
      NewestIsLater(Before(run), i);
    }
  }

  /**
   A request that judges the target within the window of its own failure, whatever other requests did in
   between: its count is that of the full history unless a look of another request with a later window has
   cut off a failure inside its own.
   */
  lemma OwnFailureJudged(run: seq<Event>, i: nat, windowStart: int)
    requires InOrder(run) && i < |run| && run[i].Failure? && run[i].at > windowStart
    ensures |Cut(Kept(run), windowStart)| == Recent(Failures(run), windowStart) <==>
            Failures(run) == [] || !Forgot(run, windowStart)
  {
    NewestIsLater(run, i);
    CountIsExact(run, windowStart);
  }

  // ---------------------------------------------------------------------------
  // The checker
  // ---------------------------------------------------------------------------

  function Get(m: map<string, seq<int>>, url: string): seq<int> {
    if url in m then m[url] else []
  }

  function Find(runs: map<string, seq<Event>>, url: string): seq<Event> {
    if url in runs then runs[url] else []
  }

  /** The checker holds for the target what its events leave. */
  ghost predicate TargetOk(runs: map<string, seq<Event>>, failures: map<string, seq<int>>, url: string) {
    InOrder(Find(runs, url)) && Get(failures, url) == Kept(Find(runs, url))
  }

  ghost predicate AllOk(runs: map<string, seq<Event>>, failures: map<string, seq<int>>) {
    forall url :: TargetOk(runs, failures, url)
  }

  /** No failure of the run is later than this time. */
  ghost predicate NotAfter(run: seq<Event>, now: int) {
    forall i :: 0 <= i < |run| && run[i].Failure? ==> run[i].at <= now
  }

  lemma EventOk(
      runs: map<string, seq<Event>>, failures: map<string, seq<int>>, url: string, e: Event, after: map<string, seq<int>>)
    requires AllOk(runs, failures) && (e.Failure? ==> NotAfter(Find(runs, url), e.at))
    requires var list := Kept(Find(runs, url) + [e]);
             after == failures[url := list] || (after == failures && Get(failures, url) == list)
    ensures AllOk(runs[url := Find(runs, url) + [e]], after)
  {
    var now := runs[url := Find(runs, url) + [e]];
    forall other ensures TargetOk(now, after, other) {
      assert TargetOk(runs, failures, other);
    }
  }

  lemma KeptNext(runs: map<string, seq<Event>>, failures: map<string, seq<int>>, url: string, e: Event)
    requires AllOk(runs, failures)
    ensures Kept(Find(runs, url) + [e]) ==
            match e
            case Success => []
            case Failure(at) => Get(failures, url) + [at]
            case Look(windowStart) => Cut(Get(failures, url), windowStart)
  {
    assert TargetOk(runs, failures, url);
    assert Before(Find(runs, url) + [e]) == Find(runs, url);
  }

  lemma LookOk(
      runs: map<string, seq<Event>>, failures: map<string, seq<int>>, url: string, windowStart: int, after: map<string, seq<int>>)
    requires AllOk(runs, failures)
    requires var list := Cut(Get(failures, url), windowStart);
             after == failures[url := list] || (after == failures && Get(failures, url) == list)
    ensures AllOk(runs[url := Find(runs, url) + [Look(windowStart)]], after)
  {
    KeptNext(runs, failures, url, Look(windowStart));
    EventOk(runs, failures, url, Look(windowStart), after);
  }

  lemma LookCounts(runs: map<string, seq<Event>>, failures: map<string, seq<int>>, url: string, windowStart: int)
    requires AllOk(runs, failures)
    ensures Get(failures, url) == Kept(Find(runs, url))
    ensures Trusted(Find(runs, url), windowStart) ==>
              |Cut(Get(failures, url), windowStart)| == Recent(Failures(Find(runs, url)), windowStart)
  {
    assert TargetOk(runs, failures, url);
    CountIsExact(Find(runs, url), windowStart);
  }

  /** The first time inside the window, or the length of the list. */
  method FirstInside(times: seq<int>, windowStart: int) returns (i: nat)
    ensures i <= |times|
    ensures Cut(times, windowStart) == if i < |times| then times[i..] else times
  {
    i := 0;
    while i < |times| && times[i] <= windowStart
      invariant i <= |times|
      invariant Cut(times, windowStart) == CutFrom(times, windowStart, i)
    {
      i := i + 1;
    }
  }

  /** The setting of statuses and the timers are not modelled. */
  class Checker {
    const maxFailedAttempts: int
    const failureWindow: int
    var failures: map<string, seq<int>>
    /** What happened at each target. */
    ghost var runs: map<string, seq<Event>>

    constructor (maxFailedAttempts: int, failureWindow: int)
      ensures this.maxFailedAttempts == maxFailedAttempts && this.failureWindow == failureWindow
      ensures Valid() && forall url :: RunOf(url) == []
    {
      this.maxFailedAttempts := maxFailedAttempts;
      this.failureWindow := failureWindow;
      failures := map[];
      runs := map[];
    }

    ghost function RunOf(url: string): seq<Event>
      reads this
    {
      Find(runs, url)
    }

    ghost predicate Valid()
      reads this
    {
      AllOk(runs, failures)
    }

    /** A response below 500 from the backend. */
    method RecordSuccess(url: string)
      requires Valid()
      modifies this
      ensures Valid() && RunOf(url) == old(RunOf(url)) + [Success]
      ensures forall other :: other != url ==> RunOf(other) == old(RunOf(other))
    {
      KeptNext(runs, failures, url, Success);
      EventOk(runs, failures, url, Success, failures[url := []]);
      failures := failures[url := []];
      runs := runs[url := RunOf(url) + [Success]];
    }

    /** Any other response; times are read under the lock, from a clock that does not go back. */
    method RecordFailure(url: string, now: int)
      requires Valid() && NotAfter(RunOf(url), now)
      modifies this
      ensures Valid() && RunOf(url) == old(RunOf(url)) + [Failure(now)]
      ensures forall other :: other != url ==> RunOf(other) == old(RunOf(other))
    {
      KeptNext(runs, failures, url, Failure(now));
      EventOk(runs, failures, url, Failure(now), failures[url := Get(failures, url) + [now]]);
      failures := failures[url := Get(failures, url) + [now]];
      runs := runs[url := RunOf(url) + [Failure(now)]];
    }

    /**
     The verdict on a target: unhealthy when the kept failures reach the maximum. It is the verdict of the
     full history unless all failures are outside the window or another look has cut off one inside it.
     The time is read before the lock is taken, so it may be earlier than events already recorded.
     */
    method Healthy(url: string, now: int) returns (healthy: bool)
      requires Valid()
      modifies this
      ensures Valid() && RunOf(url) == old(RunOf(url)) + [Look(now - failureWindow)]
      ensures forall other :: other != url ==> RunOf(other) == old(RunOf(other))
      ensures healthy <==> |Cut(Kept(old(RunOf(url))), now - failureWindow)| < maxFailedAttempts
      ensures Trusted(old(RunOf(url)), now - failureWindow) ==>
                (healthy <==> Recent(Failures(old(RunOf(url))), now - failureWindow) < maxFailedAttempts)
    {
      var windowStart := now - failureWindow;
      var times := Get(failures, url);
      LookCounts(runs, failures, url, windowStart);
      var i := FirstInside(times, windowStart);
      if i < |times| {
        failures := failures[url := times[i..]];
      }
      healthy := |Get(failures, url)| < maxFailedAttempts;
      LookOk(runs, old(failures), url, windowStart, failures);
      runs := runs[url := RunOf(url) + [Look(windowStart)]];
    }
  }

  /** One failure, older than the window: the checker keeps it, the full history does not count it. */
  lemma OneOldFailure(t: int, windowStart: int)
    requires t <= windowStart
    ensures Failures([Failure(t)]) == [t] && Recent([t], windowStart) == 0
    ensures |Cut(Kept([Failure(t)]), windowStart)| == 1
  {
    var run := [Failure(t)];
    assert Before(run) == [];
    CountIsOff(run, windowStart);
  }

  /**
   A failure judged when it is older than the window, with one failure as the maximum: the checker calls
   the target unhealthy although the full history counts no failure.
   */
  method StaleVerdict(url: string, window: int, failedAt: int, now: int) returns (c: Checker, healthy: bool)
    requires now >= failedAt + window
    ensures c.failureWindow == window && c.maxFailedAttempts == 1
    ensures c.RunOf(url) == [Failure(failedAt), Look(now - window)]
    ensures !healthy && Recent([failedAt], now - window) == 0
  {
    c := new Checker(1, window);
    c.RecordFailure(url, failedAt);
    OneOldFailure(failedAt, now - window);
    healthy := c.Healthy(url, now);
  }

  lemma FailureNext(run: seq<Event>, at: int)
    ensures Kept(run + [Failure(at)]) == Kept(run) + [at] && Failures(run + [Failure(at)]) == Failures(run) + [at]
  {
    assert Before(run + [Failure(at)]) == run;
  }

  /** Three failures, of which a look has cut off the first: a look with an earlier window misses it. */
  lemma CutByAnother(a: int, b: int, c: int, cutStart: int, windowStart: int)
    requires windowStart < a <= cutStart < b <= c
    ensures var run := [Failure(a), Failure(b), Failure(c), Look(cutStart)];
            && |Cut(Kept(run), windowStart)| == 2
            && Failures(run) == [a, b, c] && Recent([a, b, c], windowStart) == 3
  {
    var none: seq<Event> := [];
    FailureNext(none, a);
    FailureNext(none + [Failure(a)], b);
    FailureNext(none + [Failure(a)] + [Failure(b)], c);
    var three := none + [Failure(a)] + [Failure(b)] + [Failure(c)];
    var run := three + [Look(cutStart)];
    assert Kept(three) == [a, b, c] == Failures(three);
    assert Before(run) == three;
    assert Cut([a, b, c], cutStart) == CutFrom([a, b, c], cutStart, 1) == [b, c];
    assert run == [Failure(a), Failure(b), Failure(c), Look(cutStart)];
    AllRecent([a, b, c], windowStart);
  }

  method FailThrice(url: string, window: int, a: int, b: int, c: int) returns (checker: Checker)
    requires a <= b <= c
    ensures fresh(checker) && checker.Valid() && checker.failureWindow == window && checker.maxFailedAttempts == 3
    ensures checker.RunOf(url) == [Failure(a), Failure(b), Failure(c)]
  {
    checker := new Checker(3, window);
    checker.RecordFailure(url, a);
    checker.RecordFailure(url, b);
    checker.RecordFailure(url, c);
  }

  /**
   Two requests that overlap, after a failure at `a`: the first fails at `b` and reads its clock, the second
   fails at `c`, reads its clock and cuts the list, then the first judges the target healthy although three
   failures are inside its window.
   */
  method OverlappingVerdict(url: string, window: int, a: int, b: int, c: int) returns (healthy: bool)
    requires a + window <= c && b < a + window && a <= b <= c && c - window < b
    ensures healthy && Recent([a, b, c], b - window) == 3
  {
    var checker := FailThrice(url, window, a, b, c);
    var second := checker.Healthy(url, c);
    assert checker.RunOf(url) == [Failure(a), Failure(b), Failure(c), Look(c - window)];
    CutByAnother(a, b, c, c - window, b - window);
    healthy := checker.Healthy(url, b);
  }
}
