/** The cooldown of one (sender, command) pair as an explicit two-state
    machine: no record yet, or a window opened by the last admitted send,
    with a flag saying whether the one notice of that window went out.
    This is the reference the nested-map tracker of main.go:307-332 is
    proved against. Times are nanoseconds, the unit of Go's `time.Duration`. */
module PairSpec {

  /** `30*time.Second` (main.go:319). */
  const Window: int := 30_000_000_000

  datatype PairState = Idle | Active(since: int, notified: bool)

  /** The three answers of `tooSoon`. */
  datatype Decision = Admit | SuppressWithNotice | SuppressSilently
  {
    /** The `(cooldown, notify)` pair `tooSoon` returns for this decision. */
    function Flags(): (bool, bool)
    {
      match this
      case Admit => (false, false)
      case SuppressWithNotice => (true, true)
      case SuppressSilently => (true, false)
    }
  }

  datatype Transition = Transition(decision: Decision, state: PairState)

  /** The cooldown of this pair is still running at `now`. */
  predicate InWindow(s: PairState, now: int)
  {
    s.Active? && now - s.since < Window
  }

  /** One evaluation: admit and open a fresh window when there is no window
      running; inside a window, the first attempt earns the notice and later
      ones are dropped silently, and none of them moves the window. */
  function Evaluate(s: PairState, now: int): (r: Transition)
    ensures r.decision == Admit <==> !InWindow(s, now)
    ensures r.decision == Admit ==> r.state == Active(now, false)
    ensures r.decision == SuppressWithNotice <==> InWindow(s, now) && !s.notified
    ensures r.decision != Admit ==> r.state == s.(notified := true)
  {
    if InWindow(s, now) then
      if s.notified then Transition(SuppressSilently, s)
      else Transition(SuppressWithNotice, s.(notified := true))
    else
      Transition(Admit, Active(now, false))
  }

  /** The decisions for a sequence of evaluations of one pair. */
  function Run(s: PairState, times: seq<int>): (ds: seq<Decision>)
    ensures |ds| == |times|
    decreases |times|
  {
    if times == [] then []
    else
      var step := Evaluate(s, times[0]);
      [step.decision] + Run(step.state, times[1..])
  }

  /** A decision sequence in which every notice is paid for by the admit
      before it: `allowed` says whether the window open at the start may
      still produce its notice. */
  predicate Paced(ds: seq<Decision>, allowed: bool)
  {
    if ds == [] then true
    else match ds[0]
      case Admit => Paced(ds[1..], true)
      case SuppressWithNotice => allowed && Paced(ds[1..], false)
      case SuppressSilently => Paced(ds[1..], allowed)
  }

  /** Between any two notices there is an admit. */
  ghost predicate OneNoticePerWindow(ds: seq<Decision>)
  {
    forall i, j :: 0 <= i < j < |ds| && ds[i] == SuppressWithNotice && ds[j] == SuppressWithNotice ==>
      exists k :: i < k < j && ds[k] == Admit
  }

  /** Every notice comes after some admit. */
  ghost predicate NoticeFollowsAdmit(ds: seq<Decision>)
  {
    forall j :: 0 <= j < |ds| && ds[j] == SuppressWithNotice ==>
      exists k :: 0 <= k < j && ds[k] == Admit
  }

  /** A state can still produce a notice exactly when its window is open
      and the notice has not gone out yet. */
  predicate NoticePending(s: PairState)
  {
    s.Active? && !s.notified
  }

  /** Every run is paced, starting from the notice budget of its state. */
  lemma {:induction false} RunIsPaced(s: PairState, times: seq<int>)
    ensures Paced(Run(s, times), NoticePending(s))
    decreases |times|
  {
    if times != [] {
      var step := Evaluate(s, times[0]);
      RunIsPaced(step.state, times[1..]);
      assert Run(s, times)[1..] == Run(step.state, times[1..]);
    }
  }

  /** What pacing means, as quantified statements over positions. */
  lemma {:induction false} PacedMeans(ds: seq<Decision>, allowed: bool)
    requires Paced(ds, allowed)
    ensures OneNoticePerWindow(ds)
    ensures !allowed ==> NoticeFollowsAdmit(ds)
  {
    if ds != [] {
      var rest := ds[1..];
      var restAllowed := match ds[0]
        case Admit => true
        case SuppressWithNotice => false
        case SuppressSilently => allowed;
      PacedMeans(rest, restAllowed);
      forall i, j | 0 <= i < j < |ds| && ds[i] == SuppressWithNotice && ds[j] == SuppressWithNotice
        ensures exists k :: i < k < j && ds[k] == Admit
      {
        if i == 0 {
          // the rest starts with no notice budget, so its notice at j - 1 follows an admit
          assert rest[j - 1] == SuppressWithNotice;
          var k :| 0 <= k < j - 1 && rest[k] == Admit;
          assert ds[k + 1] == Admit;
        } else {
          assert rest[i - 1] == SuppressWithNotice && rest[j - 1] == SuppressWithNotice;
          var k :| i - 1 < k < j - 1 && rest[k] == Admit;
          assert ds[k + 1] == Admit;
        }
      }
      if !allowed {
        forall j | 0 <= j < |ds| && ds[j] == SuppressWithNotice
          ensures exists k :: 0 <= k < j && ds[k] == Admit
        {
          if ds[0] != Admit {
            assert j != 0;
            assert rest[j - 1] == SuppressWithNotice;
            var k :| 0 <= k < j - 1 && rest[k] == Admit;
            assert ds[k + 1] == Admit;
          }
        }
      }
    }
  }

  /** Exactly one notice per window: for any times whatsoever, a pair that
      starts without a record never gets a notice before its first admit,
      and never gets two notices without an admit between them. */
  lemma OneNoticeFromIdle(times: seq<int>)
    ensures OneNoticePerWindow(Run(Idle, times))
    ensures NoticeFollowsAdmit(Run(Idle, times))
  {
    RunIsPaced(Idle, times);
    PacedMeans(Run(Idle, times), false);
  }

  /** Retries inside a window whose notice already went out are all dropped
      silently and leave the window where it was. */
  lemma {:induction false} SilentWhileNotified(since: int, times: seq<int>)
    requires forall i :: 0 <= i < |times| ==> times[i] - since < Window
    ensures forall i :: 0 <= i < |times| ==> Run(Active(since, true), times)[i] == SuppressSilently
  {
    if times != [] {
      SilentWhileNotified(since, times[1..]);
      assert Run(Active(since, true), times)[1..] == Run(Active(since, true), times[1..]);
    }
  }

  /** A burst of attempts all inside 30 seconds of the first one gives one
      admit, one notice, and silence after that. */
  lemma Burst(times: seq<int>)
    requires |times| >= 2
    requires forall i :: 0 <= i < |times| ==> times[i] - times[0] < Window
    ensures Run(Idle, times)[0] == Admit
    ensures Run(Idle, times)[1] == SuppressWithNotice
    ensures forall i :: 2 <= i < |times| ==> Run(Idle, times)[i] == SuppressSilently
  {
    var t0 := times[0];
    var rest := times[2..];
    assert forall i :: 0 <= i < |rest| ==> rest[i] == times[i + 2];
    SilentWhileNotified(t0, rest);
    assert Run(Idle, times)[2..] == Run(Active(t0, true), rest);
  }
}
