/** The cooldown tracker `tooSoon` (main.go:307-332) over the two global
    nested maps of main.go:78-79, with the wall clock as a parameter. */
module Cooldown {
  import opened Types
  import opened PairSpec

  /** A sender, as `v.Info.Sender.String()` renders it. */
  type Jid = Bytes
  /** A cooldown bucket, as `extractCommand` computes it. */
  type Cmd = Bytes

  /** `userCooldowns` and `notifiedCooldowns`: sender → bucket → value. */
  datatype Tracker = Tracker(
    userCooldowns: map<Jid, map<Cmd, int>>,
    notifiedCooldowns: map<Jid, map<Cmd, bool>>)

  /** Both maps as the process starts. */
  const Empty: Tracker := Tracker(map[], map[])

  /** The time of the last admitted send of a pair, if any. */
  function LastUsed(t: Tracker, jid: Jid, cmd: Cmd): Option<int>
  {
    if jid in t.userCooldowns && cmd in t.userCooldowns[jid] then
      Some(t.userCooldowns[jid][cmd])
    else
      None
  }

  /** The notice flag of a pair; a missing entry reads as Go's zero value. */
  predicate Notified(t: Tracker, jid: Jid, cmd: Cmd)
  {
    jid in t.notifiedCooldowns && cmd in t.notifiedCooldowns[jid] && t.notifiedCooldowns[jid][cmd]
  }

  /** The state of one pair as the two-state machine sees it. */
  function View(t: Tracker, jid: Jid, cmd: Cmd): PairState
  {
    match LastUsed(t, jid, cmd)
    case None => Idle
    case Some(last) => Active(last, Notified(t, jid, cmd))
  }

  /** Lazily creates the inner maps of a sender (main.go:311-316). */
  function InitMaps(t: Tracker, jid: Jid): (r: Tracker)
    ensures jid in r.userCooldowns && jid in r.notifiedCooldowns
    ensures forall j, c :: LastUsed(r, j, c) == LastUsed(t, j, c) && Notified(r, j, c) == Notified(t, j, c)
  {
    Tracker(
      if jid in t.userCooldowns then t.userCooldowns else t.userCooldowns[jid := map[]],
      if jid in t.notifiedCooldowns then t.notifiedCooldowns else t.notifiedCooldowns[jid := map[]])
  }

  datatype Step = Step(decision: Decision, tracker: Tracker)

  /** One call of `tooSoon(jid, cmd)` at time `now`. */
  function TooSoon(t: Tracker, jid: Jid, cmd: Cmd, now: int): (r: Step)
    // the decision table
    ensures r.decision == Admit <==>
              LastUsed(t, jid, cmd).None? || now - LastUsed(t, jid, cmd).value >= Window
    ensures r.decision == SuppressWithNotice <==> r.decision != Admit && !Notified(t, jid, cmd)
    // an admit opens a fresh window with its notice still available
    ensures r.decision == Admit ==>
              LastUsed(r.tracker, jid, cmd) == Some(now) && !Notified(r.tracker, jid, cmd)
    // a suppressed call never moves the window, and uses up the notice
    ensures r.decision != Admit ==>
              LastUsed(r.tracker, jid, cmd) == LastUsed(t, jid, cmd) && Notified(r.tracker, jid, cmd)
    // every other pair keeps both of its entries
    ensures forall j, c :: j != jid || c != cmd ==>
              LastUsed(r.tracker, j, c) == LastUsed(t, j, c) && Notified(r.tracker, j, c) == Notified(t, j, c)
    // the `(cooldown, notify)` pair Go returns: a cooldown exactly when a
    // record exists and is younger than the window, a notice only on its
    // first suppressed attempt
    ensures var running := LastUsed(t, jid, cmd).Some? && now - LastUsed(t, jid, cmd).value < Window;
            r.decision.Flags() == (running, running && !Notified(t, jid, cmd))
    // and this pair moves exactly as the two-state machine does
    ensures Transition(r.decision, View(r.tracker, jid, cmd)) == Evaluate(View(t, jid, cmd), now)
  {
    var t := InitMaps(t, jid);
    var used := t.userCooldowns[jid];
    var flags := t.notifiedCooldowns[jid];
    if cmd in used && now - used[cmd] < Window then
      var alreadyNotified := cmd in flags && flags[cmd];
      if !alreadyNotified then
        Step(SuppressWithNotice,
             t.(notifiedCooldowns := t.notifiedCooldowns[jid := flags[cmd := true]]))
      else
        Step(SuppressSilently, t)
    else
      Step(Admit, Tracker(
        t.userCooldowns[jid := used[cmd := now]],
        t.notifiedCooldowns[jid := flags[cmd := false]]))
  }

  /** One call to `tooSoon` by some handler. */
  datatype Call = Call(jid: Jid, cmd: Cmd, now: int)

  /** The decisions of a sequence of calls, one after the other. */
  function Replay(t: Tracker, calls: seq<Call>): (ds: seq<Decision>)
    ensures |ds| == |calls|
    decreases |calls|
  {
    if calls == [] then []
    else
      var step := TooSoon(t, calls[0].jid, calls[0].cmd, calls[0].now);
      [step.decision] + Replay(step.tracker, calls[1..])
  }

  /** The times of the calls made for one pair. */
  function TimesOf(calls: seq<Call>, jid: Jid, cmd: Cmd): seq<int>
  {
    if calls == [] then []
    else if calls[0].jid == jid && calls[0].cmd == cmd then
      [calls[0].now] + TimesOf(calls[1..], jid, cmd)
    else
      TimesOf(calls[1..], jid, cmd)
  }

  /** The decisions taken for one pair. */
  function DecisionsOf(ds: seq<Decision>, calls: seq<Call>, jid: Jid, cmd: Cmd): seq<Decision>
    requires |ds| == |calls|
  {
    if calls == [] then []
    else if calls[0].jid == jid && calls[0].cmd == cmd then
      [ds[0]] + DecisionsOf(ds[1..], calls[1..], jid, cmd)
    else
      DecisionsOf(ds[1..], calls[1..], jid, cmd)
  }

  /** Pairs do not interfere: what one pair is told over any interleaving
      of calls is what the two-state machine says for that pair's calls alone. */
  lemma {:induction false} ReplayProjects(t: Tracker, calls: seq<Call>, jid: Jid, cmd: Cmd)
    ensures DecisionsOf(Replay(t, calls), calls, jid, cmd) == Run(View(t, jid, cmd), TimesOf(calls, jid, cmd))
    decreases |calls|
  {
    if calls != [] {
      var c := calls[0];
      var step := TooSoon(t, c.jid, c.cmd, c.now);
      var ds := Replay(t, calls);
      assert ds[1..] == Replay(step.tracker, calls[1..]);
      ReplayProjects(step.tracker, calls[1..], jid, cmd);
      if c.jid == jid && c.cmd == cmd {
        assert TimesOf(calls, jid, cmd)[1..] == TimesOf(calls[1..], jid, cmd);
      } else {
        assert View(step.tracker, jid, cmd) == View(t, jid, cmd);
      }
    }
  }

  /** The promise of the cooldown notice, over any sequence of calls from
      process start: for every pair, no notice comes before its first admit,
      and no two notices come without an admit of that pair between them. */
  lemma NoticeOncePerWindow(calls: seq<Call>, jid: Jid, cmd: Cmd)
    ensures OneNoticePerWindow(DecisionsOf(Replay(Empty, calls), calls, jid, cmd))
    ensures NoticeFollowsAdmit(DecisionsOf(Replay(Empty, calls), calls, jid, cmd))
  {
    ReplayProjects(Empty, calls, jid, cmd);
    OneNoticeFromIdle(TimesOf(calls, jid, cmd));
  }
}
