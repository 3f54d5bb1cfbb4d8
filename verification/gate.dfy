/** The send gate `sendText` (main.go:213-239): the global limiter, then the
    cooldown of the (sender, key of the reply text) pair, then the send. */
module Gate {
  import opened Types
  import opened Command
  import opened PairSpec
  import opened Cooldown

  /** "⏱️ Rustig aan! Je moet even wachten tot je dit commando weer kan gebruiken." (main.go:227), the one notice of a cooldown window, as UTF-8. */
  const CooldownNotice: Bytes := [
    0xE2, 0x8F, 0xB1, 0xEF, 0xB8, 0x8F, 0x20, 0x52, 0x75, 0x73, 0x74, 0x69,
    0x67, 0x20, 0x61, 0x61, 0x6E, 0x21, 0x20, 0x4A, 0x65, 0x20, 0x6D, 0x6F,
    0x65, 0x74, 0x20, 0x65, 0x76, 0x65, 0x6E, 0x20, 0x77, 0x61, 0x63, 0x68,
    0x74, 0x65, 0x6E, 0x20, 0x74, 0x6F, 0x74, 0x20, 0x6A, 0x65, 0x20, 0x64,
    0x69, 0x74, 0x20, 0x63, 0x6F, 0x6D, 0x6D, 0x61, 0x6E, 0x64, 0x6F, 0x20,
    0x77, 0x65, 0x65, 0x72, 0x20, 0x6B, 0x61, 0x6E, 0x20, 0x67, 0x65, 0x62,
    0x72, 0x75, 0x69, 0x6B, 0x65, 0x6E, 0x2E]

  /** What reaches the chat, if anything, and the tracker afterwards. */
  datatype Gated = Gated(sent: Option<Bytes>, tracker: Tracker)

  /** One call of `sendText(jid, text)`. `allow` is the answer of
      `globalLimiter.Allow()`; `now` is the clock `tooSoon` reads. */
  function SendText(t: Tracker, jid: Jid, text: Bytes, allow: bool, now: int): (r: Gated)
    // a limiter denial sends nothing and leaves the cooldowns alone
    ensures !allow ==> r == Gated(None, t)
    ensures allow ==>
      var key := ExtractCommand(text);
      var s := View(t, jid, key);
      // no window running: the reply goes out as it is
      && (!InWindow(s, now) ==> r.sent == Some(text))
      // first attempt inside the window: only the fixed notice goes out
      && (InWindow(s, now) && !s.notified ==> r.sent == Some(CooldownNotice))
      // later attempts inside the window: nothing goes out
      && (InWindow(s, now) && s.notified ==> r.sent == None)
      // the pair of the reply's key moves as the two-state machine says
      && View(r.tracker, jid, key) == Evaluate(s, now).state
      // no other pair is touched
      && (forall j, c :: j != jid || c != key ==>
            LastUsed(r.tracker, j, c) == LastUsed(t, j, c) && Notified(r.tracker, j, c) == Notified(t, j, c))
  {
    if !allow then
      Gated(None, t)
    else
      var cmd := ExtractCommand(text);
      var step := TooSoon(t, jid, cmd, now);
      match step.decision
      case SuppressWithNotice => Gated(Some(CooldownNotice), step.tracker)
      case SuppressSilently => Gated(None, step.tracker)
      case Admit => Gated(Some(text), step.tracker)
  }
}
