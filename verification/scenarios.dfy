/** Consequences of the model for whole messages: which cooldown bucket each
    reply of the bot falls in; three `/metrics` within five seconds; a
    `/players` with nobody online; and two failed queries sharing one
    bucket. */
module Scenarios {
  import opened Types
  import opened Text
  import opened Command
  import opened PairSpec
  import opened Cooldown
  import opened Gate
  import opened Handler

  /** Every metrics reply, whatever the figures, shares the bucket named by
      its first 20 bytes, "📊 *Palworld Serve". */
  lemma MetricsReplyKey(fields: Bytes)
    ensures ExtractCommand(MetricsHeader + fields) == MetricsHeader[..FallbackWidth]
  {
    KeyOfHeader(MetricsHeader, fields, 20);
  }

  /** Every non-empty player list, whatever its entries, falls in the bucket
      "🧑‍💻 *Online " (its first 20 bytes). */
  lemma PlayerListKey(players: seq<Player>, entry: Player -> Bytes)
    requires |players| > 0
    ensures ExtractCommand(PlayersReply(players, entry)) == ListHeader[..FallbackWidth]
  {
    var body := JoinEntries(Shown(players), entry)
                + (if |players| >= MaxShown then TruncationNotice else []);
    assert PlayersReply(players, entry) == ListHeader + body;
    KeyOfHeader(ListHeader, body, 20);
  }

  /** The two error replies begin with the same 20 bytes, "❌ Fout bij ophalen",
      so they fall in the same bucket: the key is taken from the reply text,
      not from the command that was asked. */
  lemma ErrorRepliesShareKey()
    ensures ExtractCommand(MetricsError) == ExtractCommand(PlayersError)
  {
    assert MetricsError + [] == MetricsError && PlayersError + [] == PlayersError;
    KeyOfHeader(MetricsError, [], 21);
    KeyOfHeader(PlayersError, [], 21);
    assert MetricsError[..FallbackWidth] == PlayersError[..FallbackWidth];
  }

  /** With the limiter passing, a routed message is exactly a `sendText` of
      its reply from the sender to the chat. */
  lemma HandleIsSendText(
    t: Tracker, ev: Event, now: int, metrics: Result<Metrics>, players: Result<seq<Player>>,
    tpl: Templates, reply: Bytes)
    requires Reply(MessageText(ev.message), metrics, players, tpl) == Some(reply)
    ensures var h := HandleMessage(t, ev, true, now, metrics, players, tpl);
            var g := SendText(t, ev.sender, reply, true, now);
            && h.tracker == g.tracker
            && h.sent == (if g.sent.None? then None else Some(Outbound(ev.chat, g.sent.value)))
  {
  }

  /** A sender asks `/metrics` three times within five seconds while the
      query succeeds and the limiter passes: the first gets the figures, the
      second the cooldown notice, the third nothing. */
  lemma MetricsThreeTimes(
    t: Tracker, ev: Event, players: Result<seq<Player>>, tpl: Templates,
    m1: Metrics, m2: Metrics, m3: Metrics, t0: int, t1: int, t2: int)
    requires TrimSpace(MessageText(ev.message)) == MetricsCommand
    requires !InWindow(View(t, ev.sender, MetricsHeader[..FallbackWidth]), t0)
    requires t0 <= t1 <= t2 <= t0 + 5_000_000_000
    ensures var h1 := HandleMessage(t, ev, true, t0, Ok(m1), players, tpl);
            var h2 := HandleMessage(h1.tracker, ev, true, t1, Ok(m2), players, tpl);
            var h3 := HandleMessage(h2.tracker, ev, true, t2, Ok(m3), players, tpl);
            && h1.sent == Some(Outbound(ev.chat, MetricsHeader + tpl.metricsFields(m1)))
            && h2.sent == Some(Outbound(ev.chat, CooldownNotice))
            && h3.sent == None
  {
    var key := MetricsHeader[..FallbackWidth];
    var text := MessageText(ev.message);
    var r1, r2, r3 := MetricsHeader + tpl.metricsFields(m1), MetricsHeader + tpl.metricsFields(m2),
                      MetricsHeader + tpl.metricsFields(m3);
    MetricsReplyKey(tpl.metricsFields(m1));
    MetricsReplyKey(tpl.metricsFields(m2));
    MetricsReplyKey(tpl.metricsFields(m3));

    var h1 := HandleMessage(t, ev, true, t0, Ok(m1), players, tpl);
    HandleIsSendText(t, ev, t0, Ok(m1), players, tpl, r1);
    var g1 := SendText(t, ev.sender, r1, true, t0);
    assert g1.sent == Some(r1);
    assert View(g1.tracker, ev.sender, key) == Active(t0, false);

    var h2 := HandleMessage(h1.tracker, ev, true, t1, Ok(m2), players, tpl);
    HandleIsSendText(h1.tracker, ev, t1, Ok(m2), players, tpl, r2);
    var g2 := SendText(h1.tracker, ev.sender, r2, true, t1);
    assert g2.sent == Some(CooldownNotice);
    assert View(g2.tracker, ev.sender, key) == Active(t0, true);

    HandleIsSendText(h2.tracker, ev, t2, Ok(m3), players, tpl, r3);
    var g3 := SendText(h2.tracker, ev.sender, r3, true, t2);
    assert g3.sent == None;
  }

  /** A failed `/metrics` followed within the window by a failed `/players`
      from the same sender: the second error reply is replaced by the
      cooldown notice, because both errors share one bucket. */
  lemma FailedQueriesShareCooldown(
    t: Tracker, ev1: Event, ev2: Event, metrics: Result<Metrics>, players: Result<seq<Player>>,
    tpl: Templates, t0: int, t1: int)
    requires TrimSpace(MessageText(ev1.message)) == MetricsCommand
    requires TrimSpace(MessageText(ev2.message)) == PlayersCommand
    requires ev1.sender == ev2.sender
    requires !InWindow(View(t, ev1.sender, ExtractCommand(MetricsError)), t0)
    requires t0 <= t1 < t0 + Window
    ensures var h1 := HandleMessage(t, ev1, true, t0, Err, players, tpl);
            var h2 := HandleMessage(h1.tracker, ev2, true, t1, metrics, Err, tpl);
            && h1.sent == Some(Outbound(ev1.chat, MetricsError))
            && h2.sent == Some(Outbound(ev2.chat, CooldownNotice))
  {
    var key := ExtractCommand(MetricsError);
    ErrorRepliesShareKey();
    assert Reply(MessageText(ev1.message), Err, players, tpl) == Some(MetricsError);
    assert Reply(MessageText(ev2.message), metrics, Err, tpl) == Some(PlayersError);
    var h1 := HandleMessage(t, ev1, true, t0, Err, players, tpl);
    HandleIsSendText(t, ev1, t0, Err, players, tpl, MetricsError);
    var g1 := SendText(t, ev1.sender, MetricsError, true, t0);
    assert g1.sent == Some(MetricsError);
    assert View(g1.tracker, ev1.sender, key) == Active(t0, false);
    HandleIsSendText(h1.tracker, ev2, t1, metrics, Err, tpl, PlayersError);
    var g2 := SendText(h1.tracker, ev2.sender, PlayersError, true, t1);
    assert g2.sent == Some(CooldownNotice);
  }

  /** `/players` with nobody online answers with the fixed string once both
      gates pass. */
  lemma EmptyPlayerList(t: Tracker, ev: Event, now: int, metrics: Result<Metrics>, tpl: Templates)
    requires TrimSpace(MessageText(ev.message)) == PlayersCommand
    requires !InWindow(View(t, ev.sender, ExtractCommand(NoPlayers)), now)
    ensures HandleMessage(t, ev, true, now, metrics, Ok([]), tpl).sent == Some(Outbound(ev.chat, NoPlayers))
  {
  }

  /** Exactly ten players already bring the truncation notice. */
  lemma TenPlayersTruncated(players: seq<Player>, entry: Player -> Bytes)
    requires |players| == MaxShown
    ensures PlayersReply(players, entry) ==
              ListHeader + JoinEntries(players, entry) + TruncationNotice
  {
  }

  /** "/players 1 2" */
  const PlayersWithArguments: Bytes := [0x2F, 0x70, 0x6C, 0x61, 0x79, 0x65, 0x72, 0x73, 0x20, 0x31, 0x20, 0x32]

  /** "/players\targs" */
  const PlayersWithTab: Bytes := [0x2F, 0x70, 0x6C, 0x61, 0x79, 0x65, 0x72, 0x73, 0x09, 0x61, 0x72, 0x67, 0x73]

  /** "hello world this tex" */
  const ChatterKey: Bytes := [
    0x68, 0x65, 0x6C, 0x6C, 0x6F, 0x20, 0x77, 0x6F, 0x72, 0x6C, 0x64, 0x20,
    0x74, 0x68, 0x69, 0x73, 0x20, 0x74, 0x65, 0x78]

  /** "t exceeds twenty chars" */
  const ChatterTail: Bytes := [
    0x74, 0x20, 0x65, 0x78, 0x63, 0x65, 0x65, 0x64, 0x73, 0x20, 0x74, 0x77,
    0x65, 0x6E, 0x74, 0x79, 0x20, 0x63, 0x68, 0x61, 0x72, 0x73]

  /** "   hello world this text exceeds twenty chars" */
  const Chatter: Bytes := [Space, Space, Space] + (ChatterKey + ChatterTail)

  /** Arguments after the first space are not part of the key. */
  lemma ExtractCommandDropsArguments()
    ensures ExtractCommand(PlayersWithArguments) == PlayersCommand
  {
    KeyOfCommand(PlayersWithArguments, 8);
    assert PlayersWithArguments[..8] == PlayersCommand;
  }

  /** Only a space byte splits a command: a tab stays in the key. */
  lemma ExtractCommandKeepsTab()
    ensures ExtractCommand(PlayersWithTab) == PlayersWithTab
  {
    KeyOfCommand(PlayersWithTab, |PlayersWithTab|);
    assert PlayersWithTab[..|PlayersWithTab|] == PlayersWithTab;
  }

  /** Chatter is trimmed, then cut to its first 20 bytes. */
  lemma ExtractCommandCutsChatter()
    ensures ExtractCommand(Chatter) == ChatterKey
  {
    var pad: Bytes := [Space, Space, Space];
    var t := ChatterKey + ChatterTail;
    assert Chatter[..3] == pad && Chatter[3..] == t;
    assert Chatter[3..3 + |t|] == t;
    assert t[0] == ChatterKey[0] && t[|t| - 1] == ChatterTail[|ChatterTail| - 1];
    assert TrimAt(t, Chatter, 3);
    KeyOfChatter(Chatter, t);
    assert t[..FallbackWidth] == ChatterKey;
  }
}
