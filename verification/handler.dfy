/** `handleMessage` (main.go:131-203): pick the text of the inbound message,
    route on the exact trimmed command, build the reply from the result of
    the status query, and hand it to the send gate. */
module Handler {
  import opened Types
  import opened Text
  import opened Command
  import opened PairSpec
  import opened Cooldown
  import opened Gate

  /** `PalworldMetrics` (main.go:49-56); floats are reals. */
  datatype Metrics = Metrics(
    serverFps: int, currentPlayerNum: int, serverFrameTime: real,
    maxPlayerNum: int, uptime: int, days: int)

  /** `Player` (main.go:62-72). */
  datatype Player = Player(
    name: Bytes, accountName: Bytes, playerId: Bytes, userId: Bytes, ip: Bytes,
    ping: real, locationX: real, locationY: real, level: int)

  /** The parts of an inbound message the bot reads: the plain conversation
      text (empty when unset) and the text of an extended text message. */
  datatype Message = Message(conversation: Bytes, extendedText: Option<Bytes>)

  /** An inbound message event: who sent it, in which chat, and what. */
  datatype Event = Event(sender: Jid, chat: Jid, message: Message)

  /** The parts of the replies that format floats (`%.2f`, `%.1f`), left as
      given renderers: the metrics fields after the fixed header, and one
      player entry. */
  datatype Templates = Templates(metricsFields: Metrics -> Bytes, playerEntry: Player -> Bytes)

  // Fixed texts of the bot, as the UTF-8 bytes of the Go literals.

  /** "[onbekend berichttype]": the placeholder for a message of any other type (main.go:140). */
  const UnknownMessage: Bytes := [
    0x5B, 0x6F, 0x6E, 0x62, 0x65, 0x6B, 0x65, 0x6E, 0x64, 0x20, 0x62, 0x65,
    0x72, 0x69, 0x63, 0x68, 0x74, 0x74, 0x79, 0x70, 0x65, 0x5D]

  /** "/metrics" */
  const MetricsCommand: Bytes := [0x2F, 0x6D, 0x65, 0x74, 0x72, 0x69, 0x63, 0x73]

  /** "/players" */
  const PlayersCommand: Bytes := [0x2F, 0x70, 0x6C, 0x61, 0x79, 0x65, 0x72, 0x73]

  /** "📊 *Palworld Serverstatus*\n\n": the start of every metrics reply (main.go:151). */
  const MetricsHeader: Bytes := [
    0xF0, 0x9F, 0x93, 0x8A, 0x20, 0x2A, 0x50, 0x61, 0x6C, 0x77, 0x6F, 0x72,
    0x6C, 0x64, 0x20, 0x53, 0x65, 0x72, 0x76, 0x65, 0x72, 0x73, 0x74, 0x61,
    0x74, 0x75, 0x73, 0x2A, 0x0A, 0x0A]

  /** "❌ Fout bij ophalen van serverstatus.": the reply when the metrics query fails (main.go:146). */
  const MetricsError: Bytes := [
    0xE2, 0x9D, 0x8C, 0x20, 0x46, 0x6F, 0x75, 0x74, 0x20, 0x62, 0x69, 0x6A,
    0x20, 0x6F, 0x70, 0x68, 0x61, 0x6C, 0x65, 0x6E, 0x20, 0x76, 0x61, 0x6E,
    0x20, 0x73, 0x65, 0x72, 0x76, 0x65, 0x72, 0x73, 0x74, 0x61, 0x74, 0x75,
    0x73, 0x2E]

  /** "❌ Fout bij ophalen van spelerslijst.": the reply when the players query fails (main.go:168). */
  const PlayersError: Bytes := [
    0xE2, 0x9D, 0x8C, 0x20, 0x46, 0x6F, 0x75, 0x74, 0x20, 0x62, 0x69, 0x6A,
    0x20, 0x6F, 0x70, 0x68, 0x61, 0x6C, 0x65, 0x6E, 0x20, 0x76, 0x61, 0x6E,
    0x20, 0x73, 0x70, 0x65, 0x6C, 0x65, 0x72, 0x73, 0x6C, 0x69, 0x6A, 0x73,
    0x74, 0x2E]

  /** "🕵️ Geen spelers online.": the reply when nobody is online (main.go:173). */
  const NoPlayers: Bytes := [
    0xF0, 0x9F, 0x95, 0xB5, 0xEF, 0xB8, 0x8F, 0x20, 0x47, 0x65, 0x65, 0x6E,
    0x20, 0x73, 0x70, 0x65, 0x6C, 0x65, 0x72, 0x73, 0x20, 0x6F, 0x6E, 0x6C,
    0x69, 0x6E, 0x65, 0x2E]

  /** "🧑‍💻 *Online spelers:*\n\n": the start of every player list (main.go:178). */
  const ListHeader: Bytes := [
    0xF0, 0x9F, 0xA7, 0x91, 0xE2, 0x80, 0x8D, 0xF0, 0x9F, 0x92, 0xBB, 0x20,
    0x2A, 0x4F, 0x6E, 0x6C, 0x69, 0x6E, 0x65, 0x20, 0x73, 0x70, 0x65, 0x6C,
    0x65, 0x72, 0x73, 0x3A, 0x2A, 0x0A, 0x0A]

  /** "\n\n": the blank line between two entries (main.go:194). */
  const Separator: Bytes := [0x0A, 0x0A]

  /** "... (max 10 weergegeven)": written after the tenth entry (main.go:197). */
  const TruncationNotice: Bytes := [
    0x2E, 0x2E, 0x2E, 0x20, 0x28, 0x6D, 0x61, 0x78, 0x20, 0x31, 0x30, 0x20,
    0x77, 0x65, 0x65, 0x72, 0x67, 0x65, 0x67, 0x65, 0x76, 0x65, 0x6E, 0x29]

  /** At most this many players are listed. */
  const MaxShown: nat := 10

  /** The conversation text if it is not empty, else the extended text,
      else a fixed placeholder (main.go:134-141). */
  function MessageText(m: Message): Bytes
  {
    if m.conversation != [] then m.conversation
    else match m.extendedText
      case Some(t) => t
      case None => UnknownMessage
  }

  /** Player entries with a blank line between consecutive ones. */
  function JoinEntries(ps: seq<Player>, entry: Player -> Bytes): Bytes
  {
    if |ps| == 0 then []
    else if |ps| == 1 then entry(ps[0])
    else entry(ps[0]) + Separator + JoinEntries(ps[1..], entry)
  }

  /** Adding one more entry to a non-empty listing adds a separator and it. */
  lemma {:induction false} JoinEntriesSnoc(ps: seq<Player>, p: Player, entry: Player -> Bytes)
    requires |ps| > 0
    ensures JoinEntries(ps + [p], entry) == JoinEntries(ps, entry) + Separator + entry(p)
  {
    if |ps| == 1 {
      assert (ps + [p])[1..] == [p];
    } else {
      assert (ps + [p])[1..] == ps[1..] + [p];
      JoinEntriesSnoc(ps[1..], p, entry);
    }
  }

  /** The players that get an entry: the first ten. */
  function Shown(ps: seq<Player>): (shown: seq<Player>)
    ensures |shown| == if |ps| < MaxShown then |ps| else MaxShown
    ensures shown == ps[..|shown|]
  {
    if |ps| <= MaxShown then ps else ps[..MaxShown]
  }

  /** The reply to `/players` when the query succeeded (main.go:172-200):
      the fixed string for an empty list; else the header, the entries of the
      first ten players separated by blank lines, and the truncation notice
      when there are ten players or more. */
  function PlayersReply(players: seq<Player>, entry: Player -> Bytes): Bytes
  {
    if |players| == 0 then NoPlayers
    else ListHeader + JoinEntries(Shown(players), entry)
         + (if |players| >= MaxShown then TruncationNotice else [])
  }

  /** Once ten players are listed, whoever comes after them changes nothing
      in the reply. */
  lemma PlayersBeyondTenthIgnored(players: seq<Player>, extra: seq<Player>, entry: Player -> Bytes)
    requires |players| >= MaxShown
    ensures PlayersReply(players + extra, entry) == PlayersReply(players, entry)
  {
    assert (players + extra)[..MaxShown] == players[..MaxShown];
  }

  /** The loop of main.go:177-200 that builds the player list. */
  method RenderPlayers(players: seq<Player>, entry: Player -> Bytes) returns (reply: Bytes)
    ensures reply == PlayersReply(players, entry)
  {
    if |players| == 0 {
      return NoPlayers;
    }
    var list := ListHeader;
    var i := 0;
    while i < |players|
      invariant 0 <= i <= |players| && i < MaxShown
      invariant list == ListHeader + JoinEntries(players[..i], entry)
                        + (if 0 < i < |players| then Separator else [])
      decreases |players| - i
    {
      list := list + entry(players[i]);
      if i < |players| - 1 && i < 9 {
        list := list + Separator;
      }
      if i >= 9 {
        list := list + TruncationNotice;
        break;
      }
      if 0 < i {
        JoinEntriesSnoc(players[..i], players[i], entry);
      }
      assert players[..i + 1] == players[..i] + [players[i]];
      i := i + 1;
    }
    if i < |players| {
      // left by the break at the tenth entry, which followed a separator
      JoinEntriesSnoc(players[..9], players[9], entry);
      assert players[..10] == players[..9] + [players[9]];
      assert Shown(players) == players[..10];
      assert list == ListHeader + JoinEntries(Shown(players), entry) + TruncationNotice;
    } else {
      assert players[..i] == players;
      assert Shown(players) == players;
      assert list == ListHeader + JoinEntries(Shown(players), entry);
    }
    reply := list;
  }

  /** The reply a message asks for, if any: routing is an exact comparison
      of the trimmed text with the two commands; the status query can fail. */
  function Reply(text: Bytes, metrics: Result<Metrics>, players: Result<seq<Player>>, tpl: Templates): (r: Option<Bytes>)
    ensures r.Some? <==> TrimSpace(text) == MetricsCommand || TrimSpace(text) == PlayersCommand
    ensures TrimSpace(text) == MetricsCommand ==>
      r == Some(if metrics.Err? then MetricsError else MetricsHeader + tpl.metricsFields(metrics.value))
    ensures TrimSpace(text) == PlayersCommand ==>
      r == Some(if players.Err? then PlayersError else PlayersReply(players.value, tpl.playerEntry))
  {
    assert MetricsCommand != PlayersCommand by { assert MetricsCommand[1] != PlayersCommand[1]; }
    var command := TrimSpace(text);
    if command == MetricsCommand then
      match metrics
      case Err => Some(MetricsError)
      case Ok(m) => Some(MetricsHeader + tpl.metricsFields(m))
    else if command == PlayersCommand then
      match players
      case Err => Some(PlayersError)
      case Ok(ps) => Some(PlayersReply(ps, tpl.playerEntry))
    else
      None
  }

  /** A message sent to a chat. */
  datatype Outbound = Outbound(chat: Jid, text: Bytes)

  datatype Handled = Handled(sent: Option<Outbound>, tracker: Tracker)

  /** One `handleMessage` call. `metrics` and `players` stand for what the
      status query would return; only the one the command asks for is used.
      `allow` and `now` are the limiter's answer and the clock. */
  function HandleMessage(
    t: Tracker, ev: Event, allow: bool, now: int,
    metrics: Result<Metrics>, players: Result<seq<Player>>, tpl: Templates): (r: Handled)
    // only the two exact commands lead to any send or any cooldown change
    ensures var command := TrimSpace(MessageText(ev.message));
      command != MetricsCommand && command != PlayersCommand ==> r == Handled(None, t)
    // a limiter denial sends nothing and changes nothing
    ensures !allow ==> r == Handled(None, t)
    // with the limiter passing, the cooldown of the sender under the key of
    // the REPLY text decides between the reply, the notice and silence
    ensures var reply := Reply(MessageText(ev.message), metrics, players, tpl);
      allow && reply.Some? ==>
        var key := ExtractCommand(reply.value);
        var s := View(t, ev.sender, key);
        && r.sent == (if !InWindow(s, now) then Some(Outbound(ev.chat, reply.value))
                      else if !s.notified then Some(Outbound(ev.chat, CooldownNotice))
                      else None)
        && View(r.tracker, ev.sender, key) == Evaluate(s, now).state
        && forall j, c :: j != ev.sender || c != key ==>
             LastUsed(r.tracker, j, c) == LastUsed(t, j, c) && Notified(r.tracker, j, c) == Notified(t, j, c)
  {
    match Reply(MessageText(ev.message), metrics, players, tpl)
    case None => Handled(None, t)
    case Some(reply) =>
      var g := SendText(t, ev.sender, reply, allow, now);
      Handled(
        match g.sent
        case None => None
        case Some(text) => Some(Outbound(ev.chat, text)),
        g.tracker)
  }

  /** A message of any other type reads as the placeholder, which is neither
      command: it is never answered and never touches a cooldown. */
  lemma UnknownMessageIgnored(
    t: Tracker, ev: Event, allow: bool, now: int,
    metrics: Result<Metrics>, players: Result<seq<Player>>, tpl: Templates)
    requires ev.message.conversation == [] && ev.message.extendedText.None?
    ensures Reply(MessageText(ev.message), metrics, players, tpl) == None
    ensures HandleMessage(t, ev, allow, now, metrics, players, tpl) == Handled(None, t)
  {
    TrimSpaceKeepsTrimmed(UnknownMessage);
    assert TrimSpace(UnknownMessage) == UnknownMessage;
    assert |UnknownMessage| != |MetricsCommand| && |UnknownMessage| != |PlayersCommand|;
  }
}
