# Palworld status bot: cooldowns, command keys and replies

The bot sits in a WhatsApp chat. It answers two commands, `/metrics` and
`/players`, with the status of a Palworld game server. Each reply first
passes two gates:

- a global token-bucket limiter that allows one message per second;
- a per-sender cooldown of 30 seconds per reply bucket. The bucket is the
  key taken from the reply text about to be sent, not from the command
  typed (see below). Inside the window the sender is told once to slow
  down, and any further attempt is dropped in silence.

This project models the decision logic of `main.go`:

- `tooSoon`: the cooldown state machine on two nested maps;
- `extractCommand`: the cooldown key taken from a text;
- `sendText`: the send gate;
- `handleMessage`: the routing, the error replies and the player list with
  its ten-entry cap.

Modules, one file each:

- `Types` (`types.dfy`): bytes, `Option` and `Result`.
- `Text` (`text.dfy`): Go's `strings.TrimSpace` on ASCII whitespace, and the
  first field of `strings.SplitN(s, " ", 2)`. Trimming is defined by index.
  It is proved equal to the relational definition `IsTrimOf`: "no
  whitespace outside, the ends inside are not whitespace".
- `Command` (`command.dfy`): `extractCommand` and facts about the keys it
  gives.
- `PairSpec` (`pair_spec.dfy`): the cooldown of one (sender, key) pair as
  an abstract two-state machine, `Idle` or `Active(since, notified)`. It
  also holds the trace property of any run: an admit between any two
  notices, so at most one notice per window. For a pair with no record
  (`OneNoticeFromIdle`) there is also an admit before every notice.
- `Cooldown` (`cooldown.dfy`): `tooSoon` on the two Go maps
  `userCooldowns` and `notifiedCooldowns`. `View` reads one pair of the maps
  as a `PairState`. Each call moves that pair exactly as `PairSpec.Evaluate`
  says and leaves every other pair alone. So any interleaving of calls
  projects, pair by pair, onto runs of the abstract machine
  (`ReplayProjects`).
- `Gate` (`gate.dfy`): `sendText`.
- `Handler` (`handler.dfy`): `handleMessage`. It also holds the player-list
  loop as a method, proved equal to its functional description.
- `Scenarios` (`scenarios.dfy`): consequences for whole messages. These
  cover the bucket each reply falls into, three `/metrics` within five
  seconds, a `/players` with nobody online, and two failed queries that
  share one bucket.

Modelling choices:

- Texts are UTF-8 byte sequences. Go strings are bytes, and the "first 20
  characters" of `extractCommand` are really the first 20 bytes.
- The bot's fixed texts are written out as their UTF-8 bytes, so the keys of
  its replies can be computed.
- Time is an integer count of nanoseconds. The window is `30_000_000_000`.
- The limiter's answer (`allow`) and the clock (`now`) are parameters.
- The results of the two HTTP queries are `Result` parameters.
- The parts of the replies that format floats are given renderers
  (`Templates`).

Points where the code does something other than a quick reading suggests.
The model follows the code:

- `sendText` derives the cooldown key from the reply text it is about to
  send (main.go:221), not from the command the user typed.
  - A metrics reply therefore has the key "📊 *Palworld Serve", its first
    20 bytes (`Scenarios.MetricsReplyKey`).
  - A player list has the key "🧑‍💻 *Online " (`Scenarios.PlayerListKey`).
  - The two error replies share the key "❌ Fout bij ophalen"
    (`Scenarios.ErrorRepliesShareKey`). A failed `/metrics` and a failed
    `/players` within 30 seconds therefore share one cooldown
    (`Scenarios.FailedQueriesShareCooldown`).
  - Slash-command keys only arise for texts that begin with `/`. None of the
    bot's replies do.
- The truncation notice is appended once the tenth entry has been written,
  so it appears for exactly ten players as well (main.go:196), not only for
  more than ten.
- A command is split at the first space byte only (main.go:339), not at any
  whitespace. `/players\targs` keeps the tab in its key.

## Model

| member | source | states |
|---|---|---|
| Text.Start | main.go:335 | the index of the first non-whitespace byte at or after `i`, with only whitespace skipped |
| Text.Stop | main.go:335 | the index just past the last non-whitespace byte before `j`, with only whitespace cut off |
| Text.TrimmedAt | main.go:335 | `TrimSpace(s)` is the slice of `s` at `Start(s, 0)` that has whitespace only around it and non-whitespace ends |
| Text.TrimSpaceIsTrim | main.go:335 | `TrimSpace(s)` satisfies the relational definition of a trim of `s` |
| Text.TrimOfIsTrimSpace | main.go:335 | any `r` that is a trim of `s` equals `TrimSpace(s)`, so the trim is unique |
| Text.TrimSpaceIdempotent | main.go:335 | trimming twice is trimming once |
| Text.TrimSpaceKeepsTrimmed | main.go:335 | a text with non-whitespace ends (or empty) is its own trim |
| Text.UpTo | main.go:339-340 | the first field of `SplitN(s, " ", 2)`: the longest prefix without the separator, ending at the first separator or at the end |
| Command.ExtractCommand | main.go:334-348 | the key is a prefix of the trimmed text; for a `/` text it begins with `/`, holds no space and stops at the first space or the end; otherwise it is the trimmed text cut to 20 bytes |
| Command.ExtractCommandBounds | main.go:334-348 | a key is never longer than the text; a non-command key is at most 20 bytes; the empty text has the empty key |
| Command.KeyOfCommand | main.go:337-341 | a trimmed `/` text whose first space is at `n` has `text[..n]` as its key |
| Command.KeyOfChatter | main.go:343-346 | a text whose trim is not a command and is longer than 20 bytes has the trim's first 20 bytes as its key |
| Command.KeyOfHeader | main.go:334-348 | any text that starts with a header `h` whose first byte is neither whitespace nor `/` and which has a non-whitespace byte at some offset of 20 or more has `h[..20]` as its key, whatever follows |
| PairSpec.Evaluate | main.go:318-331 | admit exactly when no window is running, restarting it un-notified at `now`; otherwise notify exactly when not yet notified, keeping `since` and setting `notified` |
| PairSpec.Run | main.go:318-331 | a run of the machine gives one decision per call |
| PairSpec.RunIsPaced | main.go:318-331 | every run of the machine is paced, and it starts with a notice still owed exactly when the pair has a record whose notice has not gone out |
| PairSpec.PacedMeans | main.go:318-331 | a paced trace has an admit between any two notices; a paced trace that starts with no notice owed has an admit before every notice |
| PairSpec.OneNoticeFromIdle | main.go:318-331 | from a pair with no record, at any call times, there is an admit between any two notices and an admit before every notice |
| PairSpec.SilentWhileNotified | main.go:319-325 | once notified, every call still inside the window is suppressed in silence |
| PairSpec.Burst | main.go:318-331 | from a pair with no record, two or more calls all within 30 s of the first give admit, notice, then silence only |
| Cooldown.InitMaps | main.go:311-316 | the lazy creation of the inner maps puts both keys in place and changes no pair's reading |
| Cooldown.TooSoon | main.go:307-332 | admit when there is no record or 30 s have passed, storing `now` and clearing the notice flag; otherwise suppress, notifying only the first time; the pair moves as `PairSpec.Evaluate` says; no other (sender, key) pair changes |
| Cooldown.Replay | main.go:307-332 | a sequence of calls gives one decision per call |
| Cooldown.ReplayProjects | main.go:311-331 | in any interleaving of calls, the decisions for one pair are those of the abstract machine run on that pair's call times alone |
| Cooldown.NoticeOncePerWindow | main.go:318-331 | from the empty maps, in any interleaving, each (sender, key) pair has an admit between any two of its notices and an admit before each one |
| Gate.SendText | main.go:213-239 | a limiter denial sends nothing and changes nothing; otherwise the reply goes out when no window runs, the fixed notice on the first attempt inside it, nothing afterwards; the reply key's pair moves as the machine says and nothing else changes |
| Handler.UnknownMessageIgnored | main.go:134-143 | a message with no conversation text and no extended text reads as the placeholder, which routes to no reply, so nothing is sent and no cooldown moves |
| Handler.Shown | main.go:179-199 | the listed players are the first `min(n, 10)` |
| Handler.PlayersBeyondTenthIgnored | main.go:193-199 | with ten or more players, players after the tenth do not change the reply |
| Handler.RenderPlayers | main.go:172-200 | the loop gives the fixed string for no players; else the header, the first ten entries separated by blank lines, and the truncation notice exactly when there are ten players or more |
| Handler.Reply | main.go:142-202 | there is a reply exactly when the trimmed text equals `/metrics` or `/players`; a failed query gives its error text; otherwise the header and figures, or the player list |
| Handler.HandleMessage | main.go:131-203 | a text other than the two exact commands, or a limiter denial, sends nothing and changes nothing; otherwise the reply's key decides between the reply, the notice and silence in the original chat; only that pair's cooldown moves |
| Scenarios.MetricsReplyKey | main.go:150-164 | every metrics reply falls into the bucket of the header's first 20 bytes, whatever the figures |
| Scenarios.PlayerListKey | main.go:177-201 | every non-empty player list falls into the bucket of the header's first 20 bytes |
| Scenarios.ErrorRepliesShareKey | main.go:143-168 | the two error replies have the same cooldown key |
| Scenarios.MetricsThreeTimes | main.go:143-164 | when no window of the metrics-reply bucket is running for the sender at the first call, three `/metrics` within 5 s, with the query succeeding and the limiter passing, give the figures, the notice, then nothing |
| Scenarios.FailedQueriesShareCooldown | main.go:143-168 | when no window of the error-reply bucket is running for the sender at the failed `/metrics`, a failed `/players` from the same sender within 30 s of it is answered with the cooldown notice |
| Scenarios.EmptyPlayerList | main.go:172-175 | `/players` with nobody online, once both gates pass, sends the fixed "no players" text |
| Scenarios.TenPlayersTruncated | main.go:193-199 | exactly ten players already bring the truncation notice |
| Scenarios.ExtractCommandDropsArguments | main.go:337-341 | `/players 1 2` has the key `/players` |
| Scenarios.ExtractCommandKeepsTab | main.go:339 | `/players\targs` is its own key: a tab does not split |
| Scenarios.ExtractCommandCutsChatter | main.go:335-346 | a padded chatter line is trimmed, then cut to its first 20 bytes |

## Left out

- The WhatsApp client is not modelled. This covers session storage, QR login, event registration, shutdown on a signal, and the result of `SendMessage`. All of it is I/O (main.go:83-127). Sending is modelled as the message that would be sent.
- `loadConfig`, `fetchMetrics` and `fetchPlayers` are not modelled. They are HTTP and file I/O. Their outcomes are `Result` parameters, and any error is `Err`.
- The token bucket inside `globalLimiter.Allow()` is not modelled. Its answer is the parameter `allow`. That the limiter admits at most one message per second is a property of the library, not of this code.
- `time.Now()` is not modelled as a clock. It becomes the parameter `now`, in nanoseconds. Monotonic-clock readings and the saturation of `time.Duration` in `now.Sub` at about 292 years are not modelled.
- `fmt.Sprintf` with `%.2f`, `%.1f` and `%d` is not modelled. The metrics figures and each player entry come from the given `Templates` renderers. The fixed headers, separators, notices and error texts are exact.
- Concurrency is not modelled. Events are handled one at a time. The source takes no lock around the cooldown maps.
- `Text.TrimSpace`: only ASCII whitespace (tab, newline, vertical tab, form feed, carriage return, space) is trimmed. Go also trims Unicode spaces such as U+0085 and U+00A0. None of the bot's own texts start or end with those, so reply keys are unaffected. The routing at main.go:143 and main.go:165 does trim the user's text, though: `/metrics` followed by U+00A0 is answered by the bot but gets no reply (`Reply` is `None`) in the model.
- The console logging on a limiter denial (main.go:217) is not modelled.
- The cooldown maps are never pruned in the source, and the model does not prune them either. Memory growth is not modelled.
