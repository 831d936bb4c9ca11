# Locator-bot, modelled in Dafny

Locator-bot is a chat bot for a Pokémon trading-card-game community. Every two
minutes it asks the Pokémon event locator for the League Cups and League
Challenges near a fixed place. It announces each event in a text channel,
together with the travel time from a map link, and opens a discussion thread
under the announcement. An event whose thread name already exists in the
channel is not announced again. The bot also answers mentions by relaying the
channel's conversation to a language model, and it keeps one conversation
history per channel.

This project models the three parts of `bot.py` that hold logic of their own:

- `maplink.dfy` (module `MapLink`) models how `get_travel_time` extracts the
  destination from a map link with `re.search(r'q=(\d+\.\d+),(\d+\.\d+)', ...)`.
  The regex search is a left-to-right scan with greedy digit runs.
  `MatchesRegexAt` states the regex's language on its own terms, and lemmas show
  that the scan finds exactly the leftmost match. The directions service is an
  oracle parameter.
- `starttime.dfy` (module `StartTime`) models how a start timestamp becomes
  display text: `rstrip('Z')`, `datetime.fromisoformat`, then
  `strftime("%d/%m/%Y %H:%M")`, with the two placeholder texts. The ISO parser is
  a parameter (`IsoParser`). `CanonicalParse` is a concrete parser for the
  `YYYY-MM-DDTHH:MM:SS` form only, with calendar validation. The model assumes
  nothing about which forms the event locator actually sends.
- `ordering.dfy` (module `Ordering`) models `sorted(..., key=...)` on a string
  key. Python compares `str` values by code point, lexicographically, and its
  sort is stable. `SortBy` is an insertion sort, and it is proved to be the one
  stable sort.
- `events.dfy` (module `Events`) models one run of `process_and_post_events`.
  A `Channel` class keeps the channel's posts and threads. The method
  `ProcessAndPostEvents` and its loop `PostNew` are proved to post exactly the
  announcements that a specification function (`CycleAnnouncements`) computes. Lemmas about that
  function cover selection, the snapshot-based deduplication, idempotence of a
  rerun, and the order of the announcements.
- `chat.dfy` (module `Chat`) models `on_message`. A `Conversations` class holds
  the `message_histories` dictionary, and its `OnMessage` method is proved
  against the pure `Handle`. The language model is an oracle parameter.
- `wrappers.dfy` (module `Wrappers`) holds an `Option` datatype, and
  `digits.dfy` (module `Digits`) the ASCII digit predicates that `MapLink` and
  `StartTime` share.

### Behaviour worth noting

- Thread names end in `" -  Discussion"`, with two spaces before `Discussion`
  (bot.py:103).
- The whole activity list is sorted before it is filtered (bot.py:77-84).
  `Events.SelectThenSort` proves that filtering first and then sorting stably
  gives the same announcements.
- A non-200 event-search reply posts nothing (bot.py:74 has no `else`). The
  text "Failed to fetch events." belongs to the `else` of `if channel:`
  (bot.py:65,121-122), so it is only reached when no channel exists, and there
  it calls `send` on `None`. The model reports that case as `ChannelMissing` and
  changes nothing.
- Deduplication compares against the thread names read once, before the loop
  (bot.py:78). Two activities with the same thread name in one reply are both
  announced (`Events.SameNameBothAnnounced`). Across cycles the second one is
  a duplicate (`Events.CycleRerunAnnouncesNothing`).
- An apology is sent only when the completion has no choices or its first
  choice has empty or null text (bot.py:204-213). An exception raised by the
  completion call is not caught.

## Model

| member | source | states |
|---|---|---|
| MapLink.DigitRun | bot.py:12 | `\d+` taken greedily: the run at i is all digits and is followed by a non-digit or by the end of the link |
| MapLink.MatchAt | bot.py:12 | what the regex engine yields when it tries one position; its contract fixes the match's start, and `MapLink.MatchAtSound` and `MapLink.MatchAtComplete` state that it succeeds exactly where the regex matches, with the greedy groups |
| MapLink.DigitRunExact | bot.py:12 | a digit block followed by a non-digit or the end is exactly the greedy run there |
| MapLink.DecimalEndSound | bot.py:12 | a successful greedy scan of `\d+\.\d+` covers a decimal text that no digit follows |
| MapLink.SearchFrom | bot.py:12 | the search reports the first position at or after i where the pattern's scan succeeds, and reports none only when the scan fails at every such position |
| MapLink.Search | bot.py:12 | `re.search` over the whole link; no contract of its own: `MapLink.SearchIsLeftmost` and `MapLink.SearchFailsIffNoMatch` state that it finds the leftmost regex match and fails only when there is none |
| MapLink.Destination | bot.py:12-17 | `lat,lng` from the match groups, or nothing without a match; no contract of its own: `MapLink.DestinationOfLeftmostMatch` and `MapLink.DestinationIsUnsigned` state its value |
| MapLink.TravelTime | bot.py:10-33 | `get_travel_time`; no contract of its own: `MapLink.NoMatchIsInvalidLink` and `MapLink.DestinationOfLeftmostMatch` state the invalid-link text, the route's duration on status 200 and "Unable to calculate travel time" otherwise |
| MapLink.DecimalEndComplete | bot.py:12 | every `\d+\.\d+` text at a position is found by the greedy scan there, which ends at or beyond it, and exactly at its end when no digit follows |
| MapLink.MatchAtSound | bot.py:12 | what the scan reports at i matches `q=(\d+\.\d+),(\d+\.\d+)` with the reported groups, and the second group's last digit run is maximal |
| MapLink.MatchAtComplete | bot.py:12 | every regex match at i is found by the scan at i, with the same latitude group and a longitude group that extends the regex's greedily |
| MapLink.SearchIsLeftmost | bot.py:12 | a reported match satisfies the regex, and no regex match starts further left |
| MapLink.SearchFailsIffNoMatch | bot.py:12-13 | the search fails if and only if the regex matches nowhere in the link |
| MapLink.NoMatchIsInvalidLink | bot.py:12-14 | a link the regex does not match gives no destination and the text "Invalid Google Maps link" |
| MapLink.DestinationOfLeftmostMatch | bot.py:12-33 | for the leftmost greedy match, the destination is `lat,lng` from the two groups, and the travel time is the route's duration on status 200 and "Unable to calculate travel time" otherwise |
| MapLink.DestinationIsUnsigned | bot.py:12-17 | a destination holds only digits, dots and commas, so it never carries a sign |
| MapLink.NegativeLatitudeIsInvalidLink | bot.py:12-14 | a link whose every `q=` is followed by `-` gives "Invalid Google Maps link" |
| StartTime.RStripZ | bot.py:96 | `rstrip('Z')` returns a prefix of the text that does not end in Z, and only Z characters were removed |
| StartTime.Padded | bot.py:97 | the zero-padded decimal field of `strftime` is all digits, at least as wide as asked, and reads back as the number |
| StartTime.PaddedNum | bot.py:97 | padding a digit string's value to the string's own width gives back the string |
| StartTime.Strftime | bot.py:97 | `strftime("%d/%m/%Y %H:%M")`; no contract of its own: `StartTime.StrftimeCharacters` and `StartTime.StrftimeOfFields` state its characters and that it rewrites a canonical timestamp's own digits |
| StartTime.StrftimeOfFields | bot.py:97 | the fields read from a canonical timestamp are written back as DD/MM/YYYY HH:MM using that timestamp's own digits |
| StartTime.CanonicalParse | bot.py:96 | the parser accepts only `YYYY-MM-DDTHH:MM:SS` texts that denote a real calendar date and time |
| StartTime.StrftimeCharacters | bot.py:97 | formatted dates hold only digits, `/`, a space and `:` |
| StartTime.FormatOutcomes | bot.py:93-101 | "Va savoir!" exactly when the start time is missing or empty, "C'est Buggué" exactly when parsing the Z-stripped text fails, and the `%d/%m/%Y %H:%M` rendering of the parsed time otherwise |
| StartTime.Format | bot.py:93-101 | the date-and-time text of an activity; no contract of its own: `StartTime.FormatOutcomes` states its three outcomes |
| StartTime.StripCanonical | bot.py:96 | `rstrip('Z')` turns a canonical timestamp, with or without a trailing Z, into the bare timestamp |
| StartTime.FormatCanonical | bot.py:93-97 | a valid `YYYY-MM-DDTHH:MM:SS[Z]` start time is shown as `DD/MM/YYYY HH:MM` copied from its own fields |
| StartTime.FormatCanonicalInvalid | bot.py:95-99 | a well-shaped timestamp naming an impossible date shows "C'est Buggué" |
| Ordering.LexLeTotal | bot.py:77 | any two sort keys are comparable under Python's string order |
| Ordering.LexLeAntisymmetric | bot.py:77 | keys that are each at most the other are equal |
| Ordering.LexLeTransitive | bot.py:77 | Python's string order is transitive |
| Ordering.LexLeReflexive | bot.py:77 | every key is at most itself under Python's string order |
| Ordering.LexLe | bot.py:77 | Python's `<=` on `str`; no contract of its own: the four `Ordering.LexLe…` lemmas above state that it is a total order |
| Ordering.SortBy | bot.py:77 | `sorted(..., key=...)`; no contract of its own: the four `Ordering.SortBy…` lemmas below state that it is the stable sort |
| Ordering.SortBySorted | bot.py:77 | the sorted activities have nondecreasing start keys |
| Ordering.SortByPermutation | bot.py:77 | sorting neither drops nor duplicates activities (same multiset) |
| Ordering.SortByStable | bot.py:77 | activities with equal keys keep their reply order |
| Ordering.SortByIsTheStableSort | bot.py:77 | any ordered and stable arrangement of the activities equals `SortBy`, so it is what `sorted` returns |
| Events.TypeLabel | bot.py:92-108 | the label is "League Cup" exactly when the tags contain `league_cup`, and "League Challenge" otherwise |
| Events.StartKey | bot.py:77 | the sort key `x.get('start_datetime', '')`; no contract of its own: `Events.PendingSorted` and `Events.SortExample` state the order it induces |
| Events.Selected | bot.py:81-84 | the event type is among the tags and "tcg" among the products; no contract of its own: `Events.PendingMember` states that it decides which activities are visited |
| Events.ThreadTitle | bot.py:103 | the thread-name f-string; no contract of its own: `Events.ThreadTitleShape` states its start and its `" -  Discussion"` ending |
| Events.ThreadName | bot.py:93-103 | the thread name of an activity, from its formatted start time, city and shop; no contract of its own: `Events.ThreadTitleShape` and `Events.SameNameBothAnnounced` state its properties |
| Events.Body | bot.py:106-116 | the announcement text; no contract of its own: `Events.BodyShape` states its header and its final map-link line |
| Events.Announce | bot.py:86-116 | the fields an announcement is built from: thread name, type label, shop, formatted time, travel time, city, address, Pokémon link and map link; no contract of its own: `Events.BodyShape` and `Events.ProcessAndPostEvents` state what is posted from it |
| Events.IsNew | bot.py:84-105 | the activity is selected and its thread name is missing from the snapshot; no contract of its own: `Events.PendingMember` states that it decides exactly which activities are announced |
| Events.ThreadNames | bot.py:78 | the snapshot of the channel's thread names, in order; no contract of its own: `Events.ProcessAndPostEvents` states that the cycle is checked against it, and `Events.ThreadNamesAfterCycle` how it grows |
| Events.ThreadTitleShape | bot.py:103 | a thread name starts with the formatted date and ends with `" -  Discussion"` |
| Events.BodyShape | bot.py:106-116 | the announcement opens with the "Nouvel Evenement Detecté" header and ends with the map-link line |
| Events.FindChannel | bot.py:64 | the channel found is the first one with the configured name, and none is found only when no channel has it |
| Events.Fetched | bot.py:74-76 | the activities of a 200 reply, none otherwise; no contract of its own: `Events.CycleAnnouncesExactlyNew` states that only a 200 reply's activities can be announced |
| Events.Pending | bot.py:78-105 | the selected activities whose thread name is missing from the snapshot, in visiting order; no contract of its own: `Events.PendingMember`, `Events.PendingConcat` and `Events.PendingSorted` state its members, its composition and its order |
| Events.CycleAnnouncements | bot.py:74-116 | the announcements of one cycle; no contract of its own: `Events.CycleAnnouncesExactlyNew` and `Events.CycleRerunAnnouncesNothing` state which activities it announces, and `Events.ProcessAndPostEvents` that the channel receives exactly these |
| Events.Channel.Send | bot.py:118 | sending appends one post and leaves the threads alone |
| Events.Channel.OpenThread | bot.py:119-120 | opening a thread appends one thread holding the greeting and leaves the posts alone |
| Events.ProcessAndPostEvents | bot.py:63-122 | with the channel found, its posts and threads grow by exactly one announcement and one greeted thread per entry of `CycleAnnouncements`, in order, and no other channel changes; without it, nothing changes |
| Events.PostNew | bot.py:78-120 | the loop over the sorted activities, against the thread names read before it, appends one post and one greeted thread per announced activity, in order |
| Events.Visit | bot.py:81-120 | one pass of the loop posts and opens a thread for the activity exactly when it is of the event type, lists "tcg" and its thread name is not in the snapshot, and otherwise changes nothing |
| Events.PendingMember | bot.py:80-105 | an activity is announced exactly when it is visited, is of the event type, lists "tcg", and has a thread name missing from the snapshot |
| Events.PendingConcat | bot.py:78-105 | with the thread names fixed before the loop, announcing over xs + ys equals announcing over xs followed by announcing over ys |
| Events.NewNameAnnounced | bot.py:78-120 | every selected activity whose thread name is missing from the snapshot has its thread name among those the cycle opens |
| Events.ThreadNamesAfterCycle | bot.py:119-120 | after the cycle, the channel's thread names are the earlier ones followed by the announced names in order |
| Events.SameNameBothAnnounced | bot.py:78-105 | two new activities of one reply with one thread name are both announced |
| Events.CycleAnnouncesExactlyNew | bot.py:74-105 | an activity is announced exactly when the reply is a 200 holding it, it is selected, and its thread name is not among the channel's threads |
| Events.CycleRerunAnnouncesNothing | bot.py:78-105 | once a cycle's thread names are among the channel's threads, the same reply announces nothing |
| Events.PendingSorted | bot.py:77-80 | visiting sorted activities gives announcements in start-key order |
| Events.SelectThenSort | bot.py:77-84 | sorting everything and then selecting equals selecting and then sorting stably |
| Events.PendingWithKey | bot.py:77-84 | selecting the new activities keeps, for each start key, exactly the selected activities with that key in their reply order |
| Events.ExampleKeysOrdered | bot.py:77 | the three example timestamps of 1, 2 and 3 January 2024 compare in date order |
| Events.SortExample | bot.py:77 | activities listed 3, 1, 2 January come out 1, 2, 3 January |
| Events.RepeatedCycle | bot.py:63-122 | two cycles on the same reply: both find or both miss the channel, only the first posts or opens threads in the found channel, and no other channel changes (none at all when the channel is missing) |
| Chat.Apology | bot.py:210-213 | "No response from the AI." when there are no choices, "Sorry, I couldn't come up with a response." when the first choice is empty |
| Chat.Completion | bot.py:203-205 | the reply text is used exactly when the first choice has non-empty text; no choices, a null text and an empty text all give none |
| Chat.Handle | bot.py:176-213 | the bot's own messages change nothing; another message adds one user turn to its own channel only; a mention sends the system prompt plus the whole updated history; an assistant turn is stored and sent exactly when the completion is non-empty, and an apology is sent otherwise |
| Chat.Conversations.OnMessage | bot.py:176-213 | the in-place updates of `message_histories` leave exactly the histories and reply that `Handle` describes |
| Chat.Conversations.constructor | bot.py:134 | the process starts with no history |
| Chat.HandleKeepsNoSystemTurns | bot.py:187-193 | the system prompt is never stored in a history |
| Chat.HandleKeepsAnswersFollowQuestions | bot.py:187-207 | every stored assistant turn directly follows a user turn |
| Chat.HandleCountsUserTurns | bot.py:179-187 | one message adds one user turn to its own channel's history when another user wrote it, and none anywhere else |
| Chat.ReplayCountsUserTurns | bot.py:179-187 | over any run of messages, a channel's user turns grow by exactly the number of other users' messages in it (no eviction) |
| Chat.ReplayExtends | bot.py:183-207 | a channel's history only grows: what was stored stays a prefix |
| Chat.MentionAfterThreeTurns | bot.py:190-207 | a mention after three stored turns sends five turns (one system turn, then four), and a non-empty completion leaves five stored turns |

## Left out

- HTTP calls: the event search, the directions request and the geocoding request are inputs. `SearchReply` stands for the search reply and the `route` oracle for directions. `get_lat_long` (bot.py:35-61) and the origin lookup at start-up are not part of this model.
- The chat platform SDK: channels are a sequence of `Channel` objects. Sending and thread creation are the `Send` and `OpenThread` methods. The auto-archive duration and the asynchronous `await`s are not modelled.
- The language-model call (bot.py:195-201) is the `Llm` oracle. The model name and sampling parameters are not modelled, and neither are exceptions the call may raise.
- Scheduling: `tasks.loop`, `on_ready`, the `hello` command and `bot.run` are left out. `Events.RepeatedCycle` models two consecutive cycles.
- Configuration: `settings.json`, environment variables and the module-level coordinates are left out. The channel name and event type are parameters.
- `bot.user.mentioned_in(message)` is the `mentionsBot` flag of a message, because its rules (role and `@everyone` mentions) live in the SDK.
- MapLink.DigitRun: `\d` is modelled as the ASCII digits 0-9. Python's `\d` on `str` also matches other Unicode decimal digits.
- MapLink.TravelTime: a 200 directions reply is modelled as carrying a duration text. A 200 reply without routes raises `KeyError`/`IndexError` in the source, and that is not modelled.
- StartTime.Format: `datetime.fromisoformat` is the `IsoParser` parameter rather than a definition of every ISO 8601 form Python accepts. `CanonicalParse` covers the `YYYY-MM-DDTHH:MM:SS` form only.
- StartTime.Strftime: `%Y` is zero-padded to four digits. For years below 1000 CPython's output depends on the platform.
- Events.Activity: every address field is present. A missing `address`, `name`, `city`, `location_map_link` or `pokemon_url` key raises `KeyError` in the source, and a JSON `null` in place of a list or string is not modelled.
- Events.ProcessAndPostEvents: the travel time of a selected activity whose thread already exists is computed and discarded in the source. That costs one directions request and is not visible in the model.
- Events.ProcessAndPostEvents: the `else` branch at bot.py:121-122 calls `send` on `None` and raises `AttributeError`. The model returns `ChannelMissing` with no change instead.
