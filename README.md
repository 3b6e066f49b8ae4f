# Match bookkeeping of a Photon lobby manager

This project models the state that `NetworkManager` (a Unity `MonoBehaviour` built on the
Photon networking plugin) keeps for a multiplayer match, and proves what each update does
to it:

- **Chat log.** Incoming chat messages go into a queue of at most 10 (`messageCount`);
  when a message makes it 11, the oldest is dropped. The chat panel is then rebuilt by
  appending every queued message, oldest first, each followed by a line break. The model
  keeps the whole message history as a ghost field and proves that the queue is always
  the last min(10, n) messages of that history. Nothing is deduplicated. Provided no
  message contains a line break, reading the panel back line by line gives the queue
  again; a nickname or a chat text with a line break in it would split into several lines.
- **Room browser and join button.** The room list is rendered the same way, one room
  name per line. The join button takes the nickname from the input field. It requests a
  join of the named room only when the connection is ready; otherwise the status line
  shows the not-ready message.
- **Kill table.** `StartGame` writes count 0 for every nickname of the room's player
  list: a name already in the table is reset, a new one is added. `AddFrag` adds one
  kill to a name already in the table. A name not in the table makes the C# dictionary
  indexer throw before anything is written; the model returns `found == false` and
  leaves the table as it was. Counts never go negative in the model, whose integers are
  unbounded; the C# `int` would wrap after `int.MaxValue` frags.
- **Match clock.** `StartGame` loads the timer with the match length and sets the start
  flag, but only when the flag is not already set. Each frame update subtracts the
  elapsed time from a running timer. The frame that brings it to zero or below clears
  the start flag and calls `GameFinish`, which sets the finish flag. From then on every
  frame update returns at once. The model reads the two flags as a phase (Idle, Running,
  Finished) and proves that no operation moves the phase backwards.
- **Result panel.** `GameFinish` sorts the table ascending by kills. It shows element 1
  under "winner" and element 0 under "second". So the "winner" is the second-lowest
  scorer, not the highest. With fewer than two players the lookup of element 1 throws:
  the flags are already set by then, and the two result texts keep what they held; line
  281 still makes the panel visible, which the model does not track.

Time is a whole number of time units, and each frame's elapsed time is a parameter.
Whether the connection is ready, the room's player list, and the order in which the
dictionary enumerates its keys are parameters too. `ClockScenario` in `scenarios.dfy` runs
a five-unit match with one-unit ticks: it is still running after four ticks, finishes on
the fifth, and later ticks change nothing. `FragScenario` lists A and B, then B and C, then
credits a frag to B, which gives A 0, B 1 and C 0; a frag for a name never listed fails and
changes nothing.

Where the code departs from what one would expect of a kill table and a match clock, the
model follows the code:
- a repeated `StartGame` resets existing counts to 0 instead of keeping them;
- `AddFrag` on an unknown name fails instead of creating the entry;
- the timer is not clamped at zero;
- a `StartGame` after the match finished sets the start flag and reloads the timer again,
  but the finish flag still makes every frame update do nothing, so the phase stays
  Finished.

Files: `text.dfy` (line rendering and splitting), `chat_log.dfy` (the recent-messages
specification), `leaderboard.dfy` (roster reset, ranking), `network_manager.dfy` (the
manager class), `scenarios.dfy` (worked runs), `wrappers.dfy` (`Option`).

## Model

| member | source | states |
|---|---|---|
| `Text.RenderLines` | Assets/Scripts/NetworkManager.cs:103-107 | the loop that clears a text field and appends each item plus "\n" leaves exactly `Render(items)`: the items in order, each followed by a line break |
| `Text.RenderSnoc` | Assets/Scripts/NetworkManager.cs:205-207 | appending one more item extends the rendered text by that item and "\n" and changes nothing before it |
| `Text.LinesOfRender` | Assets/Scripts/NetworkManager.cs:204-208 | when no item contains a line break, splitting the rendered field into lines gives back exactly the items, in order, duplicates included |
| `ChatLog.RecentSize` | Assets/Scripts/NetworkManager.cs:199-203 | the kept messages never number more than 10, and number all of them while there are at most 10 |
| `ChatLog.RecentStep` | Assets/Scripts/NetworkManager.cs:199-203 | enqueueing a message, then dequeueing the oldest only when the queue holds more than 10, keeps the queue equal to the last min(10, n) messages of the history |
| `ChatLog.RecentStepCounts` | Assets/Scripts/NetworkManager.cs:199-203 | one append adds the message once more even if it is already in the log, and drops exactly one message, the oldest, only when the log was full |
| `Leaderboard.ResetRoster` | Assets/Scripts/NetworkManager.cs:265-271 | after the roster loop the keys are the old keys plus the listed names; every listed name has count 0, present before or not; every other name keeps its count |
| `Leaderboard.EnumerationSize` | Assets/Scripts/NetworkManager.cs:284 | the enumeration of the table that the sort reads lists only keys of the table, and exactly as many as there are players |
| `Leaderboard.Entries` | Assets/Scripts/NetworkManager.cs:284 | the rows that the sort reads: one per enumerated name, with that name's count |
| `Leaderboard.Insert` | Assets/Scripts/NetworkManager.cs:284 | inserting a row into an ascending order keeps it ascending and adds exactly that row |
| `Leaderboard.SortByKills` | Assets/Scripts/NetworkManager.cs:284 | `orderby entry.Value ascending`: the result is ascending by kills and a permutation of the rows |
| `Leaderboard.Results` | Assets/Scripts/NetworkManager.cs:284-287 | nothing is shown if and only if there are fewer than two rows; otherwise "winner" and "second" are two distinct rows of the table, the second has the fewest kills of all, and the winner has no more kills than any other row |
| `Leaderboard.RankedPick` | Assets/Scripts/NetworkManager.cs:286-287 | in an ascending order, element 0 has the fewest kills and element 1 has no more kills than any row other than elements 0 and 1 |
| `Leaderboard.LowestScorersShown` | Assets/Scripts/NetworkManager.cs:284-287 | with Alice 3, Bob 5 and Carol 1, the panel shows Alice as winner and Carol as second, and Bob, the top scorer, is not shown |
| `Scenarios.RosterSyncScenario` | Assets/Scripts/NetworkManager.cs:264-271 | rosters {a, b} then {b, c} give exactly a, b and c, all at 0 |
| `Scenarios.RosterResetScenario` | Assets/Scripts/NetworkManager.cs:267-268 | listing b again resets b's kills to 0 and leaves the others' counts |
| `Match.Shown` | Assets/Scripts/NetworkManager.cs:284-287 | with at least two players the panel gets `Results` of the table's rows in enumeration order; with fewer, the failing lookup of element 1 leaves the panel's previous texts |
| `Match.NetworkManager.constructor` | Assets/Scripts/NetworkManager.cs:50-69 | start state: empty queue and table, status "Connecting to lobby...", timer loaded with the match length, both flags clear (phase Idle), no result shown; the chat panel and room browser texts start empty, which the source does not assign (see Left out) |
| `Match.NetworkManager.AddMessage` | Assets/Scripts/NetworkManager.cs:197-209 | the message is appended to the history; the queue gains it at the end and loses its oldest entry exactly when it held 10; the queue stays the last min(10, n) messages and the chat panel is their rendering |
| `Match.NetworkManager.OnRoomListUpdate` | Assets/Scripts/NetworkManager.cs:101-108 | the room browser shows exactly the room names, in order, each followed by "\n" |
| `Match.NetworkManager.JoinRoom` | Assets/Scripts/NetworkManager.cs:113-133 | the nickname becomes the entered name; when ready, exactly one join of the named room is requested and the status reads "Joining room..."; when not ready, no join is requested and the status reads the not-ready message |
| `Match.NetworkManager.StartGame` | Assets/Scripts/NetworkManager.cs:262-276 | the table becomes `ResetRoster(old table, player list)` in every case; if the clock was running, the timer is unchanged; otherwise it is loaded with the match length; the start flag is set afterwards; counts stay non-negative; the phase does not move back |
| `Match.NetworkManager.AddFrag` | Assets/Scripts/NetworkManager.cs:291-295 | succeeds exactly when the name is a key; then that count rises by exactly 1 and every other entry is unchanged; otherwise the table is unchanged |
| `Match.NetworkManager.GameFinish` | Assets/Scripts/NetworkManager.cs:278-289 | start flag cleared, finish flag set (phase Finished); with at least two players the panel shows `Results` of the table; with fewer the two result texts keep what they held |
| `Match.NetworkManager.Update` | Assets/Scripts/NetworkManager.cs:242-260 | when not running (idle, or finished even with the start flag set again), nothing changes; when running, the timer drops by the elapsed time; it keeps running while the timer is positive and finishes, with the result panel filled as by `GameFinish`, on the tick that brings it to zero or below; the phase never moves back |

## Left out

- Photon calls (`ConnectUsingSettings`, `JoinLobby`, `JoinOrCreateRoom`, `PhotonNetwork.Instantiate`) are foreign networking calls; a requested join is recorded in `joinRequests` and nothing else of them is modelled.
- The `photonView.RPC` broadcast in `AddMessage` is replaced by a direct call of the local handler (`Match.NetworkManager.AddMessage` models `AddMessage_RPC`); delivery to other clients is not modelled.
- `PlayerList` and `IsConnectedAndReady` are parameters (the player list of `StartGame`, the `ready` flag of `JoinRoom`); `IsMasterClient` is not modelled, and neither is `OnPlayerLeftRoom`, which depends on it.
- The order in which the C# dictionary enumerates its keys is not documented, so `GameFinish` and `Update` take it as a parameter that must list every key once; which of two rows with equal counts comes first is therefore not fixed by the model, and only count relations between the shown rows are proved.
- `Respawn`, `RespawnCoroutine` and `OnJoinedRoom`: engine scheduling (`WaitForSeconds`), random choice of spawn point and model, and the "Joined Game." / "Respawned." chat messages they send are not modelled.
- The timer is an integer count of time units instead of a float; the minutes:seconds display (`TimeSpan`), `Time.timeScale = 0` and `Debug.Log` are not modelled.
- UI and engine state (`SetActive`, cursor lock, camera toggles, the back image, `PlayerPrefs` persistence of the nickname, `Application.Quit`, the empty `OnLeftRoom`, `OnConnectedToMaster`, `OnDisconnected`, `OnJoinedLobby`) is not modelled.
- `Assets/Scripts/BackView.cs` only toggles a game object and is not part of this model.
- Match.NetworkManager.AddFrag: kill counts are unbounded integers; the 32-bit wrap-around of `players[playerName] += 1` at `int.MaxValue` (C#'s default unchecked context) is not modelled, so the non-negative counts kept by `Valid()` rely on that bound never being reached.
- Match.NetworkManager.constructor: `Start()` does not assign the chat panel or room browser text, which hold whatever the scene sets up; the model starts both empty, so until the first message arrives `Valid()`'s "panel equals the rendered queue" is an assumption about the scene.
- Exceptions are not propagated: `AddFrag` reports a missing name as `found == false`, and `GameFinish` with fewer than two players keeps the previous result texts instead of aborting the frame; the panel being made visible at line 281 before the throw is not modelled.
