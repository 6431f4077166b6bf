# BilibiliLiveNotification: the live-status transition detector

The service watches a list of Bilibili live rooms. At start-up and then every 60 seconds it
asks the Bilibili API for the status of all rooms in one request. For each room that has
just gone live it posts a two-part message to each of the room's QQ groups: the cover
image, then the caption `"<uname> 正在直播！\n<live_url>"`. The object
`BilibiliLiveNotification` keeps four per-room dictionaries: the last status, the cover,
the streamer's name and the room URL. They decide "just went live" and are updated after
every decision.

This Dafny project models that core:

- `Rooms` holds the configured rooms (`room_id`, `group_ids`) and the
  `(status, cover, uname, live_url)` tuple.
- `Message` builds the message chain and the caption. It also has the fan-out, one send per
  group id in list order (`FanOut`), and the loop that emits it (`Dispatch`).
- `Fetch` parses the status reply into the list of tuples, with its error cases
  (`ParseResponse`, and the append loop `FetchLiveStatusBatch`).
- `Detector` is the decision and the dictionary updates as pure functions over the four maps
  (`Store`). `Step` handles one room. `Cycle` handles the `zip` of rooms and tuples.
  `Mode.Startup` is the body of `initial_check` and `Mode.Steady` one iteration of
  `monitor_live_status`. The module also has the lemmas about one pass.
- `Schedule` covers one fetch-and-detect pass (`Poll`), a finite run of the monitor loop
  (`Monitor`) and `initialize` (`Service`), with the lemmas that relate several passes.
- `Notifier` is the class `BilibiliLiveNotification` with the four dictionaries as `map`
  fields. Its constructor runs the status loop of `load_config`. Its methods update the maps
  in place, and each one is proved equal to the matching function above.

A send is modelled as the value `Send(group_id, message_chain)`. The sequence of sends a
method returns is the sequence of POSTs the source makes, in order.

Points of the behaviour a reader might not expect, all modelled as the code has them:

- Rooms are matched to reply entries by **position** (`zip(self.live_rooms, live_info)`),
  not by room id. If the reply leaves out a room or orders entries differently, a room gets
  another room's tuple, and the rooms past the end of the reply are not visited
  (`Schedule.PairedByPosition`). A reply that omits a room therefore shifts the pairing of
  every room after it; it does not skip that room.
- A non-live room's status is reset to `None` (not to an "offline" value). Its cover, name
  and URL are set to `''`.
- A room that is live and already stored live keeps the metadata of the earlier pass. The
  fresh cover, name and URL are not written.
- A failed fetch (the GET itself raising, HTTP status not 200, `code` not 0, undecodable JSON,
  or a missing key) does not return an empty result. It raises: the `aiohttp` exception,
  `live_info` unbound at the `return`, or a `KeyError`. Inside `monitor_live_status` this ends the monitor task for good, and no later
  poll happens (`Schedule.MonitorStopsAfterFailure`). In `initial_check` it escapes
  `initialize`, so the monitor task is never started (`Schedule.Service`). A failed poll is
  therefore not skipped: there is no next poll.
- `initial_check` never reads `live_statuses`: it announces every live room whatever the
  store holds. Because `load_config` sets every status to `None`, this is the same set of
  sends a steady pass would make on that fresh store, as long as room ids are distinct
  (`Schedule.StartupMatchesSteadyOnFreshStore`).

The per-room lemmas assume that room ids are distinct (see "## Left out"). `Cycle` itself
handles a duplicated id as the source does: the second occurrence sees the store as the
first left it.

## Model

| member | source | states |
|---|---|---|
| `Message.MessageRoundTrip` | main.py:146-159 | the chain has exactly two parts, an image whose file is the cover and then a text from which the streamer's name and the room link read back unchanged |
| `Message.FanOut` | main.py:170-174 | exactly one send per group id, in the order of `group_ids`, each carrying the same message chain |
| `Message.Dispatch` | main.py:170-180 | the loop over `group_ids` emits exactly the fan-out of the message |
| `Fetch.ParseEntries` | main.py:122-129 | succeeds iff every entry has `live_status`, `uname` and `live_url`; then it gives one tuple per entry in entry order, with `cover` defaulting to the empty string; otherwise a `KeyError` |
| `Fetch.ParseResponse` | main.py:110-132 | a GET that raises fails with that exception; an HTTP status other than 200, or a body that is not an object with `code` 0, leaves `live_info` unbound (failure); undecodable JSON and missing keys fail too; success exactly when the guards pass and every entry is complete, with one tuple per entry |
| `Fetch.FetchLiveStatusBatch` | main.py:118-132 | the guard-and-append loop yields exactly `ParseResponse` of the reply |
| `Detector.Zip` | main.py:143 | the pairing stops at the shorter list and pairs room k with tuple k |
| `Detector.InitialStatuses` | main.py:31-32 | after the loop, the status keys are exactly the configured room ids and every status is `None` |
| `Detector.CycleFrame` | main.py:143 | a key that is not among the first min(rooms, tuples) room ids keeps all four of its dictionary entries (presence and value) |
| `Detector.CycleRoomState` | main.py:144-193 | for each visited room: after a notification its four entries are the fetched status, cover, name and URL; any status other than 1 in the steady pass gives `None`, `''`, `''`, `''` whatever came before; otherwise its entries are untouched |
| `Detector.CycleSends` | main.py:143-180 | the sends of a pass are the visited rooms' blocks in room order; a room's block is one send per group when its fetched status is 1 and (in the steady pass) its stored status is not 1, and empty otherwise |
| `Detector.CyclePreservesWellFormed` | main.py:184-193 | a pass keeps every stored status `None` or 1, keeps the three metadata maps on the same keys, all of them status keys, keeps metadata for every room stored live, and never drops a status key |
| `Schedule.NoRepeatWhileLive` | main.py:144 | a room reported live in one pass is stored live, and a following steady pass that reports it live again sends nothing for it |
| `Schedule.InitialCheckNotifiesLiveRooms` | main.py:53-97 | at start-up every room with status 1 gets one send per group and its fetched tuple recorded; a room that is not live is left as it was (no reset) |
| `Schedule.StartupMatchesSteadyOnFreshStore` | main.py:31-32 | on the store `load_config` builds, the start-up pass sends exactly what a steady pass would; a non-live room keeps status `None` and no metadata at start-up but gets `''` metadata in the steady pass |
| `Schedule.AnnouncedOnceAtStartup` | main.py:40-41 | a room live at start-up is announced by the start-up check, and the first poll right after it does not announce it again |
| `Schedule.PairedByPosition` | main.py:143 | with two rooms and a one-entry reply holding the second room's data, the first room is announced with that data and the second room is not touched |
| `Schedule.LiveLiveOfflineLive` | main.py:143-193 | a room reported live, live, offline, live from a fresh store gets sends in the first and fourth pass only; after the second pass its metadata is still the first pass's, after the third it is cleared |
| `Schedule.MonitorStopsAfterFailure` | main.py:137-140 | after a failed fetch the monitor loop is over: later replies change neither the store nor the sends |
| `Schedule.MonitorPreservesWellFormed` | main.py:137-195 | every store the monitor loop reaches from a well-formed one is well formed, and no status key is ever dropped |
| `Notifier.BilibiliLiveNotification.constructor` | main.py:21-32 | the rooms are stored, every configured room's status is `None`, the metadata dictionaries are empty, and the object invariant holds |
| `Notifier.BilibiliLiveNotification.VisitRoom` | main.py:144-193 | the in-place update of the four dictionaries and the sends for one room equal `Detector.Step` |
| `Notifier.BilibiliLiveNotification.Detect` | main.py:143-193 | the loop over `zip(live_rooms, live_info)` leaves the dictionaries equal to the pass's store and returns its sends |
| `Notifier.BilibiliLiveNotification.Check` | main.py:139-143 | fetch then detect: on a failed fetch nothing changes and the failure is returned; the invariant is kept |
| `Notifier.BilibiliLiveNotification.InitialCheck` | main.py:46-97 | `initial_check` equals the start-up `Poll` on the current dictionaries |
| `Notifier.BilibiliLiveNotification.MonitorLiveStatus` | main.py:135-195 | polling a list of replies equals `Monitor`: one steady pass per reply until the first failed fetch |
| `Notifier.BilibiliLiveNotification.Initialize` | main.py:36-41 | `initialize` equals `Service`: the start-up check, then the monitor loop unless the start-up fetch failed |

## Left out

- HTTP: the `aiohttp` GET with its query parameters and headers, and the `requests.post`
  calls with `base_url + "/send_msg"`, the JSON payload encoding and the bearer token. The
  reply is an input, and the posts are the returned list of `Send` values. The code never
  reads the post responses. An exception raised by `requests.post` (for example a
  connection error), which would also end the running task, is not modelled.
- asyncio: `sleep(1)` between posts, `sleep(60)` between polls, `create_task` and the
  `asyncio.Future()` keep-alive in `main`. These are timing and process plumbing only.
- The endless `while True`: the monitor loop is modelled over a finite list of replies.
- Reading `config.json`: the constructor takes the room list. A file that cannot be opened
  or parsed, or that lacks `http_base_url`, leaves `live_rooms` empty: that is the
  constructor given `[]`. A file with `live_rooms` but without `token` sets `live_rooms` and
  initialises no status at all. The model does not represent that store. Its sends are the
  same, because a missing status key reads as `None`. Other partly loaded files are not
  modelled key by key either. `base_url` and `token` are used only by the posts.
- `print` logging.
- JSON values beyond integers and strings: a `code` or `live_status` that is a boolean or a
  float (Python's `False == 0`, `1.0 == 1`), a `null` cover, and duplicate keys in
  `by_room_ids` are not represented. A `data` or `by_room_ids` that is not an object raises
  a `TypeError` or `AttributeError` in the source; the model folds it into `MissingKey`.
- `Detector.CycleRoomState`, `Detector.CycleSends`, `Schedule.NoRepeatWhileLive`,
  `Schedule.InitialCheckNotifiesLiveRooms`, `Schedule.StartupMatchesSteadyOnFreshStore` and
  `Schedule.AnnouncedOnceAtStartup`: these lemmas require distinct room ids. If an id is
  configured twice, its second occurrence is decided against the store the first occurrence
  left, not against the store at the start of the pass. `Detector.CycleFrame`, `Cycle` and the
  class methods make no such assumption.
- The GET's own exception is the reply `Raised`. The model does not distinguish the kind of
  exception (connection error, time-out); every kind ends the run in the same way.
