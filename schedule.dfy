/** Fetch-and-detect cycles: one poll, the start-up check, and a finite run of the monitor
    loop. Sleeping between polls is not modelled. */
module Schedule {
  import opened Wrappers
  import opened Rooms
  import opened Message
  import opened Fetch
  import opened Detector

  /** The store, the sends so far, and the exception that ended the run, if one did. */
  datatype Run = Run(store: Store, sends: seq<Send>, failure: Option<FetchError>)

  /** One call of `initial_check` (Startup) or one iteration of the monitor loop (Steady).
      A failed fetch raises before any dictionary is touched. */
  function Poll(mode: Mode, s: Store, rooms: seq<RoomConfig>, resp: Response): Run
  {
    match ParseResponse(resp)
    case Failure(e) => Run(s, [], Some(e))
    case Success(infos) =>
      var c := Cycle(mode, s, rooms, infos);
      Run(c.store, c.sends, None)
  }

  /** The monitor task fed a finite list of replies. The first failed fetch raises out of
      `monitor_live_status` and ends the task: no later reply is looked at. */
  function Monitor(s: Store, rooms: seq<RoomConfig>, replies: seq<Response>): Run
    decreases |replies|
  {
    if replies == [] then Run(s, [], None)
    else Advance(Monitor(s, rooms, replies[..|replies| - 1]), rooms, replies[|replies| - 1])
  }

  /** One more iteration of the monitor loop, unless the task has already died. */
  function Advance(prev: Run, rooms: seq<RoomConfig>, reply: Response): Run
  {
    if prev.failure.Some? then prev
    else
      var p := Poll(Steady, prev.store, rooms, reply);
      Run(p.store, prev.sends + p.sends, p.failure)
  }

  /** `initialize`: the start-up check, then the monitor task. A failed start-up fetch
      raises out of `initialize`, so the monitor task is never created. */
  function Service(s: Store, rooms: seq<RoomConfig>, startup: Response, replies: seq<Response>): Run
  {
    var p := Poll(Startup, s, rooms, startup);
    if p.failure.Some? then p
    else
      var m := Monitor(p.store, rooms, replies);
      Run(m.store, p.sends + m.sends, m.failure)
  }

  /** A room already live at start-up is announced by the start-up check, and the first
      poll, which follows without a pause, does not announce it again. */
  lemma AnnouncedOnceAtStartup(rooms: seq<RoomConfig>, startup: Response, poll: Response, i: nat)
    requires DistinctIds(rooms)
    requires ParseResponse(startup).Success? && ParseResponse(poll).Success?
    requires i < |rooms| && i < |ParseResponse(startup).value| && i < |ParseResponse(poll).value|
    requires ParseResponse(startup).value[i].status == LIVE && ParseResponse(poll).value[i].status == LIVE
    ensures var first := ParseResponse(startup).value;
      var second := ParseResponse(poll).value;
      var c1 := Cycle(Startup, InitialStore(rooms), rooms, first);
      && Service(InitialStore(rooms), rooms, startup, [poll])
           == Run(Cycle(Steady, c1.store, rooms, second).store,
                  c1.sends + Cycle(Steady, c1.store, rooms, second).sends, None)
      && Blocks(Startup, InitialStore(rooms), rooms, first)[i]
           == FanOut(rooms[i].groupIds, Announcement(first[i]))
      && Blocks(Steady, c1.store, rooms, second)[i] == []
  {
    var first := ParseResponse(startup).value;
    var second := ParseResponse(poll).value;
    InitialCheckNotifiesLiveRooms(InitialStore(rooms), rooms, first, i);
    NoRepeatWhileLive(Startup, InitialStore(rooms), rooms, first, second, i);
    ServiceWithOnePoll(InitialStore(rooms), rooms, startup, poll);
  }

  lemma ServiceWithOnePoll(s: Store, rooms: seq<RoomConfig>, startup: Response, poll: Response)
    requires ParseResponse(startup).Success? && ParseResponse(poll).Success?
    ensures var c1 := Cycle(Startup, s, rooms, ParseResponse(startup).value);
      var c2 := Cycle(Steady, c1.store, rooms, ParseResponse(poll).value);
      Service(s, rooms, startup, [poll]) == Run(c2.store, c1.sends + c2.sends, None)
  {
    var c1 := Cycle(Startup, s, rooms, ParseResponse(startup).value);
    var c2 := Cycle(Steady, c1.store, rooms, ParseResponse(poll).value);
    assert Poll(Startup, s, rooms, startup) == Run(c1.store, c1.sends, None);
    assert Poll(Steady, c1.store, rooms, poll) == Run(c2.store, c2.sends, None);
    assert [poll][..0] == [];
    assert Monitor(c1.store, rooms, []) == Run(c1.store, [], None);
    assert Monitor(c1.store, rooms, [poll]) == Advance(Run(c1.store, [], None), rooms, poll);
    assert Monitor(c1.store, rooms, [poll]) == Run(c2.store, [] + c2.sends, None);
  }

  lemma MonitorPrefix(s: Store, rooms: seq<RoomConfig>, replies: seq<Response>, k: nat)
    requires k < |replies|
    ensures Monitor(s, rooms, replies[..k + 1]) == Advance(Monitor(s, rooms, replies[..k]), rooms, replies[k])
  {
    assert replies[..k + 1][..k] == replies[..k];
  }

  /** Every state the monitor loop reaches is well formed. */
  lemma {:induction false} MonitorPreservesWellFormed(s: Store, rooms: seq<RoomConfig>, replies: seq<Response>)
    requires WellFormed(s)
    ensures WellFormed(Monitor(s, rooms, replies).store)
    ensures s.statuses.Keys <= Monitor(s, rooms, replies).store.statuses.Keys
    decreases |replies|
  {
    if replies != [] {
      var prev := Monitor(s, rooms, replies[..|replies| - 1]);
      MonitorPreservesWellFormed(s, rooms, replies[..|replies| - 1]);
      match ParseResponse(replies[|replies| - 1]) {
        case Failure(_) =>
        case Success(infos) => CyclePreservesWellFormed(Steady, prev.store, rooms, infos);
      }
    }
  }

  /** Once a fetch has failed, further replies change neither the store nor the sends. */
  lemma {:induction false} MonitorStopsAfterFailure(s: Store, rooms: seq<RoomConfig>, replies: seq<Response>, later: seq<Response>)
    requires Monitor(s, rooms, replies).failure.Some?
    ensures Monitor(s, rooms, replies + later) == Monitor(s, rooms, replies)
    decreases |later|
  {
    if later != [] {
      var init := later[..|later| - 1];
      MonitorStopsAfterFailure(s, rooms, replies, init);
      var all := replies + later;
      assert all[..|all| - 1] == replies + init;
      assert Monitor(s, rooms, all) == Advance(Monitor(s, rooms, replies + init), rooms, later[|later| - 1]);
    } else {
      assert replies + later == replies;
    }
  }

  /** A room reported live in one pass and live again in the following steady pass gets no
      send in the second: the first pass leaves its stored status at 1. This covers start-up
      followed by the first poll and any two consecutive polls. */
  lemma NoRepeatWhileLive(mode: Mode, s: Store, rooms: seq<RoomConfig>, first: seq<LiveInfo>, second: seq<LiveInfo>, i: nat)
    requires DistinctIds(rooms) && i < |rooms| && i < |first| && i < |second|
    requires first[i].status == LIVE && second[i].status == LIVE
    ensures Stored(Cycle(mode, s, rooms, first).store, rooms[i].roomId) == Some(LIVE)
    ensures Blocks(Steady, Cycle(mode, s, rooms, first).store, rooms, second)[i] == []
  {
    CycleRoomState(mode, s, rooms, first, i);
  }

  /** The start-up pass sends one announcement per group for every live room, whatever the
      store holds, since `initial_check` never reads `live_statuses`. */
  lemma InitialCheckNotifiesLiveRooms(s: Store, rooms: seq<RoomConfig>, infos: seq<LiveInfo>, i: nat)
    requires DistinctIds(rooms) && i < |rooms| && i < |infos|
    ensures Blocks(Startup, s, rooms, infos)[i]
         == if infos[i].status == LIVE then FanOut(rooms[i].groupIds, Announcement(infos[i])) else []
    ensures infos[i].status == LIVE ==>
      EntryOf(Cycle(Startup, s, rooms, infos).store, rooms[i].roomId)
        == Entry(Some(Some(LIVE)), Some(infos[i].cover), Some(infos[i].uname), Some(infos[i].liveUrl))
    ensures infos[i].status != LIVE ==>
      EntryOf(Cycle(Startup, s, rooms, infos).store, rooms[i].roomId) == EntryOf(s, rooms[i].roomId)
  {
    CycleRoomState(Startup, s, rooms, infos, i);
  }

  /** On the store `load_config` builds, the start-up pass sends exactly what a steady pass
      would; the two differ only in that start-up leaves a room that is not live as it was
      (status None, no metadata) where the steady pass writes three empty strings. */
  lemma StartupMatchesSteadyOnFreshStore(rooms: seq<RoomConfig>, infos: seq<LiveInfo>, i: nat)
    requires DistinctIds(rooms) && i < |rooms| && i < |infos|
    ensures Cycle(Startup, InitialStore(rooms), rooms, infos).sends
         == Cycle(Steady, InitialStore(rooms), rooms, infos).sends
    ensures infos[i].status != LIVE ==>
      && EntryOf(Cycle(Startup, InitialStore(rooms), rooms, infos).store, rooms[i].roomId)
           == Entry(Some(None), None, None, None)
      && EntryOf(Cycle(Steady, InitialStore(rooms), rooms, infos).store, rooms[i].roomId)
           == Entry(Some(None), Some(""), Some(""), Some(""))
  {
    var s := InitialStore(rooms);
    InitialStoreWellFormed(rooms);
    CycleSends(Startup, s, rooms, infos);
    CycleSends(Steady, s, rooms, infos);
    assert Blocks(Startup, s, rooms, infos) == Blocks(Steady, s, rooms, infos);
    CycleRoomState(Startup, s, rooms, infos, i);
    CycleRoomState(Steady, s, rooms, infos, i);
    assert rooms[i] in rooms;
  }

  /** Rooms and reply entries are paired by position, not by room id. When the reply lacks
      the first configured room, the second room's tuple is applied to the first room and
      the second room is not visited at all. */
  lemma PairedByPosition(s: Store, a: RoomConfig, b: RoomConfig, infoOfB: LiveInfo)
    requires a.roomId != b.roomId
    requires infoOfB.status == LIVE && Stored(s, a.roomId) == None
    ensures Cycle(Steady, s, [a, b], [infoOfB]).sends == FanOut(a.groupIds, Announcement(infoOfB))
    ensures EntryOf(Cycle(Steady, s, [a, b], [infoOfB]).store, a.roomId).uname == Some(infoOfB.uname)
    ensures EntryOf(Cycle(Steady, s, [a, b], [infoOfB]).store, b.roomId) == EntryOf(s, b.roomId)
  {
    var pairs := Zip([a, b], [infoOfB]);
    assert |pairs| == 1 && pairs[0] == (a, infoOfB);
    assert pairs[..0] == [];
    assert Fold(Steady, s, pairs[..0]) == Outcome(s, []);
    var step := Step(Steady, s, a, infoOfB);
    assert Fold(Steady, s, pairs) == Outcome(step.store, [] + step.sends);
  }

  /** A room that starts unknown and is reported live, live, offline, live gets one
      announcement per group in the first and the fourth cycle and none in between; the
      second cycle keeps the first cycle's metadata, the third clears it. */
  lemma LiveLiveOfflineLive(room: RoomConfig, first: LiveInfo, second: LiveInfo, third: LiveInfo, fourth: LiveInfo)
    requires first.status == LIVE && second.status == LIVE && third.status != LIVE && fourth.status == LIVE
    ensures var c0 := InitialStore([room]);
      var c1 := Cycle(Steady, c0, [room], [first]);
      var c2 := Cycle(Steady, c1.store, [room], [second]);
      var c3 := Cycle(Steady, c2.store, [room], [third]);
      var c4 := Cycle(Steady, c3.store, [room], [fourth]);
      && c1.sends == FanOut(room.groupIds, Announcement(first))
      && c2.sends == []
      && EntryOf(c2.store, room.roomId) == EntryOf(c1.store, room.roomId)
      && EntryOf(c1.store, room.roomId) == Entry(Some(Some(LIVE)), Some(first.cover), Some(first.uname), Some(first.liveUrl))
      && c3.sends == []
      && EntryOf(c3.store, room.roomId) == Entry(Some(None), Some(""), Some(""), Some(""))
      && c4.sends == FanOut(room.groupIds, Announcement(fourth))
  {
    var rooms := [room];
    var c0 := InitialStore(rooms);
    var c1 := Cycle(Steady, c0, rooms, [first]);
    var c2 := Cycle(Steady, c1.store, rooms, [second]);
    var c3 := Cycle(Steady, c2.store, rooms, [third]);
    var c4 := Cycle(Steady, c3.store, rooms, [fourth]);
    InitialStoreWellFormed(rooms);
    CycleRoomState(Steady, c0, rooms, [first], 0);
    CycleRoomState(Steady, c1.store, rooms, [second], 0);
    CycleRoomState(Steady, c2.store, rooms, [third], 0);
    CycleSends(Steady, c0, rooms, [first]);
    CycleSends(Steady, c1.store, rooms, [second]);
    CycleSends(Steady, c2.store, rooms, [third]);
    CycleSends(Steady, c3.store, rooms, [fourth]);
    assert Stored(c3.store, room.roomId) == None;
    var b1 := Blocks(Steady, c0, rooms, [first]);
    assert b1[..0] == [];
    var b2 := Blocks(Steady, c1.store, rooms, [second]);
    assert b2[..0] == [];
    var b3 := Blocks(Steady, c2.store, rooms, [third]);
    assert b3[..0] == [];
    var b4 := Blocks(Steady, c3.store, rooms, [fourth]);
    assert b4[..0] == [];
  }
}
