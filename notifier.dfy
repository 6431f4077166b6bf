/** The `BilibiliLiveNotification` object: the configured rooms and the four per-room
    dictionaries it updates in place, with the start-up check and the monitor loop as
    methods proved equal to the detector's functions. */
module Notifier {
  import opened Wrappers
  import opened Rooms
  import opened Message
  import opened Fetch
  import opened Detector
  import opened Schedule

  class BilibiliLiveNotification {
    var liveRooms: seq<RoomConfig>
    var liveStatuses: map<RoomId, Option<int>>
    var liveCovers: map<RoomId, string>
    var liveUnames: map<RoomId, string>
    var liveUrls: map<RoomId, string>

    /** The four dictionaries as one value. */
    function Snapshot(): Store
      reads this
    {
      Store(liveStatuses, liveCovers, liveUnames, liveUrls)
    }

    /** Every configured room has a status entry, and the dictionaries are well formed. */
    ghost predicate Valid()
      reads this
    {
      RoomIds(liveRooms) <= liveStatuses.Keys && WellFormed(Snapshot())
    }

    /** `__init__` followed by the status loop of `load_config`, given the configured rooms
        (an empty list when the file could not be loaded). */
    constructor (rooms: seq<RoomConfig>)
      ensures Valid()
      ensures liveRooms == rooms && Snapshot() == InitialStore(rooms)
    {
      liveRooms := rooms;
      liveStatuses, liveCovers, liveUnames, liveUrls := map[], map[], map[], map[];
      new;
      for k := 0 to |rooms|
        invariant liveRooms == rooms
        invariant liveCovers == map[] && liveUnames == map[] && liveUrls == map[]
        invariant liveStatuses == InitialStatuses(rooms[..k])
      {
        assert rooms[..k + 1][..k] == rooms[..k];
        liveStatuses := liveStatuses[rooms[k].roomId := None];
      }
      assert rooms[..|rooms|] == rooms;
      InitialStoreWellFormed(rooms);
    }

    /** The loop body for one room and its tuple. */
    method VisitRoom(mode: Mode, room: RoomConfig, info: LiveInfo) returns (sent: seq<Send>)
      modifies this
      ensures liveRooms == old(liveRooms)
      ensures Outcome(Snapshot(), sent) == Step(mode, old(Snapshot()), room, info)
    {
      var id := room.roomId;
      var stored := if id in liveStatuses then liveStatuses[id] else None;
      if info.status == LIVE && (mode.Startup? || Some(info.status) != stored) {
        sent := Dispatch(room.groupIds, MessageChain(info.cover, info.uname, info.liveUrl));
        liveStatuses := liveStatuses[id := Some(info.status)];
        liveCovers := liveCovers[id := info.cover];
        liveUnames := liveUnames[id := info.uname];
        liveUrls := liveUrls[id := info.liveUrl];
      } else if mode.Steady? && info.status != LIVE {
        sent := [];
        liveStatuses := liveStatuses[id := None];
        liveCovers := liveCovers[id := ""];
        liveUnames := liveUnames[id := ""];
        liveUrls := liveUrls[id := ""];
      } else {
        sent := [];
      }
    }

    /** `for room, (status, cover, uname, live_url) in zip(self.live_rooms, live_info)`. */
    method Detect(mode: Mode, liveInfo: seq<LiveInfo>) returns (sends: seq<Send>)
      modifies this
      ensures liveRooms == old(liveRooms)
      ensures Outcome(Snapshot(), sends) == Cycle(mode, old(Snapshot()), liveRooms, liveInfo)
    {
      ghost var s0 := Snapshot();
      ghost var pairs := Zip(liveRooms, liveInfo);
      var n := Min(|liveRooms|, |liveInfo|);
      sends := [];
      for k := 0 to n
        invariant liveRooms == old(liveRooms)
        invariant Outcome(Snapshot(), sends) == Fold(mode, s0, pairs[..k])
      {
        assert pairs[..k + 1][..k] == pairs[..k];
        var sent := VisitRoom(mode, liveRooms[k], liveInfo[k]);
        sends := sends + sent;
      }
      assert pairs[..n] == pairs;
    }

    /** One fetch-and-detect pass: `initial_check` (Startup) or an iteration of the monitor
        loop (Steady). A failed fetch raises before any dictionary changes. */
    method Check(mode: Mode, resp: Response) returns (sends: seq<Send>, failure: Option<FetchError>)
      requires Valid()
      modifies this
      ensures Valid() && liveRooms == old(liveRooms)
      ensures Run(Snapshot(), sends, failure) == Poll(mode, old(Snapshot()), liveRooms, resp)
    {
      var fetched := FetchLiveStatusBatch(resp);
      match fetched {
        case Failure(e) =>
          sends, failure := [], Some(e);
        case Success(liveInfo) =>
          CyclePreservesWellFormed(mode, Snapshot(), liveRooms, liveInfo);
          sends := Detect(mode, liveInfo);
          failure := None;
      }
    }

    /** `initial_check`. */
    method InitialCheck(resp: Response) returns (sends: seq<Send>, failure: Option<FetchError>)
      requires Valid()
      modifies this
      ensures Valid() && liveRooms == old(liveRooms)
      ensures Run(Snapshot(), sends, failure) == Poll(Startup, old(Snapshot()), liveRooms, resp)
    {
      sends, failure := Check(Startup, resp);
    }

    /** `monitor_live_status` over a finite list of replies: it polls until the list ends or
        a fetch raises, which ends the task. */
    method MonitorLiveStatus(replies: seq<Response>) returns (sends: seq<Send>, failure: Option<FetchError>)
      requires Valid()
      modifies this
      ensures Valid() && liveRooms == old(liveRooms)
      ensures Run(Snapshot(), sends, failure) == Monitor(old(Snapshot()), liveRooms, replies)
    {
      ghost var s0 := Snapshot();
      sends, failure := [], None;
      var k := 0;
      while k < |replies| && failure.None?
        invariant 0 <= k <= |replies|
        invariant Valid() && liveRooms == old(liveRooms)
        invariant Run(Snapshot(), sends, failure) == Monitor(s0, liveRooms, replies[..k])
      {
        MonitorPrefix(s0, liveRooms, replies, k);
        ghost var prev := Run(Snapshot(), sends, failure);
        var sent, err := Check(Steady, replies[k]);
        assert Run(Snapshot(), sends + sent, err) == Advance(prev, liveRooms, replies[k]);
        sends, failure := sends + sent, err;
        k := k + 1;
      }
      if k < |replies| {
        MonitorStopsAfterFailure(s0, liveRooms, replies[..k], replies[k..]);
        assert replies[..k] + replies[k..] == replies;
      } else {
        assert replies[..k] == replies;
      }
    }

    /** `initialize`: the start-up check and, unless its fetch raised, the monitor task. */
    method Initialize(startup: Response, replies: seq<Response>) returns (sends: seq<Send>, failure: Option<FetchError>)
      requires Valid()
      modifies this
      ensures Valid() && liveRooms == old(liveRooms)
      ensures Run(Snapshot(), sends, failure) == Service(old(Snapshot()), liveRooms, startup, replies)
    {
      sends, failure := InitialCheck(startup);
      if failure.None? {
        var later, err := MonitorLiveStatus(replies);
        sends, failure := sends + later, err;
      }
    }
  }
}
