/** The transition detector: what one pass over the rooms does to the four per-room
    dictionaries and which sends it emits. `Startup` is the body of `initial_check`,
    `Steady` that of one iteration of `monitor_live_status`. */
module Detector {
  import opened Wrappers
  import opened Rooms
  import opened Message

  /** `live_statuses`, `live_covers`, `live_unames` and `live_urls`. A stored status is
      `None` (Python's None) or the status last recorded. */
  datatype Store = Store(
    statuses: map<RoomId, Option<int>>,
    covers: map<RoomId, string>,
    unames: map<RoomId, string>,
    urls: map<RoomId, string>)

  /** The new store and the sends, in the order they are posted. */
  datatype Outcome = Outcome(store: Store, sends: seq<Send>)

  datatype Mode = Startup | Steady

  function Lookup<V>(m: map<RoomId, V>, id: RoomId): Option<V>
  {
    if id in m then Some(m[id]) else None
  }

  /** Everything the four dictionaries hold for one key, absence included. */
  datatype Entry = Entry(
    status: Option<Option<int>>,
    cover: Option<string>,
    uname: Option<string>,
    url: Option<string>)

  function EntryOf(s: Store, id: RoomId): Entry
  {
    Entry(Lookup(s.statuses, id), Lookup(s.covers, id), Lookup(s.unames, id), Lookup(s.urls, id))
  }

  /** `live_statuses.get(room_id)`: a missing key reads as None. */
  function Stored(s: Store, id: RoomId): Option<int>
  {
    match Lookup(s.statuses, id)
    case Some(v) => v
    case None => None
  }

  /** The notification test. At start-up it is `status == 1`; in the steady loop it is
      `status == 1 and status != live_statuses.get(room_id)`. */
  predicate Notifies(mode: Mode, stored: Option<int>, status: int)
  {
    status == LIVE && (mode.Startup? || Some(status) != stored)
  }

  /** After the sends: the fresh status and metadata are recorded for the room. */
  function Record(s: Store, id: RoomId, info: LiveInfo): Store
  {
    Store(s.statuses[id := Some(info.status)], s.covers[id := info.cover],
          s.unames[id := info.uname], s.urls[id := info.liveUrl])
  }

  /** The steady loop's `elif status != 1` branch. */
  function Reset(s: Store, id: RoomId): Store
  {
    Store(s.statuses[id := None], s.covers[id := ""], s.unames[id := ""], s.urls[id := ""])
  }

  function Announcement(info: LiveInfo): seq<Segment>
  {
    MessageChain(info.cover, info.uname, info.liveUrl)
  }

  /** One room paired with its fetched tuple. */
  function Step(mode: Mode, s: Store, room: RoomConfig, info: LiveInfo): Outcome
  {
    if Notifies(mode, Stored(s, room.roomId), info.status) then
      Outcome(Record(s, room.roomId, info), FanOut(room.groupIds, Announcement(info)))
    else if mode.Steady? && info.status != LIVE then
      Outcome(Reset(s, room.roomId), [])
    else
      Outcome(s, [])
  }

  /** Python's `zip(live_rooms, live_info)`, which stops at the shorter list. */
  function Zip(rooms: seq<RoomConfig>, infos: seq<LiveInfo>): (pairs: seq<(RoomConfig, LiveInfo)>)
    ensures |pairs| == Min(|rooms|, |infos|)
    ensures forall k :: 0 <= k < |pairs| ==> pairs[k] == (rooms[k], infos[k])
    decreases |rooms|
  {
    if rooms == [] || infos == [] then []
    else [(rooms[0], infos[0])] + Zip(rooms[1..], infos[1..])
  }

  /** The rooms processed one after the other, each seeing the store the earlier ones left. */
  function Fold(mode: Mode, s: Store, pairs: seq<(RoomConfig, LiveInfo)>): Outcome
    decreases |pairs|
  {
    if pairs == [] then Outcome(s, [])
    else
      var prev := Fold(mode, s, pairs[..|pairs| - 1]);
      var last := Step(mode, prev.store, pairs[|pairs| - 1].0, pairs[|pairs| - 1].1);
      Outcome(last.store, prev.sends + last.sends)
  }

  /** One pass of `initial_check` or of the monitor loop over the fetched list. */
  function Cycle(mode: Mode, s: Store, rooms: seq<RoomConfig>, infos: seq<LiveInfo>): Outcome
  {
    Fold(mode, s, Zip(rooms, infos))
  }

  /** The loop of `load_config`: every configured room's status starts as None. */
  function InitialStatuses(rooms: seq<RoomConfig>): (m: map<RoomId, Option<int>>)
    ensures m.Keys == RoomIds(rooms)
    ensures forall id :: id in m ==> m[id] == None
    decreases |rooms|
  {
    if rooms == [] then map[]
    else
      var init := rooms[..|rooms| - 1];
      assert RoomIds(rooms) == RoomIds(init) + {rooms[|rooms| - 1].roomId} by {
        assert rooms == init + [rooms[|rooms| - 1]];
      }
      InitialStatuses(init)[rooms[|rooms| - 1].roomId := None]
  }

  function InitialStore(rooms: seq<RoomConfig>): Store
  {
    Store(InitialStatuses(rooms), map[], map[], map[])
  }

  /** What the dictionaries can hold: a stored status is None or 1, the three metadata
      dictionaries share their keys, which are all status keys, and a room stored live has
      its metadata recorded. */
  ghost predicate WellFormed(s: Store)
  {
    && (forall id :: id in s.statuses ==> s.statuses[id] == None || s.statuses[id] == Some(LIVE))
    && s.covers.Keys == s.unames.Keys
    && s.covers.Keys == s.urls.Keys
    && s.covers.Keys <= s.statuses.Keys
    && (forall id :: id in s.statuses && s.statuses[id] == Some(LIVE) ==> id in s.covers)
  }

  /** The sends one room contributes when nothing before it in the pass touched its key. */
  function RoomSends(mode: Mode, s: Store, room: RoomConfig, info: LiveInfo): seq<Send>
  {
    if Notifies(mode, Stored(s, room.roomId), info.status)
    then FanOut(room.groupIds, Announcement(info))
    else []
  }

  /** The per-room blocks of sends of a pass, one block per processed room. */
  function Blocks(mode: Mode, s: Store, rooms: seq<RoomConfig>, infos: seq<LiveInfo>): seq<seq<Send>>
  {
    seq(Min(|rooms|, |infos|), k requires 0 <= k < Min(|rooms|, |infos|) => RoomSends(mode, s, rooms[k], infos[k]))
  }

  function Flatten(bs: seq<seq<Send>>): seq<Send>
    decreases |bs|
  {
    if bs == [] then [] else Flatten(bs[..|bs| - 1]) + bs[|bs| - 1]
  }

  predicate DistinctPairs(pairs: seq<(RoomConfig, LiveInfo)>)
  {
    forall i, j :: 0 <= i < j < |pairs| ==> pairs[i].0.roomId != pairs[j].0.roomId
  }

  // ---------------------------------------------------------------------------------
  // One room

  /** A step touches only its own room's key. */
  lemma StepFrame(mode: Mode, s: Store, room: RoomConfig, info: LiveInfo, id: RoomId)
    requires id != room.roomId
    ensures EntryOf(Step(mode, s, room, info).store, id) == EntryOf(s, id)
  {
  }

  /** A step's effect on its room depends only on what the store held for that room. */
  lemma StepLocal(mode: Mode, s1: Store, s2: Store, room: RoomConfig, info: LiveInfo)
    requires EntryOf(s1, room.roomId) == EntryOf(s2, room.roomId)
    ensures EntryOf(Step(mode, s1, room, info).store, room.roomId)
         == EntryOf(Step(mode, s2, room, info).store, room.roomId)
    ensures Step(mode, s1, room, info).sends == RoomSends(mode, s2, room, info)
  {
    assert Stored(s1, room.roomId) == Stored(s2, room.roomId);
  }

  lemma StepPreservesWellFormed(mode: Mode, s: Store, room: RoomConfig, info: LiveInfo)
    requires WellFormed(s)
    ensures WellFormed(Step(mode, s, room, info).store)
    ensures s.statuses.Keys <= Step(mode, s, room, info).store.statuses.Keys
  {
  }

  // ---------------------------------------------------------------------------------
  // A pass over the rooms

  lemma {:induction false} FoldFrame(mode: Mode, s: Store, pairs: seq<(RoomConfig, LiveInfo)>, id: RoomId)
    requires forall k :: 0 <= k < |pairs| ==> pairs[k].0.roomId != id
    ensures EntryOf(Fold(mode, s, pairs).store, id) == EntryOf(s, id)
    decreases |pairs|
  {
    if pairs != [] {
      var init := pairs[..|pairs| - 1];
      FoldFrame(mode, s, init, id);
      StepFrame(mode, Fold(mode, s, init).store, pairs[|pairs| - 1].0, pairs[|pairs| - 1].1, id);
    }
  }

  /** With distinct room ids, a room ends the pass as if it had been processed alone. */
  lemma {:induction false} FoldPerRoom(mode: Mode, s: Store, pairs: seq<(RoomConfig, LiveInfo)>, i: nat)
    requires DistinctPairs(pairs) && i < |pairs|
    ensures EntryOf(Fold(mode, s, pairs).store, pairs[i].0.roomId)
         == EntryOf(Step(mode, s, pairs[i].0, pairs[i].1).store, pairs[i].0.roomId)
    decreases |pairs|
  {
    var n := |pairs| - 1;
    var init := pairs[..n];
    var prev := Fold(mode, s, init).store;
    var id := pairs[i].0.roomId;
    if i == n {
      FoldFrame(mode, s, init, id);
      StepLocal(mode, prev, s, pairs[n].0, pairs[n].1);
    } else {
      FoldPerRoom(mode, s, init, i);
      StepFrame(mode, prev, pairs[n].0, pairs[n].1, id);
    }
  }

  lemma {:induction false} FoldSends(mode: Mode, s: Store, pairs: seq<(RoomConfig, LiveInfo)>)
    requires DistinctPairs(pairs)
    ensures Fold(mode, s, pairs).sends
         == Flatten(seq(|pairs|, k requires 0 <= k < |pairs| => RoomSends(mode, s, pairs[k].0, pairs[k].1)))
    decreases |pairs|
  {
    if pairs != [] {
      var n := |pairs| - 1;
      var init := pairs[..n];
      var bs := seq(|pairs|, k requires 0 <= k < |pairs| => RoomSends(mode, s, pairs[k].0, pairs[k].1));
      assert bs[..n] == seq(n, k requires 0 <= k < n => RoomSends(mode, s, init[k].0, init[k].1));
      FoldSends(mode, s, init);
      FoldFrame(mode, s, init, pairs[n].0.roomId);
      StepLocal(mode, Fold(mode, s, init).store, s, pairs[n].0, pairs[n].1);
    }
  }

  lemma {:induction false} FoldPreservesWellFormed(mode: Mode, s: Store, pairs: seq<(RoomConfig, LiveInfo)>)
    requires WellFormed(s)
    ensures WellFormed(Fold(mode, s, pairs).store)
    ensures s.statuses.Keys <= Fold(mode, s, pairs).store.statuses.Keys
    decreases |pairs|
  {
    if pairs != [] {
      var init := pairs[..|pairs| - 1];
      FoldPreservesWellFormed(mode, s, init);
      StepPreservesWellFormed(mode, Fold(mode, s, init).store, pairs[|pairs| - 1].0, pairs[|pairs| - 1].1);
    }
  }

  lemma ZipDistinct(rooms: seq<RoomConfig>, infos: seq<LiveInfo>)
    requires DistinctIds(rooms)
    ensures DistinctPairs(Zip(rooms, infos))
  {
  }

  // ---------------------------------------------------------------------------------
  // The properties of one pass, stated over the configured rooms and the fetched list

  /** Only the first min(|rooms|, |infos|) rooms are visited: every other key keeps all
      four of its entries. */
  lemma CycleFrame(mode: Mode, s: Store, rooms: seq<RoomConfig>, infos: seq<LiveInfo>, id: RoomId)
    requires id !in RoomIds(rooms[..Min(|rooms|, |infos|)])
    ensures EntryOf(Cycle(mode, s, rooms, infos).store, id) == EntryOf(s, id)
  {
    var pairs := Zip(rooms, infos);
    forall k | 0 <= k < |pairs| ensures pairs[k].0.roomId != id {
      assert rooms[..Min(|rooms|, |infos|)][k] == rooms[k];
    }
    FoldFrame(mode, s, pairs, id);
  }

  /** What a visited room's four entries are after the pass: the fresh tuple after a
      notification; None and three empty strings after any non-live status; untouched when
      it was live and already stored live (steady loop) or not live (start-up). */
  lemma CycleRoomState(mode: Mode, s: Store, rooms: seq<RoomConfig>, infos: seq<LiveInfo>, i: nat)
    requires DistinctIds(rooms) && i < |rooms| && i < |infos|
    ensures var e := EntryOf(Cycle(mode, s, rooms, infos).store, rooms[i].roomId);
      var info := infos[i];
      && (Notifies(mode, Stored(s, rooms[i].roomId), info.status) ==>
            e == Entry(Some(Some(info.status)), Some(info.cover), Some(info.uname), Some(info.liveUrl)))
      && (mode.Steady? && info.status != LIVE ==>
            e == Entry(Some(None), Some(""), Some(""), Some("")))
      && (!Notifies(mode, Stored(s, rooms[i].roomId), info.status) && !(mode.Steady? && info.status != LIVE) ==>
            e == EntryOf(s, rooms[i].roomId))
  {
    ZipDistinct(rooms, infos);
    FoldPerRoom(mode, s, Zip(rooms, infos), i);
  }

  /** The sends of a pass: for each visited room in list order, one send per group exactly
      when the room passes the notification test against the store at the start of the pass. */
  lemma CycleSends(mode: Mode, s: Store, rooms: seq<RoomConfig>, infos: seq<LiveInfo>)
    requires DistinctIds(rooms)
    ensures Cycle(mode, s, rooms, infos).sends == Flatten(Blocks(mode, s, rooms, infos))
  {
    var pairs := Zip(rooms, infos);
    ZipDistinct(rooms, infos);
    FoldSends(mode, s, pairs);
    assert seq(|pairs|, k requires 0 <= k < |pairs| => RoomSends(mode, s, pairs[k].0, pairs[k].1))
        == Blocks(mode, s, rooms, infos);
  }

  lemma CyclePreservesWellFormed(mode: Mode, s: Store, rooms: seq<RoomConfig>, infos: seq<LiveInfo>)
    requires WellFormed(s)
    ensures WellFormed(Cycle(mode, s, rooms, infos).store)
    ensures s.statuses.Keys <= Cycle(mode, s, rooms, infos).store.statuses.Keys
  {
    FoldPreservesWellFormed(mode, s, Zip(rooms, infos));
  }

  lemma InitialStoreWellFormed(rooms: seq<RoomConfig>)
    ensures WellFormed(InitialStore(rooms))
    ensures forall id :: Stored(InitialStore(rooms), id) == None
  {
  }
}
