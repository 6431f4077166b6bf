/** The parsing half of `fetch_live_status_batch`: from the HTTP reply to the list of
    `(status, cover, uname, live_url)` tuples. The GET itself is not modelled; what it gave,
    a reply or an exception, is an input. */
module Fetch {
  import opened Wrappers
  import opened Rooms

  /** One value of `data.by_room_ids`; a field is `None` when its key is absent. */
  datatype RoomInfo = RoomInfo(
    liveStatus: Option<int>,
    cover: Option<string>,
    uname: Option<string>,
    liveUrl: Option<string>)

  /** The decoded body of the reply. `byRoomIds` lists the entries in the reply's order;
      it is `None` when `data` or `data.by_room_ids` is missing. */
  datatype Body =
    | Undecodable
    | NotAnObject
    | Object(code: Option<int>, byRoomIds: Option<seq<(RoomId, RoomInfo)>>)

  /** What the GET gave: an exception of its own (a connection error or a time-out), or a
      reply with its HTTP status and body. */
  datatype Response =
    | Raised
    | Response(httpStatus: int, body: Body)

  /** How the call fails instead of returning a list. */
  datatype FetchError =
    | GetRaised   // the GET itself raises
    | Unbound     // status not 200, or code not 0: `live_info` is never assigned
    | BadJson     // `resp.json()` raises
    | MissingKey  // a `KeyError` on `data`, `by_room_ids` or a required field of an entry

  /** The reply passes both guards: HTTP 200 and an object whose `code` is 0. */
  predicate Accepted(resp: Response)
  {
    resp.Response? && resp.httpStatus == 200 && resp.body.Object? && resp.body.code == Some(0)
  }

  /** An entry has the three keys read with `[]`; `cover` is read with a default. */
  predicate Complete(info: RoomInfo)
  {
    info.liveStatus.Some? && info.uname.Some? && info.liveUrl.Some?
  }

  function ToLiveInfo(info: RoomInfo): LiveInfo
    requires Complete(info)
  {
    LiveInfo(info.liveStatus.value, info.cover.GetOr(""), info.uname.value, info.liveUrl.value)
  }

  /** The tuples of the entries, in entry order, or a `KeyError`. */
  function ParseEntries(entries: seq<(RoomId, RoomInfo)>): (r: Result<seq<LiveInfo>, FetchError>)
    ensures r.Success? <==> forall k :: 0 <= k < |entries| ==> Complete(entries[k].1)
    ensures r.Failure? ==> r.error == MissingKey
    ensures r.Success? ==> |r.value| == |entries|
    ensures r.Success? ==> forall k :: 0 <= k < |entries| ==>
      Complete(entries[k].1) && r.value[k] == ToLiveInfo(entries[k].1)
    decreases |entries|
  {
    if entries == [] then Success([])
    else
      match ParseEntries(entries[..|entries| - 1])
      case Failure(e) => Failure(e)
      case Success(prefix) =>
        var last := entries[|entries| - 1].1;
        if Complete(last) then Success(prefix + [ToLiveInfo(last)]) else Failure(MissingKey)
  }

  /** The whole reply: the guards, then the entries. */
  function ParseResponse(resp: Response): (r: Result<seq<LiveInfo>, FetchError>)
    ensures resp.Raised? ==> r == Failure(GetRaised)
    ensures resp.Response? && resp.httpStatus != 200 ==> r == Failure(Unbound)
    ensures resp.Response? && resp.httpStatus == 200 && resp.body.Undecodable? ==> r == Failure(BadJson)
    ensures resp.Response? && resp.httpStatus == 200
      && (resp.body.NotAnObject? || (resp.body.Object? && resp.body.code != Some(0)))
      ==> r == Failure(Unbound)
    ensures r.Success? <==>
      Accepted(resp) && resp.body.byRoomIds.Some?
      && forall k :: 0 <= k < |resp.body.byRoomIds.value| ==> Complete(resp.body.byRoomIds.value[k].1)
    ensures r.Success? ==>
      && Accepted(resp) && resp.body.byRoomIds.Some?
      && |r.value| == |resp.body.byRoomIds.value|
      && forall k :: 0 <= k < |r.value| ==>
           Complete(resp.body.byRoomIds.value[k].1)
           && r.value[k] == ToLiveInfo(resp.body.byRoomIds.value[k].1)
  {
    if resp.Raised? then Failure(GetRaised)
    else if resp.httpStatus != 200 then Failure(Unbound)
    else match resp.body
      case Undecodable => Failure(BadJson)
      case NotAnObject => Failure(Unbound)
      case Object(code, byRoomIds) =>
        if code != Some(0) then Failure(Unbound)
        else if byRoomIds.None? then Failure(MissingKey)
        else ParseEntries(byRoomIds.value)
  }

  /** The parsing code of `fetch_live_status_batch`, with its append loop. */
  method FetchLiveStatusBatch(resp: Response) returns (r: Result<seq<LiveInfo>, FetchError>)
    ensures r == ParseResponse(resp)
  {
    if resp.Raised? {
      return Failure(GetRaised);
    }
    if resp.httpStatus != 200 {
      return Failure(Unbound);
    }
    if resp.body.Undecodable? {
      return Failure(BadJson);
    }
    if !(resp.body.Object? && resp.body.code == Some(0)) {
      return Failure(Unbound);
    }
    if resp.body.byRoomIds.None? {
      return Failure(MissingKey);
    }
    var entries := resp.body.byRoomIds.value;
    var liveInfo: seq<LiveInfo> := [];
    for k := 0 to |entries|
      invariant ParseEntries(entries[..k]) == Success(liveInfo)
    {
      assert entries[..k + 1][..k] == entries[..k];
      var info := entries[k].1;
      if !Complete(info) {
        return Failure(MissingKey);
      }
      liveInfo := liveInfo + [ToLiveInfo(info)];
    }
    assert entries[..|entries|] == entries;
    return Success(liveInfo);
  }
}
