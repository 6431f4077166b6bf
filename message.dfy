/** The announcement posted for a room that went live, and its fan-out to groups. */
module Message {
  import opened Wrappers
  import opened Rooms

  /** One element of the message chain: an image or a piece of text. */
  datatype Segment = Image(file: string) | Text(text: string)

  /** One POST to the bot framework's `/send_msg`: the target group and the message chain. */
  datatype Send = Send(groupId: GroupId, message: seq<Segment>)

  /** The fixed words put between the streamer's name and the room link ("is live!"). */
  const Marker: string := " 正在直播！"

  /** The caption `f"{uname} 正在直播！\n{live_url}"`. */
  function Caption(uname: string, liveUrl: string): string
  {
    uname + Marker + "\n" + liveUrl
  }

  /** The two-part message chain: the cover image, then the caption. */
  function MessageChain(cover: string, uname: string, liveUrl: string): seq<Segment>
  {
    [Image(cover), Text(Caption(uname, liveUrl))]
  }

  /** Splits a text at its last newline, if it has one. */
  function SplitAtLastNewline(s: string): Option<(string, string)>
    decreases |s|
  {
    if s == [] then None
    else if s[|s| - 1] == '\n' then Some((s[..|s| - 1], ""))
    else match SplitAtLastNewline(s[..|s| - 1])
      case None => None
      case Some((head, tail)) => Some((head, tail + [s[|s| - 1]]))
  }

  /** What a reader of the group recovers from a caption: the streamer's name and the link. */
  function ReadCaption(text: string): Option<(string, string)>
  {
    match SplitAtLastNewline(text)
    case None => None
    case Some((head, url)) =>
      if |Marker| <= |head| && head[|head| - |Marker|..] == Marker
      then Some((head[..|head| - |Marker|], url))
      else None
  }

  lemma {:induction false} SplitAfterLink(head: string, url: string)
    requires '\n' !in url
    ensures SplitAtLastNewline(head + "\n" + url) == Some((head, url))
    decreases |url|
  {
    var s := head + "\n" + url;
    if url == [] {
      assert s[..|s| - 1] == head;
    } else {
      var u := url[..|url| - 1];
      assert s[..|s| - 1] == head + "\n" + u;
      assert s[|s| - 1] == url[|url| - 1];
      SplitAfterLink(head, u);
      assert u + [url[|url| - 1]] == url;
    }
  }

  /** The chain is an image of the cover followed by a text from which the name and the
      link read back unchanged (a room link holds no newline). */
  lemma MessageRoundTrip(cover: string, uname: string, liveUrl: string)
    requires '\n' !in liveUrl
    ensures var chain := MessageChain(cover, uname, liveUrl);
      && |chain| == 2
      && chain[0] == Image(cover)
      && chain[1].Text?
      && ReadCaption(chain[1].text) == Some((uname, liveUrl))
  {
    var head := uname + Marker;
    assert Caption(uname, liveUrl) == head + "\n" + liveUrl;
    SplitAfterLink(head, liveUrl);
    assert head[|head| - |Marker|..] == Marker;
    assert head[..|head| - |Marker|] == uname;
  }

  /** One send per group id, in list order, each with the same message. */
  function FanOut(groupIds: seq<GroupId>, message: seq<Segment>): (sends: seq<Send>)
    ensures |sends| == |groupIds|
    ensures forall k :: 0 <= k < |groupIds| ==> sends[k] == Send(groupIds[k], message)
    decreases |groupIds|
  {
    if groupIds == [] then []
    else FanOut(groupIds[..|groupIds| - 1], message) + [Send(groupIds[|groupIds| - 1], message)]
  }

  /** The `for group_id in room['group_ids']` loop: posts the chain to every group. */
  method Dispatch(groupIds: seq<GroupId>, message: seq<Segment>) returns (sends: seq<Send>)
    ensures sends == FanOut(groupIds, message)
  {
    sends := [];
    for k := 0 to |groupIds|
      invariant sends == FanOut(groupIds[..k], message)
    {
      assert groupIds[..k + 1][..k] == groupIds[..k];
      sends := sends + [Send(groupIds[k], message)];
    }
    assert groupIds[..|groupIds|] == groupIds;
  }
}
