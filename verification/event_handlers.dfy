/**
 * The storage plugin's reading of a group message (`handle_group_message`): the content string
 * and the message type ("text", "img", "aud", "vid" or "others") under which every message is
 * recorded before the chat plugin sees it.
 */
module EventHandlers {
  import opened Wrappers
  import Text
  import OneBot
  import GroupChat

  /** Marker segments that are kept as a bare CQ code. */
  predicate IsMarker(s: OneBot.Segment) {
    var t := s.kind;
    t == OneBot.FaceSeg || t == OneBot.EmojiSeg || t == OneBot.ShakeSeg || t == OneBot.PokeSeg
  }

  /** The stored type of a media segment. */
  function MediaType(s: OneBot.Segment): (t: string)
    requires OneBot.IsMedia(s)
  {
    match s.kind
    case ImageSeg => "img"
    case RecordSeg => "aud"
    case VideoSeg => "vid"
    case FileSeg => "others"
  }

  /** What one segment ahead of any media segment adds to the content. */
  function StorePiece(s: OneBot.Segment, selfId: int): string {
    var t := s.kind;
    if t == OneBot.TextSeg then OneBot.Field(s, "text")
    else if t == OneBot.AtSeg then OneBot.AtText(s, selfId)
    else if IsMarker(s) then "[CQ:" + OneBot.TypeName(s.kind) + "]"
    else ""
  }

  /** The content accumulated over segments none of which is media. */
  function StoreText(segs: seq<OneBot.Segment>, selfId: int): string {
    if segs == [] then ""
    else StoreText(segs[..|segs| - 1], selfId) + StorePiece(segs[|segs| - 1], selfId)
  }

  /** The index of the first media segment, if any. */
  function FirstMedia(segs: seq<OneBot.Segment>): (r: Option<nat>)
    ensures r.Some? ==> r.value < |segs| && OneBot.IsMedia(segs[r.value])
                        && forall k :: 0 <= k < r.value ==> !OneBot.IsMedia(segs[k])
    ensures r.None? ==> forall k :: 0 <= k < |segs| ==> !OneBot.IsMedia(segs[k])
  {
    if segs == [] then None
    else if OneBot.IsMedia(segs[0]) then Some(0)
    else
      match FirstMedia(segs[1..])
      case None => None
      case Some(k) => Some(k + 1)
  }

  /** A stored message: its type and its content. */
  datatype Stored = Stored(messageType: string, content: string)

  /** The segment parse: the first media segment decides type and content; without one the
      type is "text" and the content is every segment's piece in order. */
  function ParseSegments(segs: seq<OneBot.Segment>, selfId: int): Stored {
    match FirstMedia(segs)
    case Some(i) => Stored(MediaType(segs[i]), OneBot.Placeholder(segs[i]))
    case None => Stored("text", StoreText(segs, selfId))
  }

  /**
   * What `handle_group_message` stores: a non-empty raw text verbatim as "text", otherwise the
   * segment parse; content that is still empty falls back to the message's string form, or to
   * "【空消息】" when that is blank.
   */
  function StoredMessage(e: OneBot.GroupMessageEvent): (r: Stored)
    ensures r.messageType in {"text", "img", "aud", "vid", "others"}
    ensures r.content != ""
  {
    var parsed := if e.rawMessage != "" then Stored("text", e.rawMessage)
                  else ParseSegments(e.message, e.selfId);
    if parsed.content != "" then parsed
    else if !Text.IsBlank(e.rendered) then parsed.(content := e.rendered)
    else parsed.(content := "【空消息】")
  }

  /** A non-empty raw text is stored verbatim with type "text". */
  lemma RawMessageIsText(e: OneBot.GroupMessageEvent)
    requires e.rawMessage != ""
    ensures StoredMessage(e) == Stored("text", e.rawMessage)
  {
  }

  /** The fallback for empty content: the string form when it is not blank, else "【空消息】". */
  lemma EmptyContentFallback(e: OneBot.GroupMessageEvent)
    requires e.rawMessage == "" && ParseSegments(e.message, e.selfId).content == ""
    ensures StoredMessage(e).messageType == "text"
    ensures !Text.IsBlank(e.rendered) ==> StoredMessage(e).content == e.rendered
    ensures Text.IsBlank(e.rendered) ==> StoredMessage(e).content == "【空消息】"
  {
  }

  /** Text is copied, an at-segment gives the bot's name bare or `@name` / `@qq` for anyone
      else, the four marker kinds give `[CQ:<kind>]`, and other segments give nothing. */
  lemma StorePieceRules(s: OneBot.Segment, selfId: int)
    ensures s.kind == OneBot.TextSeg ==> StorePiece(s, selfId) == OneBot.Field(s, "text")
    ensures OneBot.MentionsBot(s, selfId) ==>
              StorePiece(s, selfId) == (if OneBot.Field(s, "name") != "" then OneBot.Field(s, "name")
                                        else "小奏")
    ensures s.kind == OneBot.AtSeg && !OneBot.MentionsBot(s, selfId) && OneBot.Field(s, "name") != "" ==>
              StorePiece(s, selfId) == "@" + OneBot.Field(s, "name")
    ensures s.kind == OneBot.AtSeg && !OneBot.MentionsBot(s, selfId) && OneBot.Field(s, "name") == "" ==>
              StorePiece(s, selfId) == "@" + OneBot.Field(s, "qq")
    ensures IsMarker(s) ==> StorePiece(s, selfId) == "[CQ:" + OneBot.TypeName(s.kind) + "]"
    ensures s.kind != OneBot.TextSeg && s.kind != OneBot.AtSeg && !IsMarker(s) ==> StorePiece(s, selfId) == ""
  {
  }

  /** The last segment's piece comes last. */
  lemma StoreTextSnoc(segs: seq<OneBot.Segment>, selfId: int)
    requires segs != []
    ensures StoreText(segs, selfId) == StoreText(segs[..|segs| - 1], selfId) + StorePiece(segs[|segs| - 1], selfId)
  {
  }

  /** The accumulated content of two runs of segments is the concatenation of their contents. */
  lemma {:induction false} StoreTextAppend(a: seq<OneBot.Segment>, b: seq<OneBot.Segment>, selfId: int)
    ensures StoreText(a + b, selfId) == StoreText(a, selfId) + StoreText(b, selfId)
    decreases |b|
  {
    if b == [] {
      assert a + b == a;
    } else {
      var b' := b[..|b| - 1];
      var last := b[|b| - 1];
      var ab := a + b;
      assert ab[..|ab| - 1] == a + b';
      assert ab[|ab| - 1] == last;
      calc {
        StoreText(ab, selfId);
        { StoreTextSnoc(ab, selfId); }
        StoreText(a + b', selfId) + StorePiece(last, selfId);
        { StoreTextAppend(a, b', selfId); }
        (StoreText(a, selfId) + StoreText(b', selfId)) + StorePiece(last, selfId);
        { Text.AppendAssoc(StoreText(a, selfId), StoreText(b', selfId), StorePiece(last, selfId)); }
        StoreText(a, selfId) + (StoreText(b', selfId) + StorePiece(last, selfId));
        { StoreTextSnoc(b, selfId); }
        StoreText(a, selfId) + StoreText(b, selfId);
      }
    }
  }

  /** The first media segment decides the whole result: what came before it is discarded and
      nothing after it is read. */
  lemma MediaStopsScanning(pre: seq<OneBot.Segment>, m: OneBot.Segment, rest: seq<OneBot.Segment>,
                           selfId: int)
    requires forall k :: 0 <= k < |pre| ==> !OneBot.IsMedia(pre[k])
    requires OneBot.IsMedia(m)
    ensures ParseSegments(pre + [m] + rest, selfId) == Stored(MediaType(m), OneBot.Placeholder(m))
  {
    var segs := pre + [m] + rest;
    assert segs[|pre|] == m;
    assert forall k :: 0 <= k < |pre| ==> segs[k] == pre[k];
  }

  /** On messages of text and at-segments only, the storage fold and the chat fold build the
      same content. */
  lemma {:induction false} AgreesWithChatFold(segs: seq<OneBot.Segment>, selfId: int)
    requires forall k :: 0 <= k < |segs| ==> segs[k].kind == OneBot.TextSeg || segs[k].kind == OneBot.AtSeg
    ensures ParseSegments(segs, selfId) == Stored("text", GroupChat.ChatText(segs, selfId))
  {
    SameText(segs, selfId);
  }

  lemma {:induction false} SameText(segs: seq<OneBot.Segment>, selfId: int)
    requires forall k :: 0 <= k < |segs| ==> segs[k].kind == OneBot.TextSeg || segs[k].kind == OneBot.AtSeg
    ensures StoreText(segs, selfId) == GroupChat.ChatText(segs, selfId)
    decreases |segs|
  {
    if segs != [] {
      var init := segs[..|segs| - 1];
      assert forall k :: 0 <= k < |init| ==> init[k] == segs[k];
      SameText(init, selfId);
    }
  }

  /** The scan's view of `MediaStopsScanning`: the media segment at `i`, the first one, decides. */
  lemma FirstMediaDecides(segs: seq<OneBot.Segment>, i: int, selfId: int)
    requires 0 <= i < |segs| && OneBot.IsMedia(segs[i])
    requires forall k :: 0 <= k < i ==> !OneBot.IsMedia(segs[k])
    ensures ParseSegments(segs, selfId) == Stored(MediaType(segs[i]), OneBot.Placeholder(segs[i]))
  {
    MediaStopsScanning(segs[..i], segs[i], segs[i + 1..], selfId);
    assert segs[..i] + [segs[i]] + segs[i + 1..] == segs;
  }

  /** How each segment type the scan tests for is classified. */
  lemma SegmentKinds(s: OneBot.Segment)
    ensures s.kind == OneBot.TextSeg || s.kind == OneBot.AtSeg ==> !OneBot.IsMedia(s) && !IsMarker(s)
    ensures s.kind == OneBot.ImageSeg ==> OneBot.IsMedia(s) && MediaType(s) == "img" && OneBot.Placeholder(s) == "【图片】"
    ensures s.kind == OneBot.RecordSeg ==> OneBot.IsMedia(s) && MediaType(s) == "aud" && OneBot.Placeholder(s) == "【语音】"
    ensures s.kind == OneBot.VideoSeg ==> OneBot.IsMedia(s) && MediaType(s) == "vid" && OneBot.Placeholder(s) == "【视频】"
    ensures s.kind == OneBot.FileSeg ==> OneBot.IsMedia(s) && MediaType(s) == "others" && OneBot.Placeholder(s) == "【文件】"
    ensures IsMarker(s) ==> !OneBot.IsMedia(s)
  {
  }

  /** One more non-media segment adds its piece. */
  lemma StoreStep(segs: seq<OneBot.Segment>, i: int, selfId: int)
    requires 0 <= i < |segs|
    ensures StoreText(segs[..i + 1], selfId) == StoreText(segs[..i], selfId) + StorePiece(segs[i], selfId)
  {
    var t := segs[..i + 1];
    assert t[..|t| - 1] == segs[..i];
    assert t[|t| - 1] == segs[i];
    StoreTextSnoc(t, selfId);
  }

  /**
   * The content and type parsing of `handle_group_message`: raw text first, otherwise the
   * segment scan; then the fallback for empty content.
   */
  method ParseMessage(e: OneBot.GroupMessageEvent) returns (messageType: string, content: string)
    ensures Stored(messageType, content) == StoredMessage(e)
  {
    messageType := "text";
    content := "";
    if e.rawMessage != "" {
      content := e.rawMessage;
    } else {
      messageType, content := ScanSegments(e.message, e.selfId);
    }
    if content == "" {
      content := e.rendered;
      if Text.IsBlank(content) {
        content := "【空消息】";
      }
    }
  }

  /** The scan as the loop runs it: from segment `i` on, with `content` accumulated so far. */
  function ScanFrom(segs: seq<OneBot.Segment>, selfId: int, i: nat, content: string): Stored
    requires i <= |segs|
    decreases |segs| - i
  {
    if i == |segs| then Stored("text", content)
    else if OneBot.IsMedia(segs[i]) then Stored(MediaType(segs[i]), OneBot.Placeholder(segs[i]))
    else ScanFrom(segs, selfId, i + 1, content + StorePiece(segs[i], selfId))
  }

  /** Running the scan from any media-free prefix reaches the segment parse. */
  lemma {:induction false} ScanFromIsParse(segs: seq<OneBot.Segment>, selfId: int, i: nat)
    requires i <= |segs|
    requires forall k :: 0 <= k < i ==> !OneBot.IsMedia(segs[k])
    ensures ScanFrom(segs, selfId, i, StoreText(segs[..i], selfId)) == ParseSegments(segs, selfId)
    decreases |segs| - i
  {
    if i == |segs| {
      assert segs[..i] == segs;
      NoMediaParse(segs, selfId);
    } else if OneBot.IsMedia(segs[i]) {
      FirstMediaDecides(segs, i, selfId);
    } else {
      assert forall k :: 0 <= k < i + 1 ==> !OneBot.IsMedia(segs[k]);
      ScanFromStep(segs, selfId, i);
      ScanFromIsParse(segs, selfId, i + 1);
    }
  }

  /** Past a non-media segment the scan carries on with that segment's text appended. */
  lemma ScanFromStep(segs: seq<OneBot.Segment>, selfId: int, i: nat)
    requires i < |segs| && !OneBot.IsMedia(segs[i])
    ensures ScanFrom(segs, selfId, i, StoreText(segs[..i], selfId))
            == ScanFrom(segs, selfId, i + 1, StoreText(segs[..i + 1], selfId))
  {
    StoreStep(segs, i, selfId);
  }

  /** Without media the parse is the accumulated text. */
  lemma NoMediaParse(segs: seq<OneBot.Segment>, selfId: int)
    requires forall k :: 0 <= k < |segs| ==> !OneBot.IsMedia(segs[k])
    ensures ParseSegments(segs, selfId) == Stored("text", StoreText(segs, selfId))
  {
    assert FirstMedia(segs).None?;
  }

  /**
   * The segment loop of `handle_group_message`: it appends as it goes and, at the first media
   * segment, replaces everything with that segment's placeholder and stops.
   */
  method ScanSegments(segs: seq<OneBot.Segment>, selfId: int) returns (messageType: string, content: string)
    ensures Stored(messageType, content) == ParseSegments(segs, selfId)
  {
    ScanFromIsParse(segs, selfId, 0);
    messageType := "text";
    content := "";
    var i := 0;
    while i < |segs|
      invariant 0 <= i <= |segs|
      invariant messageType == "text" && ScanFrom(segs, selfId, i, content) == ParseSegments(segs, selfId)
    {
      var s := segs[i];
      ghost var before := content;
      StorePieceRules(s, selfId);
      SegmentKinds(s);
      var t := s.kind;
      if t == OneBot.TextSeg {
        content := content + OneBot.Field(s, "text");
      } else if t == OneBot.AtSeg {
        var atQq := OneBot.Field(s, "qq");
        var atName := OneBot.Field(s, "name");
        if atQq == Text.IntToString(selfId) {
          content := content + (if atName != "" then atName else "小奏");
        } else if atName != "" {
          content := content + ("@" + atName);
        } else {
          content := content + ("@" + atQq);
        }
      } else if t == OneBot.ImageSeg {
        messageType, content := "img", "【图片】";
        break;
      } else if t == OneBot.RecordSeg {
        messageType, content := "aud", "【语音】";
        break;
      } else if t == OneBot.VideoSeg {
        messageType, content := "vid", "【视频】";
        break;
      } else if t == OneBot.FileSeg {
        messageType, content := "others", "【文件】";
        break;
      } else if t == OneBot.FaceSeg || t == OneBot.EmojiSeg || t == OneBot.ShakeSeg || t == OneBot.PokeSeg {
        content := content + ("[CQ:" + OneBot.TypeName(s.kind) + "]");
      }
      assert !OneBot.IsMedia(s) && content == before + StorePiece(s, selfId);
      i := i + 1;
    }
  }
}
