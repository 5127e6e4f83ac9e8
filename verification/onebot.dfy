/**
 * The parts of a OneBot v11 group message event that the bot reads: the sender, the bot's own
 * account, the raw text and the message segments.
 */
module OneBot {
  import Text

  /** The segment types the bot tells apart; any other `type` string is kept in `OtherSeg`. */
  datatype SegmentType =
    | TextSeg | AtSeg | ImageSeg | RecordSeg | VideoSeg | FileSeg
    | FaceSeg | EmojiSeg | ShakeSeg | PokeSeg | OtherSeg(name: string)

  /** The `type` string OneBot sends for a segment type. */
  function TypeName(t: SegmentType): string {
    match t
    case TextSeg => "text"
    case AtSeg => "at"
    case ImageSeg => "image"
    case RecordSeg => "record"
    case VideoSeg => "video"
    case FileSeg => "file"
    case FaceSeg => "face"
    case EmojiSeg => "emoji"
    case ShakeSeg => "shake"
    case PokeSeg => "poke"
    case OtherSeg(name) => name
  }

  /** One message segment: its `type` and its `data` fields (OneBot sends them as strings). */
  datatype Segment = Segment(kind: SegmentType, data: map<string, string>)

  /** A group message event. `rendered` is `str(event.message)`, the CQ-code form of the segments. */
  datatype GroupMessageEvent = GroupMessageEvent(
    groupId: int,
    userId: int,
    selfId: int,
    rawMessage: string,
    message: seq<Segment>,
    rendered: string)

  /** `segment.data.get(key, "")`. */
  function Field(s: Segment, key: string): (v: string)
    ensures key !in s.data ==> v == ""
    ensures key in s.data ==> v == s.data[key]
  {
    if key in s.data then s.data[key] else ""
  }

  /** An at-segment whose `qq` is the bot's own account: `str(at_qq) == str(event.self_id)`. */
  predicate MentionsBot(s: Segment, selfId: int) {
    s.kind == AtSeg && Field(s, "qq") == Text.IntToString(selfId)
  }

  /** What both segment folds write for an at-segment: the bot's name (`name or "小奏"`) without
      an `@` when it targets the bot, otherwise `@` followed by the name or, lacking one, the
      account number. */
  function AtText(s: Segment, selfId: int): (r: string)
    ensures r != ""
    ensures s.kind == AtSeg && !MentionsBot(s, selfId) ==> r[0] == '@'
  {
    var name := Field(s, "name");
    if Field(s, "qq") == Text.IntToString(selfId) then (if name != "" then name else "小奏")
    else "@" + (if name != "" then name else Field(s, "qq"))
  }

  /** Image, voice (`record`), video and file segments. */
  predicate IsMedia(s: Segment) {
    s.kind == ImageSeg || s.kind == RecordSeg || s.kind == VideoSeg || s.kind == FileSeg
  }

  /** The bracketed placeholder both segment folds write for a media segment. */
  function Placeholder(s: Segment): (r: string)
    requires IsMedia(s)
    ensures |r| == 4 && r[0] == '【' && r[3] == '】'
  {
    match s.kind
    case ImageSeg => "【图片】"
    case RecordSeg => "【语音】"
    case VideoSeg => "【视频】"
    case FileSeg => "【文件】"
  }
}
