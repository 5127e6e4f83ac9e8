/**
 * The block judgment: the decision, taken once per closed response block, whether and how many
 * times to reply. The oracle's answer is decoded into a `BlockJudgeResult`; every failure becomes
 * a conservative no-reply result; a successful judgment may switch the group's silence mode.
 */
module BlockJudge {
  import opened Wrappers
  import opened Json
  import Text
  import SilenceMode
  import Aggregator

  /**
   * One planned reply. Each field holds whatever `dict.get` returned, so it is a decoded value
   * rather than a typed one: "topic" / "person" / "knowledge" for `replyType`, a user id or null
   * for `targetUserId`, and so on.
   */
  datatype ReplyPlan = ReplyPlan(
    replyType: Value,
    targetUserId: Value,
    emotion: Value,
    instruction: Value,
    shouldMention: Value,
    relatedMessages: Value)

  /** The judgment of a whole block. */
  datatype BlockJudgeResult = BlockJudgeResult(
    shouldReply: Value,
    replyCount: Value,
    blockSummary: Value,
    replies: seq<ReplyPlan>,
    explanation: Value,
    userComplainingTooMuch: Value,
    userAskingToSpeak: Value)

  /** The `ReplyPlan(...)` built from one entry of `replies`, with the dataclass defaults. */
  function PlanOf(d: Dict): ReplyPlan {
    ReplyPlan(
      Get(d, "reply_type", Str("topic")),
      Get(d, "target_user_id", Null),
      Get(d, "emotion", Str("happy")),
      Get(d, "instruction", Str("")),
      Get(d, "should_mention", Bool(false)),
      Get(d, "related_messages", Str("")))
  }

  /** A missing key of a reply entry takes the default the source gives it; a present key is copied. */
  lemma PlanDefaults(d: Dict)
    ensures "reply_type" !in d ==> PlanOf(d).replyType == Str("topic")
    ensures "target_user_id" !in d ==> PlanOf(d).targetUserId == Null
    ensures "emotion" !in d ==> PlanOf(d).emotion == Str("happy")
    ensures "instruction" !in d ==> PlanOf(d).instruction == Str("")
    ensures "should_mention" !in d ==> PlanOf(d).shouldMention == Bool(false)
    ensures "related_messages" !in d ==> PlanOf(d).relatedMessages == Str("")
    ensures "reply_type" in d ==> PlanOf(d).replyType == d["reply_type"]
    ensures "emotion" in d ==> PlanOf(d).emotion == d["emotion"]
  {
  }

  /**
   * `for r in data.get("replies", []): ... r.get(...)`: a list of objects gives one plan per
   * entry, in order. Iterating an empty string or an empty object gives nothing; a non-empty
   * string yields one-character strings and a non-empty object yields its keys, and a string has
   * no `get`; null, booleans and numbers are not iterable. Those cases raise.
   */
  function RepliesOf(v: Value): Result<seq<ReplyPlan>, string>
  {
    match v
    case Arr(items) =>
      if forall i :: 0 <= i < |items| ==> items[i].Obj?
      then Ok(seq(|items|, i requires 0 <= i < |items| && items[i].Obj? => PlanOf(items[i].fields)))
      else Err("a reply entry has no attribute 'get'")
    case Str(s) => if s == "" then Ok([]) else Err("'str' object has no attribute 'get'")
    case Obj(m) => if m == map[] then Ok([]) else Err("'str' object has no attribute 'get'")
    case _ => Err("replies is not iterable")
  }

  /** `BlockJudgeResult.from_dict(data)`, or the exception it raises. */
  function FromDictSpec(data: Value): Result<BlockJudgeResult, string>
  {
    if !data.Obj? then Err("the decoded answer has no attribute 'get'")
    else
      var d := data.fields;
      match RepliesOf(Get(d, "replies", Arr([])))
      case Err(e) => Err(e)
      case Ok(replies) =>
        Ok(BlockJudgeResult(
          Get(d, "should_reply", Bool(false)),
          Get(d, "reply_count", Num(0.0)),
          Get(d, "block_summary", Str("")),
          replies,
          Get(d, "explanation", Str("")),
          Get(d, "user_complaining_too_much", Bool(false)),
          Get(d, "user_asking_to_speak", Bool(false))))
  }

  /** `from_dict`, building the reply list with the source's append loop. */
  method FromDict(data: Value) returns (r: Result<BlockJudgeResult, string>)
    ensures r == FromDictSpec(data)
  {
    if !data.Obj? {
      return Err("the decoded answer has no attribute 'get'");
    }
    var d := data.fields;
    var source := Get(d, "replies", Arr([]));
    var replies: seq<ReplyPlan> := [];
    match source {
      case Arr(items) =>
        var i := 0;
        while i < |items|
          invariant 0 <= i <= |items|
          invariant forall j :: 0 <= j < i ==> items[j].Obj?
          invariant |replies| == i
          invariant forall j :: 0 <= j < i ==> replies[j] == PlanOf(items[j].fields)
        {
          if !items[i].Obj? {
            return Err("a reply entry has no attribute 'get'");
          }
          replies := replies + [PlanOf(items[i].fields)];
          i := i + 1;
        }
        assert replies == seq(|items|, i requires 0 <= i < |items| && items[i].Obj? => PlanOf(items[i].fields));
      case Str(s) =>
        if s != "" {
          return Err("'str' object has no attribute 'get'");
        }
      case Obj(m) =>
        if m != map[] {
          return Err("'str' object has no attribute 'get'");
        }
      case _ =>
        return Err("replies is not iterable");
    }
    r := Ok(BlockJudgeResult(
      Get(d, "should_reply", Bool(false)),
      Get(d, "reply_count", Num(0.0)),
      Get(d, "block_summary", Str("")),
      replies,
      Get(d, "explanation", Str("")),
      Get(d, "user_complaining_too_much", Bool(false)),
      Get(d, "user_asking_to_speak", Bool(false))));
  }

  /** Reply plans keep the number and the order of the entries they come from. */
  lemma FromDictKeepsReplies(d: Dict, items: seq<Value>)
    requires "replies" in d && d["replies"] == Arr(items)
    requires forall i :: 0 <= i < |items| ==> items[i].Obj?
    ensures FromDictSpec(Obj(d)).Ok?
    ensures |FromDictSpec(Obj(d)).value.replies| == |items|
    ensures forall i :: 0 <= i < |items| ==>
              FromDictSpec(Obj(d)).value.replies[i] == PlanOf(items[i].fields)
  {
  }

  /** Missing keys give: no reply, zero replies, empty summary and explanation, both feedback
      flags off, and no reply plans. */
  lemma FromDictDefaults(d: Dict)
    requires forall k :: k in d ==> k !in {"should_reply", "reply_count", "block_summary", "replies",
                                             "explanation", "user_complaining_too_much",
                                             "user_asking_to_speak"}
    ensures FromDictSpec(Obj(d)) ==
      Ok(BlockJudgeResult(Bool(false), Num(0.0), Str(""), [], Str(""), Bool(false), Bool(false)))
    ensures FromDictSpec(Obj(d)) == Ok(NoReply(""))
  {
    assert "replies" !in d;
    var none: seq<Value> := [];
    assert RepliesOf(Arr(none)).Ok? && |RepliesOf(Arr(none)).value| == 0;
  }

  /** `BlockJudgeResult.no_reply(reason)`. */
  function NoReply(reason: string): (r: BlockJudgeResult)
    ensures !Truthy(r.shouldReply) && EqualsZero(r.replyCount) && r.replies == []
    ensures r.explanation == Str(reason) && !Truthy(r.blockSummary)
    ensures !Truthy(r.userComplainingTooMuch) && !Truthy(r.userAskingToSpeak)
  {
    BlockJudgeResult(Bool(false), Num(0.0), Str(""), [], Str(reason), Bool(false), Bool(false))
  }

  /** `user_names.get(user_id, f"用户{user_id}")`. */
  function NameOf(userNames: map<int, string>, userId: int): string {
    if userId in userNames then userNames[userId] else "用户" + Text.IntToString(userId)
  }

  /** One line of `_format_block_messages`: `name(id)[ 【@小奏】]: content`. */
  function BlockLine(msg: Aggregator.PendingMessage, userNames: map<int, string>): string {
    NameOf(userNames, msg.userId) + "(" + Text.IntToString(msg.userId) + ")"
    + (if msg.isBotMentioned then " 【@小奏】" else "") + ": " + msg.content
  }

  /** The line starts with the sender's name and id, carries the mention tag exactly when the
      message mentions the bot, and ends with the message text. */
  lemma BlockLineLayout(msg: Aggregator.PendingMessage, userNames: map<int, string>)
    ensures var line := BlockLine(msg, userNames);
      var head := NameOf(userNames, msg.userId) + "(" + Text.IntToString(msg.userId) + ")";
      var tail := ": " + msg.content;
      && |line| == |head| + (if msg.isBotMentioned then 6 else 0) + |tail|
      && line[..|head|] == head
      && line[|line| - |tail|..] == tail
      && (msg.isBotMentioned ==> line[|head|..|head| + 6] == " 【@小奏】")
    ensures msg.userId !in userNames ==>
      BlockLine(msg, userNames)[..2] == "用户"
  {
    var head := NameOf(userNames, msg.userId) + "(" + Text.IntToString(msg.userId) + ")";
    var tag := if msg.isBotMentioned then " 【@小奏】" else "";
    var tail := ": " + msg.content;
    var line := head + tag + tail;
    assert BlockLine(msg, userNames) == line;
    assert |tag| == (if msg.isBotMentioned then 6 else 0);
    assert line[..|head|] == head;
    assert line[|line| - |tail|..] == tail;
    assert msg.isBotMentioned ==> line[|head|..|head| + 6] == tag;
    if msg.userId !in userNames {
      assert head == "用户" + (Text.IntToString(msg.userId) + "(" + Text.IntToString(msg.userId) + ")");
      assert line[..2] == head[..2];
    }
  }

  /**
   * `_format_block_messages(block, user_names)`: one line per message, in block order, joined by
   * newlines (`user_names` of `None` is the empty map).
   */
  method FormatBlockMessages(messages: seq<Aggregator.PendingMessage>, userNames: map<int, string>)
    returns (text: string, lines: seq<string>)
    ensures |lines| == |messages|
    ensures forall i :: 0 <= i < |messages| ==> lines[i] == BlockLine(messages[i], userNames)
    ensures text == Text.Join(lines, "\n")
  {
    lines := [];
    for i := 0 to |messages|
      invariant |lines| == i
      invariant forall j :: 0 <= j < i ==> lines[j] == BlockLine(messages[j], userNames)
    {
      var msg := messages[i];
      var userName := NameOf(userNames, msg.userId);
      var mentionTag := if msg.isBotMentioned then " 【@小奏】" else "";
      lines := lines + [userName + "(" + Text.IntToString(msg.userId) + ")" + mentionTag + ": " + msg.content];
    }
    text := Text.Join(lines, "\n");
  }

  /** The judgment `judge_block` returns for a block and the oracle's reply. */
  function Verdict(messages: seq<Aggregator.PendingMessage>, reply: OracleReply,
                   decode: string -> Option<Value>): BlockJudgeResult
  {
    if messages == [] then NoReply("对话块为空")
    else match reply
      case CallFailed(e) => NoReply("判断出错: " + e)
      case Answered(text) =>
        match DecodeAnswer(text, decode)
        case None => NoReply("JSON解析失败")
        case Some(data) =>
          match FromDictSpec(data)
          case Err(e) => NoReply("判断出错: " + e)
          case Ok(r) => r
  }

  /**
   * `judge_block`: an empty block is answered with `no_reply("对话块为空")` before the oracle is
   * consulted; a failed call gives `no_reply("判断出错: ...")`; an answer without a brace pair or
   * that does not decode gives `no_reply("JSON解析失败")`; a decoded answer that `from_dict`
   * rejects gives `no_reply("判断出错: ...")`. Only a successful judgment applies the silence
   * transition, for a truthy `group_id`.
   */
  method JudgeBlock(register: SilenceMode.SilenceRegister, messages: seq<Aggregator.PendingMessage>,
                    groupId: Option<int>, reply: OracleReply, decode: string -> Option<Value>)
    returns (result: BlockJudgeResult)
    modifies register
    ensures result == Verdict(messages, reply, decode)
    ensures messages == [] ==> result == NoReply("对话块为空")
    ensures messages != [] && reply.CallFailed? ==> result == NoReply("判断出错: " + reply.error)
    ensures messages != [] && reply.Answered? && DecodeAnswer(reply.text, decode).None? ==>
              result == NoReply("JSON解析失败")
    ensures messages != [] && reply.Answered? && DecodeAnswer(reply.text, decode).Some? ==>
      match FromDictSpec(DecodeAnswer(reply.text, decode).value)
      case Err(e) => result == NoReply("判断出错: " + e)
      case Ok(r) => result == r
    ensures if messages != [] && reply.Answered? && DecodeAnswer(reply.text, decode).Some?
               && FromDictSpec(DecodeAnswer(reply.text, decode).value).Ok?
            then register.states == SilenceMode.SilenceAfter(old(register.states), groupId,
                   result.userComplainingTooMuch, result.userAskingToSpeak)
            else register.states == old(register.states)
  {
    if messages == [] {
      return NoReply("对话块为空");
    }
    match reply {
      case CallFailed(e) =>
        return NoReply("判断出错: " + e);
      case Answered(text) =>
        var data := DecodeAnswer(text, decode);
        if data.None? {
          return NoReply("JSON解析失败");
        }
        var parsed := FromDict(data.value);
        if parsed.Err? {
          return NoReply("判断出错: " + parsed.error);
        }
        result := parsed.value;
        SilenceMode.ApplySilenceTransition(register, groupId, result.userComplainingTooMuch,
                                           result.userAskingToSpeak);
    }
  }
}
