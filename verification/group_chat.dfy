/**
 * The group-chat plugin. `handle_group_chat` turns each incoming group message into the text and
 * mention flag the aggregator collects, dropping the bot's own messages and blank ones;
 * `_process_response_block` is the callback that receives a closed block, resolves the senders'
 * display names, has the block judged and turns every planned reply into the per-message judgment
 * the reply generator takes.
 */
module GroupChat {
  import opened Wrappers
  import opened Json
  import Text
  import OneBot
  import Context
  import SilenceMode
  import Aggregator
  import BlockJudge
  import MessageJudge

  /** The bot's name as group members write it. */
  const BotName: string := "小奏"

  /** What one segment adds to the content in the segment fold of `handle_group_chat`. */
  function ChatPiece(s: OneBot.Segment, selfId: int): string {
    var t := s.kind;
    if t == OneBot.TextSeg then OneBot.Field(s, "text")
    else if t == OneBot.AtSeg then OneBot.AtText(s, selfId)
    else if OneBot.IsMedia(s) then OneBot.Placeholder(s)
    else ""
  }

  /** The content the segment fold builds: every segment's piece, in order. */
  function ChatText(segs: seq<OneBot.Segment>, selfId: int): string {
    if segs == [] then ""
    else ChatText(segs[..|segs| - 1], selfId) + ChatPiece(segs[|segs| - 1], selfId)
  }

  /** Some at-segment of the message targets the bot. */
  predicate MentionedIn(segs: seq<OneBot.Segment>, selfId: int) {
    exists i :: 0 <= i < |segs| && OneBot.MentionsBot(segs[i], selfId)
  }

  /** The per-type rules of the fold: text is copied, an at-segment for the bot gives its name and
      one for somebody else `@name` (or `@qq`), media give their placeholder, and face, emoji,
      shake, poke and unknown segments give nothing. */
  lemma ChatPieceRules(s: OneBot.Segment, selfId: int)
    ensures s.kind == OneBot.TextSeg ==> ChatPiece(s, selfId) == OneBot.Field(s, "text")
    ensures OneBot.MentionsBot(s, selfId) ==>
              ChatPiece(s, selfId) == (if OneBot.Field(s, "name") != "" then OneBot.Field(s, "name")
                                       else BotName)
    ensures s.kind == OneBot.AtSeg && !OneBot.MentionsBot(s, selfId) ==>
              ChatPiece(s, selfId) == "@" + (if OneBot.Field(s, "name") != "" then OneBot.Field(s, "name")
                                             else OneBot.Field(s, "qq"))
    ensures s.kind == OneBot.ImageSeg ==> ChatPiece(s, selfId) == "【图片】"
    ensures s.kind == OneBot.RecordSeg ==> ChatPiece(s, selfId) == "【语音】"
    ensures s.kind == OneBot.VideoSeg ==> ChatPiece(s, selfId) == "【视频】"
    ensures s.kind == OneBot.FileSeg ==> ChatPiece(s, selfId) == "【文件】"
    ensures s.kind != OneBot.TextSeg && s.kind != OneBot.AtSeg && !OneBot.IsMedia(s) ==> ChatPiece(s, selfId) == ""
  {
  }

  /** The last segment's piece comes last. */
  lemma ChatTextSnoc(segs: seq<OneBot.Segment>, selfId: int)
    requires segs != []
    ensures ChatText(segs, selfId) == ChatText(segs[..|segs| - 1], selfId) + ChatPiece(segs[|segs| - 1], selfId)
  {
  }

  /** The fold is a homomorphism: the content of two runs of segments is the concatenation of
      their contents. */
  lemma {:induction false} ChatTextAppend(a: seq<OneBot.Segment>, b: seq<OneBot.Segment>, selfId: int)
    ensures ChatText(a + b, selfId) == ChatText(a, selfId) + ChatText(b, selfId)
    decreases |b|
  {
    if b == [] {
      assert a + b == a;
    } else {
      var b' := b[..|b| - 1];
      var last := b[|b| - 1];
      var ab := a + b;
      assert ab[..|ab| - 1] == a + b';
      assert ab[|ab| - 1] == last;
      calc {
        ChatText(ab, selfId);
        { ChatTextSnoc(ab, selfId); }
        ChatText(a + b', selfId) + ChatPiece(last, selfId);
        { ChatTextAppend(a, b', selfId); }
        (ChatText(a, selfId) + ChatText(b', selfId)) + ChatPiece(last, selfId);
        { Text.AppendAssoc(ChatText(a, selfId), ChatText(b', selfId), ChatPiece(last, selfId)); }
        ChatText(a, selfId) + (ChatText(b', selfId) + ChatPiece(last, selfId));
        { ChatTextSnoc(b, selfId); }
        ChatText(a, selfId) + ChatText(b, selfId);
      }
    }
  }

  /** One more segment adds its piece to the content and may raise the mention flag. */
  lemma FoldStep(segs: seq<OneBot.Segment>, i: int, selfId: int)
    requires 0 <= i < |segs|
    ensures ChatText(segs[..i + 1], selfId) == ChatText(segs[..i], selfId) + ChatPiece(segs[i], selfId)
    ensures MentionedIn(segs[..i + 1], selfId) <==>
              MentionedIn(segs[..i], selfId) || OneBot.MentionsBot(segs[i], selfId)
  {
    var t := segs[..i + 1];
    assert t[..|t| - 1] == segs[..i];
    assert t[|t| - 1] == segs[i];
    ChatTextSnoc(t, selfId);
    MentionStep(segs, i, selfId);
  }

  lemma MentionStep(segs: seq<OneBot.Segment>, i: int, selfId: int)
    requires 0 <= i < |segs|
    ensures MentionedIn(segs[..i + 1], selfId) <==>
              MentionedIn(segs[..i], selfId) || OneBot.MentionsBot(segs[i], selfId)
  {
    var t := segs[..i + 1];
    if MentionedIn(segs[..i], selfId) {
      var k :| 0 <= k < i && OneBot.MentionsBot(segs[..i][k], selfId);
      assert t[k] == segs[..i][k];
    }
    if OneBot.MentionsBot(segs[i], selfId) {
      assert t[i] == segs[i];
    }
    if MentionedIn(t, selfId) {
      var k :| 0 <= k <= i && OneBot.MentionsBot(t[k], selfId);
      if k < i {
        assert segs[..i][k] == t[k];
      }
    }
  }

  /** A message holding an image, voice, video or file segment never folds to blank content. */
  lemma MediaIsNotBlank(segs: seq<OneBot.Segment>, selfId: int, i: int)
    requires 0 <= i < |segs| && OneBot.IsMedia(segs[i])
    ensures !Text.IsBlank(ChatText(segs, selfId))
  {
    var pre, rest := segs[..i], segs[i + 1..];
    assert segs == pre + [segs[i]] + rest;
    ChatTextAppend(pre + [segs[i]], rest, selfId);
    ChatTextAppend(pre, [segs[i]], selfId);
    assert [segs[i]][..0] == [];
    var text := ChatText(segs, selfId);
    var piece := ChatPiece(segs[i], selfId);
    assert text == ChatText(pre, selfId) + piece + ChatText(rest, selfId);
    assert piece[0] == '【';
    assert text[|ChatText(pre, selfId)|] == '【';
  }

  /**
   * The fallback segment fold of `handle_group_chat`, used when the raw text is empty: it
   * builds the content piece by piece and raises the mention flag at an at-segment for the bot.
   */
  method FoldSegments(segs: seq<OneBot.Segment>, selfId: int)
    returns (content: string, mentioned: bool)
    ensures content == ChatText(segs, selfId)
    ensures mentioned <==> MentionedIn(segs, selfId)
  {
    content, mentioned := "", false;
    for i := 0 to |segs|
      invariant content == ChatText(segs[..i], selfId)
      invariant mentioned <==> MentionedIn(segs[..i], selfId)
    {
      var s := segs[i];
      ghost var before := content;
      ChatPieceRules(s, selfId);
      var t := s.kind;
      if t == OneBot.TextSeg {
        content := content + OneBot.Field(s, "text");
      } else if t == OneBot.AtSeg {
        var atQq := OneBot.Field(s, "qq");
        var atName := OneBot.Field(s, "name");
        if atQq == Text.IntToString(selfId) {
          mentioned := true;
          content := content + (if atName != "" then atName else BotName);
        } else {
          content := content + ("@" + (if atName != "" then atName else atQq));
        }
      } else if t == OneBot.ImageSeg {
        content := content + "【图片】";
      } else if t == OneBot.RecordSeg {
        content := content + "【语音】";
      } else if t == OneBot.VideoSeg {
        content := content + "【视频】";
      } else if t == OneBot.FileSeg {
        content := content + "【文件】";
      }
      assert content == before + ChatPiece(s, selfId);
      FoldStep(segs, i, selfId);
    }
    assert segs[..|segs|] == segs;
  }

  /** What `handle_group_chat` does with a message: nothing, or add this content and flag. */
  datatype Outcome = Skipped | Aggregated(content: string, mentioned: bool)

  /**
   * The decision of `handle_group_chat`. The bot's own messages are skipped. A non-empty raw text
   * is the content, and the bot counts as mentioned when it contains "小奏"; otherwise the
   * segment fold gives both. Content that is blank once stripped is dropped unless the bot is
   * mentioned.
   */
  function ChatMessage(e: OneBot.GroupMessageEvent): (r: Outcome)
    ensures e.userId == e.selfId ==> r.Skipped?
    ensures r.Aggregated? ==> !Text.IsBlank(r.content) || r.mentioned
  {
    if e.userId == e.selfId then Skipped
    else
      var content := if e.rawMessage != "" then e.rawMessage else ChatText(e.message, e.selfId);
      var mentioned := if e.rawMessage != "" then Text.Contains(e.rawMessage, BotName)
                       else MentionedIn(e.message, e.selfId);
      if Text.IsBlank(content) && !mentioned then Skipped else Aggregated(content, mentioned)
  }

  /** Text that contains the bot's name is not blank. */
  lemma NameIsNotBlank(s: string)
    ensures Text.Contains(s, BotName) ==> !Text.IsBlank(s)
  {
    if Text.Contains(s, BotName) {
      var i :| 0 <= i <= |s| - |BotName| && Text.OccursAt(s, BotName, i);
      assert s[i] == s[i..i + |BotName|][0];
    }
  }

  /** A non-empty raw text is taken verbatim; it is dropped only when it is blank, and the bot is
      mentioned exactly when the text contains its name. */
  lemma RawMessageRule(e: OneBot.GroupMessageEvent)
    requires e.userId != e.selfId && e.rawMessage != ""
    ensures ChatMessage(e).Skipped? <==> Text.IsBlank(e.rawMessage)
    ensures ChatMessage(e).Aggregated? ==>
              ChatMessage(e) == Aggregated(e.rawMessage, Text.Contains(e.rawMessage, BotName))
  {
    NameIsNotBlank(e.rawMessage);
  }

  /** Without raw text, a message that mentions the bot is aggregated with the flag set even when
      its content is blank, and a message carrying media is always aggregated. */
  lemma SegmentMessageRules(e: OneBot.GroupMessageEvent)
    requires e.userId != e.selfId && e.rawMessage == ""
    ensures MentionedIn(e.message, e.selfId) ==>
              ChatMessage(e) == Aggregated(ChatText(e.message, e.selfId), true)
    ensures (exists i :: 0 <= i < |e.message| && OneBot.IsMedia(e.message[i])) ==>
              ChatMessage(e) == Aggregated(ChatText(e.message, e.selfId), MentionedIn(e.message, e.selfId))
  {
    if i :| 0 <= i < |e.message| && OneBot.IsMedia(e.message[i]) {
      MediaIsNotBlank(e.message, e.selfId, i);
    }
  }

  /**
   * `handle_group_chat`: the message becomes `ChatMessage(event)`; a skipped message leaves the
   * aggregator untouched, an aggregated one is appended to the group's open block exactly as
   * `add_message` does.
   */
  method HandleGroupChat(agg: Aggregator.MessageAggregator, event: OneBot.GroupMessageEvent)
    returns (outcome: Outcome)
    requires agg.Valid()
    modifies agg, if event.groupId in agg.blocks then {agg.blocks[event.groupId]} else {}
    ensures agg.Valid()
    ensures old(agg.PendingHaveMessages()) ==> agg.PendingHaveMessages()
    ensures outcome == ChatMessage(event)
    ensures outcome.Skipped? ==>
              && agg.blocks == old(agg.blocks) && agg.nextTask == old(agg.nextTask)
              && agg.locks == old(agg.locks) && agg.finalizing == old(agg.finalizing)
              && (event.groupId in agg.blocks ==>
                    agg.blocks[event.groupId].State() == old(agg.blocks[event.groupId].State()))
    ensures outcome.Aggregated? ==>
              var g := event.groupId;
              var msg := Aggregator.PendingMessage(event.userId, outcome.content, event, outcome.mentioned);
              var reused := g in old(agg.blocks) && !old(agg.blocks[g].isProcessing);
              && g in agg.blocks && g in agg.locks
              && (reused ==> agg.blocks[g] == old(agg.blocks[g]))
              && (!reused ==> fresh(agg.blocks[g]))
              && agg.blocks[g].messages == (if reused then old(agg.blocks[g].messages) else []) + [msg]
              && !agg.blocks[g].isProcessing
              && agg.blocks[g].waitTask ==
                   (if reused then Aggregator.Cancelled(old(agg.blocks[g].waitTask)) else Aggregator.NoTask)
              && agg.blocks[g].judgeTask == Aggregator.Pending(old(agg.nextTask))
              && agg.nextTask == old(agg.nextTask) + 1
    ensures outcome.Aggregated? ==>
              var g := event.groupId;
              && (g in old(agg.blocks) && old(agg.blocks[g].isProcessing) ==>
                    old(agg.blocks[g]).State() == old(agg.blocks[g].State()))
              && (forall h :: h in old(agg.blocks) && h != g ==> h in agg.blocks && agg.blocks[h] == old(agg.blocks[h]))
              && agg.blocks.Keys == old(agg.blocks.Keys) + {g}
              && agg.finalizing == old(agg.finalizing)
  {
    if event.userId == event.selfId {
      return Skipped;
    }
    var content: string;
    var mentioned: bool;
    if event.rawMessage != "" {
      content := event.rawMessage;
      mentioned := Text.Contains(event.rawMessage, BotName);
    } else {
      content, mentioned := FoldSegments(event.message, event.selfId);
    }
    if Text.IsBlank(content) && !mentioned {
      return Skipped;
    }
    agg.AddMessage(event.groupId, event.userId, content, event, mentioned);
    outcome := Aggregated(content, mentioned);
  }

  /**
   * The display name `_process_response_block` gives a sender: the group card, else the user's
   * nickname, else `用户{id}`. The member lookup comes first; if it raises, the fallback is used at
   * once and the user record is not consulted.
   */
  function ResolveName(member: Context.Lookup, user: Context.Lookup, id: int): string {
    var fallback := "用户" + Text.IntToString(id);
    if member.Failed? then fallback
    else if member.Found? && member.field.Some? && member.field.value != "" then member.field.value
    else if user.Found? && user.field.Some? && user.field.value != "" then user.field.value
    else fallback
  }

  /** The name is never empty and follows the precedence card, nickname, `用户{id}`, with a
      failed member lookup going straight to `用户{id}`. */
  lemma ResolveNamePrecedence(member: Context.Lookup, user: Context.Lookup, id: int)
    ensures ResolveName(member, user, id) != ""
    ensures member.Failed? ==> ResolveName(member, user, id) == "用户" + Text.IntToString(id)
    ensures member.Found? && member.field.Some? && member.field.value != "" ==>
              ResolveName(member, user, id) == member.field.value
    ensures !member.Failed? && !(member.Found? && member.field.Some? && member.field.value != "")
            && user.Found? && user.field.Some? && user.field.value != "" ==>
              ResolveName(member, user, id) == user.field.value
    ensures ResolveName(member, user, id) != "用户" + Text.IntToString(id) ==>
              (member.Found? && member.field.Some? && ResolveName(member, user, id) == member.field.value)
              || (user.Found? && user.field.Some? && ResolveName(member, user, id) == user.field.value)
  {
  }

  /** The same names the context renderer shows, except that there a failed member lookup still
      falls through to the user's nickname. */
  lemma ResolveNameMatchesContext(member: Context.Lookup, user: Context.Lookup, id: int)
    ensures !member.Failed? ==> ResolveName(member, user, id) == Context.DisplayName(member, user, id)
    ensures member.Failed? && user.Found? && user.field == Some("小奏") ==>
              ResolveName(member, user, id) != Context.DisplayName(member, user, id)
  {
    if member.Failed? && user.Found? && user.field == Some("小奏") {
      assert ("用户" + Text.IntToString(id))[0] == '用';
    }
  }

  /** A set that is not empty has an element. */
  lemma HasElement(s: set<int>)
    ensures s == {} || exists u :: u in s
  {
    if forall u :: u !in s {
      assert s == {};
    }
  }

  /** The name loop of `_process_response_block`: one entry per distinct sender. */
  method ResolveUserNames(ids: set<int>, members: int -> Context.Lookup, users: int -> Context.Lookup)
    returns (names: map<int, string>)
    ensures names.Keys == ids
    ensures forall u :: u in ids ==> names[u] == ResolveName(members(u), users(u), u)
  {
    names := map[];
    var remaining := ids;
    while remaining != {}
      invariant remaining <= ids
      invariant names.Keys == ids - remaining
      invariant forall u :: u in names ==> names[u] == ResolveName(members(u), users(u), u)
      decreases |remaining|
    {
      HasElement(remaining);
      var userId :| userId in remaining;
      var member := members(userId);
      var fallback := "用户" + Text.IntToString(userId);
      if member.Failed? {
        names := names[userId := fallback];
      } else if member.Found? && member.field.Some? && member.field.value != "" {
        names := names[userId := member.field.value];
      } else {
        var user := users(userId);
        if user.Found? && user.field.Some? && user.field.value != "" {
          names := names[userId := user.field.value];
        } else {
          names := names[userId := fallback];
        }
      }
      remaining := remaining - {userId};
    }
  }

  /** The per-message judgment built from one reply plan: `should_reply` set, the plan's type,
      target, emotion, instruction and mention flag, and the remaining fields at their defaults. */
  function Legacy(p: BlockJudge.ReplyPlan): (j: MessageJudge.JudgeResult) {
    MessageJudge.JudgeResult(Bool(true), p.replyType, p.targetUserId, p.emotion, Str(""),
                             p.instruction, p.shouldMention, Bool(false), Bool(false))
  }

  /** The plan a per-message judgment carries, given the plan's related messages. */
  function PlanOfJudgment(j: MessageJudge.JudgeResult, related: Value): BlockJudge.ReplyPlan {
    BlockJudge.ReplyPlan(j.replyType, j.targetUserId, j.emotion, j.instruction, j.shouldMention, related)
  }

  /** The conversion loses nothing of the plan but its related messages, which travel in the
      generator's context instead; and the judgment it builds always asks for a reply and never
      changes the silence mode. */
  lemma LegacyKeepsPlan(p: BlockJudge.ReplyPlan)
    ensures PlanOfJudgment(Legacy(p), p.relatedMessages) == p
    ensures Truthy(Legacy(p).shouldReply)
    ensures !Truthy(Legacy(p).userComplainingTooMuch) && !Truthy(Legacy(p).userAskingToSpeak)
  {
  }

  /** The judgments handed to the reply generator for a block judgment: none when it says no reply
      or its `reply_count` equals 0, otherwise one per planned reply. */
  function ReplyJudgments(r: BlockJudge.BlockJudgeResult): (js: seq<MessageJudge.JudgeResult>)
  {
    if !Truthy(r.shouldReply) || EqualsZero(r.replyCount) then []
    else seq(|r.replies|, i requires 0 <= i < |r.replies| => Legacy(r.replies[i]))
  }

  /** Every failure of the block judgment yields no reply at all. */
  lemma NoReplyGeneratesNothing(reason: string)
    ensures ReplyJudgments(BlockJudge.NoReply(reason)) == []
  {
  }

  /** The generator is asked once per plan, in order, and each request carries its plan. */
  lemma ReplyJudgmentsFollowPlans(r: BlockJudge.BlockJudgeResult)
    ensures ReplyJudgments(r) != [] ==> Truthy(r.shouldReply) && !EqualsZero(r.replyCount)
    ensures Truthy(r.shouldReply) && !EqualsZero(r.replyCount) ==>
              |ReplyJudgments(r)| == |r.replies|
              && forall i :: 0 <= i < |r.replies| ==>
                   PlanOfJudgment(ReplyJudgments(r)[i], r.replies[i].relatedMessages) == r.replies[i]
  {
  }

  /**
   * `_process_response_block` up to the reply generator: without a bot connection or with an
   * empty block it returns at once; otherwise it resolves the senders' names, has the block
   * judged (which may switch the group's silence mode) and yields the per-message judgments the
   * generator is called with, one per reply to send.
   */
  method ProcessResponseBlock(hasBot: bool, register: SilenceMode.SilenceRegister, groupId: int,
                              messages: seq<Aggregator.PendingMessage>,
                              members: int -> Context.Lookup, users: int -> Context.Lookup,
                              reply: OracleReply, decode: string -> Option<Value>)
    returns (names: map<int, string>, judged: Option<BlockJudge.BlockJudgeResult>,
             requests: seq<MessageJudge.JudgeResult>)
    modifies register
    ensures !hasBot || messages == [] ==>
              names == map[] && judged == None && requests == [] && register.states == old(register.states)
    ensures hasBot && messages != [] ==>
              && names.Keys == Aggregator.UserIds(messages)
              && (forall u :: u in names ==> names[u] == ResolveName(members(u), users(u), u))
              && judged == Some(BlockJudge.Verdict(messages, reply, decode))
    ensures judged.Some? ==> requests == ReplyJudgments(judged.value)
    ensures hasBot && messages != [] ==>
              if reply.Answered? && DecodeAnswer(reply.text, decode).Some?
                 && BlockJudge.FromDictSpec(DecodeAnswer(reply.text, decode).value).Ok?
              then register.states == SilenceMode.SilenceAfter(old(register.states), Some(groupId),
                     judged.value.userComplainingTooMuch, judged.value.userAskingToSpeak)
              else register.states == old(register.states)
  {
    names, judged, requests := map[], None, [];
    if !hasBot || messages == [] {
      return;
    }
    names := ResolveUserNames(Aggregator.UserIds(messages), members, users);
    var result := BlockJudge.JudgeBlock(register, messages, Some(groupId), reply, decode);
    judged := Some(result);
    if !Truthy(result.shouldReply) || EqualsZero(result.replyCount) {
      return;
    }
    requests := GenerationRequests(result);
  }

  /** The reply loop of `_process_response_block`: one generator request per planned reply. */
  method GenerationRequests(r: BlockJudge.BlockJudgeResult) returns (requests: seq<MessageJudge.JudgeResult>)
    requires Truthy(r.shouldReply) && !EqualsZero(r.replyCount)
    ensures requests == ReplyJudgments(r)
  {
    requests := [];
    for i := 0 to |r.replies|
      invariant requests == seq(i, k requires 0 <= k < i => Legacy(r.replies[k]))
    {
      requests := requests + [Legacy(r.replies[i])];
    }
  }
}
