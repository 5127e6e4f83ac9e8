/**
 * The per-group message aggregation state machine. Each group has a current response block that
 * collects consecutive messages; every new message cancels the block's pending wait timer and
 * its pending wait-time judgment and starts a new judgment; the judgment's answer chooses a
 * delay and starts a wait timer; when the timer fires the block is closed (marked processing)
 * and handed to the reply callback, and afterwards exactly that block is cleared.
 *
 * Asynchronous tasks are handles with identities: `Pending(id)` is a task that has not finished,
 * `Done(id)` one that finished or was cancelled but whose handle is still stored. The two
 * asynchronous events are explicit methods: `JudgeAnswered` (a wait-time judgment returns) and
 * `TimerFired` (a wait timer's sleep ends); `FinishProcessing` is the cleanup that follows the
 * callback.
 */
module Aggregator {
  import opened Wrappers
  import opened Json
  import Text
  import OneBot

  /** A message waiting in a block (its arrival time is not modelled). */
  datatype PendingMessage = PendingMessage(
    userId: int,
    content: string,
    event: OneBot.GroupMessageEvent,
    isBotMentioned: bool)

  /** An `asyncio.Task | None` handle. */
  datatype Task = NoTask | Pending(id: nat) | Done(id: nat) {
    /** Every identity the handle mentions was issued before `next`. */
    predicate IssuedBefore(next: nat) {
      !NoTask? ==> id < next
    }
  }

  /** `task.cancel()` followed by awaiting it: a pending task ends; the handle is kept. */
  function Cancelled(t: Task): (r: Task)
    ensures !r.Pending?
    ensures t.Pending? ==> r == Done(t.id)
    ensures !t.Pending? ==> r == t
  {
    if t.Pending? then Done(t.id) else t
  }

  /** `any(msg.is_bot_mentioned for msg in messages)`. */
  function AnyMentioned(msgs: seq<PendingMessage>): (r: bool)
    ensures r <==> exists i :: 0 <= i < |msgs| && msgs[i].isBotMentioned
  {
    if msgs == [] then false
    else
      var rest := AnyMentioned(msgs[..|msgs| - 1]);
      assert forall i :: 0 <= i < |msgs| - 1 ==> msgs[..|msgs| - 1][i] == msgs[i];
      rest || msgs[|msgs| - 1].isBotMentioned
  }

  /** `{msg.user_id for msg in messages}`. */
  function UserIds(msgs: seq<PendingMessage>): (r: set<int>)
    ensures forall u :: u in r <==> exists i :: 0 <= i < |msgs| && msgs[i].userId == u
    ensures |r| <= |msgs|
  {
    if msgs == [] then {}
    else
      var rest := UserIds(msgs[..|msgs| - 1]);
      assert forall i :: 0 <= i < |msgs| - 1 ==> msgs[..|msgs| - 1][i] == msgs[i];
      rest + {msgs[|msgs| - 1].userId}
  }

  /** The observable fields of a block at one moment. */
  datatype BlockState = BlockState(
    messages: seq<PendingMessage>,
    isProcessing: bool,
    waitTask: Task,
    judgeTask: Task)

  /** One group's response block (its creation and last-message timestamps are not modelled). */
  class ResponseBlock {
    const groupId: int
    var messages: seq<PendingMessage>
    var isProcessing: bool
    var waitTask: Task
    var judgeTask: Task

    /** `ResponseBlock(group_id=g)`: empty, open, no tasks. */
    constructor (groupId: int)
      ensures this.groupId == groupId
      ensures messages == [] && !isProcessing && waitTask == NoTask && judgeTask == NoTask
    {
      this.groupId := groupId;
      messages := [];
      isProcessing := false;
      waitTask := NoTask;
      judgeTask := NoTask;
    }

    function State(): BlockState
      reads this
    {
      BlockState(messages, isProcessing, waitTask, judgeTask)
    }

    /** No wait timer and judgment pending at once, and both task identities were issued
        before `next`. */
    ghost predicate TasksOk(next: nat)
      reads this
    {
      && !(waitTask.Pending? && judgeTask.Pending?)
      && waitTask.IssuedBefore(next) && judgeTask.IssuedBefore(next)
    }

    /** The shape of a block whose finalization is running: processing, non-empty, running its
        own wait task, with no judgment pending. */
    ghost predicate Finalizable()
      reads this
    {
      isProcessing && messages != [] && waitTask.Pending? && !judgeTask.Pending?
    }

    /** `add_message`: the message goes to the end, so arrival order is kept. */
    method AddMessage(msg: PendingMessage)
      modifies this
      ensures messages == old(messages) + [msg]
      ensures State() == old(State()).(messages := old(messages) + [msg])
    {
      messages := messages + [msg];
    }

    /** `get_message_count`. */
    function MessageCount(): (n: nat)
      reads this
      ensures n == |messages|
      ensures n == 0 <==> messages == []
    {
      |messages|
    }

    /** `has_bot_mention`: some message in the block mentions the bot. */
    function HasBotMention(): (r: bool)
      reads this
      ensures r <==> exists i :: 0 <= i < |messages| && messages[i].isBotMentioned
    {
      AnyMentioned(messages)
    }

    /** `get_unique_users`: the set of senders in the block. */
    function UniqueUsers(): (r: set<int>)
      reads this
      ensures forall u :: u in r <==> exists i :: 0 <= i < |messages| && messages[i].userId == u
    {
      UserIds(messages)
    }

    /** `clear`: empty, open again, and both task handles dropped (pending ones are cancelled). */
    method Clear()
      modifies this
      ensures State() == BlockState([], false, NoTask, NoTask)
    {
      messages := [];
      isProcessing := false;
      waitTask := NoTask;
      judgeTask := NoTask;
    }
  }

  /** `max(3.0, min(10.0, x))`. */
  function Clamp(x: real): (r: real)
    ensures 3.0 <= r <= 10.0
    ensures 3.0 <= x <= 10.0 ==> r == x
    ensures x < 3.0 ==> r == 3.0
    ensures x > 10.0 ==> r == 10.0
  {
    var m := if x < 10.0 then x else 10.0;
    if m > 3.0 then m else 3.0
  }

  /** The decoded answer, when the call returned, the brace slice exists and `json.loads`
      accepts it. */
  function ParsedAnswer(reply: OracleReply, decode: string -> Option<Value>): Option<Value>
  {
    match reply
    case CallFailed(_) => None
    case Answered(text) => DecodeAnswer(text, decode)
  }

  /** `float(v)` on a decoded value; strings go through `toFloat`, lists and objects raise. */
  function ToFloat(v: Value, toFloat: string -> Option<real>): Option<real>
  {
    match v
    case Num(n) => Some(n)
    case Bool(b) => Some(if b then 1.0 else 0.0)
    case Str(s) => toFloat(s)
    case _ => None
  }

  /**
   * The delay, in seconds, that a finished wait-time judgment schedules. A failed call, a
   * decode failure, a non-object answer and a `wait_seconds` that `float` rejects all raise
   * and give 2; no brace pair gives 5; a falsy `should_wait` (default true) gives 0; a missing
   * or null `wait_seconds` gives 5; any other value is clamped to [3, 10].
   */
  function WaitDelay(reply: OracleReply, decode: string -> Option<Value>,
                     toFloat: string -> Option<real>): (r: real)
    ensures r == 0.0 || 2.0 <= r <= 10.0
    ensures r == 0.0 <==>
      ParsedAnswer(reply, decode).Some? && ParsedAnswer(reply, decode).value.Obj?
      && !Truthy(Get(ParsedAnswer(reply, decode).value.fields, "should_wait", Bool(true)))
  {
    match reply
    case CallFailed(_) => 2.0
    case Answered(text) =>
      match ExtractJson(Text.Strip(text))
      case None => 5.0
      case Some(slice) =>
        match decode(slice)
        case None => 2.0
        case Some(v) =>
          if !v.Obj? then 2.0
          else if !Truthy(Get(v.fields, "should_wait", Bool(true))) then 0.0
          else
            var w := Get(v.fields, "wait_seconds", Null);
            if w == Null then 5.0
            else match ToFloat(w, toFloat)
              case None => 2.0
              case Some(x) => Clamp(x)
  }

  /** The individual delay rules, each stated for every answer it applies to. */
  lemma WaitDelayRules(reply: OracleReply, decode: string -> Option<Value>,
                       toFloat: string -> Option<real>)
    ensures reply.CallFailed? ==> WaitDelay(reply, decode, toFloat) == 2.0
    ensures reply.Answered? && ExtractJson(Text.Strip(reply.text)).None? ==>
              WaitDelay(reply, decode, toFloat) == 5.0
    ensures (reply.Answered? && ExtractJson(Text.Strip(reply.text)).Some?
              && ParsedAnswer(reply, decode).None?) ==> WaitDelay(reply, decode, toFloat) == 2.0
    ensures ParsedAnswer(reply, decode).Some? ==>
      var v := ParsedAnswer(reply, decode).value;
      var w := if v.Obj? then Get(v.fields, "wait_seconds", Null) else Null;
      && (!v.Obj? ==> WaitDelay(reply, decode, toFloat) == 2.0)
      && (v.Obj? && "should_wait" !in v.fields && "wait_seconds" !in v.fields ==>
            WaitDelay(reply, decode, toFloat) == 5.0)
      && (v.Obj? && Truthy(Get(v.fields, "should_wait", Bool(true))) && w == Null ==>
            WaitDelay(reply, decode, toFloat) == 5.0)
      && (v.Obj? && Truthy(Get(v.fields, "should_wait", Bool(true))) && w.Num? ==>
            WaitDelay(reply, decode, toFloat) == Clamp(w.n))
      && (v.Obj? && Truthy(Get(v.fields, "should_wait", Bool(true))) && (w.Arr? || w.Obj?) ==>
            WaitDelay(reply, decode, toFloat) == 2.0)
  {
  }

  /** What `get_block_info` reports (the block's age is not modelled). */
  datatype BlockInfo =
    | NotExists
    | Info(messageCount: nat, isProcessing: bool, hasWaitTask: bool,
           uniqueUsers: set<int>, hasBotMention: bool)

  /** The aggregator: the group-to-block table, the set of groups that own a lock, and the blocks
      whose finalization (callback and cleanup) is still running. */
  class MessageAggregator {
    var blocks: map<int, ResponseBlock>
    var locks: set<int>
    ghost var finalizing: set<ResponseBlock>
    /** The identity the next created task receives. */
    var nextTask: nat

    /**
     * The sequential invariant: each entry's block belongs to its group; a block being finalized
     * is processing, non-empty, runs its own wait task and has no judgment pending; a processing
     * entry is being finalized; no block has a pending wait timer and a pending judgment at once;
     * every task identity was issued.
     */
    ghost predicate Valid()
      reads this, blocks.Values, finalizing
    {
      && (forall g :: g in blocks ==> blocks[g].groupId == g && blocks[g].TasksOk(nextTask))
      && (forall b :: b in finalizing ==> b.Finalizable())
      && (forall g :: g in blocks && blocks[g].isProcessing ==> blocks[g] in finalizing)
    }

    /** An open block with a pending task holds at least one message. */
    ghost predicate PendingHaveMessages()
      reads this, blocks.Values
    {
      forall g :: g in blocks && !blocks[g].isProcessing
                  && (blocks[g].waitTask.Pending? || blocks[g].judgeTask.Pending?)
                  ==> blocks[g].messages != []
    }

    constructor ()
      ensures Valid() && PendingHaveMessages()
      ensures blocks == map[] && locks == {} && finalizing == {}
    {
      blocks := map[];
      locks := {};
      finalizing := {};
      nextTask := 0;
    }

    /** `_get_lock`: the group owns a lock afterwards. */
    method GetLock(groupId: int)
      modifies this
      ensures locks == old(locks) + {groupId}
      ensures blocks == old(blocks) && finalizing == old(finalizing) && nextTask == old(nextTask)
    {
      if groupId !in locks {
        locks := locks + {groupId};
      }
    }

    /** `_get_block`: the group's block, created empty when the group has none. */
    method GetBlock(groupId: int) returns (block: ResponseBlock)
      requires Valid()
      modifies this
      ensures Valid()
      ensures old(PendingHaveMessages()) ==> PendingHaveMessages()
      ensures groupId in blocks && block == blocks[groupId]
      ensures groupId in old(blocks) ==> blocks == old(blocks)
      ensures groupId !in old(blocks) ==>
        fresh(block) && blocks == old(blocks)[groupId := block]
        && block.State() == BlockState([], false, NoTask, NoTask)
      ensures locks == old(locks) && finalizing == old(finalizing) && nextTask == old(nextTask)
    {
      if groupId !in blocks {
        var b := new ResponseBlock(groupId);
        blocks := blocks[groupId := b];
      }
      block := blocks[groupId];
    }

    /**
     * `add_message`. A processing block is left alone and a fresh block takes its place; the
     * message is appended to the group's (possibly fresh) block; a pending wait timer is
     * cancelled; the judgment in flight, if any, is superseded by exactly one new judgment.
     */
    method AddMessage(groupId: int, userId: int, content: string,
                      event: OneBot.GroupMessageEvent, isBotMentioned: bool)
      requires Valid()
      modifies this, if groupId in blocks then {blocks[groupId]} else {}
      ensures Valid()
      ensures old(PendingHaveMessages()) ==> PendingHaveMessages()
      ensures groupId in blocks && groupId in locks
      ensures var reused := groupId in old(blocks) && !old(blocks[groupId].isProcessing);
        && (reused ==> blocks[groupId] == old(blocks[groupId]))
        && (!reused ==> fresh(blocks[groupId]))
        && blocks[groupId].messages ==
             (if reused then old(blocks[groupId].messages) else [])
             + [PendingMessage(userId, content, event, isBotMentioned)]
        && blocks[groupId].waitTask == (if reused then Cancelled(old(blocks[groupId].waitTask)) else NoTask)
      ensures !blocks[groupId].isProcessing
      ensures blocks[groupId].judgeTask == Pending(old(nextTask)) && nextTask == old(nextTask) + 1
      ensures groupId in old(blocks) && old(blocks[groupId].isProcessing) ==>
        old(blocks[groupId]).State() == old(blocks[groupId].State())
      ensures forall h :: h in old(blocks) && h != groupId ==> h in blocks && blocks[h] == old(blocks[h])
      ensures blocks.Keys == old(blocks.Keys) + {groupId}
      ensures finalizing == old(finalizing)
    {
      var block := OpenBlock(groupId);
      Enqueue(block, PendingMessage(userId, content, event, isBotMentioned));
    }

    /** The first half of `add_message`: the group's block, replaced by a fresh one when it is
        processing. */
    method OpenBlock(groupId: int) returns (block: ResponseBlock)
      requires Valid()
      modifies this
      ensures Valid()
      ensures old(PendingHaveMessages()) ==> PendingHaveMessages()
      ensures groupId in blocks && block == blocks[groupId] && !block.isProcessing && groupId in locks
      ensures var reused := groupId in old(blocks) && !old(blocks[groupId].isProcessing);
        && (reused ==> block == old(blocks[groupId]))
        && (!reused ==> fresh(block) && block.State() == BlockState([], false, NoTask, NoTask))
      ensures forall h :: h in old(blocks) && h != groupId ==> h in blocks && blocks[h] == old(blocks[h])
      ensures blocks.Keys == old(blocks.Keys) + {groupId}
      ensures finalizing == old(finalizing) && nextTask == old(nextTask)
    {
      GetLock(groupId);
      block := GetBlock(groupId);
      if block.isProcessing {
        block := ReplaceBlock(groupId);
      }
    }

    /** A fresh empty block takes the group's entry; the block it replaces is left as it is. */
    method ReplaceBlock(groupId: int) returns (block: ResponseBlock)
      requires Valid()
      modifies this
      ensures Valid()
      ensures old(PendingHaveMessages()) ==> PendingHaveMessages()
      ensures fresh(block) && block.State() == BlockState([], false, NoTask, NoTask)
      ensures blocks == old(blocks)[groupId := block]
      ensures locks == old(locks) && finalizing == old(finalizing) && nextTask == old(nextTask)
    {
      block := new ResponseBlock(groupId);
      blocks := blocks[groupId := block];
    }

    /** The second half of `add_message`: append to the open block, cancel its pending wait
        timer and start a new judgment in place of any judgment in flight. */
    method Enqueue(block: ResponseBlock, msg: PendingMessage)
      requires Valid()
      requires block.groupId in blocks && blocks[block.groupId] == block && !block.isProcessing
      modifies this, block
      ensures Valid()
      ensures old(PendingHaveMessages()) ==> PendingHaveMessages()
      ensures block.State() == BlockState(old(block.messages) + [msg], false,
                                          Cancelled(old(block.waitTask)), Pending(old(nextTask)))
      ensures nextTask == old(nextTask) + 1
      ensures blocks == old(blocks) && locks == old(locks) && finalizing == old(finalizing)
    {
      block.AddMessage(msg);
      if block.waitTask.Pending? {
        block.waitTask := Done(block.waitTask.id);
      }
      // A judgment still in flight is cancelled; its handle is overwritten by the new one.
      block.judgeTask := Pending(nextTask);
      nextTask := nextTask + 1;
    }

    /**
     * A wait-time judgment task finished with `reply`. Only the judgment that is still pending
     * on the group's block acts (a cancelled one ends without scheduling anything); it records
     * a new wait timer and returns the delay the timer sleeps.
     */
    method JudgeAnswered(groupId: int, id: nat, reply: OracleReply,
                         decode: string -> Option<Value>, toFloat: string -> Option<real>)
      returns (scheduled: Option<real>)
      requires Valid()
      modifies this, if groupId in blocks then {blocks[groupId]} else {}
      ensures Valid()
      ensures old(PendingHaveMessages()) ==> PendingHaveMessages()
      ensures blocks == old(blocks) && locks == old(locks) && finalizing == old(finalizing)
      ensures scheduled.Some? <==> groupId in blocks && old(blocks[groupId].judgeTask) == Pending(id)
      ensures scheduled.Some? ==>
        && scheduled.value == WaitDelay(reply, decode, toFloat)
        && blocks[groupId].State() == old(blocks[groupId].State()).(
             waitTask := Pending(old(nextTask)), judgeTask := Done(id))
        && nextTask == old(nextTask) + 1
      ensures scheduled.None? ==>
        nextTask == old(nextTask)
        && (groupId in blocks ==> blocks[groupId].State() == old(blocks[groupId].State()))
    {
      if groupId in blocks && blocks[groupId].judgeTask == Pending(id) {
        var delay := WaitDelay(reply, decode, toFloat);
        StartTimer(blocks[groupId]);
        scheduled := Some(delay);
      } else {
        scheduled := None;
      }
    }

    /** The judgment pending on `block` ends and a new wait timer starts in its place. */
    method StartTimer(block: ResponseBlock)
      requires Valid()
      requires block.groupId in blocks && blocks[block.groupId] == block && block.judgeTask.Pending?
      modifies this, block
      ensures Valid()
      ensures old(PendingHaveMessages()) ==> PendingHaveMessages()
      ensures block.State() == old(block.State()).(waitTask := Pending(old(nextTask)),
                                                   judgeTask := Done(old(block.judgeTask.id)))
      ensures nextTask == old(nextTask) + 1
      ensures blocks == old(blocks) && locks == old(locks) && finalizing == old(finalizing)
    {
      block.judgeTask := Done(block.judgeTask.id);
      block.waitTask := Pending(nextTask);
      nextTask := nextTask + 1;
    }

    /**
     * The sleep of wait task `id` ended. A timer that was cancelled does nothing. Otherwise the
     * group's block is taken: an empty one is skipped (its timer just ends); a non-empty one is
     * marked processing and returned, as the block handed to the reply callback.
     */
    method TimerFired(groupId: int, id: nat) returns (handed: ResponseBlock?)
      requires Valid()
      modifies this, if groupId in blocks then {blocks[groupId]} else {}
      ensures Valid()
      ensures old(PendingHaveMessages()) ==> PendingHaveMessages()
      ensures blocks == old(blocks) && nextTask == old(nextTask)
      ensures handed != null ==>
        && groupId in blocks && handed == blocks[groupId]
        && old(blocks[groupId].waitTask) == Pending(id) && !old(blocks[groupId].isProcessing)
        && handed.messages != [] && handed.isProcessing
        && handed.State() == old(handed.State()).(isProcessing := true)
        && finalizing == old(finalizing) + {handed}
      ensures handed == null ==> finalizing == old(finalizing)
      ensures locks == if groupId in old(blocks) && old(blocks[groupId].waitTask) == Pending(id)
                          && !old(blocks[groupId].isProcessing)
                       then old(locks) + {groupId} else old(locks)
      ensures handed == null && groupId in blocks ==>
        if old(blocks[groupId].waitTask) == Pending(id) && !old(blocks[groupId].isProcessing)
        then old(blocks[groupId].messages) == []
             && blocks[groupId].State() == old(blocks[groupId].State()).(waitTask := Done(id))
        else blocks[groupId].State() == old(blocks[groupId].State())
    {
      handed := null;
      if groupId in blocks && !blocks[groupId].isProcessing && blocks[groupId].waitTask == Pending(id) {
        // `_get_lock` and `_get_block`: the group already has its block.
        locks := locks + {groupId};
        var block := blocks[groupId];
        if block.MessageCount() == 0 {
          block.waitTask := Done(id);
        } else {
          block.isProcessing := true;
          finalizing := finalizing + {block};
          handed := block;
        }
      }
    }

    /**
     * The cleanup after the reply callback for `block`: exactly that block is cleared, whether
     * or not it is still the group's current block; the table itself is left as it is.
     */
    method FinishProcessing(block: ResponseBlock)
      requires Valid() && block in finalizing
      modifies this, block
      ensures Valid()
      ensures old(PendingHaveMessages()) ==> PendingHaveMessages()
      ensures blocks == old(blocks) && nextTask == old(nextTask)
      ensures block.State() == BlockState([], false, NoTask, NoTask)
      ensures finalizing == old(finalizing) - {block}
      ensures locks == old(locks) + {block.groupId}
      ensures forall g :: g in blocks && blocks[g] != block ==>
        blocks[g].State() == old(blocks[g].State())
    {
      GetLock(block.groupId);
      block.Clear();
      finalizing := finalizing - {block};
    }

    /** `get_block_info`. */
    method GetBlockInfo(groupId: int) returns (info: BlockInfo)
      ensures groupId !in blocks <==> info.NotExists?
      ensures groupId in blocks ==>
        var b := blocks[groupId];
        && info.messageCount == |b.messages|
        && info.isProcessing == b.isProcessing
        && (info.hasWaitTask <==> b.waitTask != NoTask)
        && (forall u :: u in info.uniqueUsers <==>
              exists i :: 0 <= i < |b.messages| && b.messages[i].userId == u)
        && (info.hasBotMention <==> exists i :: 0 <= i < |b.messages| && b.messages[i].isBotMentioned)
    {
      if groupId !in blocks {
        return NotExists;
      }
      var b := blocks[groupId];
      info := Info(b.MessageCount(), b.isProcessing, b.waitTask != NoTask,
                   b.UniqueUsers(), b.HasBotMention());
    }
  }
}
