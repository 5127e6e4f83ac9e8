/**
 * The single-message judgment and its result record, `JudgeResult`, which is also the shape the
 * reply generator consumes.
 */
module MessageJudge {
  import opened Wrappers
  import opened Json
  import SilenceMode

  /** `JudgeResult`: each field holds what `dict.get` returned (a decoded value). */
  datatype JudgeResult = JudgeResult(
    shouldReply: Value,
    replyType: Value,
    targetUserId: Value,
    emotion: Value,
    explanation: Value,
    instruction: Value,
    shouldMention: Value,
    userComplainingTooMuch: Value,
    userAskingToSpeak: Value)

  /** The nine keys `to_dict` writes and `from_dict` reads. */
  const FieldKeys: set<string> := {
    "should_reply", "reply_type", "target_user_id", "emotion", "explanation", "instruction",
    "should_mention", "user_complaining_too_much", "user_asking_to_speak"
  }

  /** `JudgeResult.from_dict(data)`, with the constructor's defaults for missing keys. */
  function FromDict(d: Dict): JudgeResult {
    JudgeResult(
      Get(d, "should_reply", Bool(false)),
      Get(d, "reply_type", Str("none")),
      Get(d, "target_user_id", Null),
      Get(d, "emotion", Str("happy")),
      Get(d, "explanation", Str("")),
      Get(d, "instruction", Str("")),
      Get(d, "should_mention", Bool(false)),
      Get(d, "user_complaining_too_much", Bool(false)),
      Get(d, "user_asking_to_speak", Bool(false)))
  }

  /** `to_dict()`: exactly the nine field keys, each holding its field. */
  function ToDict(r: JudgeResult): (d: Dict)
    ensures d.Keys == FieldKeys
    ensures d["should_reply"] == r.shouldReply && d["reply_type"] == r.replyType
    ensures d["target_user_id"] == r.targetUserId && d["emotion"] == r.emotion
    ensures d["explanation"] == r.explanation && d["instruction"] == r.instruction
    ensures d["should_mention"] == r.shouldMention
    ensures d["user_complaining_too_much"] == r.userComplainingTooMuch
    ensures d["user_asking_to_speak"] == r.userAskingToSpeak
  {
    map[
      "should_reply" := r.shouldReply,
      "reply_type" := r.replyType,
      "target_user_id" := r.targetUserId,
      "emotion" := r.emotion,
      "explanation" := r.explanation,
      "instruction" := r.instruction,
      "should_mention" := r.shouldMention,
      "user_complaining_too_much" := r.userComplainingTooMuch,
      "user_asking_to_speak" := r.userAskingToSpeak]
  }

  /** Missing keys take the defaults: no reply, type "none", no target, emotion "happy", empty
      explanation and instruction, no mention, both feedback flags off. */
  lemma FromDictDefaults(d: Dict)
    requires forall k :: k in d ==> k !in FieldKeys
    ensures FromDict(d) == JudgeResult(Bool(false), Str("none"), Null, Str("happy"), Str(""),
                                       Str(""), Bool(false), Bool(false), Bool(false))
  {
    assert "should_reply" !in d && "reply_type" !in d && "target_user_id" !in d;
    assert "emotion" !in d && "explanation" !in d && "instruction" !in d;
    assert "should_mention" !in d && "user_complaining_too_much" !in d;
    assert "user_asking_to_speak" !in d;
  }

  /** `from_dict(to_dict(r))` gives back `r`, field for field. */
  lemma FromDictOfToDict(r: JudgeResult)
    ensures FromDict(ToDict(r)) == r
  {
  }

  /** A dictionary holding exactly the nine keys survives `from_dict` followed by `to_dict`;
      other keys are dropped by `from_dict`. */
  lemma ToDictOfFromDict(d: Dict)
    ensures d.Keys == FieldKeys ==> ToDict(FromDict(d)) == d
    ensures forall k :: k in ToDict(FromDict(d)) && k in d ==> ToDict(FromDict(d))[k] == d[k]
  {
    var e := ToDict(FromDict(d));
    assert forall k :: k in e ==> k in FieldKeys;
    if d.Keys == FieldKeys {
      assert forall k :: k in d ==> k in e && e[k] == d[k];
    }
  }

  /** The conservative result the judge returns on failure: no reply, type "none", with the given
      explanation and an empty instruction. */
  function Conservative(explanation: string): (r: JudgeResult)
    ensures !Truthy(r.shouldReply) && r.replyType == Str("none")
    ensures r.explanation == Str(explanation) && r.instruction == Str("")
    ensures !Truthy(r.userComplainingTooMuch) && !Truthy(r.userAskingToSpeak)
  {
    JudgeResult(Bool(false), Str("none"), Null, Str("happy"), Str(explanation), Str(""),
                Bool(false), Bool(false), Bool(false))
  }

  /**
   * `judge_message`: a call that raises, or a decoded answer that is not an object, gives the
   * conservative "AI judgment failed" result; an answer without a brace pair or that does not
   * decode gives "Failed to parse judgment response"; otherwise the decoded result is returned
   * after the silence transition for a truthy `group_id`.
   */
  method JudgeMessage(register: SilenceMode.SilenceRegister, groupId: Option<int>,
                      reply: OracleReply, decode: string -> Option<Value>)
    returns (result: JudgeResult)
    modifies register
    ensures reply.CallFailed? ==> result == Conservative("AI judgment failed")
    ensures reply.Answered? && DecodeAnswer(reply.text, decode).None? ==>
              result == Conservative("Failed to parse judgment response")
    ensures reply.Answered? && DecodeAnswer(reply.text, decode).Some? ==>
      var v := DecodeAnswer(reply.text, decode).value;
      result == if v.Obj? then FromDict(v.fields) else Conservative("AI judgment failed")
    ensures if reply.Answered? && DecodeAnswer(reply.text, decode).Some?
               && DecodeAnswer(reply.text, decode).value.Obj?
            then register.states == SilenceMode.SilenceAfter(old(register.states), groupId,
                   result.userComplainingTooMuch, result.userAskingToSpeak)
            else register.states == old(register.states)
  {
    match reply {
      case CallFailed(_) =>
        return Conservative("AI judgment failed");
      case Answered(text) =>
        var data := DecodeAnswer(text, decode);
        if data.None? {
          return Conservative("Failed to parse judgment response");
        }
        if !data.value.Obj? {
          // `data.get` raises on a decoded list, string or number.
          return Conservative("AI judgment failed");
        }
        result := FromDict(data.value.fields);
        SilenceMode.ApplySilenceTransition(register, groupId, result.userComplainingTooMuch,
                                           result.userAskingToSpeak);
    }
  }
}
