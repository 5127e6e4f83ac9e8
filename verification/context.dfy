/**
 * The history context handed to the oracles: one line per stored, non-recalled message,
 * `name(id) [HH:MM] 说了: content`, where every `[CQ:at,qq=N]` code in the content is replaced by
 * `@` and the mentioned user's display name. User and group-member lookups are parameters.
 */
module Context {
  import opened Wrappers
  import Text

  /** A database lookup of a user (its `nickname`) or a group member (its `card`): a record whose
      field may be missing or null, no record, or an exception. */
  datatype Lookup = Found(field: Option<string>) | Missing | Failed

  /** `group_card or user_nickname or f"用户{id}"`, where the nickname is the user's `nickname`
      (or `用户{id}` when there is no user record or the lookup raised) and the card is the
      member's `card` (or none). */
  function DisplayName(member: Lookup, user: Lookup, id: int): string {
    var fallback := "用户" + Text.IntToString(id);
    var nickname := if user.Found? then user.field else Some(fallback);
    var card := if member.Found? then member.field else None;
    if card.Some? && card.value != "" then card.value
    else if nickname.Some? && nickname.value != "" then nickname.value
    else fallback
  }

  /** The precedence: a non-empty card, else a non-empty nickname, else `用户{id}`; a display name
      is never empty. */
  lemma DisplayNamePrecedence(member: Lookup, user: Lookup, id: int)
    ensures DisplayName(member, user, id) != ""
    ensures var hasCard := member.Found? && member.field.Some? && member.field.value != "";
      var hasNick := user.Found? && user.field.Some? && user.field.value != "";
      && (hasCard ==> DisplayName(member, user, id) == member.field.value)
      && (!hasCard && hasNick ==> DisplayName(member, user, id) == user.field.value)
      && (!hasCard && !hasNick ==> DisplayName(member, user, id) == "用户" + Text.IntToString(id))
  {
  }

  // ---------------------------------------------------------------------------------------------
  // The at-codes `[CQ:at,qq=N]` matched by the pattern `\[CQ:at,qq=(\d+)\]`.

  const AtPrefix: string := "[CQ:at,qq="

  /** The number of leading ASCII digits. */
  function DigitRun(s: string): (n: nat)
    ensures n <= |s|
    ensures forall k :: 0 <= k < n ==> Text.IsDigit(s[k])
    ensures n < |s| ==> !Text.IsDigit(s[n])
  {
    if s != [] && Text.IsDigit(s[0]) then 1 + DigitRun(s[1..]) else 0
  }

  /** The length of the at-code at the start of `s`, or 0 when `s` does not start with one. */
  function CodeLength(s: string): (n: nat)
    ensures n == 0 || (12 <= n <= |s| && s[..10] == AtPrefix && s[n - 1] == ']'
                       && forall k :: 10 <= k < n - 1 ==> Text.IsDigit(s[k]))
    ensures n > 0 ==> s[0] == '['

  {
    if |s| > 10 && s[..10] == AtPrefix then
      var d := DigitRun(s[10..]);
      if d > 0 && 10 + d < |s| && s[10 + d] == ']' then 11 + d else 0
    else 0
  }

  /** `c` is one whole at-code. */
  predicate IsAtCode(c: string) {
    |c| > 0 && CodeLength(c) == |c|
  }

  /** The at-code is recognised from its shape alone. */
  lemma CodeLengthOf(t: string, n: int)
    requires 12 <= n <= |t| && t[..10] == AtPrefix && t[n - 1] == ']'
    requires forall k :: 10 <= k < n - 1 ==> Text.IsDigit(t[k])
    ensures CodeLength(t) == n
  {
    var u := t[10..];
    assert forall k :: 0 <= k < n - 11 ==> u[k] == t[10 + k];
    assert u[n - 11] == t[n - 1];
    assert DigitRun(u) == n - 11;
  }

  /** A string that starts with an at-code starts with exactly that code. */
  lemma CodeAtStart(c: string, t: string)
    requires IsAtCode(c)
    ensures |c| <= |t| && t[..|c|] == c ==> CodeLength(t) == |c|
  {
    if |c| <= |t| && t[..|c|] == c {
      assert t[..10] == c[..10];
      assert forall k :: 0 <= k < |c| ==> t[k] == c[k];
      CodeLengthOf(t, |c|);
    }
  }

  /** The prefix `CodeLength` measures is an at-code. */
  lemma CodeOfLength(s: string)
    requires CodeLength(s) > 0
    ensures IsAtCode(s[..CodeLength(s)])
  {
    var n := CodeLength(s);
    var x := s[..n];
    assert x[..10] == s[..10];
    CodeLengthOf(x, n);
  }

  /** An at-code opens with `[` and holds no other `[` and no `@`. */
  lemma CodeChars(c: string)
    requires IsAtCode(c)
    ensures c[0] == '['
    ensures forall k :: 1 <= k < |c| ==> c[k] != '[' && c[k] != '@'
  {
    assert c[0] == c[..10][0];
    forall k | 1 <= k < |c|
      ensures c[k] != '[' && c[k] != '@'
    {
      if k < 10 {
        assert c[k] == AtPrefix[k];
      }
    }
  }

  /** The number the code carries (`int(match.group(1))`). */
  function CodeNumber(c: string): nat {
    if |c| >= 11 && Text.AllDigits(c[10..|c| - 1]) then Text.DigitsValue(c[10..|c| - 1]) else 0
  }

  /** The at-codes `re.finditer` reports, left to right and non-overlapping. */
  function Matches(s: string): (ms: seq<string>)
    ensures forall i :: 0 <= i < |ms| ==> IsAtCode(ms[i])
    decreases |s|
  {
    if s == [] then []
    else
      var n := CodeLength(s);
      if n > 0 then CodeOfLength(s); [s[..n]] + Matches(s[n..]) else Matches(s[1..])
  }

  // ---------------------------------------------------------------------------------------------
  // What `parse_at_info` computes, and what it is meant to compute.

  /** The replacement `f"@{display_name}"` of one at-code. */
  function AtReplacement(members: int -> Lookup, users: int -> Lookup): string -> string {
    c => var q := CodeNumber(c); "@" + DisplayName(members(q), users(q), q)
  }

  /** The loop of `parse_at_info`: `result = result.replace(cq_code, replacement)` for each match
      in turn. */
  function ReplaceEach(s: string, codes: seq<string>, rep: string -> string): string
    requires forall i :: 0 <= i < |codes| ==> |codes[i]| > 0
  {
    if codes == [] then s
    else
      var last := codes[|codes| - 1];
      Text.ReplaceAll(ReplaceEach(s, codes[..|codes| - 1], rep), last, rep(last))
  }

  /** Single-pass substitution of the at-codes in `codes`: every other character is kept. */
  function RenderSome(s: string, codes: set<string>, rep: string -> string): string
    decreases |s|
  {
    if s == [] then []
    else
      var n := CodeLength(s);
      if n > 0 && s[..n] in codes then rep(s[..n]) + RenderSome(s[n..], codes, rep)
      else [s[0]] + RenderSome(s[1..], codes, rep)
  }

  /** Single-pass substitution of every at-code. */
  function RenderAll(s: string, rep: string -> string): string
    decreases |s|
  {
    if s == [] then []
    else
      var n := CodeLength(s);
      if n > 0 then rep(s[..n]) + RenderAll(s[n..], rep)
      else [s[0]] + RenderAll(s[1..], rep)
  }

  /** A replacement that starts with `@`. */
  predicate AtLed(r: string) {
    |r| > 0 && r[0] == '@'
  }

  /** A replacement that starts with `@` and holds no `[`. */
  predicate RepOk(r: string) {
    AtLed(r) && forall k :: 0 <= k < |r| ==> r[k] != '['
  }

  lemma {:induction false} RenderNothing(s: string, rep: string -> string)
    ensures RenderSome(s, {}, rep) == s
    decreases |s|
  {
    if s != [] {
      RenderNothing(s[1..], rep);
      assert [s[0]] + s[1..] == s;
    }
  }

  /** Text without `[` holds no at-code and is kept as it is. */
  lemma {:induction false} RenderSkipsPrefix(w: string, y: string, codes: set<string>,
                                             rep: string -> string)
    requires forall k :: 0 <= k < |w| ==> w[k] != '['
    ensures RenderSome(w + y, codes, rep) == w + RenderSome(y, codes, rep)
    decreases |w|
  {
    if w == [] {
      assert w + y == y;
    } else {
      var t := w + y;
      assert t[0] == w[0];
      assert CodeLength(t) == 0;
      assert t[1..] == w[1..] + y;
      calc {
        RenderSome(t, codes, rep);
        [t[0]] + RenderSome(t[1..], codes, rep);
        { RenderSkipsPrefix(w[1..], y, codes, rep); }
        [w[0]] + (w[1..] + RenderSome(y, codes, rep));
        { assert [w[0]] + w[1..] == w; }
        w + RenderSome(y, codes, rep);
      }
    }
  }

  /** Text without `@` that the substitution produces at some point was there before it. */
  lemma {:induction false} RenderedPrefix(w: string, y: string, codes: set<string>,
                                          rep: string -> string)
    requires forall x :: AtLed(rep(x))
    requires forall k :: 0 <= k < |w| ==> w[k] != '@'
    ensures var r := RenderSome(y, codes, rep);
      |w| <= |r| && r[..|w|] == w ==> |w| <= |y| && y[..|w|] == w
    decreases |y|
  {
    var r := RenderSome(y, codes, rep);
    if w != [] && y != [] && |w| <= |r| && r[..|w|] == w {
      RenderedPrefixStep(w, y, codes, rep);
      RenderedPrefix(w[1..], y[1..], codes, rep);
      PrefixCons(y, w);
    }
  }

  /** One step of `RenderedPrefix`: a first character other than `@` was copied from the input,
      and the rest of `w` begins the substitution of the rest. */
  lemma RenderedPrefixStep(w: string, y: string, codes: set<string>, rep: string -> string)
    requires forall x :: AtLed(rep(x))
    requires w != [] && w[0] != '@' && y != []
    requires var r := RenderSome(y, codes, rep); |w| <= |r| && r[..|w|] == w
    ensures y[0] == w[0]
    ensures var r' := RenderSome(y[1..], codes, rep); |w| - 1 <= |r'| && r'[..|w| - 1] == w[1..]
  {
    var r := RenderSome(y, codes, rep);
    var n := CodeLength(y);
    if n > 0 && y[..n] in codes {
      assert false;
    }
    assert r[0] == w[0];
    assert r == [y[0]] + RenderSome(y[1..], codes, rep);
  }

  /** A first character and a prefix of the rest make a prefix. */
  lemma PrefixCons(y: string, w: string)
    requires w != [] && y != [] && y[0] == w[0]
    requires |w| - 1 <= |y[1..]| && y[1..][..|w| - 1] == w[1..]
    ensures |w| <= |y| && y[..|w|] == w
  {
    assert y[..|w|] == [y[0]] + y[1..][..|w| - 1];
  }

  /** An at-code that is not to be replaced is kept whole. */
  lemma RenderKeepsCode(s: string, codes: set<string>, rep: string -> string)
    requires CodeLength(s) > 0 && s[..CodeLength(s)] !in codes
    ensures var n := CodeLength(s);
      RenderSome(s, codes, rep) == s[..n] + RenderSome(s[n..], codes, rep)
  {
    var n := CodeLength(s);
    var x := s[..n];
    var r := RenderSome(s[n..], codes, rep);
    CodeOfLength(s);
    CodeChars(x);
    assert s[1..] == x[1..] + s[n..];
    RenderSkipsPrefix(x[1..], s[n..], codes, rep);
    assert RenderSome(s[1..], codes, rep) == x[1..] + r;
    assert RenderSome(s, codes, rep) == [s[0]] + RenderSome(s[1..], codes, rep);
    assert [s[0]] + x[1..] == x;
    ConsAppend(s[0], x[1..], r);
  }

  /** Concatenation regroups. */
  lemma ConsAppend(a: char, w: string, r: string)
    ensures [a] + (w + r) == ([a] + w) + r
  {
  }

  /** Step of `ReplaceRendered` when `s` starts with an at-code. */
  lemma ReplaceRenderedCode(s: string, codes: set<string>, c: string, rep: string -> string)
    requires IsAtCode(c) && forall x :: RepOk(rep(x))
    requires s != [] && CodeLength(s) > 0
    requires var n := CodeLength(s);
      Text.ReplaceAll(RenderSome(s[n..], codes, rep), c, rep(c)) == RenderSome(s[n..], codes + {c}, rep)
    ensures Text.ReplaceAll(RenderSome(s, codes, rep), c, rep(c)) == RenderSome(s, codes + {c}, rep)
  {
    var n := CodeLength(s);
    var x := s[..n];
    var r := RenderSome(s[n..], codes, rep);
    var r2 := RenderSome(s[n..], codes + {c}, rep);
    var rc := rep(c);
    CodeChars(c);
    if x in codes {
      assert RepOk(rep(x));
      calc {
        Text.ReplaceAll(RenderSome(s, codes, rep), c, rc);
        Text.ReplaceAll(rep(x) + r, c, rc);
        { Text.ReplaceAllSkipsPrefix(rep(x), r, c, rc); }
        rep(x) + Text.ReplaceAll(r, c, rc);
        rep(x) + r2;
        RenderSome(s, codes + {c}, rep);
      }
    } else if x == c {
      RenderKeepsCode(s, codes, rep);
      calc {
        Text.ReplaceAll(RenderSome(s, codes, rep), c, rc);
        Text.ReplaceAll(x + r, c, rc);
        { ReplaceRenderedSameCode(x, r, rc); }
        rc + Text.ReplaceAll(r, c, rc);
        rep(x) + r2;
        RenderSome(s, codes + {c}, rep);
      }
    } else {
      RenderKeepsCode(s, codes, rep);
      RenderKeepsCode(s, codes + {c}, rep);
      CodeOfLength(s);
      calc {
        Text.ReplaceAll(RenderSome(s, codes, rep), c, rc);
        Text.ReplaceAll(x + r, c, rc);
        { ReplaceRenderedOtherCode(x, r, c, rc); }
        x + Text.ReplaceAll(r, c, rc);
        x + r2;
        RenderSome(s, codes + {c}, rep);
      }
    }
  }

  lemma ReplaceRenderedSameCode(x: string, r: string, rx: string)
    requires |x| > 0
    ensures Text.ReplaceAll(x + r, x, rx) == rx + Text.ReplaceAll(r, x, rx)
  {
    assert (x + r)[..|x|] == x;
    assert (x + r)[|x|..] == r;
  }

  lemma ReplaceRenderedOtherCode(x: string, r: string, c: string, rc: string)
    requires IsAtCode(x) && IsAtCode(c) && x != c
    ensures Text.ReplaceAll(x + r, c, rc) == x + Text.ReplaceAll(r, c, rc)
  {
    var t := x + r;
    OtherCodeNotAtStart(x, r, c);
    CodeChars(x);
    CodeChars(c);
    if |t| < |c| {
      assert |r| < |c|;
      return;
    }
    assert t[1..] == x[1..] + r;
    calc {
      Text.ReplaceAll(t, c, rc);
      [t[0]] + Text.ReplaceAll(x[1..] + r, c, rc);
      { Text.ReplaceAllSkipsPrefix(x[1..], r, c, rc); }
      [x[0]] + (x[1..] + Text.ReplaceAll(r, c, rc));
      { ConsAppend(x[0], x[1..], Text.ReplaceAll(r, c, rc)); assert [x[0]] + x[1..] == x; }
      x + Text.ReplaceAll(r, c, rc);
    }
  }

  /** Text that starts with one at-code does not start with a different one. */
  lemma OtherCodeNotAtStart(x: string, r: string, c: string)
    requires IsAtCode(x) && IsAtCode(c) && x != c
    ensures |x + r| < |c| || (x + r)[..|c|] != c
  {
    var t := x + r;
    assert t[..|x|] == x;
    CodeAtStart(x, t);
    if |t| >= |c| && t[..|c|] == c {
      CodeAtStart(c, t);
      assert false;
    }
  }

  /** Step of `ReplaceRendered` when `s` does not start with an at-code. */
  lemma ReplaceRenderedPlain(s: string, codes: set<string>, c: string, rep: string -> string)
    requires IsAtCode(c) && forall x :: AtLed(rep(x))
    requires s != [] && CodeLength(s) == 0
    requires Text.ReplaceAll(RenderSome(s[1..], codes, rep), c, rep(c))
             == RenderSome(s[1..], codes + {c}, rep)
    ensures Text.ReplaceAll(RenderSome(s, codes, rep), c, rep(c)) == RenderSome(s, codes + {c}, rep)
  {
    var r := RenderSome(s[1..], codes, rep);
    var t := [s[0]] + r;
    assert RenderSome(s, codes, rep) == t;
    PlainNotCode(s, codes, c, rep);
    if |t| >= |c| {
      assert t[1..] == r;
    }
  }

  /** Substitution output that begins with an at-code came from text that begins with it. */
  lemma PlainNotCode(s: string, codes: set<string>, c: string, rep: string -> string)
    requires IsAtCode(c) && forall x :: AtLed(rep(x))
    requires s != [] && CodeLength(s) == 0
    ensures var t := RenderSome(s, codes, rep); |t| < |c| || t[..|c|] != c
  {
    var t := RenderSome(s, codes, rep);
    CodeChars(c);
    RenderedPrefix(c, s, codes, rep);
    if |t| >= |c| && t[..|c|] == c {
      CodeAtStart(c, s);
      assert false;
    }
  }

  /** Replacing one more at-code in a single-pass substitution gives the single-pass substitution
      of one more code, as long as replacements start with `@` and contain no `[`. */
  lemma {:induction false} ReplaceRendered(s: string, codes: set<string>, c: string,
                                           rep: string -> string)
    requires IsAtCode(c) && forall x :: RepOk(rep(x))
    ensures Text.ReplaceAll(RenderSome(s, codes, rep), c, rep(c)) == RenderSome(s, codes + {c}, rep)
    decreases |s|
  {
    if s != [] {
      var n := CodeLength(s);
      if n > 0 {
        ReplaceRendered(s[n..], codes, c, rep);
        ReplaceRenderedCode(s, codes, c, rep);
      } else {
        ReplaceRendered(s[1..], codes, c, rep);
        ReplaceRenderedPlain(s, codes, c, rep);
      }
    }
  }

  /** The codes of a list, as a set. */
  function Elements(codes: seq<string>): (r: set<string>)
    ensures forall i :: 0 <= i < |codes| ==> codes[i] in r
  {
    if codes == [] then {} else Elements(codes[..|codes| - 1]) + {codes[|codes| - 1]}
  }

  /** The replacement loop equals the single-pass substitution of the codes it has seen. */
  lemma {:induction false} ReplaceEachRenders(s: string, codes: seq<string>, rep: string -> string)
    requires forall i :: 0 <= i < |codes| ==> |codes[i]| > 0 && IsAtCode(codes[i])
    requires forall x :: RepOk(rep(x))
    ensures ReplaceEach(s, codes, rep) == RenderSome(s, Elements(codes), rep)
  {
    if codes == [] {
      RenderNothing(s, rep);
    } else {
      var init := codes[..|codes| - 1];
      ReplaceEachRenders(s, init, rep);
      ReplaceRendered(s, Elements(init), codes[|codes| - 1], rep);
    }
  }

  /** Substituting a set of codes that includes every match is substituting every code. */
  lemma {:induction false} RenderCovering(s: string, codes: set<string>, rep: string -> string)
    requires forall i :: 0 <= i < |Matches(s)| ==> Matches(s)[i] in codes
    ensures RenderSome(s, codes, rep) == RenderAll(s, rep)
    decreases |s|
  {
    if s != [] {
      var n := CodeLength(s);
      if n > 0 {
        assert Matches(s) == [s[..n]] + Matches(s[n..]);
        assert Matches(s)[0] == s[..n];
        assert forall i :: 0 <= i < |Matches(s[n..])| ==> Matches(s[n..])[i] == Matches(s)[i + 1];
        RenderCovering(s[n..], codes, rep);
      } else {
        assert Matches(s) == Matches(s[1..]);
        RenderCovering(s[1..], codes, rep);
      }
    }
  }

  /** `parse_at_info(content)` with the two lookups of the group passed in. */
  method ParseAtInfo(content: string, members: int -> Lookup, users: int -> Lookup)
    returns (result: string)
    ensures result == ReplaceEach(content, Matches(content), AtReplacement(members, users))
  {
    var matches := Matches(content);
    result := content;
    for i := 0 to |matches|
      invariant result == ReplaceEach(content, matches[..i], AtReplacement(members, users))
    {
      var cqCode := matches[i];
      var atQQ := CodeNumber(cqCode);
      var displayName := DisplayName(members(atQQ), users(atQQ), atQQ);
      assert matches[..i + 1][..i] == matches[..i];
      result := Text.ReplaceAll(result, cqCode, "@" + displayName);
    }
    assert matches[..|matches|] == matches;
  }

  /**
   * When no display name contains `[`, `parse_at_info` replaces every at-code of the content by
   * `@` and the display name of the number it carries, and keeps every other character.
   */
  lemma ParseAtInfoReplacesEveryCode(content: string, members: int -> Lookup, users: int -> Lookup)
    requires forall q: int :: forall k :: 0 <= k < |DisplayName(members(q), users(q), q)| ==>
               DisplayName(members(q), users(q), q)[k] != '['
    ensures ReplaceEach(content, Matches(content), AtReplacement(members, users))
            == RenderAll(content, AtReplacement(members, users))
  {
    var rep := AtReplacement(members, users);
    forall x
      ensures RepOk(rep(x))
    {
      var q := CodeNumber(x);
      var name := DisplayName(members(q), users(q), q);
      assert rep(x) == "@" + name;
      assert forall k :: 1 <= k < |rep(x)| ==> rep(x)[k] == name[k - 1];
    }
    var ms := Matches(content);
    ReplaceEachRenders(content, ms, rep);
    RenderCovering(content, Elements(ms), rep);
  }

  /** Content without at-codes comes back unchanged. */
  lemma {:induction false} RenderAllWithoutCodes(s: string, rep: string -> string)
    requires Matches(s) == []
    ensures RenderAll(s, rep) == s
    decreases |s|
  {
    if s != [] {
      assert CodeLength(s) == 0 && Matches(s[1..]) == [];
      RenderAllWithoutCodes(s[1..], rep);
      assert RenderAll(s, rep) == [s[0]] + s[1..];
      assert [s[0]] + s[1..] == s;
    }
  }

  // ---------------------------------------------------------------------------------------------
  // `get_recent_context`.

  /** A stored message; `timeText` is its timestamp already formatted as `HH:MM`. */
  datatype StoredMessage = StoredMessage(userId: int, content: string, timeText: string,
                                         isRecalled: bool)

  /** The speaker's name: "小奏" for the bot (`bot_id and user_id == bot_id`), otherwise the
      display name. */
  function Speaker(m: StoredMessage, botId: Option<int>, members: int -> Lookup,
                   users: int -> Lookup): string
  {
    if botId.Some? && botId.value != 0 && m.userId == botId.value then "小奏"
    else DisplayName(members(m.userId), users(m.userId), m.userId)
  }

  /** `f"{display_name}({user_id}) [{time_str}] 说了: {message_content}"`. */
  function ContextLine(m: StoredMessage, botId: Option<int>, members: int -> Lookup,
                       users: int -> Lookup): string
  {
    Speaker(m, botId, members, users) + "(" + Text.IntToString(m.userId) + ") [" + m.timeText
    + "] 说了: " + ReplaceEach(m.content, Matches(m.content), AtReplacement(members, users))
  }

  /** The lines of a message list: recalled messages are skipped. */
  function ContextLines(msgs: seq<StoredMessage>, botId: Option<int>, members: int -> Lookup,
                        users: int -> Lookup): seq<string>
  {
    if msgs == [] then []
    else ContextLines(msgs[..|msgs| - 1], botId, members, users)
         + LineOf(msgs[|msgs| - 1], botId, members, users)
  }

  /** The line one message contributes: none when recalled. */
  function LineOf(m: StoredMessage, botId: Option<int>, members: int -> Lookup,
                  users: int -> Lookup): seq<string>
  {
    if m.isRecalled then [] else [ContextLine(m, botId, members, users)]
  }

  /** Lines follow the messages: the lines of a concatenation are the lines of each part (and a
      single message gives no line when recalled and its own line otherwise, by definition). */
  lemma {:induction false} ContextLinesAppend(a: seq<StoredMessage>, b: seq<StoredMessage>,
                                              botId: Option<int>, members: int -> Lookup,
                                              users: int -> Lookup)
    ensures ContextLines(a + b, botId, members, users)
            == ContextLines(a, botId, members, users) + ContextLines(b, botId, members, users)
    decreases |b|
  {
    if b == [] {
      assert a + b == a;
    } else {
      var b', m := b[..|b| - 1], b[|b| - 1];
      ContextLinesAppend(a, b', botId, members, users);
      assert (a + b)[..|a + b| - 1] == a + b' && (a + b)[|a + b| - 1] == m;
      calc {
        ContextLines(a + b, botId, members, users);
        ContextLines(a + b', botId, members, users) + LineOf(m, botId, members, users);
        (ContextLines(a, botId, members, users) + ContextLines(b', botId, members, users))
          + LineOf(m, botId, members, users);
        { LinesAssoc(ContextLines(a, botId, members, users), ContextLines(b', botId, members, users),
                     LineOf(m, botId, members, users)); }
        ContextLines(a, botId, members, users)
          + (ContextLines(b', botId, members, users) + LineOf(m, botId, members, users));
        ContextLines(a, botId, members, users) + ContextLines(b, botId, members, users);
      }
    }
  }

  /** Concatenation of line lists regroups. */
  lemma LinesAssoc(x: seq<string>, y: seq<string>, z: seq<string>)
    ensures (x + y) + z == x + (y + z)
  {
  }

  /** A list of recalled messages gives no line at all. */
  lemma {:induction false} ContextLinesAllRecalled(msgs: seq<StoredMessage>, botId: Option<int>,
                                                   members: int -> Lookup, users: int -> Lookup)
    requires forall i :: 0 <= i < |msgs| ==> msgs[i].isRecalled
    ensures ContextLines(msgs, botId, members, users) == []
  {
    if msgs != [] {
      ContextLinesAllRecalled(msgs[..|msgs| - 1], botId, members, users);
    }
  }

  /**
   * `get_recent_context` over the fetched messages: no messages gives the placeholder
   * "（暂无上下文消息）"; otherwise the lines of the non-recalled messages, in order, joined by
   * newlines (so a list of only recalled messages gives the empty string).
   */
  method RecentContext(msgs: seq<StoredMessage>, botId: Option<int>, members: int -> Lookup,
                       users: int -> Lookup) returns (text: string)
    ensures msgs == [] ==> text == "（暂无上下文消息）"
    ensures msgs != [] ==> text == Text.Join(ContextLines(msgs, botId, members, users), "\n")
  {
    if msgs == [] {
      return "（暂无上下文消息）";
    }
    var contextLines: seq<string> := [];
    for i := 0 to |msgs|
      invariant contextLines == ContextLines(msgs[..i], botId, members, users)
    {
      assert msgs[..i + 1][..i] == msgs[..i];
      var msg := msgs[i];
      if msg.isRecalled {
        continue;
      }
      var displayName: string;
      if botId.Some? && botId.value != 0 && msg.userId == botId.value {
        displayName := "小奏";
      } else {
        displayName := DisplayName(members(msg.userId), users(msg.userId), msg.userId);
      }
      var content := ParseAtInfo(msg.content, members, users);
      contextLines := contextLines + [displayName + "(" + Text.IntToString(msg.userId) + ") ["
                                      + msg.timeText + "] 说了: " + content];
    }
    assert msgs[..|msgs|] == msgs;
    text := Text.Join(contextLines, "\n");
  }
}
