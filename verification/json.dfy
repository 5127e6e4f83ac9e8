/**
 * Oracle answers after `json.loads`: a decoded JSON value, Python's `dict.get` and truthiness,
 * and the brace-slice extraction that every oracle client applies to the raw answer text
 * (`text.find("{")` up to `text.rfind("}") + 1`).
 */
module Json {
  import opened Wrappers
  import Text

  /** A decoded JSON value. Integers and floats are both numbers; non-finite floats are not modelled. */
  datatype Value =
    | Null
    | Bool(b: bool)
    | Num(n: real)
    | Str(s: string)
    | Arr(items: seq<Value>)
    | Obj(fields: map<string, Value>)

  /** A decoded JSON object. */
  type Dict = map<string, Value>

  /** Python's `d.get(key, default)`; `d.get(key)` is `Get(d, key, Null)`. */
  function Get(d: Dict, key: string, default: Value): (v: Value)
    ensures key in d ==> v == d[key]
    ensures key !in d ==> v == default
  {
    if key in d then d[key] else default
  }

  /** Python truthiness of a decoded value (`if v:`). */
  predicate Truthy(v: Value) {
    match v
    case Null => false
    case Bool(b) => b
    case Num(n) => n != 0.0
    case Str(s) => s != ""
    case Arr(a) => a != []
    case Obj(m) => m != map[]
  }

  /** Python's `v == 0`: `False == 0` and `0.0 == 0` hold as well. */
  predicate EqualsZero(v: Value) {
    v == Num(0.0) || v == Bool(false)
  }

  /** `s.find(c)`: the first index of `c`, or -1. */
  function Find(s: string, c: char): (i: int)
    ensures -1 <= i < |s|
    ensures i >= 0 ==> s[i] == c
    ensures forall k :: 0 <= k < |s| && (i == -1 || k < i) ==> s[k] != c
  {
    if s == [] then -1
    else if s[0] == c then 0
    else
      var k := Find(s[1..], c);
      if k >= 0 then k + 1 else -1
  }

  /** `s.rfind(c)`: the last index of `c`, or -1. */
  function RFind(s: string, c: char): (i: int)
    ensures -1 <= i < |s|
    ensures i >= 0 ==> s[i] == c
    ensures forall k :: 0 <= k < |s| && i < k ==> s[k] != c
  {
    if s == [] then -1
    else if s[|s| - 1] == c then |s| - 1
    else RFind(s[..|s| - 1], c)
  }

  /** The brace slice `text[text.find("{"):text.rfind("}") + 1]`, or `None` when the guard
      `json_start >= 0 and json_end > json_start` fails. */
  function ExtractJson(text: string): Option<string>
  {
    BraceSlice(text, Find(text, '{'), RFind(text, '}'))
  }

  /** `text[start:last + 1]` when `start >= 0` and `last + 1 > start`, otherwise `None`. */
  function BraceSlice(text: string, start: int, last: int): Option<string>
    requires last < |text|
  {
    if start >= 0 && last + 1 > start then Some(text[start..last + 1]) else None
  }

  /** The outcome of an oracle (language-model) call: it raised with this message, or it
      returned this text. */
  datatype OracleReply = CallFailed(error: string) | Answered(text: string)

  /**
   * What the judges do with an answer text: strip it, cut the brace slice and decode it
   * (`json.loads`, passed in as `decode`; `None` when it raises). `None` when there is no brace
   * pair or decoding fails.
   */
  function DecodeAnswer(text: string, decode: string -> Option<Value>): Option<Value>
  {
    match ExtractJson(Text.Strip(text))
    case None => None
    case Some(slice) => decode(slice)
  }

  /** Extraction succeeds exactly when some `}` follows some `{`, and the slice then
      starts with `{` and ends with `}`. */
  lemma ExtractJsonSpec(text: string)
    ensures ExtractJson(text).Some? <==>
              exists i, j :: 0 <= i < j < |text| && text[i] == '{' && text[j] == '}'
    ensures ExtractJson(text).Some? ==>
              var s := ExtractJson(text).value; |s| >= 2 && s[0] == '{' && s[|s| - 1] == '}'
  {
    var start := Find(text, '{');
    var end := RFind(text, '}') + 1;
    if start >= 0 && end > start {
      assert text[start] == '{' && text[end - 1] == '}';
    }
  }

  /** Trimming whitespace before the search (`response.content.strip()`) never changes the slice:
      whitespace holds no braces. */
  lemma ExtractJsonIgnoresStrip(text: string)
    ensures ExtractJson(Text.Strip(text)) == ExtractJson(text)
  {
    var a, b :| 0 <= a <= b <= |text| && Text.Strip(text) == text[a..b]
                && forall k :: 0 <= k < a || b <= k < |text| ==> Text.IsSpace(text[k]);
    assert !Text.IsSpace('{') && !Text.IsSpace('}');
    ExtractJsonOfSlice(text, a, b);
  }

  /** Cutting brace-free text off both ends leaves the brace slice as it was. */
  lemma ExtractJsonOfSlice(text: string, a: int, b: int)
    requires 0 <= a <= b <= |text|
    requires forall k :: 0 <= k < a ==> text[k] != '{' && text[k] != '}'
    requires forall k :: b <= k < |text| ==> text[k] != '{' && text[k] != '}'
    ensures ExtractJson(text[a..b]) == ExtractJson(text)
  {
    var t := text[a..b];
    var i, j := Find(text, '{'), RFind(text, '}');
    calc {
      ExtractJson(t);
      BraceSlice(t, Find(t, '{'), RFind(t, '}'));
      { FindInSlice(text, a, b, '{');
        RFindInSlice(text, a, b, '}'); }
      BraceSlice(t, if i >= 0 then i - a else -1, if j >= 0 then j - a else -1);
      { BraceSliceOfSlice(text, a, b, i, j); }
      BraceSlice(text, i, j);
    }
  }

  /** Shifting both brace positions by the cut-off prefix selects the same characters. */
  lemma BraceSliceOfSlice(text: string, a: int, b: int, i: int, j: int)
    requires 0 <= a <= b <= |text| && -1 <= j < |text|
    requires i >= 0 ==> a <= i < b
    requires j >= 0 ==> a <= j < b
    ensures BraceSlice(text[a..b], if i >= 0 then i - a else -1, if j >= 0 then j - a else -1)
            == BraceSlice(text, i, j)
  {
    if i >= 0 && j + 1 > i {
      SliceOfSlice(text, a, b, i, j + 1);
    }
  }

  /** A slice taken inside a slice is the corresponding slice of the whole. */
  lemma SliceOfSlice(text: string, a: int, b: int, i: int, e: int)
    requires 0 <= a <= i <= e <= b <= |text|
    ensures text[a..b][i - a..e - a] == text[i..e]
  {
    var s := text[a..b][i - a..e - a];
    assert |s| == e - i;
    assert forall k :: 0 <= k < e - i ==> s[k] == text[i + k];
  }

  /** Searching forward in a slice whose outside holds no `c` finds the same character. */
  lemma FindInSlice(text: string, a: int, b: int, c: char)
    requires 0 <= a <= b <= |text|
    requires forall k :: 0 <= k < a ==> text[k] != c
    requires forall k :: b <= k < |text| ==> text[k] != c
    ensures Find(text[a..b], c) == (if Find(text, c) >= 0 then Find(text, c) - a else -1)
    ensures Find(text, c) >= 0 ==> a <= Find(text, c) < b
  {
    var t := text[a..b];
    var i := Find(text, c);
    var k := Find(t, c);
    if i >= 0 {
      assert t[i - a] == text[i];
    }
    assert k >= 0 ==> t[k] == text[a + k];
  }

  /** Searching backward in a slice whose outside holds no `c` finds the same character. */
  lemma RFindInSlice(text: string, a: int, b: int, c: char)
    requires 0 <= a <= b <= |text|
    requires forall k :: 0 <= k < a ==> text[k] != c
    requires forall k :: b <= k < |text| ==> text[k] != c
    ensures RFind(text[a..b], c) == (if RFind(text, c) >= 0 then RFind(text, c) - a else -1)
    ensures RFind(text, c) >= 0 ==> a <= RFind(text, c) < b
  {
    var t := text[a..b];
    var i := RFind(text, c);
    var k := RFind(t, c);
    if i >= 0 {
      assert t[i - a] == text[i];
    }
    assert k >= 0 ==> t[k] == text[a + k];
  }
}
