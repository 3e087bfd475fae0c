/**
 * Decoded JSON values as the Python runtime sees them: the Python type
 * each one has, its truthiness, `dict.get` on a decoded object, and the text
 * that `str` (as used by an f-string) produces for it.
 */
module PyJson {
  import opened Wrappers

  /** A value produced by Python's JSON decoder. Numbers are integers only. */
  datatype Json =
    | JNull
    | JBool(b: bool)
    | JInt(i: int)
    | JStr(s: string)
    | JArray(items: seq<Json>)
    | JObject(members: seq<(string, Json)>)

  /**
   * `d.get(key)` on the dict decoded from `members`. The decoder keeps the
   * value of the last occurrence of a repeated key, and a missing key reads
   * as None.
   */
  function Get(members: seq<(string, Json)>, key: string): (r: Option<Json>)
  {
    if members == [] then None
    else if members[|members| - 1].0 == key then Some(members[|members| - 1].1)
    else Get(members[..|members| - 1], key)
  }

  /** A key no entry carries reads as None. */
  lemma {:induction false} GetMissing(members: seq<(string, Json)>, key: string)
    requires forall i :: 0 <= i < |members| ==> members[i].0 != key
    ensures Get(members, key) == None
    decreases |members|
  {
    if members != [] {
      var init := members[..|members| - 1];
      assert forall i :: 0 <= i < |init| ==> init[i] == members[i];
      GetMissing(init, key);
    }
  }

  /** A key some entry carries is found, with the value of its last entry. */
  lemma {:induction false} GetLast(members: seq<(string, Json)>, k: nat)
    requires k < |members|
    ensures Get(members, members[k].0) == Some(members[LastIndex(members, k)].1)
    decreases |members|
  {
    var r := LastIndex(members, k);
    if r < |members| - 1 {
      var init := members[..|members| - 1];
      assert init[k] == members[k];
      GetLast(init, k);
      assert LastIndex(init, k) == r by {
        var r' := LastIndex(init, k);
        assert init[r'] == members[r'];
        assert forall t :: r' < t < |init| ==> init[t] == members[t];
      }
    }
  }

  /** Python truthiness: None, False, 0, "", [] and {} are falsy. */
  predicate Truthy(v: Json) {
    match v
    case JNull => false
    case JBool(b) => b
    case JInt(i) => i != 0
    case JStr(s) => s != ""
    case JArray(items) => items != []
    case JObject(members) => members != []
  }

  /** Truthiness of the result of `d.get(key)`, where a missing key is None. */
  predicate Present(v: Option<Json>) {
    v.Some? && Truthy(v.value)
  }

  /** `type(v).__name__` */
  function TypeName(v: Json): string {
    match v
    case JNull => "NoneType"
    case JBool(_) => "bool"
    case JInt(_) => "int"
    case JStr(_) => "str"
    case JArray(_) => "list"
    case JObject(_) => "dict"
  }

  /** `str(v)`: a string stands for itself; every other value prints its repr. */
  function Str(v: Json): string {
    if v.JStr? then v.s else Repr(v)
  }

  /** `str(d.get(key))`, where a missing key is None. */
  function StrOrNone(v: Option<Json>): string {
    if v.Some? then Str(v.value) else "None"
  }

  /** `repr(v)` */
  function Repr(v: Json): string
    decreases v
  {
    match v
    case JNull => "None"
    case JBool(b) => if b then "True" else "False"
    case JInt(i) => IntToString(i)
    case JStr(s) => QuoteString(s)
    case JArray(items) =>
      "[" + Join(seq(|items|, k requires 0 <= k < |items| => Repr(items[k]))) + "]"
    case JObject(ms) =>
      "{" + Join(Flatten(seq(|ms|, k requires 0 <= k < |ms| =>
        if FirstOfKey(ms, k) then [QuoteString(ms[k].0) + ": " + Repr(ms[LastIndex(ms, k)].1)]
        else []))) + "}"
  }

  /** The entry at `k` is the first with its key: the dict keeps that position. */
  predicate FirstOfKey(ms: seq<(string, Json)>, k: nat)
    requires k < |ms|
  {
    forall t :: 0 <= t < k ==> ms[t].0 != ms[k].0
  }

  /** The last entry with the key of entry `k`: the dict keeps that value. */
  function LastIndex(ms: seq<(string, Json)>, k: nat): (r: nat)
    requires k < |ms|
    ensures k <= r < |ms| && ms[r].0 == ms[k].0
    ensures forall t :: r < t < |ms| ==> ms[t].0 != ms[k].0
  {
    LastWithKey(ms, ms[k].0, |ms| - 1, k)
  }

  function LastWithKey(ms: seq<(string, Json)>, key: string, hi: nat, lo: nat): (r: nat)
    requires lo <= hi < |ms| && ms[lo].0 == key
    ensures lo <= r <= hi && ms[r].0 == key
    ensures forall t :: r < t <= hi ==> ms[t].0 != key
    decreases hi
  {
    if ms[hi].0 == key then hi else LastWithKey(ms, key, hi - 1, lo)
  }

  /** `", ".join(parts)` */
  function Join(parts: seq<string>): string {
    if parts == [] then ""
    else if |parts| == 1 then parts[0]
    else parts[0] + ", " + Join(parts[1..])
  }

  function Flatten(parts: seq<seq<string>>): seq<string> {
    if parts == [] then [] else parts[0] + Flatten(parts[1..])
  }

  /**
   * `repr(s)` of a string: single quotes unless the text holds a single quote
   * and no double quote; the quote in use, the backslash, tab, newline,
   * carriage return and the other ASCII control characters are escaped.
   */
  function QuoteString(s: string): string {
    var q := if '\'' in s && '"' !in s then '"' else '\'';
    [q] + Escape(s, q) + [q]
  }

  /** A character that repr prints as itself inside either kind of quotes. */
  predicate PlainChar(c: char) {
    c != '\'' && c != '"' && c != '\\' && (c as int) >= 0x20 && (c as int) != 0x7F
  }

  predicate PlainText(s: string) {
    forall i :: 0 <= i < |s| ==> PlainChar(s[i])
  }

  lemma PlainConcat(a: string, b: string)
    requires PlainText(a) && PlainText(b)
    ensures PlainText(a + b)
  {
    forall i | 0 <= i < |a + b| ensures PlainChar((a + b)[i]) {
      if i >= |a| { assert (a + b)[i] == b[i - |a|]; }
    }
  }

  lemma {:induction false} EscapePlain(s: string, q: char)
    requires PlainText(s) && (q == '\'' || q == '"')
    ensures Escape(s, q) == s
  {
    if s != [] {
      assert PlainText(s[1..]) by {
        forall i | 0 <= i < |s[1..]| ensures PlainChar(s[1..][i]) { assert s[1..][i] == s[i + 1]; }
      }
      EscapePlain(s[1..], q);
      assert s == [s[0]] + s[1..];
    }
  }

  /** The repr of a string without quotes, backslashes or control characters is that string in single quotes. */
  lemma QuotePlain(s: string)
    requires PlainText(s)
    ensures QuoteString(s) == "'" + s + "'"
  {
    assert '\'' !in s by {
      forall i | 0 <= i < |s| ensures s[i] != '\'' { assert PlainChar(s[i]); }
    }
    EscapePlain(s, '\'');
  }

  function Escape(s: string, q: char): string {
    if s == [] then "" else EscapeChar(s[0], q) + Escape(s[1..], q)
  }

  function EscapeChar(c: char, q: char): string {
    if c == q || c == '\\' then ['\\', c]
    else if c == '\t' then "\\t"
    else if c == '\n' then "\\n"
    else if c == '\r' then "\\r"
    else if (c as int) < 0x20 || (c as int) == 0x7F then
      "\\x" + [HexDigit((c as int) / 16), HexDigit((c as int) % 16)]
    else [c]
  }

  function HexDigit(d: nat): char
    requires d < 16
  {
    "0123456789abcdef"[d]
  }

  /** `str(i)` of an integer: decimal with a leading minus sign when negative. */
  function IntToString(i: int): string {
    if i < 0 then "-" + NatToString(-i) else NatToString(i)
  }

  function NatToString(n: nat): string {
    if n < 10 then ["0123456789"[n]] else NatToString(n / 10) + ["0123456789"[n % 10]]
  }
}
