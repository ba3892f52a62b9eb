/**
 * The part of `serde_json::Value` the launcher reads: the value kinds, the
 * accessors `get`, `as_str`, `as_array`, and `to_string`, which prints a value
 * back as JSON text (so a string comes out WITH its quotes).
 */
module Json {
  import opened Wrappers
  import opened Text

  /**
   * A parsed JSON document. Numbers are integers (the manifest's sizes); an
   * object keeps its members in document order.
   */
  datatype Json =
    | JNull
    | JBool(b: bool)
    | JNumber(n: int)
    | JString(s: string)
    | JArray(items: seq<Json>)
    | JObject(members: seq<(string, Json)>)

  /** The value of the last member named `key`: a repeated key overwrites earlier ones when parsed. */
  function Lookup(members: seq<(string, Json)>, key: string): Option<Json>
  {
    if members == [] then None
    else if members[|members| - 1].0 == key then Some(members[|members| - 1].1)
    else Lookup(members[..|members| - 1], key)
  }

  /** A lookup finds a value exactly when the key is present, and then it finds the LAST member with that key. */
  lemma {:induction false} LookupLast(members: seq<(string, Json)>, key: string)
    ensures Lookup(members, key).None? <==> forall i :: 0 <= i < |members| ==> members[i].0 != key
    ensures Lookup(members, key).Some? ==>
              exists i :: 0 <= i < |members| && members[i] == (key, Lookup(members, key).value) &&
                forall j :: i < j < |members| ==> members[j].0 != key
  {
    if members != [] {
      var init := members[..|members| - 1];
      LookupLast(init, key);
      if members[|members| - 1].0 != key && Lookup(init, key).Some? {
        var i :| 0 <= i < |init| && init[i] == (key, Lookup(init, key).value) &&
                 forall j :: i < j < |init| ==> init[j].0 != key;
        assert members[i] == init[i];
      }
    }
  }

  /** `value.get(key)`: a member of an object; `None` for a missing key or a value that is not an object. */
  function Get(j: Json, key: string): Option<Json>
  {
    match j
    case JObject(members) => Lookup(members, key)
    case _ => None
  }

  /** `value.as_str()`. */
  function AsStr(j: Json): Option<string>
  {
    if j.JString? then Some(j.s) else None
  }

  /** `value.as_array()`. */
  function AsArray(j: Json): Option<seq<Json>>
  {
    if j.JArray? then Some(j.items) else None
  }

  /** `format!("{}", n)` on a signed integer. */
  function IntToString(n: int): (s: string)
    ensures |s| > 0 && (s[0] == '-' || '0' <= s[0] <= '9')
  {
    if n < 0 then "-" + NatToString(-n) else NatToString(n)
  }

  /**
   * How `serde_json` writes one character inside a string literal: `"` and
   * `\` behind a backslash; backspace, form feed, newline, carriage return
   * and tab as `\b`, `\f`, `\n`, `\r`, `\t`; any other character below
   * U+0020 as `\u00` and two lowercase hex digits; everything else as itself.
   */
  function EscapeChar(c: char): (e: string)
    ensures 1 <= |e| <= 6
    ensures |e| == 1 <==> c >= ' ' && c != '"' && c != '\\'
    ensures |e| == 1 ==> e == [c]
    ensures forall i :: 0 <= i < |e| ==> e[i] >= ' '
  {
    if c == '"' || c == '\\' then ['\\', c]
    else if c as int == 0x08 then "\\b"
    else if c as int == 0x0C then "\\f"
    else if c == '\n' then "\\n"
    else if c == '\r' then "\\r"
    else if c == '\t' then "\\t"
    else if c < ' ' then "\\u00" + [HexDigit(c as int / 16), HexDigit(c as int % 16)]
    else [c]
  }

  /** The body of a JSON string literal: each character escaped in turn; no control character is left. */
  function Escape(s: string): (e: string)
    ensures forall i :: 0 <= i < |e| ==> e[i] >= ' '
  {
    if s == [] then "" else EscapeChar(s[0]) + Escape(s[1..])
  }

  /** Escaping never shortens a string. */
  lemma {:induction false} EscapeLonger(s: string)
    ensures |Escape(s)| >= |s|
  {
    if s != [] {
      EscapeLonger(s[1..]);
    }
  }

  /**
   * The character the body of a string literal starts with, and how many
   * characters of the body spell it: a plain character, or one of the
   * escapes `EscapeChar` writes (`\/` is read as well). `None` for a raw
   * quote or control character and for any other escape.
   */
  function UnescapeHead(t: string): (r: Option<(char, nat)>)
    ensures r.Some? ==> 1 <= r.value.1 <= |t|
  {
    if t == [] || t[0] == '"' || t[0] < ' ' then None
    else if t[0] != '\\' then Some((t[0], 1))
    else if |t| < 2 then None
    else if t[1] == '"' || t[1] == '\\' || t[1] == '/' then Some((t[1], 2))
    else if t[1] == 'b' then Some((0x08 as char, 2))
    else if t[1] == 'f' then Some((0x0C as char, 2))
    else if t[1] == 'n' then Some(('\n', 2))
    else if t[1] == 'r' then Some(('\r', 2))
    else if t[1] == 't' then Some(('\t', 2))
    else if t[1] == 'u' && |t| >= 6 && t[2] == '0' && t[3] == '0' && IsLowerHexDigit(t[4]) && IsLowerHexDigit(t[5]) then
      Some(((16 * HexValue(t[4]) + HexValue(t[5])) as char, 6))
    else None
  }

  /** Reads the body of a string literal back into the string it spells. */
  function Unescape(t: string): Option<string>
    decreases |t|
  {
    if t == [] then Some("")
    else match UnescapeHead(t)
      case None => None
      case Some((c, n)) =>
        match Unescape(t[n..])
        case None => None
        case Some(rest) => Some([c] + rest)
  }

  /** The escape of a character is read back as that character, whatever follows it. */
  lemma EscapeCharReadBack(c: char, rest: string)
    ensures UnescapeHead(EscapeChar(c) + rest) == Some((c, |EscapeChar(c)|))
  {
    var t := EscapeChar(c) + rest;
    if c < ' ' && c as int !in {0x08, 0x0C} && c != '\n' && c != '\r' && c != '\t' {
      assert t[..6] == EscapeChar(c);
      assert HexValue(t[4]) == c as int / 16 && HexValue(t[5]) == c as int % 16;
    }
  }

  /** Escaping loses nothing: reading the escaped text back gives the original string. */
  lemma {:induction false} UnescapeEscape(s: string)
    ensures Unescape(Escape(s)) == Some(s)
  {
    if s != [] {
      var e := EscapeChar(s[0]);
      var rest := Escape(s[1..]);
      EscapeCharReadBack(s[0], rest);
      assert Escape(s) == e + rest != [];
      assert (e + rest)[|e|..] == rest;
      UnescapeEscape(s[1..]);
      assert s == [s[0]] + s[1..];
    }
  }

  /** A JSON string literal for `s`. */
  function Quote(s: string): (q: string)
    ensures |q| >= 2 && q[0] == '"' && q[|q| - 1] == '"'
  {
    "\"" + Escape(s) + "\""
  }

  /** `value.to_string()`: the compact JSON text of a value. */
  function ToText(j: Json): (t: string)
    ensures |t| > 0
  {
    match j
    case JNull => "null"
    case JBool(b) => if b then "true" else "false"
    case JNumber(n) => IntToString(n)
    case JString(s) => Quote(s)
    case JArray(items) =>
      "[" + JoinWith(seq(|items|, i requires 0 <= i < |items| => ToText(items[i])), ',') + "]"
    case JObject(members) =>
      "{" + JoinWith(seq(|members|, i requires 0 <= i < |members| =>
                       Quote(members[i].0) + ":" + ToText(members[i].1)), ',') + "}"
  }

  /**
   * JSON text never begins with a letter other than the `n`, `t`, `f` of
   * `null`, `true`, `false`: it begins with a quote, a bracket, a brace, a
   * digit or a minus sign.
   */
  lemma TextStart(j: Json)
    ensures ToText(j)[0] in {'"', '[', '{', 'n', 't', 'f', '-'} || '0' <= ToText(j)[0] <= '9'
  {
  }

  /** No JSON text is one of the manifest's OS names, whatever the value. */
  lemma TextIsNeverOsName(j: Json, name: string)
    requires name == "windows" || name == "linux" || name == "osx"
    ensures ToText(j) != name
  {
    TextStart(j);
  }
}
