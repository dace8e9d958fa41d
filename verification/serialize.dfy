/**
 * `JSON.stringify(v)` with no replacer and no indentation: the text the
 * pattern detectors search. Integers only; characters are Unicode scalar
 * values, so the escaping of lone surrogates does not arise.
 */
module JsonText {
  import opened Json

  /** The decimal numeral of an integer, with a leading `-` when negative. */
  function IntToString(n: int): (r: string)
    ensures |r| >= 1
  {
    if n < 0 then "-" + NatToString(-n) else NatToString(n)
  }

  /** One lower-case hexadecimal digit. */
  function HexDigit(d: nat): (c: char)
    requires d < 16
  {
    "0123456789abcdef"[d]
  }

  /** The escape JSON.stringify writes for one character of a string:
      the seven short escapes, `\u00xx` for the other control characters,
      and the character itself otherwise (U+2028 and U+2029 included). */
  function EscapeChar(c: char): (r: string)
    ensures |r| >= 1
    ensures r[0] == c || r[0] == '\\'
    ensures c != '"' && c != '\\' && c >= ' ' ==> r == [c]
  {
    if c == '"' then "\\\""
    else if c == '\\' then "\\\\"
    else if c == '\U{8}' then "\\b"
    else if c == '\U{C}' then "\\f"
    else if c == '\n' then "\\n"
    else if c == '\r' then "\\r"
    else if c == '\t' then "\\t"
    else if c < ' ' then
      var code := c as int;
      "\\u00" + [HexDigit(code / 16), HexDigit(code % 16)]
    else [c]
  }

  function Escape(s: string): (r: string)
    ensures |r| >= |s|
  {
    if s == [] then [] else EscapeChar(s[0]) + Escape(s[1..])
  }

  /** A JSON string literal. */
  function Quote(s: string): string
  {
    "\"" + Escape(s) + "\""
  }

  function Serialize(v: Json): (r: string)
    ensures |r| >= 1
    decreases v
  {
    match v
    case JNull => "null"
    case JBool(b) => if b then "true" else "false"
    case JNum(n) => IntToString(n)
    case JStr(s) => Quote(s)
    case JArr(items) => "[" + SerializeItems(items) + "]"
    case JObj(members) => "{" + SerializeMembers(members) + "}"
  }

  /** The elements of an array, separated by commas. */
  function SerializeItems(items: seq<Json>): string
    decreases items
  {
    if items == [] then ""
    else if |items| == 1 then Serialize(items[0])
    else Serialize(items[0]) + "," + SerializeItems(items[1..])
  }

  /** The `"key":value` pairs of an object, separated by commas. */
  function SerializeMembers(members: seq<Member>): string
    decreases members
  {
    if members == [] then ""
    else
      assert members[0] in members;
      var pair := Quote(members[0].key) + ":" + Serialize(members[0].value);
      if |members| == 1 then pair else pair + "," + SerializeMembers(members[1..])
  }

  /** `a` occurs in `b` as a contiguous substring. */
  ghost predicate Infix(a: string, b: string)
  {
    exists i :: InfixAt(a, b, i)
  }

  /** `a` occurs in `b` starting at index `i`. */
  ghost predicate InfixAt(a: string, b: string, i: int)
  {
    0 <= i <= |b| - |a| && b[i..i + |a|] == a
  }

  /** `c` is `v` itself or a value nested anywhere inside it. */
  ghost predicate Within(c: Json, v: Json)
    decreases v
  {
    c == v
    || (v.JArr? && exists k :: 0 <= k < |v.items| && Within(c, v.items[k]))
    || (v.JObj? && exists k :: 0 <= k < |v.members| && Within(c, v.members[k].value))
  }

  lemma InfixTrans(a: string, b: string, c: string)
    requires Infix(a, b) && Infix(b, c)
    ensures Infix(a, c)
  {
    var i :| InfixAt(a, b, i);
    var j :| InfixAt(b, c, j);
    forall t | 0 <= t < |a|
      ensures c[j + i..j + i + |a|][t] == a[t]
    {
      assert a[t] == b[i + t] == c[j + i + t];
    }
    assert c[j + i..j + i + |a|] == a;
    assert InfixAt(a, c, j + i);
  }

  lemma InfixConcat(pre: string, a: string, post: string)
    ensures Infix(a, pre + a + post)
  {
    assert (pre + a + post)[|pre|..|pre| + |a|] == a;
    assert InfixAt(a, pre + a + post, |pre|);
  }

  lemma InfixPrefix(a: string, post: string)
    ensures Infix(a, a + post)
  {
    assert (a + post)[..|a|] == a;
    assert InfixAt(a, a + post, 0);
  }

  lemma InfixSuffix(pre: string, a: string)
    ensures Infix(a, pre + a)
  {
    assert (pre + a)[|pre|..] == a;
    assert InfixAt(a, pre + a, |pre|);
  }

  lemma InfixSelf(a: string)
    ensures Infix(a, a)
  {
    assert a[0..|a|] == a;
    assert InfixAt(a, a, 0);
  }

  lemma {:induction false} ItemInfix(items: seq<Json>, k: nat)
    requires k < |items|
    ensures Infix(Serialize(items[k]), SerializeItems(items))
    decreases k
  {
    if |items| == 1 {
      InfixSelf(Serialize(items[0]));
    } else if k == 0 {
      InfixPrefix(Serialize(items[0]), "," + SerializeItems(items[1..]));
      assert Serialize(items[0]) + ("," + SerializeItems(items[1..])) == SerializeItems(items);
    } else {
      ItemInfix(items[1..], k - 1);
      InfixConcat(Serialize(items[0]) + ",", SerializeItems(items[1..]), "");
      assert Serialize(items[0]) + "," + SerializeItems(items[1..]) + "" == SerializeItems(items);
      InfixTrans(Serialize(items[k]), SerializeItems(items[1..]), SerializeItems(items));
    }
  }

  lemma {:induction false} MemberInfix(members: seq<Member>, k: nat)
    requires k < |members|
    ensures Infix(Serialize(members[k].value), SerializeMembers(members))
    decreases k
  {
    var pair := Quote(members[0].key) + ":" + Serialize(members[0].value);
    if k == 0 {
      InfixSuffix(Quote(members[0].key) + ":", Serialize(members[0].value));
      if |members| > 1 {
        InfixPrefix(pair, "," + SerializeMembers(members[1..]));
        assert pair + ("," + SerializeMembers(members[1..])) == SerializeMembers(members);
        InfixTrans(Serialize(members[0].value), pair, SerializeMembers(members));
      }
    } else {
      MemberInfix(members[1..], k - 1);
      InfixConcat(pair + ",", SerializeMembers(members[1..]), "");
      assert pair + "," + SerializeMembers(members[1..]) + "" == SerializeMembers(members);
      InfixTrans(Serialize(members[k].value), SerializeMembers(members[1..]), SerializeMembers(members));
    }
  }

  /** The text of every nested value appears verbatim in the text of the
      whole document: this is why a pattern can fire on any string anywhere
      in the tree. */
  lemma {:induction false} WithinInfix(c: Json, v: Json)
    requires Within(c, v)
    ensures Infix(Serialize(c), Serialize(v))
    decreases v
  {
    if c == v {
      InfixSelf(Serialize(v));
    } else if v.JArr? && exists k :: 0 <= k < |v.items| && Within(c, v.items[k]) {
      var k :| 0 <= k < |v.items| && Within(c, v.items[k]);
      WithinInfix(c, v.items[k]);
      ItemInfix(v.items, k);
      InfixConcat("[", SerializeItems(v.items), "]");
      InfixTrans(Serialize(v.items[k]), SerializeItems(v.items), Serialize(v));
      InfixTrans(Serialize(c), Serialize(v.items[k]), Serialize(v));
    } else {
      var k :| 0 <= k < |v.members| && Within(c, v.members[k].value);
      assert v.members[k] in v.members;
      WithinInfix(c, v.members[k].value);
      MemberInfix(v.members, k);
      InfixConcat("{", SerializeMembers(v.members), "}");
      InfixTrans(Serialize(v.members[k].value), SerializeMembers(v.members), Serialize(v));
      InfixTrans(Serialize(c), Serialize(v.members[k].value), Serialize(v));
    }
  }

  /** A string with no quote, backslash or control character is written as is. */
  lemma {:induction false} EscapePlain(s: string)
    requires forall i :: 0 <= i < |s| ==> s[i] != '"' && s[i] != '\\' && s[i] >= ' '
    ensures Escape(s) == s
  {
    if s != [] {
      EscapePlain(s[1..]);
    }
  }

  /** Such a string occurs verbatim in its own serialized text. */
  lemma PlainInfix(s: string)
    requires Escape(s) == s
    ensures Infix(s, Serialize(JStr(s)))
  {
    InfixConcat("\"", s, "\"");
  }
}
