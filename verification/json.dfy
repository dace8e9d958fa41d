/**
 * JavaScript values as the linter sees them: a parsed JSON tree, the
 * truthiness test behind every `!x` / `x &&` of the validators, property
 * lookup with `undefined` for a missing key, and `Object.entries`.
 */
module Json {

  /** One member of an object. A datatype rather than a tuple, so that
      recursion through the members of an object can be proved to terminate. */
  datatype Member = Member(key: string, value: Json)

  /** A parsed JSON value. Numbers are integers (floating point is not
      modelled). The members of an object are listed in the object's own
      property order, which is the order `Object.entries` and
      `JSON.stringify` both follow. */
  datatype Json =
    | JNull
    | JBool(b: bool)
    | JNum(n: int)
    | JStr(s: string)
    | JArr(items: seq<Json>)
    | JObj(members: seq<Member>)

  /** The result of a property read: `None` is `undefined`. */
  datatype Option<T> = None | Some(value: T)

  /** `!!v` in JavaScript: `undefined`, `null`, `false`, `0` and `""` are
      falsy; every array and every object (even an empty one) is truthy. */
  predicate Truthy(v: Option<Json>)
  {
    match v
    case None => false
    case Some(JNull) => false
    case Some(JBool(b)) => b
    case Some(JNum(n)) => n != 0
    case Some(JStr(s)) => s != ""
    case Some(JArr(_)) => true
    case Some(JObj(_)) => true
  }

  /** `v && typeof v === "object"`: arrays count as objects, `null` does not. */
  predicate IsObject(v: Json)
  {
    v.JArr? || v.JObj?
  }

  /** The value of the first member named `key`, or `None`. */
  function Lookup(members: seq<Member>, key: string): Option<Json>
  {
    if members == [] then None
    else if members[0].key == key then Some(members[0].value)
    else Lookup(members[1..], key)
  }

  /** A lookup finds a value exactly when some member has the key, and
      the value it finds is that of the first such member. */
  lemma {:induction false} LookupFirst(members: seq<Member>, key: string)
    ensures Lookup(members, key).Some? <==> exists i :: 0 <= i < |members| && members[i].key == key
    ensures Lookup(members, key).Some? ==>
      exists i :: 0 <= i < |members| && members[i] == Member(key, Lookup(members, key).value)
        && forall j :: 0 <= j < i ==> members[j].key != key
  {
    if members != [] && members[0].key != key {
      LookupFirst(members[1..], key);
      assert forall i :: 1 <= i < |members| ==> members[i] == members[1..][i - 1];
      if Lookup(members, key).Some? {
        var i :| 0 <= i < |members[1..]| && members[1..][i] == Member(key, Lookup(members, key).value)
          && forall j :: 0 <= j < i ==> members[1..][j].key != key;
        assert members[i + 1] == Member(key, Lookup(members, key).value);
      }
    } else if members != [] {
      assert members[0] == Member(key, Lookup(members, key).value);
    }
  }

  /** `v.key` for a non-null `v`. Only objects carry the keys the linter reads
      (`type`, `body`, `api`, ...): none of them is a property of a string,
      number, boolean or array, so those give `undefined`. Reading a property
      of `null` throws in JavaScript; callers test for `JNull` first. */
  function Get(v: Json, key: string): Option<Json>
  {
    if v.JObj? then Lookup(v.members, key) else None
  }

  /** `v.key === "lit"` for a string literal. */
  predicate IsString(v: Option<Json>, lit: string)
  {
    v == Some(JStr(lit))
  }

  /** `a || b`: the first operand when it is truthy, otherwise the second. */
  function Or(a: Option<Json>, b: Option<Json>): (r: Option<Json>)
    ensures Truthy(r) <==> Truthy(a) || Truthy(b)
    ensures Truthy(a) ==> r == a
  {
    if Truthy(a) then a else b
  }

  /** The decimal numeral of `n`, as JavaScript prints an array index. */
  function NatToString(n: nat): (r: string)
    ensures |r| >= 1
    ensures forall i :: 0 <= i < |r| ==> '0' <= r[i] <= '9'
    decreases n
  {
    if n < 10 then [Digit(n)] else NatToString(n / 10) + [Digit(n % 10)]
  }

  function Digit(d: nat): (c: char)
    requires d < 10
    ensures '0' <= c <= '9'
  {
    ('0' as int + d) as char
  }

  /** Different numbers have different numerals. */
  lemma {:induction false} NatToStringInjective(a: nat, b: nat)
    ensures NatToString(a) == NatToString(b) ==> a == b
    decreases a
  {
    if NatToString(a) == NatToString(b) && a >= 10 && b >= 10 {
      var x, y := NatToString(a / 10), NatToString(b / 10);
      assert NatToString(a) == x + [Digit(a % 10)] && NatToString(b) == y + [Digit(b % 10)];
      assert x == NatToString(a)[..|x|] && y == NatToString(b)[..|y|];
      assert Digit(a % 10) == NatToString(a)[|x|] == Digit(b % 10);
      NatToStringInjective(a / 10, b / 10);
    }
  }

  /** `Object.entries(v)` for a truthy `v`: the members of an object; the
      index (as a string) and element of each array slot; the index and
      one-character string of each character of a string; nothing for a
      number or a boolean. */
  function Entries(v: Json): seq<Member>
  {
    match v
    case JObj(ms) => ms
    case JArr(items) => seq(|items|, i requires 0 <= i < |items| => Member(NatToString(i), items[i]))
    case JStr(s) => seq(|s|, i requires 0 <= i < |s| => Member(NatToString(i), JStr([s[i]])))
    case _ => []
  }

  /** The entries of an array or a string: one per element, under pairwise
      distinct keys, each holding the element at its position. */
  lemma EntriesDistinctKeys(v: Json)
    requires v.JArr? || v.JStr?
    ensures var r := Entries(v);
      && |r| == (if v.JArr? then |v.items| else |v.s|)
      && (forall i :: 0 <= i < |r| ==> r[i].value == (if v.JArr? then v.items[i] else JStr([v.s[i]])))
      && (forall i, j :: 0 <= i < j < |r| ==> r[i].key != r[j].key)
  {
    var r := Entries(v);
    forall i, j | 0 <= i < j < |r|
      ensures r[i].key != r[j].key
    {
      NatToStringInjective(i, j);
    }
  }
}
