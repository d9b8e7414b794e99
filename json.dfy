/** The JSON values that `JSON.stringify` writes into local storage and that
  * `JSON.parse` and `response.json()` read back, with a printer and a parser
  * for a whitespace-free text form, and the proof that parsing undoes
  * printing. Numbers are integers. */
module Json {
  import opened Wrappers

  datatype Value =
    | JNull
    | JBool(b: bool)
    | JNum(n: int)
    | JStr(s: string)
    | JArr(items: seq<Value>)
    | JObj(members: seq<Member>)

  datatype Member = Member(key: string, value: Value)

  /** JavaScript truthiness of a parsed value: `null`, `false`, `0` and `""`
    * are falsy, every array and object is truthy. */
  predicate Truthy(v: Value) {
    match v
    case JNull => false
    case JBool(b) => b
    case JNum(n) => n != 0
    case JStr(s) => s != ""
    case JArr(_) => true
    case JObj(_) => true
  }

  /** `obj[key]` on a parsed object: the value of the LAST member with that
    * key, as `JSON.parse` keeps the last of duplicated keys; None when the
    * key is absent (JavaScript's `undefined`). */
  function Lookup(ms: seq<Member>, key: string): (r: Option<Value>)
    ensures r.Some? <==> exists i :: 0 <= i < |ms| && ms[i].key == key
    ensures r.Some? ==> exists i :: 0 <= i < |ms| && ms[i] == Member(key, r.value)
  {
    if ms == [] then None
    else if ms[|ms| - 1].key == key then Some(ms[|ms| - 1].value)
    else Lookup(ms[..|ms| - 1], key)
  }

  /** Reading `v.key` where `v` is not null: a member of an object, or
    * `undefined` (None) for every other kind of value. */
  function Field(v: Value, key: string): Option<Value> {
    if v.JObj? then Lookup(v.members, key) else None
  }

  // ---------------------------------------------------------------- printing

  predicate IsDigit(c: char) { '0' <= c <= '9' }

  function DigitChar(d: nat): (c: char)
    requires d < 10
    ensures IsDigit(c)
  {
    (('0' as int) + d) as char
  }

  function DigitValue(c: char): (d: nat)
    requires IsDigit(c)
    ensures d < 10
  {
    (c as int) - ('0' as int)
  }

  predicate AllDigits(s: string) {
    forall i :: 0 <= i < |s| ==> IsDigit(s[i])
  }

  /** Decimal digits of `n`, most significant first, without leading zeros. */
  function Digits(n: nat): (ds: string)
    ensures |ds| > 0 && AllDigits(ds)
  {
    if n < 10 then [DigitChar(n)] else Digits(n / 10) + [DigitChar(n % 10)]
  }

  function NumberText(n: int): string {
    if n < 0 then "-" + Digits(-n) else Digits(n)
  }

  /** The characters of a string literal between its quotes: `"` and `\` are
    * escaped with a backslash. */
  function Escape(s: string): string {
    if s == [] then []
    else (if s[0] == '"' || s[0] == '\\' then ['\\', s[0]] else [s[0]]) + Escape(s[1..])
  }

  function Quote(s: string): string {
    "\"" + Escape(s) + "\""
  }

  /** `JSON.stringify(v)`. */
  function Serialize(v: Value): string
    decreases v, 1
  {
    match v
    case JNull => "null"
    case JBool(b) => if b then "true" else "false"
    case JNum(n) => NumberText(n)
    case JStr(s) => Quote(s)
    case JArr(items) => "[" + SerializeItems(items) + "]"
    case JObj(members) => "{" + SerializeMembers(members) + "}"
  }

  function SerializeItems(xs: seq<Value>): string
    decreases xs, 0
  {
    if xs == [] then ""
    else if |xs| == 1 then Serialize(xs[0])
    else Serialize(xs[0]) + "," + SerializeItems(xs[1..])
  }

  function SerializeMember(m: Member): string
    decreases m, 0
  {
    Quote(m.key) + ":" + Serialize(m.value)
  }

  function SerializeMembers(ms: seq<Member>): string
    decreases ms, 0
  {
    if ms == [] then ""
    else if |ms| == 1 then SerializeMember(ms[0])
    else SerializeMember(ms[0]) + "," + SerializeMembers(ms[1..])
  }

  // ----------------------------------------------------------------- parsing

  predicate StartsWith(s: string, p: string) {
    |p| <= |s| && s[..|p|] == p
  }

  /** Length of the run of digits at the start of `s`. */
  function DigitRun(s: string): (k: nat)
    ensures k <= |s| && AllDigits(s[..k])
    ensures k < |s| ==> !IsDigit(s[k])
  {
    if s == [] || !IsDigit(s[0]) then 0 else 1 + DigitRun(s[1..])
  }

  /** Value of a digit string read most-significant first. */
  function DigitsValue(ds: string): nat
    requires AllDigits(ds)
  {
    if ds == [] then 0 else DigitsValue(ds[..|ds| - 1]) * 10 + DigitValue(ds[|ds| - 1])
  }

  /** A natural number at the start of `s`: a non-empty digit run, refused
    * when it has a leading zero (as JSON refuses `01`). */
  function ParseNat(s: string): (r: Option<(nat, string)>)
    ensures r.Some? ==> |r.value.1| < |s|
  {
    var k := DigitRun(s);
    if k == 0 || (s[0] == '0' && k > 1) then None
    else Some((DigitsValue(s[..k]), s[k..]))
  }

  function ParseNumber(s: string): (r: Option<(int, string)>)
    ensures r.Some? ==> |r.value.1| < |s|
  {
    if s != [] && s[0] == '-' then
      match ParseNat(s[1..])
      case None => None
      case Some((n, rest)) => Some((-(n as int), rest))
    else
      match ParseNat(s)
      case None => None
      case Some((n, rest)) => Some((n, rest))
  }

  /** The body of a string literal, `s` starting just after the opening
    * quote: returns the unescaped text and what follows the closing quote. */
  function ParseString(s: string): (r: Option<(string, string)>)
    ensures r.Some? ==> |r.value.1| < |s|
  {
    if s == [] then None
    else if s[0] == '"' then Some(([], s[1..]))
    else if s[0] == '\\' then
      if |s| >= 2 && (s[1] == '"' || s[1] == '\\') then
        match ParseString(s[2..])
        case None => None
        case Some((t, rest)) => Some(([s[1]] + t, rest))
      else None
    else
      match ParseString(s[1..])
      case None => None
      case Some((t, rest)) => Some(([s[0]] + t, rest))
  }

  /** One value at the start of `s`, and the text after it. */
  function ParseValue(s: string): (r: Option<(Value, string)>)
    ensures r.Some? ==> |r.value.1| < |s|
    decreases |s|, 0
  {
    if s == [] then None
    else if StartsWith(s, "null") then Some((JNull, s[4..]))
    else if StartsWith(s, "true") then Some((JBool(true), s[4..]))
    else if StartsWith(s, "false") then Some((JBool(false), s[5..]))
    else if s[0] == '"' then
      match ParseString(s[1..])
      case None => None
      case Some((t, rest)) => Some((JStr(t), rest))
    else if s[0] == '-' || IsDigit(s[0]) then
      match ParseNumber(s)
      case None => None
      case Some((n, rest)) => Some((JNum(n), rest))
    else if s[0] == '[' then
      if |s| >= 2 && s[1] == ']' then Some((JArr([]), s[2..]))
      else
        match ParseItems(s[1..])
        case None => None
        case Some((xs, rest)) => Some((JArr(xs), rest))
    else if s[0] == '{' then
      if |s| >= 2 && s[1] == '}' then Some((JObj([]), s[2..]))
      else
        match ParseMembers(s[1..])
        case None => None
        case Some((ms, rest)) => Some((JObj(ms), rest))
    else None
  }

  /** `v1,v2,...,vn]` (n >= 1): the elements and the text after the `]`. */
  function ParseItems(s: string): (r: Option<(seq<Value>, string)>)
    ensures r.Some? ==> |r.value.1| < |s|
    decreases |s|, 1
  {
    match ParseValue(s)
    case None => None
    case Some((v, t)) =>
      if t == [] then None
      else if t[0] == ']' then Some(([v], t[1..]))
      else if t[0] == ',' then
        match ParseItems(t[1..])
        case None => None
        case Some((vs, u)) => Some(([v] + vs, u))
      else None
  }

  /** `"k1":v1,...,"kn":vn}` (n >= 1): the members and the text after `}`. */
  function ParseMembers(s: string): (r: Option<(seq<Member>, string)>)
    ensures r.Some? ==> |r.value.1| < |s|
    decreases |s|, 1
  {
    if s == [] || s[0] != '"' then None
    else
      match ParseString(s[1..])
      case None => None
      case Some((k, t)) =>
        if t == [] || t[0] != ':' then None
        else
          match ParseValue(t[1..])
          case None => None
          case Some((v, u)) =>
            if u == [] then None
            else if u[0] == '}' then Some(([Member(k, v)], u[1..]))
            else if u[0] == ',' then
              match ParseMembers(u[1..])
              case None => None
              case Some((ms, w)) => Some(([Member(k, v)] + ms, w))
            else None
  }

  /** `JSON.parse(s)`: one value and nothing after it; None where
    * `JSON.parse` would throw. */
  function Parse(s: string): Option<Value> {
    match ParseValue(s)
    case None => None
    case Some((v, rest)) => if rest == [] then Some(v) else None
  }

  // ------------------------------------------------------------- round trip

  lemma {:induction false} DigitRunOf(ds: string, rest: string)
    requires AllDigits(ds)
    requires rest == [] || !IsDigit(rest[0])
    ensures DigitRun(ds + rest) == |ds|
  {
    if ds != [] {
      assert (ds + rest)[1..] == ds[1..] + rest;
      DigitRunOf(ds[1..], rest);
    } else {
      assert ds + rest == rest;
    }
  }

  lemma {:induction false} DigitsValueOf(n: nat)
    ensures DigitsValue(Digits(n)) == n
  {
    if n >= 10 {
      var ds := Digits(n);
      assert ds[..|ds| - 1] == Digits(n / 10);
      DigitsValueOf(n / 10);
    }
  }

  lemma {:induction false} DigitsLead(n: nat)
    ensures Digits(n)[0] == '0' ==> n == 0
  {
    if n >= 10 {
      DigitsLead(n / 10);
      assert Digits(n)[0] == Digits(n / 10)[0];
    }
  }

  lemma ParseNatOf(n: nat, rest: string)
    requires rest == [] || !IsDigit(rest[0])
    ensures ParseNat(Digits(n) + rest) == Some((n, rest))
  {
    var ds := Digits(n);
    var s := ds + rest;
    DigitRunOf(ds, rest);
    assert s[..|ds|] == ds;
    assert s[|ds|..] == rest;
    DigitsValueOf(n);
    DigitsLead(n);
  }

  lemma {:induction false} ParseNumberOf(n: int, rest: string)
    requires rest == [] || !IsDigit(rest[0])
    ensures ParseNumber(NumberText(n) + rest) == Some((n, rest))
  {
    var s := NumberText(n) + rest;
    if n < 0 {
      var m: nat := -n;
      assert s == "-" + (Digits(m) + rest);
      assert s[1..] == Digits(m) + rest;
      ParseNatOf(m, rest);
    } else {
      assert s == Digits(n) + rest;
      assert s[0] == Digits(n)[0];
      ParseNatOf(n, rest);
    }
  }

  lemma {:induction false} ParseStringOf(s: string, rest: string)
    ensures ParseString(Escape(s) + "\"" + rest) == Some((s, rest))
  {
    var t := Escape(s) + "\"" + rest;
    if s == [] {
      assert t == "\"" + rest;
    } else {
      ParseStringOf(s[1..], rest);
      if s[0] == '"' || s[0] == '\\' {
        assert t == ['\\', s[0]] + (Escape(s[1..]) + "\"" + rest);
        assert t[2..] == Escape(s[1..]) + "\"" + rest;
      } else {
        assert t == [s[0]] + (Escape(s[1..]) + "\"" + rest);
        assert t[1..] == Escape(s[1..]) + "\"" + rest;
      }
      assert [s[0]] + s[1..] == s;
    }
  }

  lemma ParseQuotedOf(s: string, rest: string)
    ensures |Quote(s) + rest| > 0 && (Quote(s) + rest)[0] == '"'
    ensures ParseString((Quote(s) + rest)[1..]) == Some((s, rest))
  {
    assert (Quote(s) + rest)[1..] == Escape(s) + "\"" + rest;
    ParseStringOf(s, rest);
  }

  /** What a serialised value starts with; never a closing bracket. */
  lemma SerializeStart(v: Value)
    ensures |Serialize(v)| > 0
    ensures Serialize(v)[0] in {'n', 't', 'f', '"', '-', '[', '{'} || IsDigit(Serialize(v)[0])
  {
    if v.JNum? && v.n >= 0 {
      assert IsDigit(Digits(v.n)[0]);
    }
  }

  /** The text after a value: an integer's digits must not run on into it. */
  predicate Delimited(rest: string) {
    rest == [] || !IsDigit(rest[0])
  }

  lemma NotKeyword(s: string)
    requires |s| > 0 && s[0] != 'n' && s[0] != 't' && s[0] != 'f'
    ensures !StartsWith(s, "null") && !StartsWith(s, "true") && !StartsWith(s, "false")
  {
    if |s| >= 4 { assert s[..4][0] == s[0]; }
  }

  /** The branch of `ParseValue` taken at an opening bracket or brace. */
  lemma ParseValueAtArray(s: string, xs: seq<Value>, rest: string)
    requires |s| >= 2 && s[0] == '[' && s[1] != ']'
    requires ParseItems(s[1..]) == Some((xs, rest))
    ensures ParseValue(s) == Some((JArr(xs), rest))
  {
    NotKeyword(s);
  }

  lemma ParseValueAtObject(s: string, ms: seq<Member>, rest: string)
    requires |s| >= 2 && s[0] == '{' && s[1] != '}'
    requires ParseMembers(s[1..]) == Some((ms, rest))
    ensures ParseValue(s) == Some((JObj(ms), rest))
  {
    NotKeyword(s);
  }

  lemma ParseScalarOf(v: Value, rest: string)
    requires !v.JArr? && !v.JObj?
    requires Delimited(rest)
    ensures ParseValue(Serialize(v) + rest) == Some((v, rest))
  {
    var s := Serialize(v) + rest;
    match v
    case JNull =>
      assert s[..4] == "null";
      assert s[4..] == rest;
    case JBool(b) =>
      if b {
        assert s[..4] == "true";
        assert s[4..] == rest;
      } else {
        assert s[..5] == "false";
        assert s[..4] == "fals";
        assert s[5..] == rest;
      }
    case JNum(n) =>
      SerializeStart(v);
      assert s[0] == Serialize(v)[0];
      NotKeyword(s);
      ParseNumberOf(n, rest);
    case JStr(t) =>
      ParseQuotedOf(t, rest);
      NotKeyword(s);
  }

  /** Parsing undoes printing: after `Serialize(v)` the parser returns `v`
    * and leaves the text that follows untouched. */
  lemma {:induction false} ParseValueOf(v: Value, rest: string)
    requires Delimited(rest)
    ensures ParseValue(Serialize(v) + rest) == Some((v, rest))
    decreases v, 1
  {
    var s := Serialize(v) + rest;
    match v
    case JObj(ms) =>
      if ms == [] {
        assert s == "{}" + rest by { assert SerializeMembers(ms) == ""; }
        assert s[2..] == rest;
      } else {
        assert s == "{" + (SerializeMembers(ms) + "}" + rest);
        assert s[1..] == SerializeMembers(ms) + "}" + rest;
        ParseMembersOf(ms, rest);
        assert s[1] == SerializeMembers(ms)[0];
        ParseValueAtObject(s, ms, rest);
      }
    case JArr(xs) =>
      if xs == [] {
        assert s == "[]" + rest by { assert SerializeItems(xs) == ""; }
        assert s[2..] == rest;
      } else {
        assert s == "[" + (SerializeItems(xs) + "]" + rest);
        assert s[1..] == SerializeItems(xs) + "]" + rest;
        ParseItemsOf(xs, rest);
        ItemsStart(xs);
        assert s[1] == SerializeItems(xs)[0];
        ParseValueAtArray(s, xs, rest);
      }
    case _ =>
      ParseScalarOf(v, rest);
  }

  lemma ItemsStart(xs: seq<Value>)
    requires |xs| > 0
    ensures |SerializeItems(xs)| > 0 && SerializeItems(xs)[0] != ']'
  {
    SerializeStart(xs[0]);
    if |xs| > 1 {
      assert SerializeItems(xs) == Serialize(xs[0]) + "," + SerializeItems(xs[1..]);
    }
    assert SerializeItems(xs)[0] == Serialize(xs[0])[0];
  }

  lemma {:induction false} ParseItemsOf(xs: seq<Value>, rest: string)
    requires |xs| > 0
    ensures ParseItems(SerializeItems(xs) + "]" + rest) == Some((xs, rest))
    decreases xs, 0
  {
    var s := SerializeItems(xs) + "]" + rest;
    if |xs| == 1 {
      assert s == Serialize(xs[0]) + ("]" + rest);
      ParseValueOf(xs[0], "]" + rest);
      assert ("]" + rest)[1..] == rest;
      assert [xs[0]] == xs;
    } else {
      var tail := SerializeItems(xs[1..]) + "]" + rest;
      assert s == Serialize(xs[0]) + ("," + tail);
      ParseValueOf(xs[0], "," + tail);
      assert ("," + tail)[1..] == tail;
      ParseItemsOf(xs[1..], rest);
      assert [xs[0]] + xs[1..] == xs;
    }
  }

  lemma {:induction false} ParseMembersOf(ms: seq<Member>, rest: string)
    requires |ms| > 0
    ensures |SerializeMembers(ms)| > 0 && SerializeMembers(ms)[0] == '"'
    ensures ParseMembers(SerializeMembers(ms) + "}" + rest) == Some((ms, rest))
    decreases ms, 0
  {
    var m := ms[0];
    var after := if |ms| == 1 then "}" + rest else "," + (SerializeMembers(ms[1..]) + "}" + rest);
    var s := SerializeMembers(ms) + "}" + rest;
    if |ms| == 1 {
      assert SerializeMembers(ms) == SerializeMember(m);
    } else {
      assert SerializeMembers(ms) == SerializeMember(m) + "," + SerializeMembers(ms[1..]);
    }
    assert s == SerializeMember(m) + after;
    assert s == Quote(m.key) + (":" + (Serialize(m.value) + after));
    ParseQuotedOf(m.key, ":" + (Serialize(m.value) + after));
    assert s[1..] == (Quote(m.key) + (":" + (Serialize(m.value) + after)))[1..];
    assert (":" + (Serialize(m.value) + after))[1..] == Serialize(m.value) + after;
    ParseValueOf(m.value, after);
    if |ms| == 1 {
      assert after[1..] == rest;
      assert [Member(m.key, m.value)] == ms;
    } else {
      assert after[1..] == SerializeMembers(ms[1..]) + "}" + rest;
      ParseMembersOf(ms[1..], rest);
      assert [Member(m.key, m.value)] + ms[1..] == ms;
    }
  }

  /** `JSON.parse(JSON.stringify(v))` gives back `v`. */
  lemma ParseSerialize(v: Value)
    ensures Parse(Serialize(v)) == Some(v)
  {
    ParseValueOf(v, []);
    assert Serialize(v) + [] == Serialize(v);
  }

  /** Text that `JSON.parse` refuses exists: an unterminated object. */
  lemma ParseRefuses()
    ensures Parse("{") == None
    ensures Parse("") == None
  {
  }
}
