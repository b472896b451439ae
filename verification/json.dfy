/**
  JSON values as the registry file holds them, and the two ways the tools
  read them: Python's dictionary access (`get` with a default, truthiness,
  `str()`), and serde's typed deserialisation, where a value either has the
  expected shape or the read fails.
 */
module Json {
  import opened Wrappers

  /** A JSON value. Numbers are integers: the registry holds no fractions. */
  datatype Json =
    | JNull
    | JBool(b: bool)
    | JNumber(n: int)
    | JString(s: string)
    | JArray(items: seq<Json>)
    | JObject(fields: map<string, Json>)

  /** Python `obj.get(key, default)`. The default replaces only a missing
      member; an explicit null is returned as null. */
  function Get<K>(o: map<K, Json>, key: K, default: Json): Json {
    if key in o then o[key] else default
  }

  /** Python truthiness of a decoded value. */
  predicate Truthy(j: Json) {
    match j
    case JNull => false
    case JBool(b) => b
    case JNumber(n) => n != 0
    case JString(s) => s != ""
    case JArray(a) => a != []
    case JObject(m) => m != map[]
  }

  /** Python `str()` of a scalar: `None`, `True`/`False`, or the text itself.
      Numbers, lists and objects are not rendered. */
  function PyStr(j: Json): (r: Option<string>)
    ensures r.Some? <==> j.JNull? || j.JBool? || j.JString?
    ensures j.JString? ==> r == Some(j.s)
  {
    match j
    case JNull => Some("None")
    case JBool(b) => Some(if b then "True" else "False")
    case JString(s) => Some(s)
    case _ => None
  }

  /** A string Python's `json.dumps` writes between quotes as it is:
      printable ASCII without a quote or a backslash. Every other character
      would be escaped. */
  predicate Plain(s: string) {
    forall i | 0 <= i < |s| :: ' ' <= s[i] <= '~' && s[i] != '"' && s[i] != '\\'
  }

  predicate AllPlain(xs: seq<string>) {
    forall i | 0 <= i < |xs| :: Plain(xs[i])
  }

  function Quoted(s: string): string {
    "\"" + s + "\""
  }

  /** The items of a list of strings, separated as `json.dumps` separates them. */
  function ItemsText(xs: seq<string>): string
    decreases |xs|
  {
    if xs == [] then ""
    else if |xs| == 1 then Quoted(xs[0])
    else Quoted(xs[0]) + ", " + ItemsText(xs[1..])
  }

  function ListText(xs: seq<string>): string {
    "[" + ItemsText(xs) + "]"
  }

  /** Python `json.dumps`, where the model renders it: null, booleans, plain
      strings and lists of plain strings. */
  function JsonDumps(j: Json): (r: Option<string>)
    ensures j.JString? ==> (r.Some? <==> Plain(j.s))
    ensures j.JArray? && AsStrings(j.items).Some? && AllPlain(AsStrings(j.items).value) ==>
              r == Some(ListText(AsStrings(j.items).value))
  {
    match j
    case JNull => Some("null")
    case JBool(b) => Some(if b then "true" else "false")
    case JString(s) => if Plain(s) then Some(Quoted(s)) else None
    case JArray(a) =>
      (match AsStrings(a)
       case Some(xs) => if AllPlain(xs) then Some(ListText(xs)) else None
       case None => None)
    case _ => None
  }

  /** The text of a list of plain strings determines the list. */
  lemma ListTextInjective(xs: seq<string>, ys: seq<string>)
    requires AllPlain(xs) && AllPlain(ys) && ListText(xs) == ListText(ys)
    ensures xs == ys
  {
    var t := ListText(xs);
    assert ItemsText(xs) == t[1..|t| - 1] == ItemsText(ys);
    ItemsTextInjective(xs, ys);
  }

  lemma {:induction false} ItemsTextInjective(xs: seq<string>, ys: seq<string>)
    requires AllPlain(xs) && AllPlain(ys) && ItemsText(xs) == ItemsText(ys)
    ensures xs == ys
    decreases |xs|
  {
    if xs != [] && ys != [] {
      var rx := if |xs| == 1 then "" else ", " + ItemsText(xs[1..]);
      var ry := if |ys| == 1 then "" else ", " + ItemsText(ys[1..]);
      assert ItemsText(xs) == Quoted(xs[0]) + rx;
      assert ItemsText(ys) == Quoted(ys[0]) + ry;
      QuotedPrefix(xs[0], ys[0], rx, ry);
      if |xs| > 1 && |ys| > 1 {
        assert ItemsText(xs[1..]) == rx[2..] == ry[2..] == ItemsText(ys[1..]);
        assert AllPlain(xs[1..]) by { forall i | 0 <= i < |xs| - 1 ensures Plain(xs[1..][i]) { assert xs[1..][i] == xs[i + 1]; } }
        assert AllPlain(ys[1..]) by { forall i | 0 <= i < |ys| - 1 ensures Plain(ys[1..][i]) { assert ys[1..][i] == ys[i + 1]; } }
        ItemsTextInjective(xs[1..], ys[1..]);
        assert xs == [xs[0]] + xs[1..] && ys == [ys[0]] + ys[1..];
      } else {
        assert |rx| == 0 <==> |xs| == 1;
        assert |ry| == 0 <==> |ys| == 1;
      }
    }
  }

  /** Two quoted plain strings at the front of equal texts are the same
      string followed by the same rest. */
  lemma QuotedPrefix(a: string, b: string, r: string, t: string)
    requires Plain(a) && Plain(b) && Quoted(a) + r == Quoted(b) + t
    ensures a == b && r == t
  {
    var l := Quoted(a) + r;
    QuotedAt(a, r);
    QuotedAt(b, t);
    if |a| < |b| {
      assert false;
    }
    if |b| < |a| {
      assert false;
    }
    assert a == l[1..|a| + 1] == b;
    assert r == l[|a| + 2..] == t;
  }

  /** Where the characters of a quoted string sit in a text it begins. */
  lemma QuotedAt(a: string, r: string)
    ensures |Quoted(a) + r| == |a| + 2 + |r|
    ensures forall i | 1 <= i <= |a| :: (Quoted(a) + r)[i] == a[i - 1]
    ensures (Quoted(a) + r)[|a| + 1] == '"'
  {
  }

  // ------------------------------------------------------ typed reading

  /** A list of strings written as a JSON array. */
  function Strings(xs: seq<string>): seq<Json> {
    seq(|xs|, i requires 0 <= i < |xs| => JString(xs[i]))
  }

  /** serde's reading of an array as `Vec<String>`: it succeeds exactly when
      every element is a string, and then gives back the array's texts. */
  function AsStrings(js: seq<Json>): (r: Option<seq<string>>)
    ensures r.Some? <==> forall i | 0 <= i < |js| :: js[i].JString?
    ensures r.Some? ==> Strings(r.value) == js
    decreases |js|
  {
    if js == [] then Some([])
    else if !js[0].JString? then None
    else match AsStrings(js[1..])
      case None => None
      case Some(rest) =>
        assert js == [js[0]] + js[1..];
        assert Strings([js[0].s] + rest) == [js[0]] + Strings(rest);
        Some([js[0].s] + rest)
  }

  /** Writing a list of strings and reading it back gives the list. */
  lemma {:induction false} AsStringsOfStrings(xs: seq<string>)
    ensures AsStrings(Strings(xs)) == Some(xs)
    decreases |xs|
  {
    if xs != [] {
      assert Strings(xs)[1..] == Strings(xs[1..]);
      AsStringsOfStrings(xs[1..]);
      assert xs == [xs[0]] + xs[1..];
    }
  }

  /** A string-to-string map written as a JSON object. */
  function StringMap(m: map<string, string>): map<string, Json> {
    map k | k in m :: JString(m[k])
  }

  /** serde's reading of an object as `HashMap<String, String>`: it succeeds
      exactly when every member is a string. */
  function AsStringMap(m: map<string, Json>): (r: Option<map<string, string>>)
    ensures r.Some? <==> forall k | k in m :: m[k].JString?
    ensures r.Some? ==> StringMap(r.value) == m
  {
    if forall k | k in m :: m[k].JString? then Some(map k | k in m :: m[k].s) else None
  }

  /** Writing a string map and reading it back gives the map. */
  lemma AsStringMapOfStringMap(m: map<string, string>)
    ensures AsStringMap(StringMap(m)) == Some(m)
  {
    var back := map k | k in StringMap(m) :: StringMap(m)[k].s;
    assert back == m;
  }

  function AsStringList(j: Json): Option<seq<string>> {
    if j.JArray? then AsStrings(j.items) else None
  }

  function AsStringTable(j: Json): Option<map<string, string>> {
    if j.JObject? then AsStringMap(j.fields) else None
  }

  /** A mandatory `String` field: serde has no default for it, so it must be
      present and a string. */
  function RequiredString<K>(o: map<K, Json>, key: K): Option<string> {
    if key in o && o[key].JString? then Some(o[key].s) else None
  }

  /** Is `key` missing or null? serde reads both as None for an `Option<T>`
      field; any other value must have the field's type. */
  predicate Unset<K>(o: map<K, Json>, key: K) {
    key !in o || o[key].JNull?
  }

  /** An `Option<String>` field. */
  function OptionalString<K>(o: map<K, Json>, key: K): Option<Option<string>> {
    if Unset(o, key) then Some(None)
    else if o[key].JString? then Some(Some(o[key].s))
    else None
  }

  /** An `Option<bool>` field. */
  function OptionalBool<K>(o: map<K, Json>, key: K): Option<Option<bool>> {
    if Unset(o, key) then Some(None)
    else if o[key].JBool? then Some(Some(o[key].b))
    else None
  }

  /** An `Option<Vec<String>>` field. */
  function OptionalStrings<K>(o: map<K, Json>, key: K): Option<Option<seq<string>>> {
    if Unset(o, key) then Some(None)
    else match AsStringList(o[key])
      case Some(v) => Some(Some(v))
      case None => None
  }

  /** An `Option<HashMap<String, String>>` field. */
  function OptionalTable<K>(o: map<K, Json>, key: K): Option<Option<map<string, string>>> {
    if Unset(o, key) then Some(None)
    else match AsStringTable(o[key])
      case Some(v) => Some(Some(v))
      case None => None
  }

  /** The values serde writes for `Option<T>` fields: null for None. */
  function NullableString(v: Option<string>): Json {
    if v.Some? then JString(v.value) else JNull
  }

  function NullableBool(v: Option<bool>): Json {
    if v.Some? then JBool(v.value) else JNull
  }

  function NullableStrings(v: Option<seq<string>>): Json {
    if v.Some? then JArray(Strings(v.value)) else JNull
  }

  function NullableTable(v: Option<map<string, string>>): Json {
    if v.Some? then JObject(StringMap(v.value)) else JNull
  }
}
