/**
 * Translation lookup: a dotted key such as "form.submit" is split on '.',
 * its segments are followed one by one from the locale's root with optional
 * member access, and the value reached is returned if it is truthy; otherwise
 * the key itself is returned.
 */
module Translation {
  import opened Wrappers
  import Numerals

  /** A parsed locale file. */
  datatype Json =
    | JNull
    | JBool(b: bool)
    | JNum(n: real)
    | JStr(s: string)
    | JArr(items: seq<Json>)
    | JObj(members: map<string, Json>)

  /**
   * `value?.[k]`, with `None` for `undefined`: undefined and null short-circuit
   * to undefined; objects are indexed by key; arrays and strings by a
   * canonical index numeral; other values have no such member.
   */
  function Member(value: Option<Json>, k: string): Option<Json> {
    match value
    case None => None
    case Some(j) =>
      match j
      case JObj(members) => if k in members then Some(members[k]) else None
      case JArr(items) =>
        (match Numerals.ParseNat(k)
         case Some(i) => if i < |items| then Some(items[i]) else None
         case None => None)
      case JStr(s) =>
        (match Numerals.ParseNat(k)
         case Some(i) => if i < |s| then Some(JStr([s[i]])) else None
         case None => None)
      case _ => None
  }

  /** JavaScript truthiness: undefined, null, false, 0 and "" are falsy. */
  predicate Truthy(value: Option<Json>) {
    match value
    case None => false
    case Some(j) =>
      match j
      case JNull => false
      case JBool(b) => b
      case JNum(n) => n != 0.0
      case JStr(s) => s != ""
      case _ => true
  }

  function IndexOf(s: string, c: char): (i: nat)
    requires c in s
    ensures i < |s| && s[i] == c && c !in s[..i]
  {
    if s[0] == c then 0 else 1 + IndexOf(s[1..], c)
  }

  /** `key.split('.')`: the pieces between dots, at least one, none containing a dot. */
  function Split(key: string): (parts: seq<string>)
    ensures |parts| > 0
    ensures forall i :: 0 <= i < |parts| ==> '.' !in parts[i]
    decreases |key|
  {
    if '.' !in key then [key]
    else
      var i := IndexOf(key, '.');
      [key[..i]] + Split(key[i + 1..])
  }

  /** Puts dots back between the pieces. */
  function Join(parts: seq<string>): string
    requires |parts| > 0
  {
    if |parts| == 1 then parts[0] else parts[0] + "." + Join(parts[1..])
  }

  lemma {:induction false} JoinSplit(key: string)
    ensures Join(Split(key)) == key
    decreases |key|
  {
    if '.' in key {
      var i := IndexOf(key, '.');
      JoinSplit(key[i + 1..]);
      assert key == key[..i] + "." + key[i + 1..];
    }
  }

  lemma {:induction false} SplitJoin(parts: seq<string>)
    requires |parts| > 0
    requires forall i :: 0 <= i < |parts| ==> '.' !in parts[i]
    ensures Split(Join(parts)) == parts
  {
    if |parts| > 1 {
      var key := Join(parts);
      var rest := Join(parts[1..]);
      assert key == parts[0] + "." + rest;
      assert key[|parts[0]|] == '.';
      assert key[..|parts[0]|] == parts[0];
      assert IndexOf(key, '.') == |parts[0]|;
      assert key[|parts[0]| + 1..] == rest;
      SplitJoin(parts[1..]);
    }
  }

  /** Follows `keys` from `value`, one member access per segment. */
  function Walk(value: Option<Json>, keys: seq<string>): Option<Json>
    decreases |keys|
  {
    if keys == [] then value else Walk(Member(value, keys[0]), keys[1..])
  }

  /** What `t(key)` returns for the locale `root`. */
  function TranslationOf(root: Json, key: string): Json {
    var found := Walk(Some(root), Split(key));
    if Truthy(found) then found.value else JStr(key)
  }

  /** The lookup loop of `t`. */
  method Translate(root: Json, key: string) returns (r: Json)
    ensures r == TranslationOf(root, key)
  {
    var keys := Split(key);
    var value := Some(root);
    var i := 0;
    while i < |keys|
      invariant 0 <= i <= |keys|
      invariant Walk(value, keys[i..]) == Walk(Some(root), keys)
    {
      assert keys[i..][1..] == keys[i + 1..];
      value := Member(value, keys[i]);
      i := i + 1;
    }
    if Truthy(value) {
      r := value.value;
    } else {
      r := JStr(key);
    }
  }

  /** Once undefined, every further step stays undefined. */
  lemma {:induction false} WalkFromUndefined(keys: seq<string>)
    ensures Walk(None, keys) == None
  {
    if keys != [] {
      WalkFromUndefined(keys[1..]);
    }
  }

  /** Walking a concatenation walks the first part and continues from there. */
  lemma {:induction false} WalkAppend(value: Option<Json>, a: seq<string>, b: seq<string>)
    ensures Walk(value, a + b) == Walk(Walk(value, a), b)
    decreases |a|
  {
    if a != [] {
      assert (a + b)[1..] == a[1..] + b;
      WalkAppend(Member(value, a[0]), a[1..], b);
    } else {
      assert a + b == b;
    }
  }

  /** A key made of dot-free segments follows exactly those segments, in order. */
  lemma FollowsSegments(root: Json, segments: seq<string>)
    requires |segments| > 0
    requires forall i :: 0 <= i < |segments| ==> '.' !in segments[i]
    ensures Truthy(Walk(Some(root), segments)) ==>
      TranslationOf(root, Join(segments)) == Walk(Some(root), segments).value
    ensures !Truthy(Walk(Some(root), segments)) ==>
      TranslationOf(root, Join(segments)) == JStr(Join(segments))
  {
    SplitJoin(segments);
  }

  /** If some segment is missing, the key itself comes back. */
  lemma MissingSegmentFallsBack(root: Json, key: string, n: nat)
    requires n <= |Split(key)|
    requires Walk(Some(root), Split(key)[..n]) == None
    ensures TranslationOf(root, key) == JStr(key)
  {
    var keys := Split(key);
    assert keys == keys[..n] + keys[n..];
    WalkAppend(Some(root), keys[..n], keys[n..]);
    WalkFromUndefined(keys[n..]);
  }

  /** A path that reaches an empty string, which is falsy, falls back to the key. */
  lemma EmptyStringFallsBack(root: Json, key: string)
    requires Walk(Some(root), Split(key)) == Some(JStr(""))
    ensures TranslationOf(root, key) == JStr(key)
  {
  }

  /** For instance, "form.submit" found as "" gives "form.submit" back. */
  lemma EmptyStringExample()
    ensures TranslationOf(JObj(map["form" := JObj(map["submit" := JStr("")])]), "form.submit") == JStr("form.submit")
  {
    SplitJoin(["form", "submit"]);
    assert Join(["form", "submit"]) == "form.submit";
  }

  /** A truthy value is returned as it is, even a sub-tree such as a table of options. */
  lemma SubtreeReturned(root: Json, key: string, members: map<string, Json>)
    requires Walk(Some(root), Split(key)) == Some(JObj(members))
    ensures TranslationOf(root, key) == JObj(members)
  {
  }

  /** A key without dots is a single member lookup on the root: its value if truthy, else the key. */
  lemma SingleSegment(root: Json, key: string)
    requires '.' !in key
    ensures TranslationOf(root, key) ==
      if Truthy(Member(Some(root), key)) then Member(Some(root), key).value else JStr(key)
  {
    assert Split(key) == [key];
    assert Walk(Some(root), [key]) == Walk(Member(Some(root), key), []);
  }
}
