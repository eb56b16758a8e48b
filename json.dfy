/**
 * The Python values that `json.loads` produces and that rows from the data
 * source carry, with the three Python operations the core applies to them:
 * truthiness, `dict.get`, and `str()` as an f-string renders it.
 */
module JsonValues {
  import opened Outcomes
  import Text

  /**
   * A decoded JSON value. A float carries its value and the text Python's
   * `repr` gives for it, which the decoder supplies. An object keeps its
   * members in insertion order.
   */
  datatype Json =
    | JNull
    | JBool(b: bool)
    | JInt(i: int)
    | JFloat(x: real, repr: string)
    | JStr(s: string)
    | JArr(items: seq<Json>)
    | JObj(fields: seq<(string, Json)>)

  /** Python's `bool(v)`. */
  predicate Truthy(v: Json) {
    match v
    case JNull => false
    case JBool(b) => b
    case JInt(i) => i != 0
    case JFloat(x, _) => x != 0.0
    case JStr(s) => s != []
    case JArr(items) => items != []
    case JObj(fields) => fields != []
  }

  /** The name of the value's Python type, as it appears in exception messages. */
  function TypeName(v: Json): string {
    match v
    case JNull => "NoneType"
    case JBool(_) => "bool"
    case JInt(_) => "int"
    case JFloat(_, _) => "float"
    case JStr(_) => "str"
    case JArr(_) => "list"
    case JObj(_) => "dict"
  }

  /**
   * `d.get(key)` on a decoded object. `json.loads` keeps the last of several
   * members with the same name, so the lookup runs from the end.
   */
  function Lookup(fields: seq<(string, Json)>, key: string): (r: Option<Json>)
    ensures r.Some? <==> exists k :: 0 <= k < |fields| && fields[k].0 == key
    ensures r.Some? ==> exists k :: 0 <= k < |fields| && LastWith(fields, key, k) && fields[k].1 == r.value
  {
    if fields == [] then None
    else if fields[|fields| - 1].0 == key then Some(fields[|fields| - 1].1)
    else
      var r := Lookup(fields[..|fields| - 1], key);
      assert forall k :: 0 <= k < |fields| - 1 ==> fields[..|fields| - 1][k] == fields[k];
      LastWithSnoc(fields, fields[..|fields| - 1], key, r);
      r
  }

  /** Member `k` has the key and no later member has it. */
  predicate LastWith(fields: seq<(string, Json)>, key: string, k: nat)
    requires k < |fields|
  {
    fields[k].0 == key && forall j :: k < j < |fields| ==> fields[j].0 != key
  }

  /** The last member with the key in all but the last member is still the last one when the last member has another key. */
  lemma LastWithSnoc(fields: seq<(string, Json)>, init: seq<(string, Json)>, key: string, r: Option<Json>)
    requires fields != [] && init == fields[..|fields| - 1] && fields[|fields| - 1].0 != key
    requires r.Some? ==> exists k :: 0 <= k < |init| && LastWith(init, key, k) && init[k].1 == r.value
    ensures r.Some? ==> exists k :: 0 <= k < |fields| && LastWith(fields, key, k) && fields[k].1 == r.value
  {
    if r.None? { return; }
    var v := r.value;
    var k :| 0 <= k < |init| && LastWith(init, key, k) && init[k].1 == v;
    assert fields[k] == init[k];
    assert forall j :: k < j < |init| ==> fields[j] == init[j];
    assert LastWith(fields, key, k);
  }

  /** `d.get(key, default)`. */
  function GetOr(fields: seq<(string, Json)>, key: string, default: Json): Json {
    Lookup(fields, key).GetOr(default)
  }

  /** Python's `repr` of a string: quoted, with backslash, quote and control escapes. */
  function StrRepr(s: string): string {
    var q := if '\'' in s && '"' !in s then '"' else '\'';
    [q] + EscapeFor(s, q) + [q]
  }

  function EscapeFor(s: string, q: char): string {
    if s == [] then []
    else
      var c := s[0];
      var e :=
        if c == '\\' then "\\\\"
        else if c == q then ['\\', q]
        else if c == '\n' then "\\n"
        else if c == '\r' then "\\r"
        else if c == '\t' then "\\t"
        else [c];
      e + EscapeFor(s[1..], q)
  }

  /** Python's `repr(v)`. */
  function Repr(v: Json): string
    decreases v, 1
  {
    match v
    case JNull => "None"
    case JBool(b) => if b then "True" else "False"
    case JInt(i) => Text.IntToString(i)
    case JFloat(_, r) => r
    case JStr(s) => StrRepr(s)
    case JArr(items) => "[" + ReprItems(v, 0) + "]"
    case JObj(fields) => "{" + ReprFields(v, 0) + "}"
  }

  /** The items of the list `v` from index `k` on, rendered and separated by ", ". */
  function ReprItems(v: Json, k: nat): string
    requires v.JArr?
    decreases v, 0, |v.items| - k
  {
    if k >= |v.items| then ""
    else
      var item := v.items[k];
      assert item < v;
      (if k == 0 then "" else ", ") + Repr(item) + ReprItems(v, k + 1)
  }

  /**
   * The members of the object `v` from index `k` on. The dict that `json.loads`
   * builds holds each name once, at the place it first occurs, with the value
   * of its last occurrence; so a repeated name is skipped and the first one
   * shows the last value (see `ReprMemberIsLookup`).
   */
  function ReprFields(v: Json, k: nat): string
    requires v.JObj?
    decreases v, 0, |v.fields| - k
  {
    if k >= |v.fields| then ""
    else if !FirstWith(v.fields, k) then ReprFields(v, k + 1)
    else
      (if k == 0 then "" else ", ") + MemberText(v, k) + ReprFields(v, k + 1)
  }

  /** "'key': value" for the member at `k`, with the value of the last member of that name. */
  function MemberText(v: Json, k: nat): string
    requires v.JObj? && k < |v.fields|
    decreases v, 0, 0
  {
    var j := LastIndex(v.fields, v.fields[k].0, |v.fields|);
    var value := v.fields[j].1;
    assert value < v;
    StrRepr(v.fields[k].0) + ": " + Repr(value)
  }

  /** No member before `k` has the name of member `k`. */
  predicate FirstWith(fields: seq<(string, Json)>, k: nat)
    requires k < |fields|
  {
    forall j :: 0 <= j < k ==> fields[j].0 != fields[k].0
  }

  /**
   * The names of the dict `json.loads` builds from `fields`, from member `k` on:
   * each name at the place it first occurs. Iterating over a dict gives these.
   */
  function KeysFrom(fields: seq<(string, Json)>, k: nat): (r: seq<string>)
    ensures forall i :: 0 <= i < |r| ==> exists m :: k <= m < |fields| && FirstWith(fields, m) && fields[m].0 == r[i]
    ensures forall m :: k <= m < |fields| && FirstWith(fields, m) ==> fields[m].0 in r
    ensures forall i, j :: 0 <= i < j < |r| ==> r[i] != r[j]
    decreases |fields| - k
  {
    if k >= |fields| then []
    else
      var rest := KeysFrom(fields, k + 1);
      if FirstWith(fields, k) then
        assert forall i :: 0 <= i < |rest| ==> rest[i] != fields[k].0 by {
          forall i | 0 <= i < |rest| ensures rest[i] != fields[k].0 {
            assert exists m :: k + 1 <= m < |fields| && FirstWith(fields, m) && fields[m].0 == rest[i];
            var m :| k + 1 <= m < |fields| && FirstWith(fields, m) && fields[m].0 == rest[i];
            assert fields[k].0 != fields[m].0;
          }
        }
        [fields[k].0] + rest
      else rest
  }

  /** The keys of the dict built from `fields`, in the order the dict holds them. */
  function Keys(fields: seq<(string, Json)>): seq<string> {
    KeysFrom(fields, 0)
  }

  /** Every member's name is a key of the dict. */
  lemma {:induction false} NameIsKey(fields: seq<(string, Json)>, m: nat)
    requires m < |fields|
    ensures fields[m].0 in Keys(fields)
    decreases m
  {
    if !FirstWith(fields, m) {
      var j :| 0 <= j < m && fields[j].0 == fields[m].0;
      NameIsKey(fields, j);
    }
  }

  /** The keys are exactly the members' names, each once. */
  lemma KeysAreNames(fields: seq<(string, Json)>)
    ensures forall m :: 0 <= m < |fields| ==> fields[m].0 in Keys(fields)
    ensures forall key :: key in Keys(fields) ==> exists m :: 0 <= m < |fields| && fields[m].0 == key
    ensures forall i, j :: 0 <= i < j < |Keys(fields)| ==> Keys(fields)[i] != Keys(fields)[j]
    ensures |Keys(fields)| <= |fields|
    ensures fields != [] ==> Keys(fields) != []
  {
    forall m | 0 <= m < |fields| ensures fields[m].0 in Keys(fields) {
      NameIsKey(fields, m);
    }
    KeysBound(fields, 0);
  }

  lemma {:induction false} KeysBound(fields: seq<(string, Json)>, k: nat)
    requires k <= |fields|
    ensures |KeysFrom(fields, k)| <= |fields| - k
    decreases |fields| - k
  {
    if k < |fields| {
      KeysBound(fields, k + 1);
    }
  }

  /** The index of the last member among the first `n` with the name `key`, or -1 when there is none. */
  function LastIndex(fields: seq<(string, Json)>, key: string, n: nat): (j: int)
    requires n <= |fields|
    ensures -1 <= j < n
    ensures j >= 0 ==> fields[j].0 == key && forall i :: j < i < n ==> fields[i].0 != key
    ensures j < 0 ==> forall i :: 0 <= i < n ==> fields[i].0 != key
  {
    if n == 0 then -1
    else if fields[n - 1].0 == key then n - 1
    else LastIndex(fields, key, n - 1)
  }

  /** The value `LastIndex` picks is the one `get` returns. */
  lemma {:induction false} LastIndexIsLookup(fields: seq<(string, Json)>, key: string)
    ensures var j := LastIndex(fields, key, |fields|);
      j >= 0 <==> Lookup(fields, key).Some?
    ensures var j := LastIndex(fields, key, |fields|);
      j >= 0 ==> Lookup(fields, key) == Some(fields[j].1)
    decreases |fields|
  {
    if fields != [] && fields[|fields| - 1].0 != key {
      var init := fields[..|fields| - 1];
      LastIndexIsLookup(init, key);
      LastIndexPrefix(fields, init, key, |init|);
    }
  }

  /** `LastIndex` over the first `n` members only looks at those members. */
  lemma {:induction false} LastIndexPrefix(fields: seq<(string, Json)>, init: seq<(string, Json)>, key: string, n: nat)
    requires n <= |init| <= |fields| && init == fields[..|init|]
    ensures LastIndex(fields, key, n) == LastIndex(init, key, n)
  {
    if n > 0 {
      assert fields[n - 1] == init[n - 1];
      LastIndexPrefix(fields, init, key, n - 1);
    }
  }

  /** The value shown for a name is the value `d.get(name)` finds. */
  lemma ReprMemberIsLookup(fields: seq<(string, Json)>, k: nat)
    requires k < |fields|
    ensures Lookup(fields, fields[k].0).Some?
    ensures MemberText(JObj(fields), k) == StrRepr(fields[k].0) + ": " + Repr(Lookup(fields, fields[k].0).value)
  {
    LastIndexIsLookup(fields, fields[k].0);
  }

  /** With no repeated names every member is shown, with its own value. */
  lemma DistinctNamesShown(fields: seq<(string, Json)>, k: nat)
    requires forall i, j :: 0 <= i < j < |fields| ==> fields[i].0 != fields[j].0
    requires k < |fields|
    ensures FirstWith(fields, k)
    ensures MemberText(JObj(fields), k) == StrRepr(fields[k].0) + ": " + Repr(fields[k].1)
  {
    var j := LastIndex(fields, fields[k].0, |fields|);
    assert j == k;
  }

  /** A repeated name shows once, with its last value: `repr(json.loads('{"a": 1, "a": 2}'))` is "{'a': 2}". */
  lemma RepeatedNameShownOnce()
    ensures Repr(JObj([("a", JInt(1)), ("a", JInt(2))])) == "{'a': 2}"
  {
    var v := JObj([("a", JInt(1)), ("a", JInt(2))]);
    assert v.fields[0].0 == v.fields[1].0;
    assert !FirstWith(v.fields, 1);
    assert ReprFields(v, 1) == "";
    assert MemberText(v, 0) == StrRepr("a") + ": " + Repr(JInt(2));
    assert "a"[1..] == [];
    assert EscapeFor("a", '\'') == "a";
    assert StrRepr("a") == "'a'";
  }

  /** Python's `str(v)`, which is what `f"{v}"` inserts: a string as it is, anything else as its repr. */
  function Display(v: Json): string {
    if v.JStr? then v.s else Repr(v)
  }
}
