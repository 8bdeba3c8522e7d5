/** The Gson tree (JsonObject, JsonArray, JsonPrimitive, JsonNull) and the
    accessors the expanders call on it, each with the exception it raises
    when the receiver is null or of the wrong kind. */
module Gson {
  import opened Jdk

  /** A decoded JSON value. Numbers are integral (the link arrays carry
      integer namespaces); an object keeps its members in document order. */
  datatype Json =
    | JNull
    | JBool(b: bool)
    | JNum(n: int)
    | JStr(s: string)
    | JArr(elems: seq<Json>)
    | JObj(members: seq<(string, Json)>)

  /** The members of a JsonObject. */
  type Members = seq<(string, Json)>

  /** What `Gson.fromJson(text, JsonObject.class)` sees in a downloaded text:
      nothing at all, text that is not JSON, or a JSON value. */
  datatype Decoded = Blank | Malformed | Parsed(root: Json)

  /** A downloaded page, or the exception the download raised. */
  type Download = Outcome<Decoded>

  /** `gson.fromJson(text, JsonObject.class)`: null for blank text, the
      object for an object, `JsonSyntaxException` for anything else. */
  function FromJson(d: Decoded): (r: Outcome<Option<Members>>)
    ensures r == Ok(None) <==> d == Blank
    ensures r.Ok? && r.value.Some? <==> d.Parsed? && d.root.JObj?
    ensures r.Throw? ==> r.exc.kind == JsonSyntaxException
  {
    match d
    case Blank => Ok(None)
    case Malformed => Throw(Fail(JsonSyntaxException))
    case Parsed(JObj(ms)) => Ok(Some(ms))
    case Parsed(_) => Throw(Fail(JsonSyntaxException))
  }

  /** `obj.get(name)` on the members as the text lists them, or null. Gson
      builds an object by `put`, so a repeated name keeps the value of its
      LAST occurrence. */
  function Lookup(ms: Members, name: string): (r: Option<Json>)
    ensures r.Some? <==> exists i :: 0 <= i < |ms| && ms[i].0 == name
    decreases |ms|
  {
    if |ms| == 0 then None
    else if ms[|ms| - 1].0 == name then Some(ms[|ms| - 1].1)
    else
      var r := Lookup(ms[..|ms| - 1], name);
      assert forall i :: 0 <= i < |ms| - 1 ==> ms[i] == ms[..|ms| - 1][i];
      r
  }

  /** The member `get` finds is the last one with the name. */
  lemma {:induction false} LookupIsLast(ms: Members, name: string)
    requires Lookup(ms, name).Some?
    ensures exists i :: 0 <= i < |ms| && ms[i] == (name, Lookup(ms, name).value) &&
                        forall j :: i < j < |ms| ==> ms[j].0 != name
    decreases |ms|
  {
    var n := |ms| - 1;
    if ms[n].0 == name {
      assert ms[n] == (name, Lookup(ms, name).value);
    } else {
      var init := ms[..n];
      LookupIsLast(init, name);
      var i :| 0 <= i < |init| && init[i] == (name, Lookup(init, name).value) &&
               forall j :: i < j < |init| ==> init[j].0 != name;
      assert ms[i] == init[i];
      assert forall j :: i < j < n ==> ms[j] == init[j];
    }
  }

  /** A repeated name: `get` sees its later value, and the entry set keeps
      the name where it first appeared, with that later value. */
  lemma RepeatedNameKeepsLast(first: Json, other: Json, last: Json)
    ensures Lookup([("ns", first), ("title", other), ("ns", last)], "ns") == Some(last)
    ensures FirstValue(Some([("ns", first), ("title", other), ("ns", last)])) == Ok(Some(last))
  {
  }

  /** `obj.get(name)` on a JsonObject reference. */
  function Get(obj: Option<Members>, name: string): Outcome<Option<Json>>
  {
    match obj
    case None => Throw(Fail(NullPointerException))
    case Some(ms) => Ok(Lookup(ms, name))
  }

  /** `obj.getAsJsonObject(name)`: a cast of the member, so null when it is
      absent and `ClassCastException` when it is not an object. */
  function GetAsJsonObject(obj: Option<Members>, name: string): Outcome<Option<Members>>
  {
    match obj
    case None => Throw(Fail(NullPointerException))
    case Some(ms) =>
      match Lookup(ms, name)
      case None => Ok(None)
      case Some(JObj(m)) => Ok(Some(m))
      case Some(_) => Throw(Fail(ClassCastException))
  }

  /** `obj.getAsJsonArray(name)`: as above, for an array. */
  function GetAsJsonArray(obj: Option<Members>, name: string): Outcome<Option<seq<Json>>>
  {
    match obj
    case None => Throw(Fail(NullPointerException))
    case Some(ms) =>
      match Lookup(ms, name)
      case None => Ok(None)
      case Some(JArr(a)) => Ok(Some(a))
      case Some(_) => Throw(Fail(ClassCastException))
  }

  /** `element.getAsJsonObject()`: `IllegalStateException` unless an object. */
  function AsJsonObject(element: Option<Json>): Outcome<Members>
  {
    match element
    case None => Throw(Fail(NullPointerException))
    case Some(JObj(ms)) => Ok(ms)
    case Some(_) => Throw(Fail(IllegalStateException))
  }

  /** `element.getAsJsonArray()`: `IllegalStateException` unless an array. */
  function AsJsonArray(element: Option<Json>): Outcome<seq<Json>>
  {
    match element
    case None => Throw(Fail(NullPointerException))
    case Some(JArr(a)) => Ok(a)
    case Some(_) => Throw(Fail(IllegalStateException))
  }

  /** Iterating over a JsonArray reference (`for (x : array)` or
      `array.iterator()`): null throws. */
  function Elements(arr: Option<seq<Json>>): Outcome<seq<Json>>
  {
    match arr
    case None => Throw(Fail(NullPointerException))
    case Some(a) => Ok(a)
  }

  /** `obj.entrySet().iterator().next().getValue()`: the entries keep the
      order in which their names first appear, so this is the value of the
      first name, which is its last occurrence's; `NoSuchElementException`
      for an empty object. */
  function FirstValue(obj: Option<Members>): Outcome<Option<Json>>
  {
    match obj
    case None => Throw(Fail(NullPointerException))
    case Some(ms) =>
      if |ms| == 0 then Throw(Fail(NoSuchElementException)) else Ok(Lookup(ms, ms[0].0))
  }

  /** `getAsInt()` on a non-null element. A number gives its low 32 bits, a
      string or boolean goes through `Integer.parseInt`, a one-element array
      defers to its element. */
  function IntOf(j: Json): (r: Outcome<int>)
    ensures r.Ok? ==> MinInt <= r.value <= MaxInt
    ensures r.Throw? ==> r.exc.kind in {NumberFormatException, IllegalStateException, UnsupportedOperationException}
  {
    match j
    case JNum(n) => Ok(IntValue(n))
    case JStr(s) => ParseInt(s)
    case JBool(b) => ParseInt(if b then "true" else "false")
    case JArr(a) => if |a| == 1 then IntOf(a[0]) else Throw(Fail(IllegalStateException))
    case JNull => Throw(Fail(UnsupportedOperationException))
    case JObj(_) => Throw(Fail(UnsupportedOperationException))
  }

  /** `getAsString()` on a non-null element. */
  function StringOf(j: Json): (r: Outcome<string>)
    ensures r.Throw? ==> r.exc.kind in {IllegalStateException, UnsupportedOperationException}
  {
    match j
    case JStr(s) => Ok(s)
    case JNum(n) => Ok(IntToDecimal(n))
    case JBool(b) => Ok(if b then "true" else "false")
    case JArr(a) => if |a| == 1 then StringOf(a[0]) else Throw(Fail(IllegalStateException))
    case JNull => Throw(Fail(UnsupportedOperationException))
    case JObj(_) => Throw(Fail(UnsupportedOperationException))
  }

  function AsInt(element: Option<Json>): Outcome<int>
  {
    match element
    case None => Throw(Fail(NullPointerException))
    case Some(j) => IntOf(j)
  }

  function AsString(element: Option<Json>): Outcome<string>
  {
    match element
    case None => Throw(Fail(NullPointerException))
    case Some(j) => StringOf(j)
  }
}
