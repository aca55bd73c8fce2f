/**
 * The event payload as a jsonb document and the two PostgreSQL operators the
 * queries use on it: `j -> 'key'` (member as jsonb) and `j ->> 'key'`
 * (member as text).
 */
module JsonPath {
  import opened Base

  /**
   * A jsonb value. A number carries its decimal text as PostgreSQL prints it;
   * an object carries its members in stored order.
   */
  datatype Json =
    | JNull
    | JBool(b: bool)
    | JNumber(text: string)
    | JString(s: string)
    | JArray(items: seq<Json>)
    | JObject(members: seq<(string, Json)>)

  /** Index of the last member named `key` at or before `n`, or -1. */
  function LastIndexOf(members: seq<(string, Json)>, key: string, n: nat): (i: int)
    requires n <= |members|
    ensures -1 <= i < n
    ensures i >= 0 ==> members[i].0 == key
    ensures forall j :: i < j < n ==> members[j].0 != key
  {
    if n == 0 then -1
    else if members[n - 1].0 == key then n - 1
    else LastIndexOf(members, key, n - 1)
  }

  /**
   * `j -> key`: the member named `key` of an object (jsonb keeps the last of
   * duplicate keys), NULL for a missing key and for any node that is not an
   * object.
   */
  function Get(j: Json, key: string): (r: Option<Json>)
    ensures r.Some? <==> j.JObject? && exists i :: 0 <= i < |j.members| && j.members[i].0 == key
    ensures r.Some? ==> (key, r.value) in j.members
    ensures r.Some? ==> exists i ::
      && 0 <= i < |j.members| && j.members[i] == (key, r.value)
      && forall k :: i < k < |j.members| ==> j.members[k].0 != key
  {
    match j
    case JObject(ms) =>
      var i := LastIndexOf(ms, key, |ms|);
      if i < 0 then None else Some(ms[i].1)
    case _ => None
  }

  /** The text jsonb prints for a value. */
  function Render(j: Json): string
    decreases j, 1
  {
    match j
    case JNull => "null"
    case JBool(b) => if b then "true" else "false"
    case JNumber(t) => t
    case JString(s) => "\"" + s + "\""
    case JArray(_) => "[" + RenderItems(j, 0) + "]"
    case JObject(_) => "{" + RenderMembers(j, 0) + "}"
  }

  function RenderItems(j: Json, i: nat): string
    requires j.JArray? && i <= |j.items|
    decreases j, 0, |j.items| - i
  {
    if i == |j.items| then ""
    else (if i == 0 then "" else ", ") + Render(j.items[i]) + RenderItems(j, i + 1)
  }

  function RenderMembers(j: Json, i: nat): string
    requires j.JObject? && i <= |j.members|
    decreases j, 0, |j.members| - i
  {
    if i == |j.members| then ""
    else
      (if i == 0 then "" else ", ") + "\"" + j.members[i].0 + "\": " + Render(j.members[i].1)
      + RenderMembers(j, i + 1)
  }

  /**
   * The text conversion `->>` applies to the member it selects: JSON null is
   * SQL NULL, a string gives its contents, anything else its printed form.
   */
  function AsText(j: Json): (r: Option<string>)
    ensures r.None? <==> j.JNull?
    ensures j.JString? ==> r == Some(j.s)
    ensures j.JNumber? ==> r == Some(j.text)
  {
    match j
    case JNull => None
    case JString(s) => Some(s)
    case _ => Some(Render(j))
  }

  /** `j -> path[0] -> ... -> path[n-1]`: the node reached, or NULL. */
  function Walk(j: Json, path: seq<string>): Option<Json> {
    if path == [] then Some(j)
    else match Get(j, path[0])
      case None => None
      case Some(child) => Walk(child, path[1..])
  }

  /**
   * `j -> path[0] -> ... ->> path[n-1]`: the text at the end of a non-empty
   * path. NULL when any step meets a missing key or a node that is not an
   * object, or when the value found is JSON null.
   */
  function TextAt(j: Json, path: seq<string>): (r: Option<string>)
    requires path != []
    ensures r.Some? <==> Walk(j, path).Some? && !Walk(j, path).value.JNull?
  {
    match Walk(j, path)
    case None => None
    case Some(v) => AsText(v)
  }

  /** A path step through anything but an object gives NULL, whatever follows. */
  lemma {:induction false} WalkThroughNonObject(j: Json, path: seq<string>)
    requires path != [] && !j.JObject?
    ensures Walk(j, path).None?
    ensures TextAt(j, path).None?
  {
  }

  /**
   * Following a path one key at a time is the same as following it at once:
   * `(j -> p) -> q` is `j -> p -> q`.
   */
  lemma {:induction false} WalkConcat(j: Json, p: seq<string>, q: seq<string>)
    ensures Walk(j, p + q) == match Walk(j, p) case None => None case Some(v) => Walk(v, q)
  {
    if p != [] {
      assert (p + q)[0] == p[0] && (p + q)[1..] == p[1..] + q;
      match Get(j, p[0])
      case None =>
      case Some(child) => WalkConcat(child, p[1..], q);
    } else {
      assert p + q == q;
    }
  }

  /** A two-step path is two member lookups. */
  lemma WalkTwo(j: Json, a: string, b: string)
    ensures Walk(j, [a, b]) == match Get(j, a) case None => None case Some(c) => Get(c, b)
  {
    assert [a, b][1..] == [b] && [b][1..] == [];
    match Get(j, a)
    case None =>
    case Some(c) =>
      match Get(c, b)
      case None =>
      case Some(v) => assert Walk(v, []) == Some(v);
  }

  /** A member appended with a key hides every earlier member with that key. */
  lemma DuplicateKeyLastWins(ms: seq<(string, Json)>, key: string, v: Json)
    ensures Get(JObject(ms + [(key, v)]), key) == Some(v)
  {
  }
}
