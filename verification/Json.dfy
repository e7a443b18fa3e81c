/** JSON values and the strings inside them. An object keeps its members in enumeration order. */
module Json {
  import opened Collections
  import opened Text
  import opened Numbers

  datatype Json =
    | Null
    | Bool(b: bool)
    | Num(number: Number)
    | Str(text: Text)
    | Array(items: seq<Json>)
    | Object(members: seq<Member>)

  datatype Member = Member(key: Text, value: Json)

  predicate DistinctKeys(ms: seq<Member>) {
    forall i, j :: 0 <= i < j < |ms| ==> ms[i].key != ms[j].key
  }

  /** What `JSON.parse` can return: distinct member names, finite numbers. */
  predicate WellFormed(v: Json) {
    match v
    case Num(x) => Shortest(x)
    case Array(items) => forall i :: 0 <= i < |items| ==> WellFormed(items[i])
    case Object(ms) => DistinctKeys(ms) && forall i :: 0 <= i < |ms| ==> WellFormed(ms[i].value)
    case _ => true
  }

  /** The member named `key`, as `object[key]`. */
  function Lookup(ms: seq<Member>, key: Text): (r: Option<Json>)
    ensures r.Some? ==> exists i :: 0 <= i < |ms| && ms[i] == Member(key, r.value)
    ensures r.None? ==> forall i :: 0 <= i < |ms| ==> ms[i].key != key
  {
    if ms == [] then None
    else if ms[0].key == key then Some(ms[0].value)
    else
      var r := Lookup(ms[1..], key);
      assert r.Some? ==> exists i :: 0 <= i < |ms[1..]| && ms[1..][i] == Member(key, r.value);
      assert forall i :: 0 <= i < |ms[1..]| ==> ms[1..][i] == ms[i + 1];
      r
  }

  lemma LookupMember(ms: seq<Member>, i: nat)
    requires DistinctKeys(ms) && i < |ms|
    ensures Lookup(ms, ms[i].key) == Some(ms[i].value)
  {
    var r := Lookup(ms, ms[i].key);
    assert ms[i].key == ms[i].key;
    if r.Some? {
      var j :| 0 <= j < |ms| && ms[j] == Member(ms[i].key, r.value);
      assert !(i < j) && !(j < i);
    }
  }
}
