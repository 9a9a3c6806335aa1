/**
 * An already-decoded JSON document (what `json.load` returns) and the two Python
 * operations the extractors apply to it: subscripting with a string key and
 * iterating in a `for` clause.
 */
module JsonValue {
  import opened Wrappers

  /** A decoded value. An object keeps its members in document order. */
  datatype Json =
    | Null
    | Bool(b: bool)
    | Number(literal: string)
    | Str(s: string)
    | Arr(items: seq<Json>)
    | Obj(members: seq<(string, Json)>)

  /** The exceptions the extractors can raise on a document of the wrong shape. */
  datatype ShapeError =
    | KeyMissing(key: string)     // KeyError: an object without the key
    | NotAnObject(key: string)    // TypeError: `x[key]` on a list, string, number, bool or None
    | NotIterable                 // TypeError: `for x in v` on a number, bool or None
    | NotAName                    // a `value` field that is not a string

  predicate HasKey(members: seq<(string, Json)>, key: string) {
    exists i :: 0 <= i < |members| && members[i].0 == key
  }

  /** The value of the last member named `key` (a decoded dict keeps the last duplicate). */
  function LastMember(members: seq<(string, Json)>, key: string): (r: Result<Json, ShapeError>)
    ensures r.Ok? <==> HasKey(members, key)
    ensures r.Err? ==> r.error == KeyMissing(key)
    ensures r.Ok? ==> exists i :: 0 <= i < |members| && members[i] == (key, r.value) &&
                       forall j :: i < j < |members| ==> members[j].0 != key
    decreases |members|
  {
    if members == [] then Err(KeyMissing(key))
    else
      var last := members[|members| - 1];
      if last.0 == key then Ok(last.1)
      else
        var r := LastMember(members[..|members| - 1], key);
        assert HasKey(members, key) ==> HasKey(members[..|members| - 1], key) by {
          if HasKey(members, key) {
            var i :| 0 <= i < |members| && members[i].0 == key;
            assert members[..|members| - 1][i].0 == key;
          }
        }
        r
  }

  /** Python's `j[key]`. */
  function Lookup(j: Json, key: string): (r: Result<Json, ShapeError>)
    ensures r.Ok? <==> j.Obj? && HasKey(j.members, key)
    ensures j.Obj? && !HasKey(j.members, key) ==> r == Err(KeyMissing(key))
    ensures !j.Obj? ==> r == Err(NotAnObject(key))
    ensures r.Ok? ==> exists i :: 0 <= i < |j.members| && j.members[i] == (key, r.value) &&
                       forall k :: i < k < |j.members| ==> j.members[k].0 != key
  {
    match j
    case Obj(members) => LastMember(members, key)
    case _ => Err(NotAnObject(key))
  }

  /** The items `for x in j` visits: a list's elements, a dict's keys, a string's characters. */
  function Iterate(j: Json): (r: Result<seq<Json>, ShapeError>)
    ensures r.Ok? <==> j.Arr? || j.Obj? || j.Str?
    ensures j.Arr? ==> r == Ok(j.items)
    ensures j.Obj? ==> r.Ok? && |r.value| == |j.members| &&
                       forall i :: 0 <= i < |j.members| ==> r.value[i] == Str(j.members[i].0)
    ensures j.Str? ==> r.Ok? && |r.value| == |j.s| &&
                       forall i :: 0 <= i < |j.s| ==> r.value[i] == Str([j.s[i]])
    ensures r.Err? ==> r.error == NotIterable
  {
    match j
    case Arr(items) => Ok(items)
    case Obj(members) => Ok(seq(|members|, i requires 0 <= i < |members| => Str(members[i].0)))
    case Str(s) => Ok(seq(|s|, i requires 0 <= i < |s| => Str([s[i]])))
    case _ => Err(NotIterable)
  }
}
