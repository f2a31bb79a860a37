/** JSON values as both halves exchange them. The serialiser (PHP's `json_encode`) and the
    parser (the browser's `JSON.parse`) are library code: they are parameters of the model,
    related only by the round-trip property. */
module Json {
  import opened Wrappers

  /** A JSON value; numbers are kept to integers, objects keep their members in text order. */
  datatype Json =
    | JNull
    | JBool(b: bool)
    | JNumber(n: int)
    | JString(str: string)
    | JArray(items: seq<Json>)
    | JObject(members: seq<(string, Json)>)

  /** `parse` reads back the text `encode` writes for `v`. A real pair does this for values
      whose objects have no duplicate member names, such as the records the backend prints; it
      cannot for others, since `JSON.parse` keeps only the last of duplicate members. */
  predicate RoundTrips(encode: Json -> string, parse: string -> Option<Json>, v: Json)
  {
    parse(encode(v)) == Some(v)
  }

  /** The value of member `name` among `members`; of duplicate names the last one wins, as
      with `JSON.parse`. */
  function Lookup(members: seq<(string, Json)>, name: string): (r: Option<Json>)
    ensures r.None? <==> forall i :: 0 <= i < |members| ==> members[i].0 != name
  {
    if members == [] then None
    else
      var n := |members| - 1;
      if members[n].0 == name then Some(members[n].1)
      else
        assert forall i :: 0 <= i < n ==> members[..n][i] == members[i];
        Lookup(members[..n], name)
  }

  /** A value Lookup finds belongs to the last member with that name. */
  lemma {:induction false} LookupLast(members: seq<(string, Json)>, name: string)
    ensures Lookup(members, name).Some? ==>
              exists i :: 0 <= i < |members| && members[i] == (name, Lookup(members, name).value)
                       && forall j :: i < j < |members| ==> members[j].0 != name
  {
    if members != [] {
      var n := |members| - 1;
      if members[n].0 != name {
        var front := members[..n];
        LookupLast(front, name);
        if Lookup(front, name).Some? {
          var i :| 0 <= i < n && front[i] == (name, Lookup(front, name).value)
                   && forall j :: i < j < n ==> front[j].0 != name;
          assert members[i] == front[i];
        }
      }
    }
  }

  /** Property access `v.name`: the member's value, or None for `undefined`. */
  function Member(v: Json, name: string): (r: Option<Json>)
    ensures r.Some? ==> v.JObject?
    ensures v.JObject? ==> (r.None? <==> forall i :: 0 <= i < |v.members| ==> v.members[i].0 != name)
  {
    if v.JObject? then Lookup(v.members, name) else None
  }
}
