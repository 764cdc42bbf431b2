/**
  The JSON documents exchanged with the API, as trees: only strings, arrays
  and objects occur in the request bodies the client writes. Objects keep
  their members in the order the serializer writes them.
 */
module Json {
  import opened Wrappers

  datatype Json = JString(s: string) | JArray(items: seq<Json>) | JObject(members: seq<(string, Json)>)

  /** The value of the first member named `key`, as a JSON reader finds it. */
  function Member(members: seq<(string, Json)>, key: string): Option<Json>
  {
    if members == [] then None
    else if members[0].0 == key then Some(members[0].1)
    else Member(members[1..], key)
  }

  function Strings(ss: seq<string>): (items: seq<Json>)
    ensures |items| == |ss|
    ensures forall i :: 0 <= i < |ss| ==> items[i] == JString(ss[i])
  {
    seq(|ss|, i requires 0 <= i < |ss| => JString(ss[i]))
  }

  /** Reads an array of strings back; None if some item is not a string. */
  function ReadStrings(items: seq<Json>): (r: Option<seq<string>>)
    ensures r.Some? <==> forall i :: 0 <= i < |items| ==> items[i].JString?
    ensures r.Some? ==> |r.value| == |items| && forall i :: 0 <= i < |items| ==> items[i] == JString(r.value[i])
  {
    if items == [] then Some([])
    else if !items[0].JString? then None
    else
      match ReadStrings(items[1..])
      case None => None
      case Some(rest) => Some([items[0].s] + rest)
  }

  lemma StringsRoundTrip(ss: seq<string>)
    ensures ReadStrings(Strings(ss)) == Some(ss)
  {
    var r := ReadStrings(Strings(ss));
    assert r.Some? && |r.value| == |ss|;
    forall i | 0 <= i < |ss| ensures r.value[i] == ss[i] {
      assert Strings(ss)[i] == JString(r.value[i]);
    }
    assert r.value == ss;
  }
}
