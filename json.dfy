/** JSON values as the program's response bodies carry them, and the field lookup that
    serde's derived decoders perform on an object. */
module Json {

  datatype Json =
    | JNull
    | JBool(b: bool)
    | JNumber(n: int)
    | JString(s: string)
    | JArray(items: seq<Json>)
    | JObject(members: seq<(string, Json)>)

  /** What a decoder finds for one key of an object: nothing, exactly one member (by
      position), or the key more than once (which serde rejects as a duplicate field). */
  datatype Lookup = Missing | Found(at: nat) | Repeated

  function Find(members: seq<(string, Json)>, key: string): (r: Lookup)
    ensures r.Missing? <==> forall i :: 0 <= i < |members| ==> members[i].0 != key
    ensures r.Found? ==> r.at < |members| && members[r.at].0 == key &&
                         forall i :: 0 <= i < |members| && i != r.at ==> members[i].0 != key
    ensures r.Repeated? ==> exists i, j :: 0 <= i < j < |members| &&
                                           members[i].0 == key && members[j].0 == key
  {
    if members == [] then Missing
    else
      var rest := Find(members[1..], key);
      assert forall i :: 1 <= i < |members| ==> members[i] == members[1..][i - 1];
      if members[0].0 != key then
        match rest
        case Missing => Missing
        case Found(k) => Found(k + 1)
        case Repeated =>
          var i, j :| 0 <= i < j < |members[1..]| &&
                      members[1..][i].0 == key && members[1..][j].0 == key;
          assert members[i + 1].0 == key && members[j + 1].0 == key;
          Repeated
      else
        match rest
        case Missing => Found(0)
        case Found(k) =>
          assert members[k + 1].0 == key;
          Repeated
        case Repeated => Repeated
  }

  /** The lookup finds the only member carrying the key. */
  lemma FindUnique(members: seq<(string, Json)>, k: nat, key: string)
    requires k < |members| && members[k].0 == key
    requires forall i :: 0 <= i < |members| && i != k ==> members[i].0 != key
    ensures Find(members, key) == Found(k)
  {
  }
}
