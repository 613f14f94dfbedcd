/** A parsed JSON document, as `System.Text.Json.JsonDocument` exposes it. Numbers
    keep only their integer value: the model never inspects a number beyond its kind. */
module Json {
  import opened Wrappers

  datatype Json =
    | JNull
    | JBool(b: bool)
    | JNumber(n: int)
    | JString(s: string)
    | JArray(items: seq<Json>)
    | JObject(members: seq<(string, Json)>)

  /** `JsonElement.TryGetProperty` on an object: the value of the last member with that
      exact name (ordinal comparison), if any. */
  function LastMember(members: seq<(string, Json)>, name: string): Option<Json> {
    if |members| == 0 then None
    else if members[|members| - 1].0 == name then Some(members[|members| - 1].1)
    else LastMember(members[..|members| - 1], name)
  }

  /** The lookup finds nothing exactly when no member has the name, and otherwise
      finds the value of a member with that name that no later member shares. */
  lemma {:induction false} LastMemberFound(members: seq<(string, Json)>, name: string)
    ensures LastMember(members, name).None? <==> forall i :: 0 <= i < |members| ==> members[i].0 != name
    ensures LastMember(members, name).Some? ==>
      exists i :: 0 <= i < |members| && members[i] == (name, LastMember(members, name).value)
        && forall j :: i < j < |members| ==> members[j].0 != name
  {
    if |members| > 0 && members[|members| - 1].0 != name {
      var front := members[..|members| - 1];
      LastMemberFound(front, name);
      assert forall j :: 0 <= j < |front| ==> front[j] == members[j];
    }
  }
}
