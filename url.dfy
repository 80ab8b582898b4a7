/** The query string as `URLSearchParams` sees it: the decoded name/value
    pairs in order. */
module Url {
  import opened Records

  type Query = seq<(string, string)>

  /** `searchParams.has(name)`. */
  predicate Has(q: Query, name: string) {
    exists i :: 0 <= i < |q| && q[i].0 == name
  }

  /** `searchParams.get(name)`: the value of the first pair with that name. */
  function Get(q: Query, name: string): (r: Option<string>)
    ensures r.None? <==> !Has(q, name)
    ensures r.Some? ==> exists i :: 0 <= i < |q| && q[i] == (name, r.value) && forall j :: 0 <= j < i ==> q[j].0 != name
  {
    if q == [] then None
    else if q[0].0 == name then Some(q[0].1)
    else
      var r := Get(q[1..], name);
      if r.Some? then
        var i :| 0 <= i < |q[1..]| && q[1..][i] == (name, r.value) && forall j :: 0 <= j < i ==> q[1..][j].0 != name;
        assert q[i + 1] == (name, r.value);
        r
      else
        assert forall i :: 1 <= i < |q| ==> q[1..][i - 1] == q[i];
        r
  }

  /** `searchParams.get('ordem') || 'default'`. */
  function Ordem(q: Query): (o: string)
    ensures o != ""
    ensures Get(q, "ordem").Some? && Get(q, "ordem").value != "" ==> o == Get(q, "ordem").value
    ensures Get(q, "ordem").None? || Get(q, "ordem").value == "" ==> o == "default"
  {
    var v := Get(q, "ordem");
    if v.Some? && v.value != "" then v.value else "default"
  }
}
