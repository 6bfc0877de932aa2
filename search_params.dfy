/** A URL query string as the `URLSearchParams` object holds it: an ordered list
    of name/value pairs. Percent-encoding is not modelled. */
module SearchParams {
  import opened Optional

  type Param = (string, string)

  /** `params.get(name)`: the value of the first pair with that name. */
  function Get(ps: seq<Param>, name: string): (r: Option<string>)
    ensures r.None? <==> forall i :: 0 <= i < |ps| ==> ps[i].0 != name
  {
    if ps == [] then None
    else if ps[0].0 == name then Some(ps[0].1)
    else Get(ps[1..], name)
  }

  /** `get` answers with the value of the first pair that has the name, whatever
      pairs with that name follow it. */
  lemma {:induction false} GetFirstPair(ps: seq<Param>, name: string)
    ensures Get(ps, name).Some? ==> exists i :: (0 <= i < |ps| && ps[i] == (name, Get(ps, name).value) &&
      forall j :: 0 <= j < i ==> ps[j].0 != name)
    decreases |ps|
  {
    if ps != [] && ps[0].0 != name && Get(ps, name).Some? {
      GetFirstPair(ps[1..], name);
      var i :| (0 <= i < |ps| - 1 && ps[1..][i] == (name, Get(ps, name).value) &&
        forall j :: 0 <= j < i ==> ps[1..][j].0 != name);
      assert ps[i + 1] == (name, Get(ps, name).value);
    }
  }

  /** The pairs of `ps` whose name is not `name`, in order. */
  function Without(ps: seq<Param>, name: string): (r: seq<Param>)
    ensures forall i :: 0 <= i < |r| ==> r[i].0 != name
    ensures forall n :: n != name ==> Get(r, n) == Get(ps, n)
  {
    if ps == [] then []
    else if ps[0].0 == name then Without(ps[1..], name)
    else [ps[0]] + Without(ps[1..], name)
  }

  /** Gives the first pair named `name` the value `value` and drops the later ones. */
  function Replace(ps: seq<Param>, name: string, value: string): (r: seq<Param>)
    requires Get(ps, name).Some?
    ensures Get(r, name) == Some(value)
    ensures forall n :: n != name ==> Get(r, n) == Get(ps, n)
  {
    if ps[0].0 == name then [(name, value)] + Without(ps[1..], name)
    else [ps[0]] + Replace(ps[1..], name, value)
  }

  lemma {:induction false} GetAppend(ps: seq<Param>, p: Param, n: string)
    ensures Get(ps + [p], n) == if Get(ps, n).Some? then Get(ps, n) else if p.0 == n then Some(p.1) else None
    decreases |ps|
  {
    if ps == [] {
      assert ps + [p] == [p];
    } else {
      assert (ps + [p])[1..] == ps[1..] + [p];
      GetAppend(ps[1..], p, n);
    }
  }

  /** `params.set(name, value)`: replaces the value of an existing pair with that
      name (dropping any later duplicates), or appends a new pair at the end. */
  function Set(ps: seq<Param>, name: string, value: string): (r: seq<Param>)
    ensures Get(r, name) == Some(value)
    ensures forall n :: n != name ==> Get(r, n) == Get(ps, n)
    ensures Get(ps, name).None? ==> r == ps + [(name, value)]
  {
    if Get(ps, name).None? then
      var r := ps + [(name, value)];
      GetAppend(ps, (name, value), name);
      forall n | n != name ensures Get(r, n) == Get(ps, n) {
        GetAppend(ps, (name, value), n);
      }
      r
    else Replace(ps, name, value)
  }

  /** `params.toString()` without percent-encoding: `name=value` pairs joined by `&`. */
  function Serialize(ps: seq<Param>): (r: string)
    ensures r == "" <==> ps == []
  {
    if ps == [] then ""
    else if |ps| == 1 then ps[0].0 + "=" + ps[0].1
    else ps[0].0 + "=" + ps[0].1 + "&" + Serialize(ps[1..])
  }
}
