/**
 * The part of the chi router the accessors rely on: a route context whose
 * URL parameters are a list of (key, value) pairs that Add extends at the
 * end and URLParam searches from the end, so the pair added last wins and
 * an absent key gives the empty string.
 */
module Chi {
  import opened Encoding

  /** The value of the pair with this key that comes last, or [] when no pair has the key. */
  function LookupLast(params: seq<(Bytes, Bytes)>, key: Bytes): (v: Bytes)
    ensures (forall i | 0 <= i < |params| :: params[i].0 != key) ==> v == []
    ensures (exists i | 0 <= i < |params| :: params[i].0 == key) ==>
              exists i | 0 <= i < |params| ::
                params[i].0 == key && params[i].1 == v &&
                forall j | i < j < |params| :: params[j].0 != key
  {
    if params == [] then []
    else if params[|params| - 1].0 == key then params[|params| - 1].1
    else LookupLast(params[..|params| - 1], key)
  }

  /** A pair added after the others decides the lookup of its key and of no other. */
  lemma LookupAfterAdd(params: seq<(Bytes, Bytes)>, key: Bytes, value: Bytes, other: Bytes)
    ensures LookupLast(params + [(key, value)], key) == value
    ensures other != key ==> LookupLast(params + [(key, value)], other) == LookupLast(params, other)
  {
    assert (params + [(key, value)])[..|params|] == params;
  }

  /** chi.Context, reduced to its URLParams. */
  class RouteContext {
    var urlParams: seq<(Bytes, Bytes)>

    constructor (params: seq<(Bytes, Bytes)>)
      ensures urlParams == params
    {
      urlParams := params;
    }

    /** RouteParams.Add: one pair at the end, the others untouched. */
    method Add(key: Bytes, value: Bytes)
      modifies this
      ensures urlParams == old(urlParams) + [(key, value)]
    {
      urlParams := urlParams + [(key, value)];
    }

    /** Context.URLParam: "" for a key never added, else the value added last for it. */
    function URLParam(key: Bytes): (v: Bytes)
      reads this
      ensures (forall i | 0 <= i < |urlParams| :: urlParams[i].0 != key) ==> v == []
      ensures |urlParams| > 0 && urlParams[|urlParams| - 1].0 == key ==> v == urlParams[|urlParams| - 1].1
    {
      LookupLast(urlParams, key)
    }
  }
}
