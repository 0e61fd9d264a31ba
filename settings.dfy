/**
 * Flask's `app.config`: one dictionary of settings that the configuration
 * helpers update in place.
 */
module Settings {
  import opened Wrappers
  import opened Json

  /** `d.get(k)`, for `app.config` and for `os.environ` alike. */
  function Lookup<V>(d: map<string, V>, k: string): (r: Option<V>)
    ensures r.Some? <==> k in d
    ensures r.Some? ==> r.value == d[k]
  {
    if k in d then Some(d[k]) else None
  }

  /** Two dictionaries that answer every lookup alike are equal. */
  lemma LookupExtensional(a: Dict, b: Dict)
    requires forall k :: Lookup(a, k) == Lookup(b, k)
    ensures a == b
  {
    assert forall k :: k in a <==> Lookup(a, k).Some?;
  }

  /** Updating a union updates its right-hand side. */
  lemma UnionUpdate(a: Dict, b: Dict, k: string, v: Value)
    ensures (a + b)[k := v] == a + b[k := v]
  {
    LookupExtensional((a + b)[k := v], a + b[k := v]);
  }

  /** The application's configuration dictionary. */
  class Config {
    var entries: Dict

    constructor(initial: Dict)
      ensures entries == initial
    {
      entries := initial;
    }
  }
}
