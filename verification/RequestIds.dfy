/** Request ids: what counts as one, and which one the fields of an entry name
    (backend/services/idempotency.py). */
module RequestIds {
  import opened Values

  const MAX_KEY_LENGTH := 128

  /** What the request ids of an entry come to. */
  datatype Keyed = NoKey | Key(key: string) | BadKey

  predicate IsAlphanumeric(c: char) { 'A' <= c <= 'Z' || 'a' <= c <= 'z' || '0' <= c <= '9' }

  predicate ValidKey(v: Value) {
    v.Str? && 1 <= |v.s| <= MAX_KEY_LENGTH && IsAlphanumeric(v.s[0])
    && forall i | 0 <= i < |v.s| :: IsAlphanumeric(v.s[i]) || v.s[i] in {'.', '_', ':', '-'}
  }

  function KeyFor(supplied: seq<Value>): Keyed {
    if supplied == [] then NoKey
    else if ValidKey(supplied[0]) && forall v | v in supplied :: v == supplied[0] then Key(supplied[0].s)
    else BadKey
  }

  /** The request id of an entry: every id supplied must be valid, and all the same. */
  method KeyForEntry(supplied: seq<Value>) returns (k: Keyed)
    ensures k == KeyFor(supplied)
  {
    if supplied == [] {
      return NoKey;
    }
    for n := 0 to |supplied|
      invariant forall i | 0 <= i < n :: ValidKey(supplied[i])
    {
      if !ValidKey(supplied[n]) {
        assert supplied[n] in supplied && (ValidKey(supplied[0]) ==> supplied[n] != supplied[0]);
        return BadKey;
      }
    }
    for n := 1 to |supplied|
      invariant forall i | 0 <= i < n :: supplied[i] == supplied[0]
    {
      if supplied[n] != supplied[0] {
        assert supplied[n] in supplied;
        return BadKey;
      }
    }
    k := Key(supplied[0].s);
  }

  predicate DistinctKeys(keys: seq<Option<string>>) {
    forall i, j | 0 <= i < j < |keys| && keys[i].Some? && keys[j].Some? :: keys[i] != keys[j]
  }

  /** No id twice, found out with a set of the ids seen so far. */
  method AllDistinct(keys: seq<Option<string>>) returns (ok: bool)
    ensures ok <==> DistinctKeys(keys)
  {
    var seen: set<string> := {};
    for n := 0 to |keys|
      invariant seen == set i | 0 <= i < n && keys[i].Some? :: keys[i].value
      invariant DistinctKeys(keys[..n])
    {
      if keys[n].Some? {
        if keys[n].value in seen {
          return false;
        }
        seen := seen + {keys[n].value};
      }
    }
    assert keys[..|keys|] == keys;
    ok := true;
  }
}
