/** The client's cache of display names, keyed by address. */
module UserNamesCache {

  class NamesCache {
    var cache: map<string, string>

    /** The initial state is empty. */
    constructor()
      ensures cache == map[]
    {
      cache := map[];
    }

    /** `addUserNames`: merge the payload in, the payload winning on shared keys. */
    method AddUserNames(payload: map<string, string>)
      modifies this
      ensures cache == Merge(old(cache), payload)
    {
      cache := cache + payload;
    }

    /** `clearUserNamesCache`. */
    method Clear()
      modifies this
      ensures cache == map[]
    {
      cache := map[];
    }
  }

  /** `{ ...old, ...payload }`. */
  function Merge(before: map<string, string>, payload: map<string, string>): (r: map<string, string>)
    ensures r.Keys == before.Keys + payload.Keys
    ensures forall k :: k in payload ==> r[k] == payload[k]
    ensures forall k :: k in before && k !in payload ==> r[k] == before[k]
  {
    before + payload
  }

  /** Adding the same payload twice is the same as adding it once. */
  lemma MergeIdempotent(m: map<string, string>, payload: map<string, string>)
    ensures Merge(Merge(m, payload), payload) == Merge(m, payload)
  {
  }

  /** Two additions in a row equal one addition of the second payload merged over the first. */
  lemma MergeAssociative(m: map<string, string>, p1: map<string, string>, p2: map<string, string>)
    ensures Merge(Merge(m, p1), p2) == Merge(m, Merge(p1, p2))
  {
  }
}
