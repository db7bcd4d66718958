/** Optional values and results, the shapes JavaScript expresses with `null`,
    `undefined` and thrown errors. */
module Wrappers {

  datatype Option<T> = None | Some(value: T) {
    function GetOr(default: T): T {
      if Some? then value else default
    }
  }

  datatype Result<T, E> = Ok(value: T) | Err(error: E)
}

/** Identifiers of stored documents, and the two queries every collection answers. */
module Db {
  import opened Wrappers

  /** A MongoDB ObjectId, modelled as a number drawn from a per-collection counter, so that
      the natural order of a collection (insertion order) is the order of its ids. */
  type Id = nat

  /** `find(filter)` over the documents whose ids lie below `n`: the ids of the matching
      documents, in natural order. */
  function Find<T>(docs: map<Id, T>, filter: T -> bool, n: nat): (r: seq<Id>)
    ensures forall i :: i in r <==> i < n && i in docs && filter(docs[i])
    ensures forall k :: 0 <= k < |r| ==> r[k] < n
    ensures forall a, b :: 0 <= a < b < |r| ==> r[a] < r[b]
  {
    if n == 0 then []
    else Find(docs, filter, n - 1) + (if n - 1 in docs && filter(docs[n - 1]) then [n - 1] else [])
  }

  /** `findOne(filter)`: the first matching document in natural order, or null (None). */
  function FindOne<T>(docs: map<Id, T>, filter: T -> bool, n: nat): (r: Option<Id>)
    ensures r.Some? <==> exists i :: i < n && i in docs && filter(docs[i])
    ensures r.Some? ==> r.value < n && r.value in docs && filter(docs[r.value])
    ensures r.Some? ==> forall i :: i < r.value && i in docs ==> !filter(docs[i])
  {
    var found := Find(docs, filter, n);
    if |found| == 0 then None
    else
      assert found[0] in found;
      assert forall i :: i < found[0] && i in docs && filter(docs[i]) ==> i in found;
      Some(found[0])
  }

  /** The documents a list of ids names, in the same order. */
  function Docs<T>(docs: map<Id, T>, ids: seq<Id>): (r: seq<T>)
    requires forall k :: 0 <= k < |ids| ==> ids[k] in docs
    ensures |r| == |ids|
    ensures forall k :: 0 <= k < |ids| ==> r[k] == docs[ids[k]]
  {
    seq(|ids|, k requires 0 <= k < |ids| => docs[ids[k]])
  }
}
