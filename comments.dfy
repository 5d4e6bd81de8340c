/**
 * The id `update_comment` in app.py gives a new reply in a comment
 * thread.
 */
module Comments {

  /** The largest id of a non-empty list. */
  function MaxOf(ids: seq<int>): (m: int)
    requires |ids| > 0
    ensures forall i :: 0 <= i < |ids| ==> ids[i] <= m
    ensures m in ids
    decreases |ids|
  {
    if |ids| == 1 then ids[0]
    else
      var rest := MaxOf(ids[1..]);
      if ids[0] >= rest then ids[0] else rest
  }

  /** The new reply's id: one more than the only id of a one-reply thread,
      otherwise one more than the largest id. A thread always holds its
      opening comment, so the list is never empty (on an empty one the
      source fails with an index error). */
  function NewRelatedCommentId(ids: seq<int>): (id: int)
    requires |ids| > 0
    ensures forall i :: 0 <= i < |ids| ==> ids[i] < id
    ensures id - 1 in ids
  {
    if |ids| > 1 then MaxOf(ids) + 1 else ids[0] + 1
  }

  /** Appending replies with these ids keeps the ids of a thread distinct:
      the new id is not among the old ones. */
  lemma NewIdIsFresh(ids: seq<int>)
    requires |ids| > 0
    ensures NewRelatedCommentId(ids) !in ids
  {
  }
}
