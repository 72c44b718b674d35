/**
 * The like toggle server action (app/forum/likeActions.ts, `togglePostLike`)
 * over the `post_reactions` table.
 */
module LikeActions {
  import opened Wrappers

  datatype Reaction = Reaction(id: int, userId: string, postId: int, reactionType: string)

  /** What the action returns: `{ error }` or `{ success, likeCount, isLiked }`. */
  datatype ToggleResult = Failed(error: string) | Toggled(likeCount: int, isLiked: bool)

  const NotAuthenticated := "Not authenticated"

  /** The (user, post) pairs that have a reaction. */
  function Pairs(rows: seq<Reaction>): set<(string, int)> {
    set r | r in rows :: (r.userId, r.postId)
  }

  /** The number of reactions on `postId` (the exact-count query). */
  function CountFor(rows: seq<Reaction>, postId: int): (n: nat)
    ensures n <= |rows|
  {
    if rows == [] then 0
    else (if rows[0].postId == postId then 1 else 0) + CountFor(rows[1..], postId)
  }

  /** The existing reaction of `userId` on `postId`, if any. */
  function Find(rows: seq<Reaction>, userId: string, postId: int): (r: Option<Reaction>)
    ensures r.Some? ==> r.value in rows && r.value.userId == userId && r.value.postId == postId
    ensures r.None? <==> (userId, postId) !in Pairs(rows)
  {
    if rows == [] then None
    else if rows[0].userId == userId && rows[0].postId == postId then Some(rows[0])
    else
      var rest := Find(rows[1..], userId, postId);
      assert Pairs(rows) == {(rows[0].userId, rows[0].postId)} + Pairs(rows[1..]) by {
        assert rows == [rows[0]] + rows[1..];
      }
      rest
  }

  /** The rows left after `delete ... where id = id`, in their order. */
  function Without(rows: seq<Reaction>, id: int): (r: seq<Reaction>)
    ensures forall x :: x in r <==> x in rows && x.id != id
    ensures |r| <= |rows|
  {
    if rows == [] then []
    else if rows[0].id == id then Without(rows[1..], id)
    else [rows[0]] + Without(rows[1..], id)
  }

  predicate DistinctIds(rows: seq<Reaction>) {
    forall i, j :: 0 <= i < j < |rows| ==> rows[i].id != rows[j].id
  }

  /** At most one reaction per user and post. */
  predicate OnePerPair(rows: seq<Reaction>) {
    forall a, b :: a in rows && b in rows && a.userId == b.userId && a.postId == b.postId ==> a.id == b.id
  }

  /** The table invariant: distinct ids, one reaction per pair, every id below the next one. */
  predicate Consistent(rows: seq<Reaction>, nextId: int) {
    DistinctIds(rows) && OnePerPair(rows) && forall r :: r in rows ==> r.id < nextId
  }

  /** Flip membership of one pair. */
  function TogglePair(pairs: set<(string, int)>, pair: (string, int)): set<(string, int)> {
    if pair in pairs then pairs - {pair} else pairs + {pair}
  }

  /** The next free id after the toggle: only an insert uses one up. */
  function NextIdAfter(rows: seq<Reaction>, nextId: int, userId: string, postId: int): int {
    if Find(rows, userId, postId).Some? then nextId else nextId + 1
  }

  /** The reference definition of the successful toggle: delete the reaction if there is one, else insert a like. */
  function ToggleRows(rows: seq<Reaction>, nextId: int, userId: string, postId: int): seq<Reaction> {
    var existing := Find(rows, userId, postId);
    if existing.Some? then Without(rows, existing.value.id)
    else rows + [Reaction(nextId, userId, postId, "like")]
  }

  lemma TogglePairTwice(pairs: set<(string, int)>, pair: (string, int))
    ensures TogglePair(TogglePair(pairs, pair), pair) == pairs
  {
  }

  lemma PairsAppend(rows: seq<Reaction>, x: Reaction)
    ensures Pairs(rows + [x]) == Pairs(rows) + {(x.userId, x.postId)}
  {
    assert forall r :: r in rows + [x] <==> r in rows || r == x;
  }

  lemma {:induction false} CountAppend(rows: seq<Reaction>, x: Reaction, postId: int)
    ensures CountFor(rows + [x], postId) == CountFor(rows, postId) + (if x.postId == postId then 1 else 0)
  {
    if rows != [] {
      assert (rows + [x])[1..] == rows[1..] + [x];
      CountAppend(rows[1..], x, postId);
    }
  }

  lemma {:induction false} WithoutAbsent(rows: seq<Reaction>, id: int)
    requires forall r :: r in rows ==> r.id != id
    ensures Without(rows, id) == rows
  {
    if rows != [] {
      WithoutAbsent(rows[1..], id);
    }
  }

  /** Deleting the one row with a given id lowers its post's count by one and no other. */
  lemma {:induction false} CountWithout(rows: seq<Reaction>, x: Reaction, postId: int)
    requires DistinctIds(rows) && x in rows
    ensures CountFor(Without(rows, x.id), postId) == CountFor(rows, postId) - (if x.postId == postId then 1 else 0)
  {
    if rows[0].id == x.id {
      assert rows[0] == x;
      forall r | r in rows[1..]
        ensures r.id != x.id
      {
        var j :| 0 <= j < |rows[1..]| && rows[1..][j] == r;
        assert rows[j + 1] == r;
      }
      WithoutAbsent(rows[1..], x.id);
    } else {
      assert x in rows[1..] by {
        assert rows == [rows[0]] + rows[1..];
      }
      assert DistinctIds(rows[1..]) by {
        forall i, j | 0 <= i < j < |rows[1..]|
          ensures rows[1..][i].id != rows[1..][j].id
        {
          assert rows[1..][i] == rows[i + 1] && rows[1..][j] == rows[j + 1];
        }
      }
      CountWithout(rows[1..], x, postId);
    }
  }

  /** The toggle flips exactly the caller's pair. */
  lemma ToggleFlipsPair(rows: seq<Reaction>, nextId: int, userId: string, postId: int)
    requires Consistent(rows, nextId)
    ensures Pairs(ToggleRows(rows, nextId, userId, postId)) == TogglePair(Pairs(rows), (userId, postId))
  {
    var existing := Find(rows, userId, postId);
    if existing.Some? {
      var x := existing.value;
      var after := Without(rows, x.id);
      forall pair | pair in Pairs(rows) - {(userId, postId)}
        ensures pair in Pairs(after)
      {
        var r :| r in rows && (r.userId, r.postId) == pair;
        assert r.id != x.id;
      }
    } else {
      PairsAppend(rows, Reaction(nextId, userId, postId, "like"));
    }
  }

  /** Toggling twice restores the set of liked (user, post) pairs. */
  lemma ToggleTwiceRestoresPairs(rows: seq<Reaction>, nextId: int, userId: string, postId: int)
    requires Consistent(rows, nextId)
    ensures var next := NextIdAfter(rows, nextId, userId, postId);
      Pairs(ToggleRows(ToggleRows(rows, nextId, userId, postId), next, userId, postId)) == Pairs(rows)
  {
    var once := ToggleRows(rows, nextId, userId, postId);
    var next := NextIdAfter(rows, nextId, userId, postId);
    ToggleKeepsConsistent(rows, nextId, userId, postId);
    ToggleFlipsPair(rows, nextId, userId, postId);
    ToggleFlipsPair(once, next, userId, postId);
    TogglePairTwice(Pairs(rows), (userId, postId));
  }

  /** The post's count after the toggle differs by exactly one, up or down. */
  lemma ToggleCountDelta(rows: seq<Reaction>, nextId: int, userId: string, postId: int)
    requires Consistent(rows, nextId)
    ensures CountFor(ToggleRows(rows, nextId, userId, postId), postId)
      == CountFor(rows, postId) + (if Find(rows, userId, postId).None? then 1 else -1)
  {
    var existing := Find(rows, userId, postId);
    if existing.Some? {
      CountWithout(rows, existing.value, postId);
    } else {
      CountAppend(rows, Reaction(nextId, userId, postId, "like"), postId);
    }
  }

  /** Reactions of other users or other posts are neither removed nor added. */
  lemma ToggleKeepsOthers(rows: seq<Reaction>, nextId: int, userId: string, postId: int)
    requires Consistent(rows, nextId)
    ensures forall r: Reaction :: r.userId != userId || r.postId != postId ==>
      (r in ToggleRows(rows, nextId, userId, postId) <==> r in rows)
  {
    var existing := Find(rows, userId, postId);
    if existing.Some? {
      var x := existing.value;
      forall r | r in rows && (r.userId != userId || r.postId != postId)
        ensures r.id != x.id
      {
        var i, j :| 0 <= i < |rows| && 0 <= j < |rows| && rows[i] == r && rows[j] == x;
        assert i != j;
      }
    }
  }

  lemma ToggleKeepsConsistent(rows: seq<Reaction>, nextId: int, userId: string, postId: int)
    requires Consistent(rows, nextId)
    ensures Consistent(ToggleRows(rows, nextId, userId, postId), NextIdAfter(rows, nextId, userId, postId))
  {
    var existing := Find(rows, userId, postId);
    if existing.Some? {
      var after := Without(rows, existing.value.id);
      assert DistinctIds(after) by { WithoutKeepsDistinct(rows, existing.value.id); }
    } else {
      var after := rows + [Reaction(nextId, userId, postId, "like")];
      forall i, j | 0 <= i < j < |after|
        ensures after[i].id != after[j].id
      {
        if j == |rows| { assert after[i] in rows; }
      }
      forall a, b | a in after && b in after && a.userId == b.userId && a.postId == b.postId
        ensures a.id == b.id
      {
        assert a in rows ==> (a.userId, a.postId) in Pairs(rows);
        assert b in rows ==> (b.userId, b.postId) in Pairs(rows);
      }
    }
  }

  lemma {:induction false} WithoutKeepsDistinct(rows: seq<Reaction>, id: int)
    requires DistinctIds(rows)
    ensures DistinctIds(Without(rows, id))
  {
    if rows != [] {
      assert DistinctIds(rows[1..]) by {
        forall i, j | 0 <= i < j < |rows[1..]|
          ensures rows[1..][i].id != rows[1..][j].id
        {
          assert rows[1..][i] == rows[i + 1] && rows[1..][j] == rows[j + 1];
        }
      }
      WithoutKeepsDistinct(rows[1..], id);
      if rows[0].id != id {
        var rest := Without(rows[1..], id);
        forall k | 0 <= k < |rest|
          ensures rows[0].id != rest[k].id
        {
          assert rest[k] in rows[1..];
          var j :| 0 <= j < |rows[1..]| && rows[1..][j] == rest[k];
          assert rows[j + 1] == rest[k];
        }
      }
    }
  }

  class ReactionTable {
    var rows: seq<Reaction>
    var nextId: int

    predicate Valid()
      reads this
    {
      Consistent(rows, nextId)
    }

    constructor (rows: seq<Reaction>, nextId: int)
      requires Consistent(rows, nextId)
      ensures this.rows == rows && this.nextId == nextId && Valid()
    {
      this.rows := rows;
      this.nextId := nextId;
    }

    /**
     * `togglePostLike(postId)` for the signed-in `user`. `writeError` is the
     * error of the delete or insert, and `countMissing` says whether the
     * count query returned no count.
     */
    method TogglePostLike(user: Option<string>, postId: int, writeError: Option<string>, countMissing: bool)
      returns (r: ToggleResult)
      requires Valid()
      modifies this
      ensures Valid()
      ensures user.None? || writeError.Some? ==> rows == old(rows) && nextId == old(nextId)
      ensures user.None? ==> r == Failed(NotAuthenticated)
      ensures user.Some? && writeError.Some? ==> r == Failed(writeError.value)
      ensures user.Some? && writeError.None? ==>
        var existing := Find(old(rows), user.value, postId);
        && rows == ToggleRows(old(rows), old(nextId), user.value, postId)
        && nextId == NextIdAfter(old(rows), old(nextId), user.value, postId)
        && r == Toggled(if countMissing then 0 else CountFor(rows, postId), existing.None?)
        && Pairs(rows) == TogglePair(Pairs(old(rows)), (user.value, postId))
        && CountFor(rows, postId) == CountFor(old(rows), postId) + (if existing.None? then 1 else -1)
        && forall x: Reaction :: x.userId != user.value || x.postId != postId ==> (x in rows <==> x in old(rows))
    {
      if user.None? {
        return Failed(NotAuthenticated);
      }
      var uid := user.value;
      var existing := Find(rows, uid, postId);
      if writeError.Some? {
        return Failed(writeError.value);
      }
      ToggleKeepsConsistent(rows, nextId, uid, postId);
      ToggleFlipsPair(rows, nextId, uid, postId);
      ToggleCountDelta(rows, nextId, uid, postId);
      ToggleKeepsOthers(rows, nextId, uid, postId);
      if existing.Some? {
        rows := Without(rows, existing.value.id);
      } else {
        rows := rows + [Reaction(nextId, uid, postId, "like")];
        nextId := nextId + 1;
      }
      var count := if countMissing then 0 else CountFor(rows, postId);
      r := Toggled(count, existing.None?);
    }
  }
}
