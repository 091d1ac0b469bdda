/**
 The durable publish queue: an ordered table of decisions.

 A row's id is its position, so ids grow in insertion order and rows are never
 removed. Each function is one SQL statement.
 */
module PublishQueue {
  import opened Wrappers

  type Hash = nat

  datatype Status = Pending | Inflight | Published | Failed

  datatype Row = Row(key: string, feed: string, value: int, priority: int,
                     status: Status, attempts: nat, hash: Option<Hash>, nextAttemptAt: int)

  type Rows = seq<Row>

  // ---------------------------------------------------------------------------
  // Statements
  // ---------------------------------------------------------------------------

  predicate HasKey(rows: Rows, key: string) {
    exists i :: 0 <= i < |rows| && rows[i].key == key
  }

  function Enqueue(rows: Rows, key: string, feed: string, value: int, priority: int, now: int): Rows {
    if HasKey(rows, key) then rows else rows + [Row(key, feed, value, priority, Pending, 0, None, now)]
  }

  function MarkInflight(rows: Rows, ids: seq<nat>): Rows {
    seq(|rows|, i requires 0 <= i < |rows| =>
      if i in ids then rows[i].(status := Inflight, attempts := rows[i].attempts + 1) else rows[i])
  }

  function MarkPublished(rows: Rows, ids: seq<nat>, hash: Hash): Rows {
    seq(|rows|, i requires 0 <= i < |rows| =>
      if i in ids then rows[i].(status := Published, hash := Some(hash)) else rows[i])
  }

  /** `COALESCE($4, tx_hash)`: a new hash replaces the old one, none keeps it. */
  function Coalesce(hash: Option<Hash>, kept: Option<Hash>): Option<Hash> {
    if hash.Some? then hash else kept
  }

  function Release(rows: Rows, ids: seq<nat>, due: int, hash: Option<Hash>): Rows {
    seq(|rows|, i requires 0 <= i < |rows| =>
      if i in ids
      then rows[i].(status := Pending, hash := Coalesce(hash, rows[i].hash), nextAttemptAt := due)
      else rows[i])
  }

  function MarkFailed(rows: Rows, ids: seq<nat>): Rows {
    seq(|rows|, i requires 0 <= i < |rows| => if i in ids then rows[i].(status := Failed) else rows[i])
  }

  // ---------------------------------------------------------------------------
  // Claim
  // ---------------------------------------------------------------------------

  predicate Open(rows: Rows, i: nat) {
    i < |rows| && (rows[i].status.Pending? || rows[i].status.Inflight?)
  }

  /** An open row `e` of the same feed as `i`. */
  predicate OpenPeer(rows: Rows, e: nat, i: nat)
    requires i < |rows|
  {
    Open(rows, e) && rows[e].feed == rows[i].feed
  }

  /** `row_number() OVER (PARTITION BY feed ORDER BY id)` of an open row. */
  function RowNumber(rows: Rows, i: nat): nat
    requires i < |rows|
  {
    |set e | 0 <= e <= i && OpenPeer(rows, e, i)|
  }

  /** An earlier row that is in flight or backing off holds back its feed. */
  predicate Blocks(row: Row, now: int) {
    row.status.Inflight? || row.nextAttemptAt > now
  }

  predicate Eligible(rows: Rows, i: nat, cap: nat, exclude: set<string>, now: int) {
    && i < |rows| && rows[i].status.Pending? && rows[i].nextAttemptAt <= now
    && RowNumber(rows, i) <= cap && rows[i].feed !in exclude
    && forall e :: 0 <= e < i && OpenPeer(rows, e, i) ==> !Blocks(rows[e], now)
  }

  /** `max(priority) OVER (PARTITION BY feed)` over the open rows among the first `k`. */
  function MaxPriority(rows: Rows, feed: string, k: nat): Option<int>
    requires k <= |rows|
  {
    if k == 0 then None
    else
      var m := MaxPriority(rows, feed, k - 1);
      if Open(rows, k - 1) && rows[k - 1].feed == feed && (m.None? || m.value < rows[k - 1].priority)
      then Some(rows[k - 1].priority) else m
  }

  function FeedPriority(rows: Rows, i: nat): int
    requires i < |rows|
  {
    var m := MaxPriority(rows, rows[i].feed, |rows|);
    if m.Some? then m.value else 0
  }

  /** `ORDER BY feed_priority DESC, id`: row `a` comes before row `b`. */
  predicate Before(rows: Rows, a: nat, b: nat)
    requires a < |rows| && b < |rows|
  {
    FeedPriority(rows, a) > FeedPriority(rows, b) || (FeedPriority(rows, a) == FeedPriority(rows, b) && a < b)
  }

  /** The eligible rows that come before `i`. */
  function Ahead(rows: Rows, i: nat, cap: nat, exclude: set<string>, now: int): set<nat>
    requires i < |rows|
  {
    set j: nat | j < |rows| && Eligible(rows, j, cap, exclude, now) && Before(rows, j, i)
  }

  /** `ORDER BY ... LIMIT`: fewer than `limit` eligible rows come first. */
  predicate Picked(rows: Rows, i: nat, limit: nat, cap: nat, exclude: set<string>, now: int) {
    Eligible(rows, i, cap, exclude, now) && |Ahead(rows, i, cap, exclude, now)| < limit
  }

  /** The picked ids below `k`, in id order. */
  function Claimed(rows: Rows, limit: nat, cap: nat, exclude: set<string>, now: int, k: nat): seq<nat>
    requires k <= |rows|
  {
    if k == 0 then []
    else Claimed(rows, limit, cap, exclude, now, k - 1)
         + (if Picked(rows, k - 1, limit, cap, exclude, now) then [k - 1] else [])
  }

  function Claim(rows: Rows, limit: nat, cap: nat, exclude: set<string>, now: int): seq<nat> {
    Claimed(rows, limit, cap, exclude, now, |rows|)
  }

  ghost predicate Ascending(ids: seq<nat>) {
    forall a, b :: 0 <= a < b < |ids| ==> ids[a] < ids[b]
  }

  lemma {:induction false} ClaimedIsPicked(rows: Rows, limit: nat, cap: nat, exclude: set<string>, now: int, k: nat)
    requires k <= |rows|
    ensures var ids := Claimed(rows, limit, cap, exclude, now, k);
      Ascending(ids) && forall i :: i in ids <==> 0 <= i < k && Picked(rows, i, limit, cap, exclude, now)
  {
    if k > 0 {
      ClaimedIsPicked(rows, limit, cap, exclude, now, k - 1);
      var front := Claimed(rows, limit, cap, exclude, now, k - 1);
      assert forall a :: 0 <= a < |front| ==> front[a] in front;
    }
  }

  /** An open row ahead of an eligible row of its feed is eligible itself. */
  lemma EarlierIsEligible(rows: Rows, e: nat, i: nat, cap: nat, exclude: set<string>, now: int)
    requires Eligible(rows, i, cap, exclude, now) && e < i && OpenPeer(rows, e, i)
    ensures Eligible(rows, e, cap, exclude, now)
  {
    var upTo := set x | 0 <= x <= i && OpenPeer(rows, x, i);
    var upToE := set x | 0 <= x <= e && OpenPeer(rows, x, e);
    assert upToE <= upTo;
    SubsetIsSmaller(upToE, upTo);
    assert forall x :: 0 <= x < e && OpenPeer(rows, x, e) ==> OpenPeer(rows, x, i);
  }

  lemma SubsetIsSmaller<T>(a: set<T>, b: set<T>)
    requires a <= b
    ensures |a| <= |b|
  {
    assert b == a + (b - a);
  }

  /** ... and it is picked first. */
  lemma EarlierIsPicked(rows: Rows, e: nat, i: nat, limit: nat, cap: nat, exclude: set<string>, now: int)
    requires Picked(rows, i, limit, cap, exclude, now) && e < i && OpenPeer(rows, e, i)
    ensures Picked(rows, e, limit, cap, exclude, now)
  {
    EarlierIsEligible(rows, e, i, cap, exclude, now);
    assert FeedPriority(rows, e) == FeedPriority(rows, i);
    SubsetIsSmaller(Ahead(rows, e, cap, exclude, now), Ahead(rows, i, cap, exclude, now));
  }

  /** Every claim takes a contiguous prefix of each feed's open rows: pending, due rows
      only, none of an excluded feed, and with them every earlier open row of the feed. */
  lemma ClaimTakesPrefixes(rows: Rows, limit: nat, cap: nat, exclude: set<string>, now: int)
    ensures var ids := Claim(rows, limit, cap, exclude, now);
      && Ascending(ids)
      && (forall i :: i in ids ==> i < |rows| && rows[i].status.Pending? && rows[i].nextAttemptAt <= now
                                   && rows[i].feed !in exclude && RowNumber(rows, i) <= cap)
      && (forall i, e :: i in ids && 0 <= e < i && OpenPeer(rows, e, i) ==> e in ids)
  {
    var ids := Claim(rows, limit, cap, exclude, now);
    ClaimedIsPicked(rows, limit, cap, exclude, now, |rows|);
    forall i, e | i in ids && 0 <= e < i && OpenPeer(rows, e, i)
      ensures e in ids
    {
      EarlierIsPicked(rows, e, i, limit, cap, exclude, now);
    }
  }

  /** Some element of a non-empty set of rows comes after all the others. */
  lemma {:induction false} LastOne(rows: Rows, ids: set<nat>) returns (last: nat)
    requires ids != {} && forall i: nat :: i in ids ==> i < |rows|
    ensures last in ids && forall i: nat :: i in ids && i != last ==> Before(rows, i, last)
    decreases |ids|
  {
    var x: nat :| x in ids;
    if ids == {x} {
      last := x;
    } else {
      var y := LastOne(rows, ids - {x});
      assert forall i: nat :: i in ids <==> i in ids - {x} || i == x;
      last := if Before(rows, x, y) then y else x;
    }
  }

  /** A claim never exceeds its limit. */
  lemma ClaimRespectsLimit(rows: Rows, limit: nat, cap: nat, exclude: set<string>, now: int)
    ensures |Claim(rows, limit, cap, exclude, now)| <= limit
  {
    var ids := Claim(rows, limit, cap, exclude, now);
    ClaimedIsPicked(rows, limit, cap, exclude, now, |rows|);
    var picked := Members(ids);
    AscendingSize(ids);
    if ids != [] {
      assert ids[0] in picked;
      var last := LastOne(rows, picked);
      SubsetIsSmaller(picked - {last}, Ahead(rows, last, cap, exclude, now));
    }
  }

  function Members(ids: seq<nat>): set<nat> {
    set i: nat | i in ids
  }

  lemma {:induction false} AscendingSize(ids: seq<nat>)
    requires Ascending(ids)
    ensures |Members(ids)| == |ids|
  {
    if ids != [] {
      var front, last := ids[..|ids| - 1], ids[|ids| - 1];
      assert ids == front + [last];
      assert last !in front;
      AscendingSize(front);
      assert Members(ids) == Members(front) + {last};
    }
  }

  // ---------------------------------------------------------------------------
  // What a claim takes
  // ---------------------------------------------------------------------------

  /** Row `e` of `feed` is neither published nor failed. */
  predicate Waits(rows: Rows, e: nat, feed: string) {
    e < |rows| && rows[e].feed == feed && rows[e].status != Published && rows[e].status != Failed
  }

  /** Row `i` is pending and due, so is every waiting row of its feed before it, these are
      fewer than the cap, and the feed is not excluded. */
  predicate Claimable(rows: Rows, i: nat, cap: nat, exclude: set<string>, now: int) {
    && i < |rows| && rows[i].feed !in exclude
    && (forall e :: 0 <= e <= i && Waits(rows, e, rows[i].feed) ==> rows[e].status == Pending && rows[e].nextAttemptAt <= now)
    && Waits(rows, i, rows[i].feed)
    && |set e | 0 <= e < i && Waits(rows, e, rows[i].feed)| < cap
  }

  lemma ClaimableIsEligible(rows: Rows, i: nat, cap: nat, exclude: set<string>, now: int)
    ensures Claimable(rows, i, cap, exclude, now) <==> Eligible(rows, i, cap, exclude, now)
  {
    if i < |rows| && Waits(rows, i, rows[i].feed) {
      var before := set e | 0 <= e < i && Waits(rows, e, rows[i].feed);
      assert (set e | 0 <= e <= i && OpenPeer(rows, e, i)) == before + {i};
      assert forall e :: 0 <= e < i && OpenPeer(rows, e, i) <==> 0 <= e < i && Waits(rows, e, rows[i].feed);
    }
  }

  lemma {:induction false} MaxPriorityIs(rows: Rows, feed: string, k: nat)
    requires k <= |rows|
    ensures var m := MaxPriority(rows, feed, k);
      && (m.None? ==> forall e: nat :: e < k ==> !Waits(rows, e, feed))
      && (m.Some? ==> exists e: nat :: e < k && Waits(rows, e, feed) && rows[e].priority == m.value)
      && (m.Some? ==> forall e: nat :: e < k && Waits(rows, e, feed) ==> rows[e].priority <= m.value)
  {
    if k > 0 {
      MaxPriorityIs(rows, feed, k - 1);
    }
  }

  lemma FeedPriorityIs(rows: Rows, i: nat)
    requires i < |rows| && Waits(rows, i, rows[i].feed)
    ensures exists e: nat :: Waits(rows, e, rows[i].feed) && rows[e].priority == FeedPriority(rows, i)
    ensures forall e: nat :: Waits(rows, e, rows[i].feed) ==> rows[e].priority <= FeedPriority(rows, i)
  {
    MaxPriorityIs(rows, rows[i].feed, |rows|);
  }

  /** Among rows that could be claimed, those claimed come first. */
  lemma ClaimedComesFirst(rows: Rows, limit: nat, cap: nat, exclude: set<string>, now: int, i: nat, j: nat)
    requires i in Claim(rows, limit, cap, exclude, now) && j !in Claim(rows, limit, cap, exclude, now)
    requires Eligible(rows, j, cap, exclude, now)
    ensures i < |rows| && Before(rows, i, j)
  {
    ClaimedIsPicked(rows, limit, cap, exclude, now, |rows|);
    if !Before(rows, i, j) {
      assert Before(rows, j, i);
      SubsetIsSmaller(Ahead(rows, j, cap, exclude, now), Ahead(rows, i, cap, exclude, now));
    }
  }

  /** The feed of `i` has a waiting row of priority as high as any of the feed of `j`. */
  ghost predicate Outranks(rows: Rows, i: nat, j: nat)
    requires i < |rows| && j < |rows|
  {
    exists x: nat :: Waits(rows, x, rows[i].feed)
      && forall y: nat :: Waits(rows, y, rows[j].feed) ==> rows[y].priority <= rows[x].priority
  }

  /** When a claim takes `i` and leaves `j`, the feed of `i` has the higher priority, or both
      are equal and `i` is older. */
  lemma ClaimPrefersPriority(rows: Rows, limit: nat, cap: nat, exclude: set<string>, now: int, i: nat, j: nat)
    requires i in Claim(rows, limit, cap, exclude, now) && j !in Claim(rows, limit, cap, exclude, now)
    requires Claimable(rows, j, cap, exclude, now)
    ensures i < |rows| && Outranks(rows, i, j) && (Outranks(rows, j, i) ==> i < j)
  {
    ClaimableIsEligible(rows, j, cap, exclude, now);
    ClaimedComesFirst(rows, limit, cap, exclude, now, i, j);
    ClaimTakesPrefixes(rows, limit, cap, exclude, now);
    FeedPriorityIs(rows, i);
    FeedPriorityIs(rows, j);
    if Outranks(rows, j, i) {
      var x: nat :| Waits(rows, x, rows[j].feed)
        && forall y: nat :: Waits(rows, y, rows[i].feed) ==> rows[y].priority <= rows[x].priority;
      var y: nat :| Waits(rows, y, rows[i].feed) && rows[y].priority == FeedPriority(rows, i);
    }
  }

  function ClaimableRows(rows: Rows, cap: nat, exclude: set<string>, now: int): set<nat> {
    set i: nat | i < |rows| && Claimable(rows, i, cap, exclude, now)
  }

  /** Some element of a non-empty set of rows comes before all the others. */
  lemma {:induction false} FirstOne(rows: Rows, ids: set<nat>) returns (first: nat)
    requires ids != {} && forall i: nat :: i in ids ==> i < |rows|
    ensures first in ids && forall i: nat :: i in ids && i != first ==> Before(rows, first, i)
    decreases |ids|
  {
    var x: nat :| x in ids;
    if ids == {x} {
      first := x;
    } else {
      var y := FirstOne(rows, ids - {x});
      assert forall i: nat :: i in ids <==> i in ids - {x} || i == x;
      first := if Before(rows, x, y) then x else y;
    }
  }

  lemma AheadIsClaimed(rows: Rows, cap: nat, exclude: set<string>, now: int, ids: set<nat>, first: nat)
    requires first < |rows|
    requires forall j: nat :: j < |rows| && Eligible(rows, j, cap, exclude, now) && j !in ids && j != first ==>
               Before(rows, first, j)
    ensures Ahead(rows, first, cap, exclude, now) <= ids
  {
    forall j: nat | j in Ahead(rows, first, cap, exclude, now)
      ensures j in ids
    {
      assert Before(rows, j, first);
    }
  }

  /** A claim takes only claimable rows, and as many as there are up to its limit. */
  lemma ClaimIsFull(rows: Rows, limit: nat, cap: nat, exclude: set<string>, now: int)
    ensures var ids, all := Claim(rows, limit, cap, exclude, now), ClaimableRows(rows, cap, exclude, now);
      (forall i: nat :: i in ids ==> i in all) && |ids| == if |all| < limit then |all| else limit
  {
    var ids, all := Claim(rows, limit, cap, exclude, now), ClaimableRows(rows, cap, exclude, now);
    ClaimedIsPicked(rows, limit, cap, exclude, now, |rows|);
    AscendingSize(ids);
    ClaimRespectsLimit(rows, limit, cap, exclude, now);
    forall i: nat
      ensures Claimable(rows, i, cap, exclude, now) <==> Eligible(rows, i, cap, exclude, now)
    {
      ClaimableIsEligible(rows, i, cap, exclude, now);
    }
    SubsetIsSmaller(Members(ids), all);
    var rest := all - Members(ids);
    if rest != {} {
      var first := FirstOne(rows, rest);
      AheadIsClaimed(rows, cap, exclude, now, Members(ids), first);
      SubsetIsSmaller(Ahead(rows, first, cap, exclude, now), Members(ids));
    } else {
      forall i: nat | i in all
        ensures i in Members(ids)
      {
        assert i !in rest;
      }
      SubsetIsSmaller(all, Members(ids));
    }
  }

  // ---------------------------------------------------------------------------
  // The repository
  // ---------------------------------------------------------------------------

  class OraclePublishQueueRepository {
    var rows: Rows

    constructor ()
      ensures rows == []
    {
      rows := [];
    }

    method InsertDecision(key: string, feed: string, value: int, priority: int, now: int) returns (inserted: bool)
      modifies this
      ensures rows == Enqueue(old(rows), key, feed, value, priority, now)
      ensures inserted <==> forall i :: 0 <= i < |old(rows)| ==> old(rows)[i].key != key
      ensures rows == old(rows) + if inserted then [Row(key, feed, value, priority, Pending, 0, None, now)] else []
    {
      for i := 0 to |rows|
        invariant forall k :: 0 <= k < i ==> rows[k].key != key
        invariant rows == old(rows)
      {
        if rows[i].key == key {
          return false;
        }
      }
      rows := rows + [Row(key, feed, value, priority, Pending, 0, None, now)];
      inserted := true;
    }

    method ClaimBatch(limit: nat, cap: nat, exclude: set<string>, now: int) returns (ids: seq<nat>)
      modifies this
      ensures ids == Claim(old(rows), limit, cap, exclude, now)
      ensures rows == MarkInflight(old(rows), ids)
      ensures forall i: nat :: i in ids ==> Claimable(old(rows), i, cap, exclude, now)
      ensures |ids| <= limit && Ascending(ids)
      ensures forall i, e :: i in ids && 0 <= e < i < |old(rows)| && OpenPeer(old(rows), e, i) ==> e in ids
    {
      ids := [];
      for i := 0 to |rows|
        invariant ids == Claimed(rows, limit, cap, exclude, now, i)
        invariant rows == old(rows)
      {
        if Picked(rows, i, limit, cap, exclude, now) {
          ids := ids + [i];
        }
      }
      ClaimTakesPrefixes(rows, limit, cap, exclude, now);
      ClaimRespectsLimit(rows, limit, cap, exclude, now);
      ClaimIsFull(rows, limit, cap, exclude, now);
      MarkInflightRows(ids);
    }

    method MarkInflightRows(ids: seq<nat>)
      modifies this
      ensures rows == MarkInflight(old(rows), ids)
    {
      ghost var was := rows;
      for i := 0 to |rows|
        invariant |rows| == |was|
        invariant forall k :: 0 <= k < |was| ==> rows[k] == if k < i then MarkInflight(was, ids)[k] else was[k]
      {
        if i in ids {
          rows := rows[i := rows[i].(status := Inflight, attempts := rows[i].attempts + 1)];
        }
      }
    }

    method MarkPublishedRows(ids: seq<nat>, hash: Hash)
      modifies this
      ensures rows == MarkPublished(old(rows), ids, hash)
    {
      ghost var was := rows;
      for i := 0 to |rows|
        invariant |rows| == |was|
        invariant forall k :: 0 <= k < |was| ==> rows[k] == if k < i then MarkPublished(was, ids, hash)[k] else was[k]
      {
        if i in ids {
          rows := rows[i := rows[i].(status := Published, hash := Some(hash))];
        }
      }
    }

    method ReleaseRows(ids: seq<nat>, due: int, hash: Option<Hash>)
      modifies this
      ensures rows == Release(old(rows), ids, due, hash)
    {
      ghost var was := rows;
      for i := 0 to |rows|
        invariant |rows| == |was|
        invariant forall k :: 0 <= k < |was| ==> rows[k] == if k < i then Release(was, ids, due, hash)[k] else was[k]
      {
        if i in ids {
          rows := rows[i := rows[i].(status := Pending, hash := Coalesce(hash, rows[i].hash), nextAttemptAt := due)];
        }
      }
    }

    method MarkFailedRows(ids: seq<nat>)
      modifies this
      ensures rows == MarkFailed(old(rows), ids)
    {
      ghost var was := rows;
      for i := 0 to |rows|
        invariant |rows| == |was|
        invariant forall k :: 0 <= k < |was| ==> rows[k] == if k < i then MarkFailed(was, ids)[k] else was[k]
      {
        if i in ids {
          rows := rows[i := rows[i].(status := Failed)];
        }
      }
    }
  }
}
