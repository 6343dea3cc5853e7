/** The dispatcher's replay loop over the cold store, followed through one uninterrupted call. */
module Replay {
  import opened Basics
  import opened StreamStore
  import opened StoreForward

  /** Deleting the ids of the oldest rows leaves the younger ones. */
  lemma WithoutPrefix(rows: seq<Row>, n: nat)
    requires Increasing(rows) && n <= |rows|
    ensures Without(rows, Ids(rows[..n])) == rows[n..]
  {
    var ids := Ids(rows[..n]);
    YoungerIds(rows, n);
    assert rows == rows[..n] + rows[n..];
    WithoutSplit(rows[..n], rows[n..], ids);
  }

  lemma WithoutSplit(a: seq<Row>, b: seq<Row>, ids: set<nat>)
    requires (forall r | r in a :: r.id in ids) && (forall r | r in b :: r.id !in ids)
    ensures Without(a + b, ids) == b
  {
    FilterAppend(a, b, (r: Row) => r.id !in ids);
    FilterNone(a, (r: Row) => r.id !in ids);
    FilterAll(b, (r: Row) => r.id !in ids);
  }

  lemma YoungerIds(rows: seq<Row>, n: nat)
    requires Increasing(rows) && n <= |rows|
    ensures forall r | r in rows[n..] :: r.id !in Ids(rows[..n])
  {
    forall r | r in rows[n..]
      ensures r.id !in Ids(rows[..n])
    {
      var j :| 0 <= j < |rows[n..]| && rows[n..][j] == r;
      assert rows[n + j] == r;
    }
  }

  /** The first `n` publishes were delivered, and unless `o` says so too, the next one ended with `o`. */
  ghost predicate Answered(answers: nat -> Outcome, n: nat, o: Outcome) {
    (forall i: nat | i < n :: answers(i) == Delivered) && (o != Delivered ==> answers(n) == o)
  }

  /** How many publishes of at most `size` rows it takes to send `rows` rows. */
  function Batches(rows: nat, size: nat): nat
    requires size >= 1
    decreases rows
  {
    if rows == 0 then 0 else 1 + Batches(if rows <= size then 0 else rows - size, size)
  }

  /** As few as there can be. */
  lemma {:induction false} BatchesFewest(rows: nat, size: nat, n: nat)
    requires size >= 1
    ensures Batches(rows, size) <= n <==> rows <= n * size
    decreases rows
  {
    if rows > 0 && n > 0 {
      assert n * size == (n - 1) * size + size;
      BatchesFewest(if rows <= size then 0 else rows - size, size, n - 1);
    }
  }

  /** After `done` full batches of `rows` rows, `left` rows are left. */
  ghost predicate Remaining(rows: nat, done: nat, left: nat, size: nat) {
    size >= 1 ==> done + Batches(left, size) == Batches(rows, size)
  }

  /** A full batch went, or everything that was left. */
  predicate Shorter(rows: nat, left: nat, size: nat) {
    rows > 0 && size > 0 && left == if rows <= size then 0 else rows - size
  }

  lemma OneBatch(rows: nat, done: nat, left: nat, size: nat)
    requires Remaining(rows, done, left, size)
    ensures forall after: nat | Shorter(left, after, size) :: Remaining(rows, done + 1, after, size)
  {
  }

  class ReplayLoop {
    var connected: bool
    var tables: map<Key, seq<Row>>
    ghost var sent: map<Key, seq<Row>>

    /** What was published of each stream, then what is still there, is what was there. */
    ghost predicate Valid(all: map<Key, seq<Row>>)
      reads this
    {
      && tables.Keys == sent.Keys == all.Keys
      && forall k | k in all :: Increasing(all[k]) && sent[k] + tables[k] == all[k]
    }

    /** One stream, after `from` publishes; `n` counts the delivered ones. */
    method ReplayStream(ghost all: map<Key, seq<Row>>, k: Key, batchSize: nat, answers: nat -> Outcome, from: nat)
      returns (n: nat, o: Outcome)
      requires Valid(all) && k in all && Answered(answers, from, Delivered)
      modifies this
      ensures Valid(all) && Answered(answers, n, o) && connected == (old(connected) && o != Failed)
      ensures Elsewhere(k, old(tables))
      ensures o == Delivered && batchSize >= 1 ==> tables[k] == [] && n == from + Batches(|old(tables)[k]|, batchSize)
    {
      n, o := from, Delivered;
      ghost var rows := |tables[k]|;
      var more := true;
      while more
        invariant Valid(all) && Answered(answers, n, Delivered) && Elsewhere(k, old(tables)) && o == Delivered
        invariant connected == old(connected) && n >= from && Remaining(rows, n - from, |tables[k]|, batchSize)
        invariant !more && batchSize >= 1 ==> tables[k] == []
        decreases more, |tables[k]|
      {
        ghost var left := |tables[k]|;
        more, o := ReplayBatch(all, k, batchSize, answers, n);
        if o != Delivered {
          return;
        }
        if more {
          OneBatch(rows, n - from, left, batchSize);
          n := n + 1;
        }
      }
    }

    /** One round: nothing is left to publish, or the oldest rows go out and are deleted if they were delivered. */
    method ReplayBatch(ghost all: map<Key, seq<Row>>, k: Key, batchSize: nat, answers: nat -> Outcome, n: nat)
      returns (more: bool, o: Outcome)
      requires Valid(all) && k in all && Answered(answers, n, Delivered)
      modifies this
      ensures Valid(all) && Elsewhere(k, old(tables)) && connected == (old(connected) && o != Failed)
      ensures !more ==> o == Delivered && tables == old(tables) && (batchSize >= 1 ==> tables[k] == [])
      ensures o != Delivered ==> Answered(answers, n, o) && tables == old(tables)
      ensures more && o == Delivered ==> Answered(answers, n + 1, Delivered) && Shorter(|old(tables)[k]|, |tables[k]|, batchSize)
    {
      more, o := true, Delivered;
      var size := if |tables[k]| <= batchSize then |tables[k]| else batchSize;
      if size == 0 {
        return false, Delivered;
      }
      o := answers(n);
      if o != Delivered {
        connected := connected && o != Failed;
        return;
      }
      DeleteOldest(all, k, size);
    }

    method DeleteOldest(ghost all: map<Key, seq<Row>>, k: Key, size: nat)
      requires Valid(all) && k in all && 0 < size <= |tables[k]|
      modifies this`tables, this`sent
      ensures Valid(all) && Elsewhere(k, old(tables)) && |tables[k]| == |old(tables)[k]| - size
    {
      var rows := tables[k];
      SuffixIncreasing(all[k], sent[k], rows);
      WithoutPrefix(rows, size);
      assert all[k] == (sent[k] + rows[..size]) + rows[size..];
      sent := sent[k := sent[k] + rows[..size]];
      tables := tables[k := Without(rows, Ids(rows[..size]))];
    }

    /**
     `_replay_cold_store`: it ends with every stream empty, or at the first publish that is not delivered, and
     then every row not yet published is still there.
     */
    method Replay(ghost all: map<Key, seq<Row>>, keys: seq<Key>, batchSize: nat, answers: nat -> Outcome)
      returns (n: nat, o: Outcome)
      requires Valid(all) && forall k | k in keys :: k in all
      modifies this
      ensures Valid(all) && Answered(answers, n, o) && connected == (old(connected) && o != Failed)
      ensures o == Delivered && batchSize >= 1 ==> Emptied(keys, |keys|)
    {
      n, o := 0, Delivered;
      for i := 0 to |keys|
        invariant Valid(all) && Answered(answers, n, Delivered) && connected == old(connected) && o == Delivered
        invariant batchSize >= 1 ==> Emptied(keys, i)
      {
        n, o := ReplayStream(all, keys[i], batchSize, answers, n);
        if o != Delivered {
          return;
        }
      }
    }

    /** Only the table of `k` differs from `was`. */
    ghost predicate Elsewhere(k: Key, was: map<Key, seq<Row>>)
      reads this
    {
      forall j | j in was && j != k :: j in tables && tables[j] == was[j]
    }

    /** Nothing is left of the first `n` streams. */
    ghost predicate Emptied(keys: seq<Key>, n: nat)
      requires n <= |keys|
      reads this
    {
      forall i | 0 <= i < n :: keys[i] in tables && tables[keys[i]] == []
    }
  }

  lemma SuffixIncreasing(all: seq<Row>, a: seq<Row>, b: seq<Row>)
    requires Increasing(all) && a + b == all
    ensures Increasing(b)
  {
    forall i, j | 0 <= i < j < |b|
      ensures b[i].id < b[j].id
    {
      assert all[|a| + i] == b[i] && all[|a| + j] == b[j];
    }
  }
}
