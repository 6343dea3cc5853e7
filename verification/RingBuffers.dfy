/** The ring buffers as the process holds them: objects updated in place, one per stream key. */
module RingBuffers {
  import opened Basics
  import opened StreamStore

  /** How many of `depth` samples a drain limited to `maxItems` takes. */
  function Count(depth: nat, maxItems: Option<int>): nat {
    if maxItems.None? || maxItems.value >= depth then depth else if maxItems.value < 0 then 0 else maxItems.value
  }

  function Met(found: Option<Buffer>, maxDepth: nat, isAlarm: bool): Buffer {
    if found.Some? then found.value else Buffer(maxDepth, isAlarm, [])
  }

  /** The buffer a push leaves behind, whatever it found. */
  function After(found: Option<Buffer>, maxDepth: nat, x: Sample, isAlarm: bool): Buffer {
    var b := Met(found, maxDepth, isAlarm);
    match Decide(b)
    case Stored => b.(items := b.items + [x])
    case Backpressure => b
    case Evicted(_) => b.(items := b.items[1..] + [x])
  }

  /** It is the buffer the stream model has after the same push. */
  lemma AfterIsPush(st: Stream, maxDepth: nat, x: Sample, isAlarm: bool, hushed: set<TagId>)
    requires maxDepth >= 1
    ensures StreamStore.Push(st, maxDepth, x, isAlarm, hushed).buffer == Some(After(st.buffer, maxDepth, x, isAlarm))
  {
  }

  function Head(items: seq<Sample>, maxItems: Option<int>): seq<Sample> {
    items[..Count(|items|, maxItems)]
  }

  function Tail(items: seq<Sample>, maxItems: Option<int>): seq<Sample> {
    items[Count(|items|, maxItems)..]
  }

  /** What `drain_all` returns: streams in the order their buffers were created, each oldest first. */
  function Gathered(contents: seq<seq<Sample>>, maxItems: Option<int>): seq<Sample> {
    if contents == [] then []
    else Gathered(contents[..|contents| - 1], maxItems) + Head(contents[|contents| - 1], maxItems)
  }

  /** A stream's share of an unlimited drain: everything it holds becomes live, and nothing is left. */
  lemma DrainIsDrainAll(st: Stream)
    ensures Items(StreamStore.Drain(st)) == Tail(Items(st), None)
    ensures StreamStore.Drain(st).live == st.live + Head(Items(st), None)
    ensures st.buffer.Some? ==> StreamStore.Drain(st).buffer == Some(st.buffer.value.(items := []))
  {
  }

  /** Without a limit the batch is all the contents, stream after stream. */
  lemma {:induction false} GatheredAll(contents: seq<seq<Sample>>)
    ensures Gathered(contents, None) == Flatten(contents)
  {
    if contents != [] {
      var front, last := contents[..|contents| - 1], contents[|contents| - 1];
      GatheredAll(front);
      assert contents == front + [last];
      FlattenAppend(front, [last]);
      assert Flatten([last]) == last + Flatten([]) == last;
      assert Head(last, None) == last;
    }
  }

  lemma GatheredSnoc(contents: seq<seq<Sample>>, maxItems: Option<int>, i: nat)
    requires i < |contents|
    ensures Gathered(contents[..i + 1], maxItems) == Gathered(contents[..i], maxItems) + Head(contents[i], maxItems)
  {
    assert contents[..i + 1][..i] == contents[..i];
  }

  class RingBuffer {
    const maxDepth: nat
    const isAlarm: bool
    var items: seq<Sample>
    var evictedCount: nat
    ghost var pushed: seq<Sample>
    ghost var removed: seq<Sample>

    ghost predicate Valid()
      reads this
    {
      maxDepth >= 1 && |items| <= maxDepth && pushed == removed + items
    }

    ghost function View(): Buffer
      reads this
    {
      Buffer(maxDepth, isAlarm, items)
    }

    constructor (maxDepth: nat, isAlarm: bool)
      requires maxDepth >= 1
      ensures Valid() && View() == Buffer(maxDepth, isAlarm, []) && pushed == [] && evictedCount == 0
    {
      this.maxDepth, this.isAlarm, items, evictedCount, pushed, removed := maxDepth, isAlarm, [], 0, [], [];
    }

    method Push(x: Sample) returns (r: Pushed)
      requires Valid()
      modifies this
      ensures Valid()
      ensures View() == After(Some(old(View())), maxDepth, x, isAlarm) && r == Decide(old(View()))
      ensures pushed == old(pushed) + if r == Backpressure then [] else [x]
      ensures evictedCount == old(evictedCount) + if r.Evicted? then 1 else 0
    {
      r := Stored;
      if |items| >= maxDepth {
        if isAlarm {
          return Backpressure;
        }
        r := Evicted(items[0]);
        removed, items := removed + [items[0]], items[1..];
        evictedCount := evictedCount + 1;
      }
      items, pushed := items + [x], pushed + [x];
    }

    method Drain(maxItems: Option<int>) returns (taken: seq<Sample>)
      requires Valid()
      modifies this`items, this`removed
      ensures Valid()
      ensures var n := Count(|old(items)|, maxItems); taken == old(items)[..n] && items == old(items)[n..]
      ensures removed == old(removed) + taken
    {
      var n := Count(|items|, maxItems);
      taken := [];
      for i := 0 to n
        invariant taken == old(items)[..i] && items == old(items)[i..] && removed == old(removed) + taken
        invariant Valid()
      {
        taken := taken + [items[0]];
        removed, items := removed + [items[0]], items[1..];
      }
    }
  }

  /** The position of a key, or the number of keys when it is not there. */
  function IndexOf(keys: seq<Key>, key: Key): (i: nat)
    ensures i <= |keys| && (i < |keys| ==> keys[i] == key) && (i == |keys| ==> key !in keys)
  {
    if keys == [] then 0 else if keys[0] == key then 0 else 1 + IndexOf(keys[1..], key)
  }

  /** Keys are distinct, so a key's position is wherever it is found. */
  lemma {:induction false} IndexUnique(keys: seq<Key>, key: Key, i: nat)
    requires (forall i, j | 0 <= i < j < |keys| :: keys[i] != keys[j]) && i <= |keys|
    requires if i < |keys| then keys[i] == key else key !in keys
    ensures IndexOf(keys, key) == i
  {
  }

  /** The dictionary of buffers, kept in insertion order: `keys[i]` maps to `values[i]`. */
  class RingBufferManager {
    const maxDepth: nat
    var keys: seq<Key>
    var values: seq<RingBuffer>

    ghost predicate Valid()
      reads this, values
    {
      && maxDepth >= 1 && |keys| == |values|
      && (forall i, j | 0 <= i < j < |keys| :: keys[i] != keys[j])
      && (forall i, j | 0 <= i < j < |values| :: values[i] != values[j])
      && (forall i | 0 <= i < |values| :: values[i].Valid())
    }

    constructor (maxDepth: nat)
      requires maxDepth >= 1
      ensures Valid() && keys == [] && this.maxDepth == maxDepth
    {
      this.maxDepth, keys, values := maxDepth, [], [];
    }

    /** The position of a stream's buffer, or the number of streams when it has none. */
    method Find(key: Key) returns (i: nat)
      requires Valid()
      ensures i <= |keys| && (i < |keys| ==> keys[i] == key) && (i == |keys| ==> key !in keys)
    {
      i := 0;
      while i < |keys| && keys[i] != key
        invariant i <= |keys| && key !in keys[..i]
      {
        i := i + 1;
      }
      assert keys[..|keys|] == keys;
    }

    /** The stream's buffer, created on first use with the tier that push asked for. */
    method Open(key: Key, isAlarm: bool) returns (i: nat)
      requires Valid()
      modifies this
      ensures Valid() && i < |keys| && keys[i] == key
      ensures key in old(keys) ==> keys == old(keys) && values == old(values)
      ensures key !in old(keys) ==> i == |old(keys)| && keys == old(keys) + [key]
      ensures key !in old(keys) ==> values == old(values) + [values[i]] && fresh(values[i])
      ensures key !in old(keys) ==> values[i].View() == Buffer(maxDepth, isAlarm, []) && values[i].pushed == []
    {
      i := Find(key);
      if i == |keys| {
        var b := new RingBuffer(maxDepth, isAlarm);
        keys, values := keys + [key], values + [b];
      }
    }

    method DrainAll(maxItems: Option<int>) returns (drained: seq<Sample>)
      requires Valid()
      modifies values`items, values`removed
      ensures Valid() && drained == Gathered(old(Contents()), maxItems) && DrainedTo(old(Contents()), maxItems, |values|)
    {
      ghost var before := Contents();
      drained := [];
      assert before[..0] == [] && DrainedTo(before, maxItems, 0);
      for i := 0 to |values|
        invariant Valid() && DrainedTo(before, maxItems, i) && drained == Gathered(before[..i], maxItems)
      {
        GatheredSnoc(before, maxItems, i);
        var part := DrainAt(before, maxItems, i);
        drained := drained + part;
      }
      assert before[..|before|] == before;
    }

    /** The first `n` buffers hold what a drain leaves of `before`; the others still hold all of it. */
    ghost predicate DrainedTo(before: seq<seq<Sample>>, maxItems: Option<int>, n: nat)
      reads this, values
    {
      && |before| == |values| && n <= |values|
      && forall j | 0 <= j < |values| :: values[j].items == if j < n then Tail(before[j], maxItems) else before[j]
    }

    method DrainAt(ghost before: seq<seq<Sample>>, maxItems: Option<int>, i: nat) returns (taken: seq<Sample>)
      requires Valid() && i < |values| && DrainedTo(before, maxItems, i)
      modifies {values[i]}`items, {values[i]}`removed
      ensures Valid() && DrainedTo(before, maxItems, i + 1) && taken == Head(before[i], maxItems)
    {
      taken := values[i].Drain(maxItems);
    }

    ghost function Contents(): (c: seq<seq<Sample>>)
      reads this, values
      ensures |c| == |values| && forall i | 0 <= i < |values| :: c[i] == values[i].items
    {
      seq(|values|, i requires 0 <= i < |values| reads this, values => values[i].items)
    }

    ghost function View(key: Key): Option<Buffer>
      requires |keys| == |values|
      reads this, values
    {
      var i := IndexOf(keys, key);
      if i < |keys| then Some(values[i].View()) else None
    }

    ghost function History(key: Key): seq<Sample>
      requires |keys| == |values|
      reads this, values
    {
      var i := IndexOf(keys, key);
      if i < |keys| then values[i].pushed else []
    }

    /** Buffers other than `key`'s hold what they held. */
    twostate predicate OthersSame(key: Key)
      requires |keys| == |values| && old(|keys| == |values|)
      reads this, values
    {
      && |old(keys)| <= |keys|
      && forall j | 0 <= j < |old(keys)| ::
           && keys[j] == old(keys)[j] && values[j] == old(values)[j]
           && (keys[j] != key ==> values[j].items == old(values[j].items) && values[j].pushed == old(values[j].pushed))
    }

    /** `on_evict` is called with the sample in `r` when the oldest one had to make room. */
    method Push(key: Key, x: Sample, isAlarm: bool) returns (r: Pushed)
      requires Valid()
      modifies this, values
      ensures Valid() && OthersSame(key)
      ensures View(key) == Some(After(old(View(key)), maxDepth, x, isAlarm))
      ensures History(key) == old(History(key)) + if r == Backpressure then [] else [x]
      ensures r == Decide(Met(old(View(key)), maxDepth, isAlarm))
      ensures key in old(keys) ==> keys == old(keys) && values == old(values)
    {
      ghost var was := View(key);
      IndexUnique(keys, key, IndexOf(keys, key));
      var i := Open(key, isAlarm);
      IndexUnique(keys, key, i);
      assert Some(values[i].View()) == Some(Met(was, maxDepth, isAlarm));
      r := PushAt(i, x);
    }

    method PushAt(i: nat, x: Sample) returns (r: Pushed)
      requires Valid() && i < |values|
      modifies values[i]
      ensures Valid() && values[i].View() == After(Some(old(values[i].View())), maxDepth, x, false)
      ensures r == Decide(old(values[i].View()))
      ensures values[i].pushed == old(values[i].pushed) + if r == Backpressure then [] else [x]
      ensures forall j | 0 <= j < |values| && j != i :: values[j].items == old(values[j].items) && values[j].pushed == old(values[j].pushed)
    {
      r := values[i].Push(x);
    }

    /** The stream has a buffer, and it refuses the next sample. */
    ghost predicate Refuses(key: Key)
      requires |keys| == |values|
      reads this, values
    {
      View(key).Some? && Decide(View(key).value) == Backpressure
    }

    /** The first attempt, before any sleep. */
    method FirstTry(key: Key, x: Sample, isAlarm: bool) returns (stored: bool)
      requires Valid()
      modifies this, values
      ensures Valid() && (stored <==> Decide(Met(old(View(key)), maxDepth, isAlarm)) != Backpressure)
      ensures History(key) == old(History(key)) + if stored then [x] else []
      ensures stored || (Refuses(key) && values == old(values))
    {
      assert View(key).None? ==> Decide(Met(View(key), maxDepth, isAlarm)) == Stored;
      var r := Push(key, x, isAlarm);
      stored := r != Backpressure;
    }

    /**
     `_push_with_backpressure_retry`, followed through the sleeps after which `drained` tells whether the
     dispatcher gathered in the meantime. The sample goes in exactly once, and it goes in as soon as there is room.
     */
    method PushWithRetry(key: Key, x: Sample, isAlarm: bool, drained: seq<bool>) returns (done: bool)
      requires Valid()
      modifies this, values
      ensures Valid()
      ensures done <==> Decide(Met(old(View(key)), maxDepth, isAlarm)) != Backpressure || true in drained
      ensures History(key) == old(History(key)) + if done then [x] else []
    {
      done := FirstTry(key, x, isAlarm);
      if !done {
        done := RetryThrough(key, x, isAlarm, drained);
      }
    }

    method RetryThrough(key: Key, x: Sample, isAlarm: bool, drained: seq<bool>) returns (done: bool)
      requires Valid() && Refuses(key)
      modifies this, values
      ensures Valid() && (done <==> true in drained) && History(key) == old(History(key)) + if done then [x] else []
    {
      for t := 0 to |drained|
        invariant Valid() && StillFull(key) && Refuses(key) && true !in drained[..t]
      {
        if drained[t] {
          RetryAfterDrain(key, x, isAlarm);
          return true;
        }
        RetryInVain(key, x, isAlarm);
      }
      assert drained[..|drained|] == drained;
      return false;
    }

    /**
     The same loop to its end, given that the dispatcher gathers at all: during the sleep after `quiet` ones without a
     gathering. The sample goes in exactly once, at once if there is room, and otherwise right after that sleep.
     */
    method PushUntilStored(key: Key, x: Sample, isAlarm: bool, quiet: nat) returns (sleeps: nat)
      requires Valid()
      modifies this, values
      ensures Valid() && History(key) == old(History(key)) + [x]
      ensures sleeps == if Decide(Met(old(View(key)), maxDepth, isAlarm)) == Backpressure then quiet + 1 else 0
    {
      sleeps := 0;
      var stored := FirstTry(key, x, isAlarm);
      if !stored {
        sleeps := WaitForRoom(key, x, isAlarm, quiet);
      }
    }

    method WaitForRoom(key: Key, x: Sample, isAlarm: bool, quiet: nat) returns (sleeps: nat)
      requires Valid() && Refuses(key)
      modifies this, values
      ensures Valid() && History(key) == old(History(key)) + [x] && sleeps == quiet + 1
    {
      sleeps := 0;
      while sleeps < quiet
        invariant Valid() && StillFull(key) && Refuses(key) && sleeps <= quiet
      {
        RetryInVain(key, x, isAlarm);
        sleeps := sleeps + 1;
      }
      RetryAfterDrain(key, x, isAlarm);
      sleeps := sleeps + 1;
    }

    /** Nothing happened to the stream's buffer, and it is the same object. */
    twostate predicate StillFull(key: Key)
      requires |keys| == |values| && old(|keys| == |values|)
      reads this, values
    {
      && keys == old(keys) && values == old(values)
      && History(key) == old(History(key)) && View(key) == old(View(key))
    }

    method RetryInVain(key: Key, x: Sample, isAlarm: bool)
      requires Valid() && Refuses(key)
      modifies this, values
      ensures Valid() && StillFull(key)
    {
      assert key in keys && Met(View(key), maxDepth, isAlarm) == View(key).value;
      var r := Push(key, x, isAlarm);
    }

    method RetryAfterDrain(key: Key, x: Sample, isAlarm: bool)
      requires Valid() && View(key).Some?
      modifies this, values
      ensures Valid() && History(key) == old(History(key)) + [x]
    {
      EmptyAll(key);
      var r := Push(key, x, isAlarm);
    }

    method EmptyAll(key: Key)
      requires Valid() && View(key).Some?
      modifies values`items, values`removed
      ensures Valid() && History(key) == old(History(key)) && View(key).Some? && Decide(View(key).value) == Stored
    {
      ghost var i, before := IndexOf(keys, key), Contents();
      assert Tail(before[i], None) == [];
      var batch := DrainAll(None);
      assert values[i].Valid() && values[i].items == Tail(before[i], None);
    }
  }
}
