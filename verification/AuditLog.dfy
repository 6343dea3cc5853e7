/**
 The hash-chained audit log: appending and restarting keep the chain, and what the chain can and cannot detect.
 The hash is a parameter; it is taken over the previous digest and the entry's canonical text.
 */
module AuditLog {
  import opened Basics

  type Digest = int

  /** Everything of an entry but its own hash; `content` stands for time, actor, event and details. */
  datatype Body = Body(seqNo: int, content: int, prevHash: Digest)

  datatype Entry = Entry(body: Body, hash: Digest)

  const GENESIS: Digest := 0

  type Hash = (Digest, Body) -> Digest

  function LastHash(log: seq<Entry>): Digest {
    if log == [] then GENESIS else log[|log| - 1].hash
  }

  /** Every entry names the hash before it, and its own hash is right. */
  predicate Chained(hash: Hash, log: seq<Entry>) {
    forall i | 0 <= i < |log| :: Linked(hash, LastHash(log[..i]), log[i])
  }

  predicate Linked(hash: Hash, previous: Digest, e: Entry) {
    e.body.prevHash == previous && e.hash == hash(previous, e.body)
  }

  predicate Consecutive(log: seq<Entry>) {
    forall i | 0 <= i < |log| :: log[i].body.seqNo == i + 1
  }

  /** `verify_chain`. */
  method VerifyChain(hash: Hash, log: seq<Entry>) returns (ok: bool)
    ensures ok <==> Chained(hash, log)
  {
    var expected := GENESIS;
    for i := 0 to |log|
      invariant expected == LastHash(log[..i])
      invariant forall j | 0 <= j < i :: Linked(hash, LastHash(log[..j]), log[j])
    {
      var e := log[i];
      if e.body.prevHash != expected || hash(expected, e.body) != e.hash {
        assert !Linked(hash, LastHash(log[..i]), log[i]);
        return false;
      }
      assert log[..i + 1][|log[..i + 1]| - 1] == e;
      expected := e.hash;
    }
    return true;
  }

  lemma ChainedSnoc(hash: Hash, log: seq<Entry>, e: Entry)
    ensures Chained(hash, log + [e]) <==> Chained(hash, log) && Linked(hash, LastHash(log), e)
  {
    var more := log + [e];
    assert more[..|log|] == log && more[|log|] == e;
    assert forall i | 0 <= i < |log| :: more[..i] == log[..i] && more[i] == log[i];
    if Chained(hash, more) {
      assert Linked(hash, LastHash(more[..|log|]), more[|log|]);
      assert forall i | 0 <= i < |log| :: Linked(hash, LastHash(more[..i]), more[i]);
    }
  }

  function NextSeq(log: seq<Entry>): int {
    if log == [] then 1 else log[|log| - 1].body.seqNo + 1
  }

  class Log {
    const hash: Hash
    var file: seq<Entry>
    var nextSeq: int
    var lastHash: Digest

    /** The instance stands at the end of its file. */
    ghost predicate Valid()
      reads this
    {
      nextSeq == NextSeq(file) && lastHash == LastHash(file)
    }

    /** A new instance continues from the last entry it finds, whatever is in the file. */
    constructor (hash: Hash, file: seq<Entry>)
      ensures Valid() && this.file == file && this.hash == hash
    {
      this.hash, this.file := hash, file;
      nextSeq := if file == [] then 1 else file[|file| - 1].body.seqNo + 1;
      lastHash := if file == [] then GENESIS else file[|file| - 1].hash;
    }

    /** A chain that verifies still does afterwards, and one that was broken stays broken. */
    method Append(content: int)
      requires Valid()
      modifies this
      ensures Valid() && |file| == |old(file)| + 1 && file[..|old(file)|] == old(file) && file[|old(file)|].body.content == content
      ensures Chained(hash, file) <==> Chained(hash, old(file))
      ensures Consecutive(file) <==> Consecutive(old(file))
    {
      var body := Body(nextSeq, content, lastHash);
      var e := Entry(body, hash(lastHash, body));
      ChainedSnoc(hash, file, e);
      ConsecutiveSnoc(file, e);
      file, nextSeq, lastHash := file + [e], nextSeq + 1, e.hash;
    }
  }

  lemma ConsecutiveSnoc(log: seq<Entry>, e: Entry)
    requires e.body.seqNo == NextSeq(log)
    ensures Consecutive(log + [e]) <==> Consecutive(log)
  {
    assert forall i | 0 <= i < |log| :: (log + [e])[i] == log[i];
  }

  datatype Action = Append(content: int) | Restart

  /** The contents appended by a run, in order. */
  function Contents(actions: seq<Action>): seq<int> {
    if actions == [] then []
    else
      var last := actions[|actions| - 1];
      Contents(actions[..|actions| - 1]) + if last.Append? then [last.content] else []
  }

  predicate Holds(file: seq<Entry>, contents: seq<int>) {
    |file| == |contents| && forall i | 0 <= i < |file| :: file[i].body.content == contents[i]
  }

  /** After any run of appends and restarts the chain verifies, numbered from one, holding what was appended. */
  method Run(hash: Hash, actions: seq<Action>) returns (file: seq<Entry>)
    ensures Chained(hash, file) && Consecutive(file) && Holds(file, Contents(actions))
  {
    var log := new Log(hash, []);
    for i := 0 to |actions|
      invariant log.Valid() && fresh(log) && log.hash == hash && Chained(hash, log.file) && Consecutive(log.file)
      invariant Holds(log.file, Contents(actions[..i]))
    {
      assert actions[..i + 1][..i] == actions[..i];
      match actions[i]
      case Append(content) => log.Append(content);
      case Restart => log := new Log(hash, log.file);
    }
    assert actions[..|actions|] == actions;
    file := log.file;
  }

  // ---------- what the chain detects ----------

  ghost predicate CollisionFree(hash: Hash) {
    forall p, q, b, c | hash(p, b) == hash(q, c) :: p == q && b == c
  }

  /** Two verifying logs of one length with the same last hash are the same log. */
  lemma {:induction false} SameHeadSameLog(hash: Hash, a: seq<Entry>, b: seq<Entry>)
    requires CollisionFree(hash) && Chained(hash, a) && Chained(hash, b) && |a| == |b| && LastHash(a) == LastHash(b)
    ensures a == b
  {
    if a != [] {
      var n := |a| - 1;
      assert a == a[..n] + [a[n]] && b == b[..n] + [b[n]];
      ChainedSnoc(hash, a[..n], a[n]);
      ChainedSnoc(hash, b[..n], b[n]);
      SameHeadSameLog(hash, a[..n], b[..n]);
    }
  }

  /**
   With a hash that never yields the genesis digest, the last hash alone determines the whole log: no entry can be
   altered, removed, inserted or moved without also changing the end of the log.
   */
  lemma {:induction false} LastHashDetermines(hash: Hash, a: seq<Entry>, b: seq<Entry>)
    requires CollisionFree(hash) && (forall p, c :: hash(p, c) != GENESIS)
    requires Chained(hash, a) && Chained(hash, b) && LastHash(a) == LastHash(b)
    ensures a == b
  {
    if a != [] {
      assert a == a[..|a| - 1] + [a[|a| - 1]];
      ChainedSnoc(hash, a[..|a| - 1], a[|a| - 1]);
    }
    if b != [] {
      assert b == b[..|b| - 1] + [b[|b| - 1]];
      ChainedSnoc(hash, b[..|b| - 1], b[|b| - 1]);
    }
    if a != [] && b != [] {
      LastHashDetermines(hash, a[..|a| - 1], b[..|b| - 1]);
    }
  }

  /** Cutting off the end is never detected: every prefix of a verifying log verifies. */
  lemma TruncationUndetected(hash: Hash, log: seq<Entry>, n: nat)
    requires Chained(hash, log) && n <= |log|
    ensures Chained(hash, log[..n]) && (Consecutive(log) ==> Consecutive(log[..n]))
  {
    forall i | 0 <= i < n
      ensures Linked(hash, LastHash(log[..n][..i]), log[..n][i])
    {
      assert log[..n][..i] == log[..i];
      assert Linked(hash, LastHash(log[..i]), log[i]);
    }
  }

  /**
   Whatever is made of a verifying log's own entries, by leaving out, repeating or moving any of them, verifies if and
   only if it is a prefix of the log: only cutting off the end goes undetected (under such a hash).
   */
  lemma RearrangedIff(hash: Hash, log: seq<Entry>, doctored: seq<Entry>)
    requires CollisionFree(hash) && (forall p, c :: hash(p, c) != GENESIS)
    requires Chained(hash, log) && forall e | e in doctored :: e in log
    ensures Chained(hash, doctored) <==> doctored <= log
  {
    if doctored <= log {
      assert doctored == log[..|doctored|];
      TruncationUndetected(hash, log, |doctored|);
    }
    if Chained(hash, doctored) && doctored != [] {
      assert doctored[|doctored| - 1] in doctored;
      VerifyingIsPrefix(hash, log, doctored);
    }
  }

  lemma VerifyingIsPrefix(hash: Hash, log: seq<Entry>, doctored: seq<Entry>)
    requires CollisionFree(hash) && (forall p, c :: hash(p, c) != GENESIS)
    requires Chained(hash, log) && Chained(hash, doctored) && doctored != [] && LastHash(doctored) in Hashes(log)
    ensures doctored <= log
  {
    var i :| 0 <= i < |log| && log[i].hash == LastHash(doctored);
    TruncationUndetected(hash, log, i + 1);
    assert LastHash(log[..i + 1]) == log[i].hash;
    LastHashDetermines(hash, doctored, log[..i + 1]);
  }

  function Hashes(log: seq<Entry>): set<Digest> {
    set i | 0 <= i < |log| :: log[i].hash
  }
}
