/** The lifecycle and pipeline passes as their methods run them. */
module StoreLifecycle {

  import opened Ordered
  import opened Wrappers
  import opened Succession
  import opened StoreTables
  import opened StoreStaging
  import opened StoreEngine

  // ------------------------------------------------------------------ merge

  ghost predicate NoRepeats(media: seq<string>) {
    forall i, j | 0 <= i < j < |media| :: media[i] != media[j]
  }

  /** What a repeat adds: only what was missing, each once; and then nothing is missing. */
  lemma {:induction false} UnseenCompletes(have: seq<string>, more: seq<string>)
    ensures forall x :: x in have + Unseen(have, more) <==> x in have || x in more
    ensures NoRepeats(have) ==> NoRepeats(have + Unseen(have, more))
    decreases |more|
  {
    if more != [] {
      if more[0] in have {
        UnseenCompletes(have, more[1..]);
      } else {
        UnseenCompletes(have + [more[0]], more[1..]);
        assert have + Unseen(have, more) == have + [more[0]] + Unseen(have + [more[0]], more[1..]);
      }
    }
  }

  /** Merging a capture that brings only what is there already changes no content. */
  lemma {:induction false} MergeAgain(existing: Record, c: Candidate)
    ensures Unseen(Merged(existing, c).content.media, c.content.media) == []
    ensures Merged(Merged(existing, c), c).content == Merged(existing, c).content
    ensures Merged(existing, c).content.text == existing.content.text && Merged(existing, c).content.parents == existing.content.parents
  {
    UnseenCompletes(existing.content.media, c.content.media);
    NothingUnseen(Merged(existing, c).content.media, c.content.media);
  }

  lemma {:induction false} NothingUnseen(have: seq<string>, more: seq<string>)
    requires forall x | x in more :: x in have
    ensures Unseen(have, more) == []
    decreases |more|
  {
    if more != [] {
      NothingUnseen(have, more[1..]);
    }
  }

  function WithUnseen(have: seq<string>, more: seq<string>): seq<string> { have + Unseen(have, more) }

  lemma {:induction false} UnseenOn(have: seq<string>, more: seq<string>)
    requires more != []
    ensures WithUnseen(have, more) == WithUnseen(if more[0] in have then have else have + [more[0]], more[1..])
  {
  }

  lemma {:induction false} UnseenSnoc(have: seq<string>, more: seq<string>, x: string)
    ensures WithUnseen(have, more + [x])
         == WithUnseen(have, more) + if x in WithUnseen(have, more) then [] else [x]
    decreases |more|
  {
    UnseenOn(have, more + [x]);
    if more == [] {
      assert (more + [x])[1..] == [];
    } else {
      UnseenOn(have, more);
      assert (more + [x])[1..] == more[1..] + [x];
      UnseenSnoc(if more[0] in have then have else have + [more[0]], more[1..], x);
    }
  }

  /** Fold a repeated capture into the row that already holds the content. */
  method MergeInto(existing: Record, repeat: Candidate) returns (merged: Record)
    ensures merged == Merged(existing, repeat)
  {
    merged := existing.(uses := if existing.uses < MAX_USES then existing.uses + 1 else existing.uses, lastUsed := repeat.created);
    if merged.updated < repeat.created {
      merged := merged.(updated := repeat.created);
    }
    if merged.content.title.None? {
      merged := merged.(content := merged.content.(title := repeat.content.title));
    }
    var have := existing.content.media;
    var media := have;
    for i := 0 to |repeat.content.media|
      invariant media == WithUnseen(have, repeat.content.media[..i])
    {
      var item := repeat.content.media[i];
      UnseenSnoc(have, repeat.content.media[..i], item);
      assert repeat.content.media[..i + 1] == repeat.content.media[..i] + [item];
      if item !in media {
        media := media + [item];
      }
    }
    assert repeat.content.media[..|repeat.content.media|] == repeat.content.media;
    merged := merged.(content := merged.content.(media := media));
  }

  // ----------------------------------------------------------- supersession

  /** The walk a supersession makes before it stages anything. */
  method CheckChain(links: map<MemoryId, MemoryId>, heir: MemoryId, prior: MemoryId) returns (check: ChainCheck)
    ensures check == WalkChain(links, heir, prior, 0)
  {
    var walker := heir;
    var steps := 0;
    while walker in links
      invariant steps <= MAX_CHAIN
      invariant WalkChain(links, heir, prior, 0) == WalkChain(links, walker, prior, steps)
      decreases MAX_CHAIN - steps
    {
      var next := links[walker];
      if next == prior {
        return ClosesCycle;
      }
      walker := next;
      steps := steps + 1;
      if steps > MAX_CHAIN {
        return TooLong;
      }
    }
    return Clear;
  }

  lemma {:induction false} WalkChainFrom(next: map<MemoryId, MemoryId>, start: MemoryId, p: seq<MemoryId>, at: MemoryId, prior: MemoryId, steps: nat)
    requires steps <= MAX_CHAIN && WalkFromTo(next, p, start, at) && prior !in p
    ensures WalkChain(next, at, prior, steps) == ClosesCycle ==> Reaches(next, start, prior)
    ensures WalkChain(next, at, prior, steps) == Clear ==> !Reaches(next, at, prior)
    decreases MAX_CHAIN - steps
  {
    if at !in next {
      assert p[|p| - 1] == at;
      forall q | Walk(next, q) && q[0] == at ensures |q| == 1 && q[|q| - 1] == at {
      }
    } else {
      var q := p + [next[at]];
      assert WalkFromTo(next, q, start, next[at]);
      if next[at] != prior && steps + 1 <= MAX_CHAIN {
        WalkChainFrom(next, start, q, next[at], prior, steps + 1);
        ReachesStep(next, at, prior);
        assert p[|p| - 1] == at;
      }
    }
  }

  lemma {:induction false} ReachesStep(next: map<MemoryId, MemoryId>, a: MemoryId, b: MemoryId)
    requires a in next && a != b
    ensures Reaches(next, a, b) ==> Reaches(next, next[a], b)
  {
    if Reaches(next, a, b) {
      var p :| WalkFromTo(next, p, a, b);
      assert WalkFromTo(next, p[1..], next[a], b);
    }
  }

  /** On one state the walk before staging and the guard at commit agree, up to the bound:
      the walk is refused exactly for a cycle the guard would refuse, or for its length. */
  lemma {:induction false} WalkAgreesWithGuard(next: map<MemoryId, MemoryId>, heir: MemoryId, prior: MemoryId)
    requires heir != prior
    ensures WalkChain(next, heir, prior, 0) == ClosesCycle ==> prior in Successors(next, heir)
    ensures WalkChain(next, heir, prior, 0) == Clear ==> prior !in Successors(next, heir)
  {
    assert WalkFromTo(next, [heir], heir, heir);
    WalkChainFrom(next, heir, [heir], heir, prior, 0);
    SuccessorsAreReachable(next, heir, prior);
  }

  // ----------------------------------------------------------------- expiry

  lemma {:induction false} PrepareSnoc(kinds: seq<Kind>, k: Kind)
    ensures PrepareExpiry(kinds + [k]) == PrepareExpiry(kinds) + [OnCounters(Adjust(Bucket(k, Expired), 0)), OnCounters(Adjust(Bucket(k, Active), 0))]
    decreases |kinds|
  {
    if kinds == [] {
      assert [k][1..] == [];
    } else {
      assert (kinds + [k])[1..] == kinds[1..] + [k];
      PrepareSnoc(kinds[1..], k);
    }
  }

  method StagePrepare(txn: TxnBuilder, kinds: seq<Kind>)
    modifies txn
    ensures txn.statements == old(txn.statements) + PrepareExpiry(kinds)
  {
    ghost var before := txn.statements;
    for i := 0 to |kinds|
      invariant txn.statements == before + PrepareExpiry(kinds[..i])
    {
      PrepareSnoc(kinds[..i], kinds[i]);
      assert kinds[..i + 1] == kinds[..i] + [kinds[i]];
      txn.Push(OnCounters(Adjust(Bucket(kinds[i], Expired), 0)));
      txn.Push(OnCounters(Adjust(Bucket(kinds[i], Active), 0)));
    }
    assert kinds[..|kinds|] == kinds;
  }

  lemma {:induction false} ExpirySnoc(kinds: seq<Kind>, ids: set<MemoryId>, k: Kind)
    ensures ExpiryCounters(kinds + [k], ids) == ExpiryCounters(kinds, ids) + [OnCounters(CountOutOfActive(k, ids)), OnCounters(CountIntoExpired(k, ids))]
    decreases |kinds|
  {
    if kinds == [] {
      assert [k][1..] == [];
    } else {
      assert (kinds + [k])[1..] == kinds[1..] + [k];
      ExpirySnoc(kinds[1..], ids, k);
    }
  }

  /** The fenced batch of one expiry pass: counters first, then the rows they counted. */
  method StageExpiry(kinds: seq<Kind>, ids: set<MemoryId>, now: nat) returns (statements: seq<Statement>)
    ensures statements == ExpiryStatements(kinds, ids, now)
  {
    statements := [];
    for i := 0 to |kinds|
      invariant statements == ExpiryCounters(kinds[..i], ids)
    {
      ExpirySnoc(kinds[..i], ids, kinds[i]);
      assert kinds[..i + 1] == kinds[..i] + [kinds[i]];
      statements := statements + [OnCounters(CountOutOfActive(kinds[i], ids)), OnCounters(CountIntoExpired(kinds[i], ids))];
    }
    assert kinds[..|kinds|] == kinds;
    statements := statements + [OnRows(Expire(ids, now))];
  }

  // ------------------------------------------------------ redigest, re-embed

  lemma {:induction false} RedigestSnoc(db: Db, ids: seq<MemoryId>, m: MemoryId)
    requires m in db.memory && forall x | x in ids :: x in db.memory
    ensures var record := db.memory[m].record;
            RedigestStatements(db, ids + [m]) == RedigestStatements(db, ids)
            + [OnRows(Redigest(m, record, FingerprintOf(record.kind, record.content)))]
    decreases |ids|
  {
    if ids == [] {
      assert [m][1..] == [];
    } else {
      assert (ids + [m])[1..] == ids[1..] + [m];
      RedigestSnoc(db, ids[1..], m);
    }
  }

  method StageRedigest(txn: TxnBuilder, db: Db, batch: nat)
    modifies txn
    ensures (forall m | m in FirstById(Undigested(db), batch) :: m in db.memory)
            && txn.statements == old(txn.statements) + RedigestStatements(db, FirstById(Undigested(db), batch))
  {
    ghost var before := txn.statements;
    var ids := FirstById(Undigested(db), batch);
    FirstByIdPicks(Undigested(db), batch);
    for i := 0 to |ids|
      invariant forall m | m in ids[..i] :: m in db.memory
      invariant txn.statements == before + RedigestStatements(db, ids[..i])
    {
      assert ids[i] in ids;
      RedigestSnoc(db, ids[..i], ids[i]);
      assert ids[..i + 1] == ids[..i] + [ids[i]];
      var record := db.memory[ids[i]].record;
      txn.Push(OnRows(Redigest(ids[i], record, FingerprintOf(record.kind, record.content))));
    }
    assert ids[..|ids|] == ids;
  }

  lemma {:induction false} ReembedSnoc(ids: seq<MemoryId>, m: MemoryId, revision: Revision, modelId: string)
    ensures ReembedStatements(ids + [m], revision, modelId) == ReembedStatements(ids, revision, modelId)
            + [Guard(MemoryLive(m)), Guard(ModelActive(revision, modelId)), OnDetails(StageWork(WorkKey(m, revision, modelId)))]
    decreases |ids|
  {
    if ids == [] {
      assert [m][1..] == [];
    } else {
      assert (ids + [m])[1..] == ids[1..] + [m];
      ReembedSnoc(ids[1..], m, revision, modelId);
    }
  }

  /** One bounded re-embedding batch: one row more than the limit is read to learn whether
      there is more; the cursor moves to the last memory staged. */
  method StageReembedding(txn: TxnBuilder, db: Db, revision: Revision, modelId: string, after: Option<MemoryId>, limit: nat)
    returns (cursor: Option<MemoryId>, more: bool)
    modifies txn
    ensures var ids := FirstById(Missing(db, revision, after), limit);
            && txn.statements == old(txn.statements) + ReembedStatements(ids, revision, modelId)
            && cursor == (if ids == [] then after else Some(ids[|ids| - 1]))
            && (more <==> |Missing(db, revision, after)| > limit)
  {
    var rows := FirstById(Missing(db, revision, after), limit + 1);
    FirstByIdPicks(Missing(db, revision, after), limit + 1);
    FirstByIdPrefix(Missing(db, revision, after), limit);
    more := |rows| > limit;
    var ids := if more then rows[..limit] else rows;
    var last := StageMissing(txn, ids, revision, modelId);
    cursor := if last.Some? then last else after;
  }

  /** The guards and the work of each memory picked; the last of them, if any. */
  method StageMissing(txn: TxnBuilder, ids: seq<MemoryId>, revision: Revision, modelId: string) returns (last: Option<MemoryId>)
    modifies txn
    ensures txn.statements == old(txn.statements) + ReembedStatements(ids, revision, modelId)
    ensures last == if ids == [] then None else Some(ids[|ids| - 1])
  {
    ghost var before := txn.statements;
    last := None;
    for i := 0 to |ids|
      invariant txn.statements == before + ReembedStatements(ids[..i], revision, modelId)
      invariant last == if i == 0 then None else Some(ids[i - 1])
    {
      ReembedSnoc(ids[..i], ids[i], revision, modelId);
      assert ids[..i + 1] == ids[..i] + [ids[i]];
      txn.Push(Guard(MemoryLive(ids[i])));
      txn.Push(Guard(ModelActive(revision, modelId)));
      txn.Push(OnDetails(StageWork(WorkKey(ids[i], revision, modelId))));
      last := Some(ids[i]);
    }
    assert ids[..|ids|] == ids;
  }

  lemma {:induction false} FirstByIdPrefix(s: set<nat>, limit: nat)
    ensures FirstById(s, limit) == if |FirstById(s, limit + 1)| > limit then FirstById(s, limit + 1)[..limit] else FirstById(s, limit + 1)
    decreases limit
  {
    FirstByIdPicks(s, limit + 1);
    if s != {} && limit != 0 {
      FirstByIdPrefix(s - {Lowest(s)}, limit - 1);
    }
  }

  lemma {:induction false} PieceSnoc(id: MemoryId, revision: Revision, from: nat, count: nat)
    ensures PieceStatements(id, revision, from, count + 1) == PieceStatements(id, revision, from, count)
            + [OnDetails(InsertChunk(Piece(id, revision, from + count))), OnDetails(InsertVector(Piece(id, revision, from + count)))]
    decreases count
  {
    if count > 0 {
      PieceSnoc(id, revision, from + 1, count - 1);
    }
  }

  /** A worker's transaction for one memory of `count` chunks. */
  method StageVectors(txn: TxnBuilder, work: WorkKey, identity: Identity, count: nat)
    modifies txn
    ensures txn.statements == old(txn.statements) + VectorStatements(work, identity, count)
  {
    ghost var before := txn.statements;
    txn.Push(Guard(MemoryLive(work.memory)));
    txn.Push(Guard(IdentityActive(work.revision, identity)));
    txn.Push(OnDetails(DeleteVectors(work.memory, work.revision)));
    txn.Push(OnDetails(DeleteChunks(work.memory, work.revision)));
    ghost var start := txn.statements;
    for i := 0 to count
      invariant txn.statements == start + PieceStatements(work.memory, work.revision, 0, i)
    {
      PieceSnoc(work.memory, work.revision, 0, i);
      txn.Push(OnDetails(InsertChunk(Piece(work.memory, work.revision, i))));
      txn.Push(OnDetails(InsertVector(Piece(work.memory, work.revision, i))));
    }
    txn.Push(OnDetails(CompleteWork(work)));
  }
}
