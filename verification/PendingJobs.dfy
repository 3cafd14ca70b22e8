/**
 * The tie between a node's job and its pool: the transactions of a job on the best tip are pending until the job
 * is mined. What breaks it, what restores it, and why runs that keep it never strand a transaction.
 */
module PendingJobs {
  import opened Text
  import opened Types
  import opened SigningText
  import opened Difficulty
  import opened State
  import opened History
  import opened Conservation
  import opened Paths
  import opened Chain
  import opened Order
  import opened Mempool
  import opened Branches
  import opened Mining

  ghost predicate IsPending(pool: Pool, tx: Transaction) {
    exists i :: 0 <= i < |pool| && pool[i].transaction == tx
  }

  /** Every transaction of `txs` is pending. */
  ghost predicate Among(txs: seq<Transaction>, pool: Pool) {
    forall k :: 0 <= k < |txs| ==> IsPending(pool, txs[k])
  }

  /** No block of the job can overtake the best tip any more. */
  ghost predicate Outpaced(c: ChainState, job: MiningJob) {
    var parent := job.block.header.previousHash;
    && parent in c.entries && c.bestHash in c.entries
    && c.entries[parent].totalWork + WorkOf(job.block.header.difficulty) <= c.entries[c.bestHash].totalWork
  }

  ghost predicate JobTied(n: Node, job: MiningJob) {
    if job.block.header.previousHash == n.chain.bestHash then Among(job.block.transactions, n.pool)
    else Outpaced(n.chain, job)
  }

  /** Creating a job forgets the one before it. */
  predicate OneJob(jobs: map<string, MiningJob>) {
    forall a, b :: a in jobs && b in jobs ==> a == b
  }

  /** The transactions of a job on the tip are pending, and a job elsewhere is outpaced. */
  ghost predicate Tied(n: Node) {
    OneJob(n.jobs) && forall id :: id in n.jobs ==> JobTied(n, n.jobs[id])
  }

  // ---- a tied job strands nothing ----

  lemma PendingAt(txs: seq<Transaction>, pool: Pool, j: nat) returns (q: nat)
    requires Among(txs, pool) && j < |txs|
    ensures q < |pool| && pool[q].transaction == txs[j]
  {
    assert IsPending(pool, txs[j]);
    q :| 0 <= q < |pool| && pool[q].transaction == txs[j];
  }

  /** A pending transaction that a block of pending transactions does not contain shares no input with it. */
  lemma OthersAreApart(env: Env, pool: Pool, p: nat, txs: seq<Transaction>, entries: Entries, height: int)
    requires PoolOk(env, pool, entries, height) && Among(txs, pool) && p < |pool|
    requires forall k :: 0 <= k < |txs| ==> TransactionId(env, txs[k]) != pool[p].id
    ensures InputSet(pool[p].transaction.inputs) !! SpentBy(txs)
  {
    hide InputSet, ShapeOk, TransactionId, Among, TransactionOk, SpentBy;
    forall i | i in SpentBy(txs) ensures i !in InputSet(pool[p].transaction.inputs) {
      var j := SpentMember(txs, i);
      var q := PendingAt(txs, pool, j);
      assert EntryFits(env, pool[q], entries, height);
      assert p < q ==> Apart(pool[p], pool[q]);
      assert q < p ==> Apart(pool[q], pool[p]);
    }
  }

  lemma IdsListed(env: Env, txs: seq<Transaction>)
    ensures forall k :: 0 <= k < |txs| ==> TransactionId(env, txs[k]) in Elements(TransactionIds(env, txs))
  {
    hide TransactionId;
    forall k | 0 <= k < |txs| ensures TransactionId(env, txs[k]) in Elements(TransactionIds(env, txs)) {
      assert TransactionIds(env, txs)[k] == TransactionId(env, txs[k]);
    }
  }

  /** A block of pending transactions consumes no input of the entries that stay. */
  lemma PendingBlockSpendsNone(env: Env, pool: Pool, txs: seq<Transaction>, entries: Entries, height: int)
    requires PoolOk(env, pool, entries, height) && Among(txs, pool)
    ensures NoneSpent(Uncommitted(env, pool, txs), txs)
  {
    hide InputSet, TransactionId, Among, EntryFits, Apart, SpentBy, Remove, TransactionIds;
    var ids := Elements(TransactionIds(env, txs));
    var rest := Uncommitted(env, pool, txs);
    RemovedFrom(pool, ids);
    IdsListed(env, txs);
    forall k | 0 <= k < |rest| ensures InputSet(rest[k].transaction.inputs) !! SpentBy(txs) {
      assert rest[k] in rest;
      var p :| 0 <= p < |pool| && pool[p] == rest[k];
      OthersAreApart(env, pool, p, txs, entries, height);
    }
  }

  lemma PositiveDifficulty(env: Env, path: seq<Block>, b: Block)
    requires |path| > 0 && CheckBlock(env, path, b)
    ensures b.header.difficulty >= 1
  {
    hide BodyOk, BlockOk, LinkOk;
  }

  lemma PathNonEmpty(env: Env, entries: Tree, h: string)
    requires Linked(env, entries) && h in entries
    ensures |PathOf(env, entries, h)| > 0
  {
  }

  lemma BestNonEmpty(env: Env, c: ChainState)
    requires Inv(env, c)
    ensures |BestPath(env, c)| > 0
  {
    hide EntryOk, PathOf, Linked;
    PathNonEmpty(env, c.entries, c.bestHash);
  }

  /** A block on the tip overtakes it, and the best chain grows by that block. */
  lemma ExtendedPath(env: Env, c: ChainState, b: Block, nowMs: int)
    requires Inv(env, c) && Accepts(env, nowMs, c, b) && b.header.previousHash == c.bestHash
    ensures
      var d := Add(env, nowMs, c, b).chain;
      && Overtakes(env, c, b, nowMs) && Inv(env, d) && d.bestHash == b.hash
      && BestPath(env, d) == BestPath(env, c) + [b]
  {
    hide CheckBlock, AfterBlock, EntryOk, ValidPath, Replay, Add, PathOf, GenesisBlock;
    PathNonEmpty(env, c.entries, b.header.previousHash);
    PositiveDifficulty(env, PathOf(env, c.entries, b.header.previousHash), b);
    WorkFalls(b.header.difficulty, b.header.difficulty);
    TipAfter(env, c, b, nowMs);
    var d := Add(env, nowMs, c, b).chain;
    GenesisStays(env, c);
    AcceptedPath(env, d, b.hash);
    PathFrame(env, c.entries, d.entries, c.bestHash);
  }

  lemma BetweenCovers(env: Env, p: seq<Block>, q: seq<Block>)
    requires NoCollisionsBetween(env, p, q)
    ensures NoCollisions(env, p) && NoCollisions(env, q)
  {
  }

  /** A block of pending transactions on the tip strands nothing. */
  lemma PendingBlockIsHarmless(env: Env, n: Node, b: Block, nowMs: int)
    requires NodeSafe(env, n) && Among(b.transactions, n.pool)
    requires Accepts(env, nowMs, n.chain, b) && b.header.previousHash == n.chain.bestHash
    requires
      var d := Add(env, nowMs, n.chain, b).chain;
      Inv(env, d) && NoCollisionsBetween(env, BestPath(env, n.chain), BestPath(env, d))
    ensures !Strands(env, n, b, nowMs)
  {
    hide Inv, PoolOk, Among, Accepts, NoneSpent, Uncommitted, JobsSound, Add, BestPath, Strands, NoCollisionsBetween;
    hide ValidPath, NoCollisions, Replay, AfterBlockOffer;
    var d := Add(env, nowMs, n.chain, b).chain;
    ExtendedPath(env, n.chain, b, nowMs);
    TipStored(env, n.chain);
    TipFacts(env, n.chain);
    TipFacts(env, d);
    BestNonEmpty(env, n.chain);
    BetweenCovers(env, BestPath(env, n.chain), BestPath(env, d));
    PendingBlockSpendsNone(env, n.pool, b.transactions, TipEntry(n).state.entries, TipHeight(n));
    PoolAfterBlock(env, n.pool, BestPath(env, n.chain), b);
    OvertakingBlock(env, n, b, nowMs);
    AcceptedShaped(env, n.chain, b, nowMs);
    VerdictOfAccepted(env, n.chain, b, nowMs);
    OfferTaken(env, n, b, nowMs);
  }

  /** While the node is tied, none of its own calls strands anything. */
  lemma TiedIsHarmless(env: Env, n: Node, op: Op)
    requires NodeSafe(env, n) && Tied(n) && !op.Receive?
    requires Inv(env, After(env, n, op).chain) && NoCollisionsOver(env, n, After(env, n, op))
    ensures Harmless(env, n, op)
  {
    hide Inv, PoolOk, Among, JobsSound, AfterBlockOffer, BestPath, Accepts, AllRedeemable, AfterBlock, Add;
    hide AfterSubmit, AfterCreateJob, NoCollisionsBetween, OneJob, WorkOf;
    match op {
      case Share(jobId, nonceHex, hashHex, nowMs) =>
        if WellFormedShare(n, jobId, nonceHex, hashHex) {
          var b := ShareBlock(n, jobId, nonceHex, hashHex);
          assert JobTied(n, n.jobs[jobId]);
          OfferChain(env, n, b, nowMs);
          if Overtakes(env, n.chain, b, nowMs) {
            PendingBlockIsHarmless(env, n, b, nowMs);
          }
        }
      case _ =>
    }
  }

  // ---- which calls keep the tie ----

  lemma AmongMore(txs: seq<Transaction>, pool: Pool, more: Pool)
    requires Among(txs, pool) && pool <= more
    ensures Among(txs, more)
  {
    forall k | 0 <= k < |txs| ensures IsPending(more, txs[k]) {
      assert IsPending(pool, txs[k]);
      var i :| 0 <= i < |pool| && pool[i].transaction == txs[k];
      assert more[i] == pool[i];
    }
  }

  lemma SubmitKeepsTie(env: Env, n: Node, tx: Transaction, nowMs: int)
    requires NodeSafe(env, n) && Tied(n) && |n.pool| < MAX_ITEMS
    ensures Tied(AfterSubmit(env, n, tx, nowMs))
  {
    hide Inv, PoolOk, AfterAccept, Among, JobsSound, OneJob, WorkOf;
    TipStored(env, n.chain);
    var l, height, m := TipEntry(n).state, TipHeight(n), AfterSubmit(env, n, tx, nowMs);
    if AfterAccept(env, n.pool, l, height, tx, nowMs).Some? {
      AcceptKeepsPool(env, n.pool, l, height, tx, nowMs);
      forall id | id in m.jobs ensures JobTied(m, m.jobs[id]) {
        assert JobTied(n, n.jobs[id]);
        if n.jobs[id].block.header.previousHash == n.chain.bestHash {
          AmongMore(n.jobs[id].block.transactions, n.pool, m.pool);
        }
      }
    }
  }

  lemma ListedAmong(pool: Pool)
    ensures Among(Transactions(List(pool, LIST_LIMIT)), pool)
  {
    var txs := Transactions(List(pool, LIST_LIMIT));
    forall k | 0 <= k < |txs| ensures IsPending(pool, txs[k]) {
      assert pool[k].transaction == txs[k];
    }
  }

  /** A job that is created ties the node, whatever was true before. */
  lemma CreateJobTies(env: Env, n: Node, payout: string, nowSeconds: int, jobId: string)
    requires NodeSafe(env, n)
    ensures
      var made :=
        TemplateFor(env, BestPath(env, n.chain), TipEntry(n).state.issuedPhotons, payout, Pending(n), nowSeconds);
      Tied(n) || made.Some? ==> Tied(AfterCreateJob(env, n, payout, nowSeconds, jobId))
  {
    hide Inv, PoolOk, TemplateFor, JobSound, Among;
    TipStored(env, n.chain);
    var made :=
      TemplateFor(env, BestPath(env, n.chain), TipEntry(n).state.issuedPhotons, payout, Pending(n), nowSeconds);
    if made.Some? {
      CreatedJobSound(env, n, payout, nowSeconds, jobId, made.value);
      ListedAmong(n.pool);
    }
  }

  /** A share with the hash of a stored block: it is answered as known, yet the pool loses the job's transactions. */
  ghost predicate Purges(n: Node, jobId: string, nonceHex: string, hashHex: string) {
    && WellFormedShare(n, jobId, nonceHex, hashHex)
    && LowerCase(hashHex) in n.chain.entries
    && n.jobs[jobId].block.header.previousHash == n.chain.bestHash
    && |n.jobs[jobId].block.transactions| > 0
  }

  lemma AcceptedShareKeepsTie(env: Env, n: Node, jobId: string, b: Block, nowMs: int)
    requires NodeSafe(env, n) && Tied(n) && jobId in n.jobs && b == Candidate(n.jobs[jobId].block, b.nonce, b.hash)
    requires Accepts(env, nowMs, n.chain, b)
    ensures Tied(AfterBlockOffer(env, n, b, nowMs))
  {
    hide Inv, PoolOk, Add, CheckBlock, JobSound, AfterBlockOffer, OneJob, WorkOf, Among, AfterBlock, Linked;
    var m, job := AfterBlockOffer(env, n, b, nowMs), n.jobs[jobId];
    OfferChain(env, n, b, nowMs);
    TipAfter(env, n.chain, b, nowMs);
    assert JobTied(n, job);
    if b.header.previousHash == n.chain.bestHash {
      ExtendedPath(env, n.chain, b, nowMs);
    }
    forall id | id in m.jobs ensures JobTied(m, m.jobs[id]) {
      TheOnlyJob(n.jobs, id, jobId);
    }
  }

  lemma TheOnlyJob(jobs: map<string, MiningJob>, a: string, b: string)
    requires OneJob(jobs) && a in jobs && b in jobs
    ensures a == b
  {
  }

  lemma KnownShareKeepsTie(env: Env, n: Node, jobId: string, b: Block, nowMs: int)
    requires NodeSafe(env, n) && Tied(n) && jobId in n.jobs && b == Candidate(n.jobs[jobId].block, b.nonce, b.hash)
    requires Hex(b.hash, 64) && b.hash in n.chain.entries
    requires b.header.previousHash != n.chain.bestHash || |b.transactions| == 0
    ensures Tied(AfterBlockOffer(env, n, b, nowMs))
  {
    hide Inv, PoolOk, JobSound, AfterBlockOffer, Remove, OneJob, WorkOf;
    assert JobSound(env, n.chain, n.jobs[jobId]);
    JobShaped(env, n.chain, n.jobs[jobId]);
    KnownBlockKeeps(env, n, b, nowMs);
    var m := AfterBlockOffer(env, n, b, nowMs);
    assert JobTied(n, n.jobs[jobId]);
    forall id | id in m.jobs ensures JobTied(m, m.jobs[id]) {
      TheOnlyJob(n.jobs, id, jobId);
    }
  }

  lemma ShareKeepsTie(env: Env, n: Node, jobId: string, nonceHex: string, hashHex: string, nowMs: int)
    requires NodeSafe(env, n) && Tied(n) && !Purges(n, jobId, nonceHex, hashHex)
    ensures Tied(AfterShare(env, n, jobId, nonceHex, hashHex, nowMs))
  {
    hide Inv, PoolOk, JobSound, CheckBlock, EntryFor, Tied, OneJob, AfterBlockOffer;
    TipStored(env, n.chain);
    if WellFormedShare(n, jobId, nonceHex, hashHex) {
      LowerCaseHex(hashHex, 64);
      var b := ShareBlock(n, jobId, nonceHex, hashHex);
      if b.hash in n.chain.entries {
        KnownShareKeepsTie(env, n, jobId, b, nowMs);
      } else if Accepts(env, nowMs, n.chain, b) {
        AcceptedShareKeepsTie(env, n, jobId, b, nowMs);
      } else {
        RefusedChangesNothing(env, n, b, nowMs);
      }
    }
  }

  // ---- what a purging share does ----

  lemma FittingId(env: Env, e: MempoolEntry, entries: Entries, height: int)
    requires EntryFits(env, e, entries, height)
    ensures e.id == TransactionId(env, e.transaction)
  {
    hide TransactionOk, TransactionId;
  }

  lemma RemovedIsNotPending(env: Env, pool: Pool, entries: Entries, height: int, ids: set<string>, tx: Transaction)
    requires PoolOk(env, pool, entries, height) && TransactionId(env, tx) in ids
    ensures !IsPending(Remove(pool, ids), tx)
  {
    hide EntryFits, Apart, TransactionId, Remove;
    var rest := Remove(pool, ids);
    RemovedFrom(pool, ids);
    forall i | 0 <= i < |rest| ensures rest[i].transaction != tx {
      assert rest[i] in rest;
      var p :| 0 <= p < |pool| && pool[p] == rest[i];
      FittingId(env, pool[p], entries, height);
    }
  }

  /** It leaves the chain and the job alone and the node safe, but none of the job's transactions is pending. */
  lemma PurgingShareBreaks(env: Env, n: Node, jobId: string, nonceHex: string, hashHex: string, nowMs: int)
    requires NodeSafe(env, n) && Purges(n, jobId, nonceHex, hashHex)
    ensures
      var m := AfterShare(env, n, jobId, nonceHex, hashHex, nowMs);
      && m.chain == n.chain && m.jobs == n.jobs
      && (forall k :: 0 <= k < |n.jobs[jobId].block.transactions| ==>
        !IsPending(m.pool, n.jobs[jobId].block.transactions[k]))
      && NodeSafe(env, m) && !Tied(m)
  {
    hide Inv, PoolOk, IsPending, TransactionIds, Elements, Remove, JobSound, Shaped, AfterBlockOffer;
    LowerCaseHex(hashHex, 64);
    TipStored(env, n.chain);
    var b := ShareBlock(n, jobId, nonceHex, hashHex);
    var txs, m := b.transactions, AfterShare(env, n, jobId, nonceHex, hashHex, nowMs);
    assert JobSound(env, n.chain, n.jobs[jobId]);
    JobShaped(env, n.chain, n.jobs[jobId]);
    KnownBlockKeeps(env, n, b, nowMs);
    IdsListed(env, txs);
    forall k | 0 <= k < |txs| ensures !IsPending(m.pool, txs[k]) {
      RemovedIsNotPending(
        env, n.pool, TipEntry(n).state.entries, TipHeight(n), Elements(TransactionIds(env, txs)), txs[k]);
    }
    assert !JobTied(m, m.jobs[jobId]) by {
      assert !IsPending(m.pool, txs[0]);
    }
  }

  /**
   * A block that is stored but does not overtake leaves the tip where it is, and still takes its transactions out of
   * the pool, although they are not on the best chain.
   */
  lemma ForkPurges(env: Env, n: Node, b: Block, nowMs: int)
    requires NodeSafe(env, n) && Accepts(env, nowMs, n.chain, b) && !Overtakes(env, n.chain, b, nowMs)
    ensures
      var m := AfterBlockOffer(env, n, b, nowMs);
      && Inv(env, m.chain) && BestPath(env, m.chain) == BestPath(env, n.chain)
      && forall k :: 0 <= k < |b.transactions| ==> !IsPending(m.pool, b.transactions[k])
  {
    hide Inv, PoolOk, IsPending, TransactionIds, Elements, Remove, JobsSound, Shaped, AfterBlockOffer, Accepts, Add;
    hide PathOf, EntryFor, Uncommitted;
    var txs, m := b.transactions, AfterBlockOffer(env, n, b, nowMs);
    TipStored(env, n.chain);
    VerdictOfAccepted(env, n.chain, b, nowMs);
    AcceptedShaped(env, n.chain, b, nowMs);
    OfferTaken(env, n, b, nowMs);
    TipAfter(env, n.chain, b, nowMs);
    GrownPath(env, n.chain, b, nowMs);
    IdsListed(env, txs);
    forall k | 0 <= k < |txs| ensures !IsPending(m.pool, txs[k]) {
      UncommittedIs(env, n.pool, txs);
      RemovedIsNotPending(
        env, n.pool, TipEntry(n).state.entries, TipHeight(n), Elements(TransactionIds(env, txs)), txs[k]);
    }
  }

  lemma UncommittedIs(env: Env, pool: Pool, txs: seq<Transaction>)
    ensures Uncommitted(env, pool, txs) == Remove(pool, Elements(TransactionIds(env, txs)))
  {
    hide Remove, Elements, TransactionIds;
  }

  lemma GrownPath(env: Env, c: ChainState, b: Block, nowMs: int)
    requires Inv(env, c) && Accepts(env, nowMs, c, b) && !Overtakes(env, c, b, nowMs)
    ensures Inv(env, Add(env, nowMs, c, b).chain) && BestPath(env, Add(env, nowMs, c, b).chain) == BestPath(env, c)
  {
    hide CheckBlock, AfterBlock, EntryOk, PathOf, Add;
    TipAfter(env, c, b, nowMs);
    PathFrame(env, c.entries, Add(env, nowMs, c, b).chain.entries, c.bestHash);
  }

  // ---- blocks of peers ----

  /** A job on the tip has the difficulty that any block there has. */
  lemma SameDifficulty(env: Env, path: seq<Block>, job: Block, b: Block)
    requires |path| > 0 && JobFits(env, path, job) && CheckBlock(env, path, b)
    ensures job.header.difficulty == b.header.difficulty
  {
    hide NextDifficulty, SeedOk, BodyOk, CoinbaseFits, TransactionsOk, DisjointInputs, PowOk, BlockOk, MedianTime;
  }

  /** A block of a peer on the tip outpaces the job there. */
  lemma ReceivedKeepsTie(env: Env, n: Node, b: Block, nowMs: int)
    requires NodeSafe(env, n) && Tied(n)
    requires Accepts(env, nowMs, n.chain, b) && b.header.previousHash == n.chain.bestHash
    ensures Tied(AfterBlockOffer(env, n, b, nowMs))
  {
    hide EntryOk, PoolOk, Add, CheckBlock, JobFits, AfterBlockOffer, OneJob, WorkOf, Among, AfterBlock, Linked, PathOf;
    var m := AfterBlockOffer(env, n, b, nowMs);
    OfferChain(env, n, b, nowMs);
    TipAfter(env, n.chain, b, nowMs);
    ExtendedPath(env, n.chain, b, nowMs);
    forall id | id in m.jobs ensures JobTied(m, m.jobs[id]) {
      var job := n.jobs[id];
      assert JobTied(n, job) && JobSound(env, n.chain, job);
      if job.block.header.previousHash == n.chain.bestHash {
        PathNonEmpty(env, n.chain.entries, n.chain.bestHash);
        SameDifficulty(env, PathOf(env, n.chain.entries, n.chain.bestHash), job.block, b);
      }
    }
  }

  lemma RefusedChangesNothing(env: Env, n: Node, b: Block, nowMs: int)
    requires Inv(env, n.chain) && Add(env, nowMs, n.chain, b).verdict.None?
    ensures AfterBlockOffer(env, n, b, nowMs) == n && !Overtakes(env, n.chain, b, nowMs)
  {
    hide Inv, Add;
    TipStored(env, n.chain);
    if Accepts(env, nowMs, n.chain, b) {
      VerdictOfAccepted(env, n.chain, b, nowMs);
    }
  }

  // ---- whole runs ----

  /**
   * Submissions below the eviction limit, shares that do not purge, and blocks of peers that are refused or extend the
   * tip without stranding anything.
   */
  ghost predicate Careful(env: Env, n: Node, op: Op)
    requires Inv(env, n.chain)
  {
    match op
    case Submit(_, _) => |n.pool| < MAX_ITEMS
    case CreateJob(_, _, _) => true
    case Share(jobId, nonceHex, hashHex, _) => !Purges(n, jobId, nonceHex, hashHex)
    case Receive(b, nowMs) =>
      || Add(env, nowMs, n.chain, b).verdict.None?
      || (Accepts(env, nowMs, n.chain, b) && b.header.previousHash == n.chain.bestHash && !Strands(env, n, b, nowMs))
  }

  lemma CarefulKeepsTie(env: Env, n: Node, op: Op)
    requires NodeSafe(env, n) && Tied(n) && Careful(env, n, op)
    ensures Tied(After(env, n, op))
  {
    hide Inv, PoolOk, JobsSound, Tied, Purges, AfterSubmit, AfterCreateJob, AfterShare, AfterBlockOffer, Accepts, Add;
    hide Strands;
    match op
    case Submit(tx, nowMs) => SubmitKeepsTie(env, n, tx, nowMs);
    case CreateJob(payout, nowSeconds, jobId) => CreateJobTies(env, n, payout, nowSeconds, jobId);
    case Share(jobId, nonceHex, hashHex, nowMs) => ShareKeepsTie(env, n, jobId, nonceHex, hashHex, nowMs);
    case Receive(b, nowMs) =>
      if Add(env, nowMs, n.chain, b).verdict.None? {
        RefusedChangesNothing(env, n, b, nowMs);
      } else {
        ReceivedKeepsTie(env, n, b, nowMs);
      }
  }

  lemma CarefulIsHarmless(env: Env, n: Node, op: Op)
    requires NodeSafe(env, n) && Tied(n) && Careful(env, n, op)
    requires Inv(env, After(env, n, op).chain) && NoCollisionsOver(env, n, After(env, n, op))
    ensures Harmless(env, n, op)
  {
    hide Inv, PoolOk, JobsSound, Tied, Purges, After, Accepts, Add, Overtakes, NoCollisionsOver, AllRedeemable;
    if op.Receive? {
      if Add(env, op.nowMs, n.chain, op.block).verdict.None? {
        RefusedChangesNothing(env, n, op.block, op.nowMs);
      }
    } else {
      TiedIsHarmless(env, n, op);
    }
  }

  ghost predicate CarefulAt(env: Env, ops: seq<Op>, i: nat)
    requires i < |ops|
  {
    Careful(env, RunOps(env, ops[..i]), ops[i])
  }

  ghost predicate CarefulRun(env: Env, ops: seq<Op>) {
    forall i :: 0 <= i < |ops| ==> CarefulAt(env, ops, i)
  }

  lemma RunNext(env: Env, ops: seq<Op>, i: nat)
    requires i < |ops|
    ensures RunOps(env, ops[..i + 1]) == After(env, RunOps(env, ops[..i]), ops[i])
  {
    hide After, Inv;
    assert ops[..i + 1][..i] == ops[..i];
  }

  lemma HarmlessMoment(env: Env, ops: seq<Op>, i: nat)
    requires i < |ops| && SafeAt(env, ops, i) && Tied(RunOps(env, ops[..i]))
    requires CarefulAt(env, ops, i) && NoCollisionsAt(env, ops, i)
    ensures HarmlessAt(env, ops, i)
  {
    hide NodeSafe, Tied, Careful, Harmless, NoCollisionsOver, After, RunOps;
    RunNext(env, ops, i);
    CarefulIsHarmless(env, RunOps(env, ops[..i]), ops[i]);
  }

  lemma {:induction false} TiedUpTo(env: Env, ops: seq<Op>, i: nat)
    requires CarefulRun(env, ops) && NoCollisionsInRun(env, ops) && i <= |ops|
    ensures SafeAt(env, ops, i) && Tied(RunOps(env, ops[..i]))
    ensures i < |ops| ==> HarmlessAt(env, ops, i)
  {
    hide NodeSafe, Tied, Careful, Harmless, NoCollisionsAt, After, Inv, RunOps;
    if i == 0 {
      SafeAtStart(env, ops);
      NoJobsNoTie(env);
      assert ops[..0] == [];
    } else {
      TiedUpTo(env, ops, i - 1);
      assert CarefulAt(env, ops, i - 1);
      OneMoment(env, ops, i - 1);
      RunNext(env, ops, i - 1);
      CarefulKeepsTie(env, RunOps(env, ops[..i - 1]), ops[i - 1]);
    }
    if i < |ops| {
      assert CarefulAt(env, ops, i);
      HarmlessMoment(env, ops, i);
    }
  }

  lemma NoJobsNoTie(env: Env)
    ensures Tied(RunOps(env, []))
  {
  }

  /** Careful runs are safe, and no block in them strands anything. */
  lemma CarefulRunsAreSafe(env: Env, ops: seq<Op>)
    requires CarefulRun(env, ops) && NoCollisionsInRun(env, ops)
    ensures HarmlessRun(env, ops) && SafeRun(env, ops)
  {
    hide SafeAt, HarmlessAt, CarefulRun;
    forall i | 0 <= i < |ops| ensures HarmlessAt(env, ops, i) {
      TiedUpTo(env, ops, i);
    }
    MiningLoopSafeExactly(env, ops);
  }
}
