/**
 * A run of a node, from genesis and without digest collisions, after which a pending transaction is invalid: a share
 * that repeats the hash of a stored block takes the job's transaction out of the pool, a conflicting one is accepted,
 * and then the job is mined.
 */
module StrandedRun {
  import opened Prelude
  import opened Text
  import opened Types
  import opened SigningText
  import opened HeaderCodec
  import opened Difficulty
  import opened State
  import opened History
  import opened Merkle
  import opened Paths
  import opened Chain
  import opened Mempool
  import opened Branches
  import opened Mining
  import opened PendingJobs
  import opened SmallChain
  import Reward

  const JOB := "job"
  const NONCE := "00000000"

  ghost predicate Stored(c: ChainState, height: nat) {
    forall k: nat :: k <= LENGTH ==> (Named(k) in c.entries <==> k <= height)
  }

  /** The node is safe, and its best chain is the small path of these bodies. */
  ghost predicate At(n: Node, bodies: seq<seq<Transaction>>)
    requires |bodies| <= LENGTH
  {
    NodeSafe(TheEnv(), n) && BestPath(TheEnv(), n.chain) == SmallPath(bodies) && Stored(n.chain, |bodies|)
  }

  // ---- one round of mining ----

  ghost function TheJob(k: nat, txs: seq<Transaction>): MiningJob
    requires 1 <= k <= LENGTH
  {
    MiningJob(JOB, SmallBlock(k, txs).(hash := ""))
  }

  lemma TemplateOf(
    env: Env, path: seq<Block>, next: NextData, issued: int, payout: string, subsidy: nat, txs: seq<Transaction>,
    nowSeconds: int)
    requires |path| > 0 && NextFor(path) == Some(next) && ValidAddress(env, payout) && Shaped(env, txs)
    requires Reward.RewardForBlock(next.height, issued) == Ok(subsidy)
    requires Encodable(Template(env, Last(path).hash, next, payout, subsidy, txs, nowSeconds).header, 0)
    ensures
      TemplateFor(env, path, issued, payout, txs, nowSeconds)
      == Some(Template(env, Last(path).hash, next, payout, subsidy, txs, nowSeconds))
  {
    hide NextFor, ValidAddress, Shaped, Reward.RewardForBlock, Encodable, Template;
  }

  lemma SmallTemplate(k: nat, txs: seq<Transaction>)
    requires 1 <= k <= LENGTH
    ensures
      Template(TheEnv(), Named(k - 1), NextData(k, INITIAL_DIFFICULTY, Named(0)), Payee(), SUBSIDY, txs,
        GENESIS_TIMESTAMP_SECONDS + k) == TheJob(k, txs).block
    ensures TheJob(k, txs).block.header == SmallBlock(k, txs).header
  {
    hide TheEnv, Named, Payee, CoinbaseFor, MerkleRoot, TransactionIds, Hex;
  }

  lemma TemplateIsSmall(bodies: seq<seq<Transaction>>, txs: seq<Transaction>)
    requires |bodies| < LENGTH && ValidPath(TheEnv(), SmallPath(bodies)) && Shaped(TheEnv(), txs)
    ensures
      TemplateFor(TheEnv(), SmallPath(bodies), |bodies| * SUBSIDY, Payee(), txs,
        GENESIS_TIMESTAMP_SECONDS + |bodies| + 1) == Some(TheJob(|bodies| + 1, txs).block)
  {
    hide *;
    TipOnPath(bodies);
    NextOnPath(bodies);
    RewardOnPath(bodies);
    PayeeFacts();
    SmallHeaderEncodes(|bodies| + 1, txs);
    SmallTemplate(|bodies| + 1, txs);
    TemplateOf(TheEnv(), SmallPath(bodies), NextData(|bodies| + 1, INITIAL_DIFFICULTY, Named(0)), |bodies| * SUBSIDY,
      Payee(), SUBSIDY, txs, GENESIS_TIMESTAMP_SECONDS + |bodies| + 1);
  }

  lemma PendingShaped(env: Env, pool: Pool, entries: Entries, height: int)
    requires PoolOk(env, pool, entries, height)
    ensures Shaped(env, Transactions(List(pool, LIST_LIMIT)))
  {
    hide ShapeOk, TransactionId, Hex;
    var txs := Transactions(List(pool, LIST_LIMIT));
    forall k | 0 <= k < |txs| ensures ShapeOk(env, txs[k]) {
      assert EntryFits(env, pool[k], entries, height);
    }
  }

  lemma JobMade(n: Node, bodies: seq<seq<Transaction>>)
    requires |bodies| < LENGTH && At(n, bodies)
    ensures
      var m := AfterCreateJob(TheEnv(), n, Payee(), GENESIS_TIMESTAMP_SECONDS + |bodies| + 1, JOB);
      m == n.(jobs := map[JOB := TheJob(|bodies| + 1, Pending(n))]) && At(m, bodies)
  {
    hide Inv, PoolOk, JobsSound, TemplateFor, SmallBlock, TheEnv, SmallPath, Payee, ValidPath, Replay, Stored, Hex;
    TipStored(TheEnv(), n.chain);
    TipFacts(TheEnv(), n.chain);
    RewardOnPath(bodies);
    PendingShaped(TheEnv(), n.pool, TipEntry(n).state.entries, TipHeight(n));
    TemplateIsSmall(bodies, Pending(n));
    CreateJobKeeps(TheEnv(), n, Payee(), GENESIS_TIMESTAMP_SECONDS + |bodies| + 1, JOB);
  }

  lemma NameIsLowerCase(k: nat)
    requires k < 16
    ensures AnyCaseHex(Named(k), 64) && LowerCase(Named(k)) == Named(k)
  {
  }

  lemma ZeroNonce()
    ensures AnyCaseHex(NONCE, 8) && ToInt32(UnsignedNonce(NONCE)) == 0
  {
  }

  lemma ShareIsSmall(n: Node, k: nat, j: nat, txs: seq<Transaction>)
    requires 1 <= k <= LENGTH && j < 16 && JOB in n.jobs && n.jobs[JOB] == TheJob(k, txs)
    ensures WellFormedShare(n, JOB, NONCE, Named(j))
    ensures ShareBlock(n, JOB, NONCE, Named(j)) == SmallBlock(k, txs).(hash := Named(j))
  {
    hide SmallBlock, Named, UnsignedNonce, ToInt32, LowerCase, Hex;
    ZeroNonce();
    NameIsLowerCase(j);
    BlockFields(k, txs);
  }

  lemma SmallAccepted(n: Node, bodies: seq<seq<Transaction>>, txs: seq<Transaction>)
    requires |bodies| < LENGTH && At(n, bodies)
    requires TransactionsOk(TheEnv(), Replay(TheEnv(), SmallPath(bodies)).entries, |bodies| + 1, txs)
    requires TransactionsLength(txs) <= MAX_BLOCK_BODY_BYTES
    ensures Linked(TheEnv(), n.chain.entries)
    ensures
      var b := SmallBlock(|bodies| + 1, txs);
      && Accepts(TheEnv(), b.header.timestampSeconds * 1000, n.chain, b) && b.header.previousHash == n.chain.bestHash
  {
    hide Inv, PoolOk, JobsSound, TheEnv, SmallPath, ValidPath, Replay, Named, SmallBlock, CheckBlock, TransactionsOk;
    hide Hex;
    hide TransactionsLength;
    var b := SmallBlock(|bodies| + 1, txs);
    TipStored(TheEnv(), n.chain);
    TipFacts(TheEnv(), n.chain);
    TipOnPath(bodies);
    BlockFields(|bodies| + 1, txs);
    SmallBlockChecks(bodies, txs);
    assert Named(|bodies| + 1) !in n.chain.entries;
  }

  lemma StoredMore(c: ChainState, d: ChainState, b: Block, height: nat)
    requires height < LENGTH && Stored(c, height) && b.hash == Named(height + 1)
    requires d.entries.Keys == c.entries.Keys + {b.hash}
    ensures Stored(d, height + 1)
  {
    hide Named, Hex;
    NamesDiffer();
  }

  lemma AtMeans(n: Node, bodies: seq<seq<Transaction>>)
    requires |bodies| <= LENGTH && At(n, bodies)
    ensures Inv(TheEnv(), n.chain) && BestPath(TheEnv(), n.chain) == SmallPath(bodies) && Stored(n.chain, |bodies|)
    ensures JobsSound(TheEnv(), n.chain, n.jobs) && NodeSafe(TheEnv(), n)
    ensures n.chain.bestHash in n.chain.entries
  {
    hide PoolOk, JobsSound, TheEnv, SmallPath, Named, Hex, EntryOk, Linked;
  }

  lemma KeysAfterAdd(env: Env, c: ChainState, b: Block, nowMs: int)
    requires Inv(env, c) && Accepts(env, nowMs, c, b)
    ensures Add(env, nowMs, c, b).verdict.Some?
    ensures Add(env, nowMs, c, b).chain.entries.Keys == c.entries.Keys + {b.hash}
  {
    hide Inv, Accepts, Add, EntryFor;
    TipAfter(env, c, b, nowMs);
    VerdictOfAccepted(env, c, b, nowMs);
  }

  lemma JobExtends(n: Node, bodies: seq<seq<Transaction>>, txs: seq<Transaction>)
    requires |bodies| < LENGTH && At(n, bodies) && JOB in n.jobs && n.jobs[JOB] == TheJob(|bodies| + 1, txs)
    requires TransactionsOk(TheEnv(), Replay(TheEnv(), SmallPath(bodies)).entries, |bodies| + 1, txs)
    requires TransactionsLength(txs) <= MAX_BLOCK_BODY_BYTES
    ensures Inv(TheEnv(), n.chain)
    ensures
      var b := SmallBlock(|bodies| + 1, txs);
      var step := Add(TheEnv(), b.header.timestampSeconds * 1000, n.chain, b);
      && Inv(TheEnv(), step.chain) && BestPath(TheEnv(), step.chain) == SmallPath(bodies + [txs])
      && Stored(step.chain, |bodies| + 1) && JobsSound(TheEnv(), step.chain, n.jobs)
      && step.verdict.Some?
  {
    hide *;
    var b, env := SmallBlock(|bodies| + 1, txs), TheEnv();
    var nowMs := b.header.timestampSeconds * 1000;
    AtMeans(n, bodies);
    var d := Add(env, nowMs, n.chain, b).chain;
    BlockFields(|bodies| + 1, txs);
    SmallAccepted(n, bodies, txs);
    JobsStaySound(env, n.chain, n.jobs, b, nowMs);
    ExtendedPath(env, n.chain, b, nowMs);
    KeysAfterAdd(env, n.chain, b, nowMs);
    SmallPathStep(bodies, txs);
    StoredMore(n.chain, d, b, |bodies|);
  }

  /** What an accepted share makes of the node. */
  lemma JobMined(n: Node, bodies: seq<seq<Transaction>>, txs: seq<Transaction>)
    requires |bodies| < LENGTH && At(n, bodies) && JOB in n.jobs && n.jobs[JOB] == TheJob(|bodies| + 1, txs)
    requires TransactionsOk(TheEnv(), Replay(TheEnv(), SmallPath(bodies)).entries, |bodies| + 1, txs)
    requires TransactionsLength(txs) <= MAX_BLOCK_BODY_BYTES
    ensures Inv(TheEnv(), n.chain)
    ensures
      var b := SmallBlock(|bodies| + 1, txs);
      var d := Add(TheEnv(), b.header.timestampSeconds * 1000, n.chain, b).chain;
      && Inv(TheEnv(), d) && BestPath(TheEnv(), d) == SmallPath(bodies + [txs]) && Stored(d, |bodies| + 1)
      && JobsSound(TheEnv(), d, n.jobs)
      && AfterShare(TheEnv(), n, JOB, NONCE, b.hash, b.header.timestampSeconds * 1000)
         == n.(chain := d, pool := Uncommitted(TheEnv(), n.pool, txs))
  {
    hide *;
    var b, env := SmallBlock(|bodies| + 1, txs), TheEnv();
    var nowMs := b.header.timestampSeconds * 1000;
    AtMeans(n, bodies);
    BlockFields(|bodies| + 1, txs);
    JobExtends(n, bodies, txs);
    SmallAccepted(n, bodies, txs);
    AcceptedShaped(env, n.chain, b, nowMs);
    OfferTaken(env, n, b, nowMs);
    NamesSuffice();
    ShareIsOffer(n, |bodies| + 1, |bodies| + 1, txs, nowMs);
  }

  lemma ShareIsOffer(n: Node, k: nat, j: nat, txs: seq<Transaction>, nowMs: int)
    requires 1 <= k <= LENGTH && j < 16 && JOB in n.jobs && n.jobs[JOB] == TheJob(k, txs)
    requires Inv(TheEnv(), n.chain)
    ensures
      AfterShare(TheEnv(), n, JOB, NONCE, Named(j), nowMs)
      == AfterBlockOffer(TheEnv(), n, SmallBlock(k, txs).(hash := Named(j)), nowMs)
  {
    hide Inv, TheEnv, SmallBlock, Named, Hex, AfterBlockOffer, WellFormedShare, ShareBlock, TheJob;
    ShareIsSmall(n, k, j, txs);
  }

  // ---- runs ----

  lemma RunStep(env: Env, ops: seq<Op>, op: Op)
    ensures RunOps(env, ops + [op]) == After(env, RunOps(env, ops), op)
  {
    hide After, Inv, Hex;
    assert (ops + [op])[..|ops|] == ops;
  }

  lemma EarlierMoment(env: Env, ops: seq<Op>, op: Op, i: nat)
    requires i < |ops|
    ensures NoCollisionsAt(env, ops + [op], i) <==> NoCollisionsAt(env, ops, i)
  {
    hide NoCollisionsOver, RunOps, Hex;
    var more := ops + [op];
    assert more[..i] == ops[..i] && more[..i + 1] == ops[..i + 1];
  }

  lemma LastMoment(env: Env, ops: seq<Op>, op: Op)
    ensures
      NoCollisionsAt(env, ops + [op], |ops|) <==> NoCollisionsOver(env, RunOps(env, ops), RunOps(env, ops + [op]))
  {
    hide NoCollisionsOver, RunOps, Hex;
    var more := ops + [op];
    assert more[..|ops|] == ops && more[..|ops| + 1] == more;
  }

  /** One more call without collisions. */
  lemma NoCollisionsStep(env: Env, ops: seq<Op>, op: Op)
    requires NoCollisionsInRun(env, ops) && NoCollisionsOver(env, RunOps(env, ops), RunOps(env, ops + [op]))
    ensures NoCollisionsInRun(env, ops + [op])
  {
    hide NoCollisionsOver, NoCollisionsAt, RunOps, Hex;
    LastMoment(env, ops, op);
    forall i | 0 <= i < |ops| + 1 ensures NoCollisionsAt(env, ops + [op], i) {
      if i < |ops| {
        EarlierMoment(env, ops, op, i);
      }
    }
  }

  ghost predicate KnownBodies(bodies: seq<seq<Transaction>>) {
    forall k :: 0 <= k < |bodies| ==> KnownBody(bodies[k])
  }

  lemma BetweenKnown(p: seq<seq<Transaction>>, q: seq<seq<Transaction>>)
    requires |p| <= LENGTH && |q| <= LENGTH && KnownBodies(p) && KnownBodies(q)
    ensures NoCollisionsBetween(TheEnv(), SmallPath(p), SmallPath(q))
  {
    hide Payloads, SmallPath, IsKnown, Identify, KnownBody, Hex;
    PathIsKnown(p);
    PathIsKnown(q);
    var texts := Payloads(SmallPath(p)) + Payloads(SmallPath(q));
    forall x, y | x in texts && y in texts && Identify(x) == Identify(y) ensures x == y {
      KnownTextsDiffer(x, y);
    }
  }

  /** A call that leads from one small path to another. */
  lemma CleanStep(ops: seq<Op>, op: Op, p: seq<seq<Transaction>>, q: seq<seq<Transaction>>)
    requires NoCollisionsInRun(TheEnv(), ops)
    requires |p| <= LENGTH && |q| <= LENGTH && KnownBodies(p) && KnownBodies(q)
    requires BestPath(TheEnv(), RunOps(TheEnv(), ops).chain) == SmallPath(p)
    requires BestPath(TheEnv(), RunOps(TheEnv(), ops + [op]).chain) == SmallPath(q)
    ensures NoCollisionsInRun(TheEnv(), ops + [op])
  {
    hide NoCollisionsBetween, RunOps, BestPath, SmallPath, TheEnv, NoCollisionsInRun, Hex, KnownBodies;
    BetweenKnown(p, q);
    NoCollisionsStep(TheEnv(), ops, op);
  }

  /** A call that leaves the best chain as it is. */
  lemma SameChainStep(ops: seq<Op>, op: Op, p: seq<seq<Transaction>>)
    requires NoCollisionsInRun(TheEnv(), ops) && |p| <= LENGTH && KnownBodies(p)
    requires BestPath(TheEnv(), RunOps(TheEnv(), ops).chain) == SmallPath(p)
    requires After(TheEnv(), RunOps(TheEnv(), ops), op).chain == RunOps(TheEnv(), ops).chain
    ensures NoCollisionsInRun(TheEnv(), ops + [op])
  {
    hide RunOps, After, NoCollisionsInRun, BestPath, Inv, Hex, SmallPath, TheEnv, KnownBodies;
    RunStep(TheEnv(), ops, op);
    CleanStep(ops, op, p, p);
  }

  function JobOp(k: nat, payee: string): Op {
    CreateJob(payee, GENESIS_TIMESTAMP_SECONDS + k, JOB)
  }

  function ShareOp(k: nat): Op
    requires k < 16
  {
    Share(JOB, NONCE, Named(k), (GENESIS_TIMESTAMP_SECONDS + k) * 1000)
  }

  /** Mines `k` blocks without transactions. */
  ghost function MiningOps(k: nat): seq<Op>
    requires k < LENGTH
  {
    if k == 0 then [] else MiningOps(k - 1) + [JobOp(k, Payee())] + [ShareOp(k)]
  }

  lemma NoPending(n: Node)
    requires n.pool == []
    ensures Pending(n) == []
  {
  }

  lemma EmptyRound(n: Node, k: nat)
    requires k + 1 < LENGTH && At(n, Nothing(k)) && n.pool == []
    ensures
      var m := AfterCreateJob(TheEnv(), n, Payee(), GENESIS_TIMESTAMP_SECONDS + k + 1, JOB);
      && m.chain == n.chain
      && Inv(TheEnv(), m.chain)
      && var r := AfterShare(TheEnv(), m, JOB, NONCE, Named(k + 1), (GENESIS_TIMESTAMP_SECONDS + k + 1) * 1000);
         At(r, Nothing(k + 1)) && r.pool == []
  {
    hide *;
    var env := TheEnv();
    AtMeans(n, Nothing(k));
    NoPending(n);
    JobMade(n, Nothing(k));
    var m := AfterCreateJob(env, n, Payee(), GENESIS_TIMESTAMP_SECONDS + k + 1, JOB);
    NoTransactionsOk(env, Replay(env, SmallPath(Nothing(k))).entries, k + 1);
    JobMined(m, Nothing(k), []);
    BlockFields(k + 1, []);
    NothingStep(k);
    NothingLeft([]);
    NamesSuffice();
    EmptyPoolOk(
      AfterShare(env, m, JOB, NONCE, Named(k + 1), (GENESIS_TIMESTAMP_SECONDS + k + 1) * 1000), Nothing(k + 1));
  }

  lemma NothingLeft(txs: seq<Transaction>)
    ensures Uncommitted(TheEnv(), [], txs) == []
  {
  }

  lemma EmptyPoolOk(n: Node, bodies: seq<seq<Transaction>>)
    requires |bodies| <= LENGTH && Inv(TheEnv(), n.chain) && BestPath(TheEnv(), n.chain) == SmallPath(bodies)
    requires n.pool == [] && JobsSound(TheEnv(), n.chain, n.jobs) && Stored(n.chain, |bodies|)
    ensures At(n, bodies)
  {
    hide Inv, SmallPath, TheEnv, BestPath, Stored, JobsSound;
    TipStored(TheEnv(), n.chain);
  }

  lemma StartsSmall()
    ensures At(Start(TheEnv()), []) && NoCollisionsInRun(TheEnv(), [])
  {
    hide NodeSafe, Named, Inv, Hex;
    var env := TheEnv();
    StartSafe(env);
    GenesisInv(env);
    NamesDiffer();
    assert BestPath(env, Genesis(env)) == SmallPath([]);
  }

  lemma MiningRound(ops: seq<Op>, k: nat)
    requires k + 1 < LENGTH && At(RunOps(TheEnv(), ops), Nothing(k)) && RunOps(TheEnv(), ops).pool == []
    requires NoCollisionsInRun(TheEnv(), ops)
    ensures
      var more := ops + [JobOp(k + 1, Payee())] + [ShareOp(k + 1)];
      && At(RunOps(TheEnv(), more), Nothing(k + 1)) && RunOps(TheEnv(), more).pool == []
      && NoCollisionsInRun(TheEnv(), more)
  {
    hide At, TheEnv, RunOps, NoCollisionsInRun, AfterShare, AfterCreateJob, Payee, Named, Inv, BestPath, SmallPath;
    hide Hex, KnownBodies;
    var env, half := TheEnv(), ops + [JobOp(k + 1, Payee())];
    EmptyRound(RunOps(env, ops), k);
    RunStep(env, ops, JobOp(k + 1, Payee()));
    NothingKnown(k);
    TipOf(RunOps(env, ops), Nothing(k));
    SameChainStep(ops, JobOp(k + 1, Payee()), Nothing(k));
    RunStep(env, half, ShareOp(k + 1));
    NothingKnown(k + 1);
    TipOf(RunOps(env, half + [ShareOp(k + 1)]), Nothing(k + 1));
    CleanStep(half, ShareOp(k + 1), Nothing(k), Nothing(k + 1));
  }

  lemma TipOf(n: Node, bodies: seq<seq<Transaction>>)
    requires |bodies| <= LENGTH && At(n, bodies)
    ensures Inv(TheEnv(), n.chain) && BestPath(TheEnv(), n.chain) == SmallPath(bodies)
  {
    hide Inv, SmallPath, BestPath, TheEnv, Hex;
  }

  lemma {:induction false} AfterMining(k: nat)
    requires k < LENGTH
    ensures At(RunOps(TheEnv(), MiningOps(k)), Nothing(k)) && RunOps(TheEnv(), MiningOps(k)).pool == []
    ensures NoCollisionsInRun(TheEnv(), MiningOps(k))
  {
    hide At, TheEnv, RunOps, NoCollisionsInRun, Payee, Named, MiningOps, JobOp, ShareOp, Nothing, Hex;
    if k == 0 {
      StartsSmall();
      NoOps();
    } else {
      MiningOpsStep(k);
      AfterMining(k - 1);
      MiningRound(MiningOps(k - 1), k - 1);
    }
  }

  lemma MiningOpsStep(k: nat)
    requires 0 < k < LENGTH
    ensures MiningOps(k) == MiningOps(k - 1) + [JobOp(k, Payee())] + [ShareOp(k)]
  {
    hide Payee, JobOp, ShareOp, Hex;
  }

  lemma NoOps()
    ensures RunOps(TheEnv(), []) == Start(TheEnv()) && MiningOps(0) == [] && Nothing(0) == []
  {
    hide TheEnv, Hex;
  }

  lemma NothingKnown(k: nat)
    ensures KnownBodies(Nothing(k))
  {
  }

  // ---- five more calls ----

  const QUIET: nat := LENGTH - 1

  ghost function Waiting(fee: nat): MempoolEntry
    requires 1 <= fee <= 2
  {
    MempoolEntry(TransactionId(TheEnv(), Spend(fee)), Spend(fee), 0)
  }

  lemma TipOfQuietChain(n: Node)
    requires At(n, Nothing(QUIET))
    ensures Inv(TheEnv(), n.chain) && n.chain.bestHash in n.chain.entries
    ensures TipEntry(n).state == Replay(TheEnv(), SmallPath(Nothing(QUIET))) && TipHeight(n) == QUIET
  {
    hide Inv, PoolOk, JobsSound, TheEnv, SmallPath, ValidPath, Replay, Stored, Named, Hex;
    TipStored(TheEnv(), n.chain);
    TipFacts(TheEnv(), n.chain);
    TipOnPath(Nothing(QUIET));
  }

  /** Into an empty pool either of the two conflicting transactions is taken. */
  lemma Submitted(n: Node, fee: nat)
    requires 1 <= fee <= 2 && At(n, Nothing(QUIET)) && n.pool == []
    ensures AfterSubmit(TheEnv(), n, Spend(fee), 0) == n.(pool := [Waiting(fee)])
    ensures At(AfterSubmit(TheEnv(), n, Spend(fee), 0), Nothing(QUIET))
  {
    hide Inv, PoolOk, JobsSound, TheEnv, SmallPath, Replay, Stored, TransactionOk, TransactionId, Spend, ShapeOk;
    hide Hex;
    hide BestPath;
    TipOfQuietChain(n);
    SpendOk(QUIET, fee, QUIET);
    ShapeOfOk(TheEnv(), Replay(TheEnv(), SmallPath(Nothing(QUIET))).entries, QUIET, Spend(fee));
    SubmitKeeps(TheEnv(), n, Spend(fee), 0);
  }

  /** A call that leaves the quiet chain as it is. */
  lemma QuietStep(ops: seq<Op>, op: Op)
    requires NoCollisionsInRun(TheEnv(), ops) && At(RunOps(TheEnv(), ops), Nothing(QUIET))
    requires After(TheEnv(), RunOps(TheEnv(), ops), op).chain == RunOps(TheEnv(), ops).chain
    ensures NoCollisionsInRun(TheEnv(), ops + [op])
  {
    hide *;
    QuietIsShort();
    NothingKnown(QUIET);
    TipOf(RunOps(TheEnv(), ops), Nothing(QUIET));
    SameChainStep(ops, op, Nothing(QUIET));
  }

  lemma QuietIsShort()
    ensures QUIET <= LENGTH
  {
  }

  lemma OnePending(n: Node, fee: nat)
    requires 1 <= fee <= 2 && n.pool == [Waiting(fee)]
    ensures Pending(n) == [Spend(fee)]
  {
    hide TransactionId, Spend, TheEnv, Hex;
  }

  lemma UncommittedOf(pending: nat, mined: nat)
    requires 1 <= pending <= 2 && 1 <= mined <= 2
    ensures Uncommitted(TheEnv(), [Waiting(pending)], [Spend(mined)])
      == if pending == mined then [] else [Waiting(pending)]
  {
    hide Spend, TheEnv, Named, TransactionId, Elements, TransactionIds, Remove, CoinbaseId, TheCoinbase, Hex;
    Identifiers(1);
    NamesDiffer();
    SingleId(TheEnv(), Spend(mined));
    RemoveFromOne(Waiting(pending), Elements(TransactionIds(TheEnv(), [Spend(mined)])));
  }

  lemma RemoveFromOne(e: MempoolEntry, ids: set<string>)
    ensures Remove([e], ids) == if e.id in ids then [] else [e]
  {
    var pool: Pool := [e];
    assert pool[..0] == [] && pool[0] == e;
    assert Remove([], ids) == [];
  }

  lemma SingleId(env: Env, tx: Transaction)
    ensures Elements(TransactionIds(env, [tx])) == {TransactionId(env, tx)}
  {
    hide TransactionId, Hex;
    assert TransactionIds(env, [tx]) == [TransactionId(env, tx)];
  }

  lemma SpendShaped(fee: nat)
    requires 1 <= fee <= 2
    ensures Shaped(TheEnv(), [Spend(fee)])
  {
    hide ShapeOk, Spend, TheEnv;
    SpendContent(fee);
  }

  /** The repeated hash of block 1 takes the job's transaction out of the pool. */
  lemma Purged(n: Node)
    requires At(n, Nothing(QUIET)) && n.pool == [Waiting(1)] && n.jobs == map[JOB := TheJob(LENGTH, [Spend(1)])]
    ensures AfterShare(TheEnv(), n, JOB, NONCE, Named(1), 0) == n.(pool := [])
    ensures At(AfterShare(TheEnv(), n, JOB, NONCE, Named(1), 0), Nothing(QUIET))
  {
    hide Inv, PoolOk, JobsSound, TheEnv, SmallPath, Spend, Waiting, Named, SmallBlock, Uncommitted, AfterBlockOffer;
    hide Hex;
    hide BestPath;
    var b := SmallBlock(LENGTH, [Spend(1)]).(hash := Named(1));
    BlockFields(LENGTH, [Spend(1)]);
    ShareIsSmall(n, LENGTH, 1, [Spend(1)]);
    SpendShaped(1);
    KnownBlockKeeps(TheEnv(), n, b, 0);
    UncommittedOf(1, 1);
  }

  /** The job is mined, and what is pending has lost its input. */
  lemma Stranded(n: Node)
    requires At(n, Nothing(QUIET)) && n.pool == [Waiting(2)] && n.jobs == map[JOB := TheJob(LENGTH, [Spend(1)])]
    ensures
      var m := AfterShare(TheEnv(), n, JOB, NONCE, Named(LENGTH), (GENESIS_TIMESTAMP_SECONDS + LENGTH) * 1000);
      && Inv(TheEnv(), m.chain) && BestPath(TheEnv(), m.chain) == SmallPath(Nothing(QUIET) + [[Spend(1)]])
      && m.chain.bestHash in m.chain.entries
      && !PoolOk(TheEnv(), m.pool, TipEntry(m).state.entries, TipHeight(m))
  {
    hide Inv, PoolOk, JobsSound, TheEnv, SmallPath, Spend, Waiting, Named, SmallBlock, Uncommitted, AfterShare;
    hide Hex;
    hide TransactionsOk, TransactionsLength, Add, ValidPath, Replay, NoneSpent, NoCollisions, Stored, KnownBody;
    var env, txs := TheEnv(), [Spend(1)];
    var m := AfterShare(env, n, JOB, NONCE, Named(LENGTH), (GENESIS_TIMESTAMP_SECONDS + LENGTH) * 1000);
    SingleOk();
    BlockFields(LENGTH, txs);
    JobMined(n, Nothing(QUIET), txs);
    UncommittedOf(2, 1);
    TipOfQuietChain(n);
    TipStored(env, m.chain);
    TipFacts(env, m.chain);
    TipOnPath(Nothing(QUIET));
    SmallPathStep(Nothing(QUIET), txs);
    forall k | 0 <= k < LENGTH ensures KnownBody((Nothing(QUIET) + [txs])[k]) {
      SingleKnown(k);
    }
    NoneCollide(Nothing(QUIET) + [txs]);
    PoolAfterBlock(env, n.pool, SmallPath(Nothing(QUIET)), SmallBlock(LENGTH, txs));
    SharedIsSpent();
  }

  lemma SingleKnown(k: nat)
    requires k < LENGTH
    ensures KnownBody((Nothing(QUIET) + [[Spend(1)]])[k])
  {
    hide Spend, Hex;
  }

  lemma SingleOk()
    ensures TransactionsOk(TheEnv(), Replay(TheEnv(), SmallPath(Nothing(QUIET))).entries, LENGTH, [Spend(1)])
    ensures TransactionsLength([Spend(1)]) <= MAX_BLOCK_BODY_BYTES
  {
    hide Spend, TheEnv, TransactionOk, Replay, SmallPath, TransactionsLength, Hex;
    SpendOk(QUIET, 1, LENGTH);
    BothShort();
    assert BothSpends()[..1] == [Spend(1)];
  }

  lemma SharedIsSpent()
    ensures !NoneSpent([Waiting(2)], [Spend(1)])
  {
    hide TransactionId, Hex, Spend, InputSet, TheEnv;
    var txs := [Spend(1)];
    assert txs[..0] == [] && txs[0] == Spend(1);
    SharedInput(1);
    SharedInput(2);
    assert Outpoint(Named(1), 0) in SpentBy(txs);
    assert [Waiting(2)][0].transaction == Spend(2);
  }

  /** Submissions, the new job and the repeated hash. */
  ghost function Purging(): seq<Op> {
    MiningOps(QUIET) + [Submit(Spend(1), 0)] + [JobOp(LENGTH, Payee())] + [Share(JOB, NONCE, Named(1), 0)]
  }

  lemma AfterPurging()
    ensures
      var n := RunOps(TheEnv(), Purging());
      At(n, Nothing(QUIET)) && n.pool == [] && n.jobs == map[JOB := TheJob(LENGTH, [Spend(1)])]
    ensures NoCollisionsInRun(TheEnv(), Purging())
  {
    hide At, TheEnv, RunOps, NoCollisionsInRun, AfterShare, AfterCreateJob, AfterSubmit, Payee, Named, Inv, MiningOps;
    hide Hex;
    hide Spend, TheJob, Nothing, Waiting;
    var env, a := TheEnv(), MiningOps(QUIET);
    AfterMining(QUIET);
    Submitted(RunOps(env, a), 1);
    QuietStep(a, Submit(Spend(1), 0));
    RunStep(env, a, Submit(Spend(1), 0));
    var b := a + [Submit(Spend(1), 0)];
    JobMade(RunOps(env, b), Nothing(QUIET));
    OnePending(RunOps(env, b), 1);
    QuietStep(b, JobOp(LENGTH, Payee()));
    RunStep(env, b, JobOp(LENGTH, Payee()));
    var c := b + [JobOp(LENGTH, Payee())];
    Purged(RunOps(env, c));
    QuietStep(c, Share(JOB, NONCE, Named(1), 0));
    RunStep(env, c, Share(JOB, NONCE, Named(1), 0));
  }

  /** A run from genesis without collisions at whose end the pool holds a transaction that is no longer valid. */
  lemma SafetyFails() returns (env: Env, ops: seq<Op>)
    ensures NoCollisionsInRun(env, ops) && !SafeRun(env, ops) && !HarmlessRun(env, ops)
    ensures
      var n := RunOps(env, ops);
      && n.chain.bestHash in n.chain.entries
      && !PoolOk(env, n.pool, TipEntry(n).state.entries, TipHeight(n))
  {
    hide At, TheEnv, RunOps, NoCollisionsInRun, AfterShare, AfterSubmit, Payee, Named, Inv, SafeRun, HarmlessRun;
    hide Hex;
    hide Spend, TheJob, Nothing, Waiting, Purging, PoolOk, SmallPath, KnownBody;
    env := TheEnv();
    AfterPurging();
    Submitted(RunOps(env, Purging()), 2);
    QuietStep(Purging(), Submit(Spend(2), 0));
    RunStep(env, Purging(), Submit(Spend(2), 0));
    var before := Purging() + [Submit(Spend(2), 0)];
    Stranded(RunOps(env, before));
    RunStep(env, before, ShareOp(LENGTH));
    LastStepIsClean(before);
    ops := before + [ShareOp(LENGTH)];
    EndIsUnsafe(env, ops);
    MiningLoopSafeExactly(env, ops);
  }

  lemma LastStepIsClean(before: seq<Op>)
    requires NoCollisionsInRun(TheEnv(), before) && At(RunOps(TheEnv(), before), Nothing(QUIET))
    requires
      BestPath(TheEnv(), RunOps(TheEnv(), before + [ShareOp(LENGTH)]).chain) == SmallPath(Nothing(QUIET) + [[Spend(1)]])
    ensures NoCollisionsInRun(TheEnv(), before + [ShareOp(LENGTH)])
  {
    hide At, TheEnv, RunOps, NoCollisionsInRun, Named, Inv, Hex, Spend, Nothing, SmallPath, KnownBody, BestPath;
    NothingKnown(QUIET);
    TipOf(RunOps(TheEnv(), before), Nothing(QUIET));
    forall k | 0 <= k < LENGTH ensures KnownBody((Nothing(QUIET) + [[Spend(1)]])[k]) {
      SingleKnown(k);
    }
    CleanStep(before, ShareOp(LENGTH), Nothing(QUIET), Nothing(QUIET) + [[Spend(1)]]);
  }

  lemma EndIsUnsafe(env: Env, ops: seq<Op>)
    ensures
      var n := RunOps(env, ops);
      SafeRun(env, ops) ==>
        && n.chain.bestHash in n.chain.entries
        && PoolOk(env, n.pool, TipEntry(n).state.entries, TipHeight(n))
  {
    hide RunOps, PoolOk, Inv, JobsSound, Hex;
    if SafeRun(env, ops) {
      assert SafeAt(env, ops, |ops|);
      assert ops[..|ops|] == ops;
      TipStored(env, RunOps(env, ops).chain);
    }
  }
}
