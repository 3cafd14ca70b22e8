/**
 * The mining loop of a node as a state machine over its chain, its pool and its job:
 * apps/node/src/service.ts (acceptTransaction, createJob, submitShare, acceptBlock).
 */
module Mining {
  import opened Prelude
  import opened Text
  import opened Types
  import opened SigningText
  import opened HeaderCodec
  import opened Schedule
  import opened State
  import opened Merkle
  import opened History
  import opened Conservation
  import opened Paths
  import opened Chain
  import opened Mempool
  import opened Branches
  import Amount
  import Reward

  datatype MiningJob = MiningJob(jobId: string, block: Block)

  datatype Node = Node(chain: ChainState, pool: Pool, jobs: map<string, MiningJob>)

  ghost function Start(env: Env): Node {
    Node(Genesis(env), [], map[])
  }

  // ---- encodings of a submitted share ----

  predicate IsHexDigit(c: char) {
    IsLowerHex(c) || 'A' <= c <= 'F'
  }

  predicate AnyCaseHex(s: string, length: nat) {
    |s| == length && forall k :: 0 <= k < |s| ==> IsHexDigit(s[k])
  }

  function Lower(c: char): char {
    if 'A' <= c <= 'Z' then (c as int + 32) as char else c
  }

  function LowerCase(s: string): (r: string)
    ensures |r| == |s|
  {
    seq(|s|, k requires 0 <= k < |s| => Lower(s[k]))
  }

  lemma LowerCaseHex(s: string, length: nat)
    requires AnyCaseHex(s, length)
    ensures Hex(LowerCase(s), length)
  {
  }

  /** The byte that two hexadecimal digits spell. */
  function ByteOf(s: string, at: nat): byte
    requires at + 2 <= |s| && IsHexDigit(s[at]) && IsHexDigit(s[at + 1])
  {
    NibbleOf(Lower(s[at])) * 16 + NibbleOf(Lower(s[at + 1]))
  }

  /** The low 32 bits as a signed number: what the shift and or operators leave. */
  function ToInt32(v: int): (r: int)
    ensures -0x8000_0000 <= r < 0x8000_0000
  {
    var low := v % U32_LIMIT;
    if low >= 0x8000_0000 then low - U32_LIMIT else low
  }

  /** The nonce that the four bytes spell, lowest byte first. */
  function UnsignedNonce(nonceHex: string): nat
    requires AnyCaseHex(nonceHex, 8)
  {
    ByteOf(nonceHex, 0) + 0x100 * ByteOf(nonceHex, 2) + 0x1_0000 * ByteOf(nonceHex, 4)
    + 0x100_0000 * ByteOf(nonceHex, 6)
  }

  /** What the decoding loop has read down to `index`. */
  ghost function Upper(nonceHex: string, index: int): nat
    requires AnyCaseHex(nonceHex, 8) && index in {6, 4, 2, 0, -2}
    decreases 6 - index
  {
    if index == 6 then 0 else Upper(nonceHex, index + 2) * 0x100 + ByteOf(nonceHex, index + 2)
  }

  lemma UpperValues(nonceHex: string)
    requires AnyCaseHex(nonceHex, 8)
    ensures forall index :: index in {6, 4, 2, 0} ==> Upper(nonceHex, index) < 0x100_0000
    ensures Upper(nonceHex, -2) == UnsignedNonce(nonceHex)
  {
    hide ByteOf;
    assert Upper(nonceHex, 4) == ByteOf(nonceHex, 6);
    assert Upper(nonceHex, 2) == ByteOf(nonceHex, 6) * 0x100 + ByteOf(nonceHex, 4);
    assert Upper(nonceHex, 0) == Upper(nonceHex, 2) * 0x100 + ByteOf(nonceHex, 2);
    assert Upper(nonceHex, -2) == Upper(nonceHex, 0) * 0x100 + ByteOf(nonceHex, 0);
  }

  lemma ZeroIsZero()
    ensures ToInt32(0) == 0
  {
  }

  lemma SignedValue(v: nat)
    requires v < U32_LIMIT
    ensures ToInt32(v) == if v >= 0x8000_0000 then v - U32_LIMIT else v
  {
  }

  lemma SignedStep(u: nat, low: byte)
    requires u < 0x100_0000
    ensures ToInt32(ToInt32(u) * 0x100) + low == ToInt32(u * 0x100 + low)
  {
    hide ToInt32;
    SignedValue(u);
    SignedValue(u * 0x100);
    SignedValue(u * 0x100 + low);
  }

  /** The decoding loop works on signed 32-bit words, so nonces from 2^31 on come out negative. */
  method DecodeNonce(nonceHex: string) returns (nonce: int)
    requires AnyCaseHex(nonceHex, 8)
    ensures nonce == ToInt32(UnsignedNonce(nonceHex))
  {
    hide ByteOf, ToInt32;
    UpperValues(nonceHex);
    nonce := 0;
    ZeroIsZero();
    var index := 6;
    while index >= 0
      invariant index in {6, 4, 2, 0, -2}
      invariant nonce == ToInt32(Upper(nonceHex, index))
    {
      SignedStep(Upper(nonceHex, index), ByteOf(nonceHex, index));
      nonce := ToInt32(nonce * 0x100) + ByteOf(nonceHex, index);
      index := index - 2;
    }
  }

  // ---- job templates ----

  function CoinbaseFor(payout: string, subsidy: nat): Coinbase {
    Coinbase([Output(payout, Amount.Print(subsidy))])
  }

  lemma CoinbaseReadable(payout: string, subsidy: nat)
    ensures RewardReadable(Some(CoinbaseFor(payout, subsidy)))
  {
    hide Amount.Parse, Amount.Print;
    Amount.ParseOfFormat(subsidy);
  }

  function TemplateHeader(
    env: Env, parentHash: string, next: NextData, payout: string, coinbase: Coinbase, txs: seq<Transaction>,
    nowSeconds: int): Header
  {
    Header(PROTOCOL_VERSION, next.height, parentHash, nowSeconds, next.difficulty,
           MerkleRoot(env, next.height, Some(coinbase), TransactionIds(env, txs)), next.powSeed, payout)
  }

  function Template(
    env: Env, parentHash: string, next: NextData, payout: string, subsidy: nat, txs: seq<Transaction>,
    nowSeconds: int): Block
  {
    var coinbase := CoinbaseFor(payout, subsidy);
    Block(TemplateHeader(env, parentHash, next, payout, coinbase, txs, nowSeconds), "", 0, Some(coinbase), txs)
  }

  ghost function TemplateFor(
    env: Env, path: seq<Block>, issued: int, payout: string, txs: seq<Transaction>, nowSeconds: int): Option<Block>
    requires |path| > 0
  {
    var next := NextFor(path);
    if !ValidAddress(env, payout) || next.None? || !Shaped(env, txs) then None
    else
      var subsidy := Reward.RewardForBlock(next.value.height, issued);
      if subsidy.Err? || subsidy.value < 0 then None
      else
        var block := Template(env, Last(path).hash, next.value, payout, subsidy.value, txs, nowSeconds);
        if Encodable(block.header, 0) then Some(block) else None
  }

  function Candidate(block: Block, nonce: int, hash: string): Block {
    block.(nonce := nonce, hash := hash)
  }

  // ---- steps ----

  datatype Op =
    | Submit(tx: Transaction, nowMs: int)
    | CreateJob(payout: string, nowSeconds: int, jobId: string)
    | Share(jobId: string, nonceHex: string, hashHex: string, nowMs: int)
    | Receive(block: Block, nowMs: int)

  function TipEntry(n: Node): ChainEntry
    requires n.chain.bestHash in n.chain.entries
  {
    n.chain.entries[n.chain.bestHash]
  }

  function TipHeight(n: Node): int
    requires n.chain.bestHash in n.chain.entries
  {
    TipEntry(n).block.header.height
  }

  function Pending(n: Node): seq<Transaction> {
    Transactions(List(n.pool, LIST_LIMIT))
  }

  ghost function AfterSubmit(env: Env, n: Node, tx: Transaction, nowMs: int): Node
    requires Inv(env, n.chain)
  {
    match AfterAccept(env, n.pool, TipEntry(n).state, TipHeight(n), tx, nowMs)
    case Some(pool) => n.(pool := pool)
    case None => n
  }

  ghost function AfterCreateJob(env: Env, n: Node, payout: string, nowSeconds: int, jobId: string): Node
    requires Inv(env, n.chain)
  {
    match TemplateFor(env, BestPath(env, n.chain), TipEntry(n).state.issuedPhotons, payout, Pending(n), nowSeconds)
    case Some(block) => n.(jobs := map[jobId := MiningJob(jobId, block)])
    case None => n
  }

  /** A malformed body with a known hash gets as far as the chain's answer, and no further. */
  ghost function AfterBlockOffer(env: Env, n: Node, b: Block, nowMs: int): Node
    requires Inv(env, n.chain)
  {
    var step := Add(env, nowMs, n.chain, b);
    if step.verdict.None? then n
    else if !Shaped(env, b.transactions) then n.(chain := step.chain)
    else n.(chain := step.chain, pool := Remove(n.pool, Elements(TransactionIds(env, b.transactions))))
  }

  ghost predicate WellFormedShare(n: Node, jobId: string, nonceHex: string, hashHex: string) {
    jobId in n.jobs && AnyCaseHex(nonceHex, 8) && AnyCaseHex(hashHex, 64)
  }

  ghost function ShareBlock(n: Node, jobId: string, nonceHex: string, hashHex: string): Block
    requires WellFormedShare(n, jobId, nonceHex, hashHex)
  {
    Candidate(n.jobs[jobId].block, ToInt32(UnsignedNonce(nonceHex)), LowerCase(hashHex))
  }

  ghost function AfterShare(env: Env, n: Node, jobId: string, nonceHex: string, hashHex: string, nowMs: int): Node
    requires Inv(env, n.chain)
  {
    if WellFormedShare(n, jobId, nonceHex, hashHex)
    then AfterBlockOffer(env, n, ShareBlock(n, jobId, nonceHex, hashHex), nowMs)
    else n
  }

  ghost function After(env: Env, n: Node, op: Op): Node
    requires Inv(env, n.chain)
  {
    match op
    case Submit(tx, nowMs) => AfterSubmit(env, n, tx, nowMs)
    case CreateJob(payout, nowSeconds, jobId) => AfterCreateJob(env, n, payout, nowSeconds, jobId)
    case Share(jobId, nonceHex, hashHex, nowMs) => AfterShare(env, n, jobId, nonceHex, hashHex, nowMs)
    case Receive(block, nowMs) => AfterBlockOffer(env, n, block, nowMs)
  }

  lemma AfterKeepsTree(env: Env, n: Node, op: Op)
    requires Inv(env, n.chain)
    ensures Inv(env, After(env, n, op).chain)
  {
    hide Inv, Add, CheckBlock, AfterAccept, TemplateFor;
    match op
    case Submit(_, _) =>
    case CreateJob(_, _, _) =>
    case Receive(block, nowMs) => AddKeepsInv(env, nowMs, n.chain, block);
    case Share(jobId, nonceHex, hashHex, nowMs) =>
      if WellFormedShare(n, jobId, nonceHex, hashHex) {
        AddKeepsInv(env, nowMs, n.chain, ShareBlock(n, jobId, nonceHex, hashHex));
      }
  }

  ghost function RunOps(env: Env, ops: seq<Op>): (n: Node)
    ensures Inv(env, n.chain)
  {
    if |ops| == 0 then
      GenesisInv(env);
      Start(env)
    else
      var n := RunOps(env, ops[..|ops| - 1]);
      AfterKeepsTree(env, n, ops[|ops| - 1]);
      After(env, n, ops[|ops| - 1])
  }

  // ---- the invariant of the loop ----

  /** Everything a block on `path` needs except size, time, proof of work and the supply cap. */
  ghost predicate JobFits(env: Env, path: seq<Block>, b: Block)
    requires |path| > 0
  {
    var header := b.header;
    && header.version == Last(path).header.version
    && header.height == Last(path).header.height + 1 && header.height >= 1
    && NextDifficulty(path) == Some(header.difficulty)
    && SeedOk(path, header)
    && BodyOk(env, b)
    && CoinbaseFits(env, Replay(env, path).issuedPhotons, b)
    && TransactionsOk(env, Replay(env, path).entries, header.height, b.transactions)
    && DisjointInputs(b.transactions)
  }

  ghost predicate CoinbaseFits(env: Env, issued: int, b: Block) {
    && b.coinbase.Some? && |b.coinbase.value.outputs| == 1
    && var o := b.coinbase.value.outputs[0];
    && ValidAddress(env, o.address)
    && Amount.Parse(o.amount).Some?
    && Reward.RewardForBlock(b.header.height, issued) == Ok(Photons(o.amount))
    && b.header.payoutAddress == o.address
  }

  /** A job fits the path of its parent. */
  ghost predicate JobSound(env: Env, c: ChainState, job: MiningJob)
    requires Inv(env, c)
  {
    var parent := job.block.header.previousHash;
    parent in c.entries && JobFits(env, PathOf(env, c.entries, parent), job.block)
  }

  ghost predicate JobsSound(env: Env, c: ChainState, jobs: map<string, MiningJob>)
    requires Inv(env, c)
  {
    forall id :: id in jobs ==> JobSound(env, c, jobs[id])
  }

  /** Safety: pending transactions are disjoint and valid at the tip, and jobs fit their parents. */
  ghost predicate NodeSafe(env: Env, n: Node) {
    && Inv(env, n.chain)
    && PoolOk(env, n.pool, TipEntry(n).state.entries, TipHeight(n))
    && JobsSound(env, n.chain, n.jobs)
  }

  /** A share of a fitting job is accepted exactly on size, median time, work and the cap; never on a transaction. */
  lemma ShareChecks(env: Env, path: seq<Block>, b: Block, nonce: int, hash: string)
    requires |path| > 0 && JobFits(env, path, b)
    ensures
      var candidate := Candidate(b, nonce, hash);
      && TransactionsOk(env, Replay(env, path).entries, candidate.header.height, candidate.transactions)
      && (CheckBlock(env, path, candidate) <==>
        && Hex(hash, 64)
        && TransactionsLength(b.transactions) <= MAX_BLOCK_BODY_BYTES
        && b.header.timestampSeconds > MedianTime(path)
        && PowOk(env, candidate)
        && Replay(env, path).issuedPhotons + Minted(b) <= Reward.TOTAL_SUPPLY)
  {
    hide NextDifficulty, SeedOk, TransactionsOk, Replay, PowOk, ValidAddress, Amount.Parse, Reward.RewardForBlock;
    hide TransactionsLength, MedianTime, DisjointInputs, ShapeOk, Photons;
  }

  /** The byte that comes first is the lowest; the case of its digits does not matter. */
  lemma NonceSpelled()
    ensures AnyCaseHex("01020AfF", 8) && UnsignedNonce("01020AfF") == 0xff0a_0201
    ensures LowerCase("01020AfF") == "01020aff"
  {
    var s := "01020AfF";
    assert LowerCase(s) == "01020aff";
    assert ByteOf(s, 0) == 1 && ByteOf(s, 2) == 2 && ByteOf(s, 4) == 10 && ByteOf(s, 6) == 255;
  }

  /** Half of all nonces cannot be submitted: the signed decoding makes the header unserializable. */
  lemma HighNoncesAreRefused(env: Env, path: seq<Block>, b: Block, nonceHex: string, hash: string)
    requires |path| > 0 && AnyCaseHex(nonceHex, 8)
    ensures
      var nonce := ToInt32(UnsignedNonce(nonceHex));
      && (UnsignedNonce(nonceHex) < 0x8000_0000 ==> nonce == UnsignedNonce(nonceHex))
      && (UnsignedNonce(nonceHex) >= 0x8000_0000 ==> !CheckBlock(env, path, Candidate(b, nonce, hash)))
  {
    hide LinkOk, BodyOk, BlockOk;
  }

  lemma TemplateFits(env: Env, path: seq<Block>, payout: string, txs: seq<Transaction>, nowSeconds: int)
    requires ValidPath(env, path)
    requires TemplateFor(env, path, Replay(env, path).issuedPhotons, payout, txs, nowSeconds).Some?
    requires TransactionsOk(env, Replay(env, path).entries, Last(path).header.height + 1, txs) && DisjointInputs(txs)
    ensures
      var b := TemplateFor(env, path, Replay(env, path).issuedPhotons, payout, txs, nowSeconds).value;
      JobFits(env, path, b) && b.transactions == txs && b.header.previousHash == Last(path).hash
  {
    hide NextDifficulty, Replay, ValidAddress, Amount.Parse, Reward.RewardForBlock, ValidPath, DisjointInputs;
    hide LedgerPath, ShapeOk, Amount.Print, DistinctIds, InputsOk, ExpectedSeedHeight, MerkleRoot;
    ShapeOfValidPath(env, path);
    var height := Last(path).header.height + 1;
    var subsidy := Reward.RewardForBlock(height, Replay(env, path).issuedPhotons).value;
    Amount.ParseOfFormat(subsidy);
    CoinbaseReadable(payout, subsidy);
    forall k | 0 <= k < |txs| ensures ShapeOk(env, txs[k]) {
      assert TransactionOk(env, Replay(env, path).entries, height, txs[k]);
    }
  }

  lemma TipFacts(env: Env, c: ChainState)
    requires Inv(env, c)
    ensures
      var path := BestPath(env, c);
      && ValidPath(env, path) && Last(path) == c.entries[c.bestHash].block && Last(path).hash == c.bestHash
      && c.entries[c.bestHash].state == Replay(env, path)
  {
    hide ValidPath, Replay, Work;
    assert EntryOk(env, c.entries, c.bestHash) && LinkedAt(env, c.entries, c.bestHash);
  }

  // ---- submissions and jobs ----

  lemma TipStored(env: Env, c: ChainState)
    requires Inv(env, c)
    ensures Linked(env, c.entries) && c.bestHash in c.entries
  {
  }

  /** A submitted transaction keeps the node safe, whether it is refused, added or evicts another. */
  lemma SubmitKeeps(env: Env, n: Node, tx: Transaction, nowMs: int)
    requires NodeSafe(env, n)
    ensures NodeSafe(env, AfterSubmit(env, n, tx, nowMs))
  {
    hide Inv, JobSound, PoolOk, AfterAccept;
    TipStored(env, n.chain);
    var l, height := TipEntry(n).state, TipHeight(n);
    if AfterAccept(env, n.pool, l, height, tx, nowMs).Some? {
      AcceptKeepsPool(env, n.pool, l, height, tx, nowMs);
    }
  }

  /** A new job fits the best tip. */
  lemma CreatedJobSound(env: Env, n: Node, payout: string, nowSeconds: int, jobId: string, b: Block)
    requires NodeSafe(env, n)
    requires
      TemplateFor(env, BestPath(env, n.chain), TipEntry(n).state.issuedPhotons, payout, Pending(n), nowSeconds)
        == Some(b)
    ensures JobSound(env, n.chain, MiningJob(jobId, b))
    ensures b.transactions == Pending(n) && b.header.previousHash == n.chain.bestHash
  {
    hide Inv, JobFits, PoolOk, TemplateFor, JobsSound, TransactionsOk, DisjointInputs, ValidPath, Replay;
    TipStored(env, n.chain);
    TipFacts(env, n.chain);
    var listed := if |n.pool| <= LIST_LIMIT then |n.pool| else LIST_LIMIT;
    assert n.pool[..listed] == List(n.pool, LIST_LIMIT);
    var tip := TipEntry(n);
    ListedTransactionsOk(env, n.pool, tip.state.entries, TipHeight(n), TipHeight(n) + 1, listed);
    TemplateFits(env, BestPath(env, n.chain), payout, Pending(n), nowSeconds);
  }

  /** A job takes the oldest pending transactions in their order, up to 1,000 of them. */
  lemma JobTakesOldest(env: Env, n: Node, payout: string, nowSeconds: int)
    requires NodeSafe(env, n)
    ensures
      var made :=
        TemplateFor(env, BestPath(env, n.chain), TipEntry(n).state.issuedPhotons, payout, Pending(n), nowSeconds);
      made.Some? ==>
        && |made.value.transactions| == (if |n.pool| < 1_000 then |n.pool| else 1_000)
        && forall k :: 0 <= k < |made.value.transactions| ==>
          made.value.transactions[k] == n.pool[k].transaction
  {
    hide Inv, PoolOk, TemplateFor, JobSound, JobsSound;
    TipStored(env, n.chain);
    var made :=
      TemplateFor(env, BestPath(env, n.chain), TipEntry(n).state.issuedPhotons, payout, Pending(n), nowSeconds);
    if made.Some? {
      CreatedJobSound(env, n, payout, nowSeconds, "", made.value);
      OldestListed(n.pool, LIST_LIMIT);
    }
  }

  /** The only job left names the best block, the time and the payee of the whole reward; it is yet to be mined. */
  lemma CreatedJob(env: Env, n: Node, payout: string, nowSeconds: int, jobId: string)
    requires Inv(env, n.chain) && AfterCreateJob(env, n, payout, nowSeconds, jobId) != n
    ensures |BestPath(env, n.chain)| > 0
    ensures
      var after, path := AfterCreateJob(env, n, payout, nowSeconds, jobId), BestPath(env, n.chain);
      var subsidy := Reward.RewardForBlock(|path|, TipEntry(n).state.issuedPhotons);
      && after.chain == n.chain && after.pool == n.pool && after.jobs.Keys == {jobId}
      && var b := after.jobs[jobId].block;
      && b.header.previousHash == path[|path| - 1].hash && b.header.height == |path| && b.header.version == 1
      && b.header.timestampSeconds == nowSeconds && b.nonce == 0 && b.hash == ""
      && subsidy.Ok? && subsidy.value >= 0 && b.header.payoutAddress == payout
      && b.coinbase == Some(Coinbase([Output(payout, Amount.Print(subsidy.value))]))
  {
    hide ValidPath, Replay, Work, Reward.RewardForBlock, Amount.Print, Encodable, MerkleRoot, Shaped, NextDifficulty;
    hide LedgerPath, PathOf, ExpectedSeedHeight, Linked;
    TipFacts(env, n.chain);
    ShapeOfValidPath(env, BestPath(env, n.chain));
  }

  lemma CreateJobKeeps(env: Env, n: Node, payout: string, nowSeconds: int, jobId: string)
    requires NodeSafe(env, n)
    ensures NodeSafe(env, AfterCreateJob(env, n, payout, nowSeconds, jobId))
  {
    hide Inv, PoolOk, TemplateFor, JobSound;
    TipStored(env, n.chain);
    var made :=
      TemplateFor(env, BestPath(env, n.chain), TipEntry(n).state.issuedPhotons, payout, Pending(n), nowSeconds);
    if made.Some? {
      CreatedJobSound(env, n, payout, nowSeconds, jobId, made.value);
    }
  }

  // ---- what a block does to the pool ----

  /** No entry shares an input with the transactions of a block. */
  ghost predicate NoneSpent(pool: Pool, txs: seq<Transaction>) {
    forall k :: 0 <= k < |pool| ==> InputSet(pool[k].transaction.inputs) !! SpentBy(txs)
  }

  /** What `removeCommitted` leaves of the pool. */
  function Uncommitted(env: Env, pool: Pool, txs: seq<Transaction>): Pool {
    Remove(pool, Elements(TransactionIds(env, txs)))
  }

  lemma InputsOfFitting(env: Env, e: MempoolEntry, entries: Entries, height: int)
    requires EntryFits(env, e, entries, height)
    ensures InputSet(e.transaction.inputs) <= entries.Keys
  {
    hide ShapeOk, TransactionId;
    forall i | i in InputSet(e.transaction.inputs) ensures i in entries {
      var k :| 0 <= k < |e.transaction.inputs| && e.transaction.inputs[k] == i;
      assert InputOk(entries, AddressOf(env, e.transaction.pubkey), height, e.transaction.inputs[k]);
    }
  }

  lemma {:induction false} InputsOfPool(env: Env, pool: Pool, entries: Entries, height: int)
    requires PoolOk(env, pool, entries, height)
    ensures forall k :: 0 <= k < |pool| ==> InputSet(pool[k].transaction.inputs) <= entries.Keys
  {
    hide EntryFits, Apart;
    forall k | 0 <= k < |pool| ensures InputSet(pool[k].transaction.inputs) <= entries.Keys {
      InputsOfFitting(env, pool[k], entries, height);
    }
  }

  /** Entries that were valid before a block are valid after it exactly when it consumed none of their inputs. */
  lemma SurvivesExactly(env: Env, pool: Pool, before: Entries, after: Entries, spent: seq<Transaction>,
    blockIds: set<string>, height: int, later: int)
    requires PoolOk(env, pool, before, height) && height <= later
    requires Effect(before, after, SpentBy(spent), blockIds)
    ensures PoolOk(env, pool, after, later) <==> NoneSpent(pool, spent)
  {
    hide PoolOk, SpentBy, InputSet;
    InputsOfPool(env, pool, before, height);
    if NoneSpent(pool, spent) {
      assert forall k :: 0 <= k < |pool| ==> Untouched(before, after, pool[k].transaction);
      PoolSurvives(env, pool, before, after, height, later);
    }
    if PoolOk(env, pool, after, later) {
      InputsOfPool(env, pool, after, later);
    }
  }

  /**
   * After any acceptable block on top of the tip, whoever made it, the rest of the pool is valid at the new tip
   * exactly when the block consumed none of its inputs.
   */
  lemma PoolAfterBlock(env: Env, pool: Pool, path: seq<Block>, b: Block)
    requires ValidPath(env, path + [b]) && |path| > 0 && NoCollisions(env, path + [b])
    requires PoolOk(env, pool, Replay(env, path).entries, Last(path).header.height)
    ensures
      var rest := Uncommitted(env, pool, b.transactions);
      PoolOk(env, rest, Replay(env, path + [b]).entries, b.header.height) <==> NoneSpent(rest, b.transactions)
  {
    hide ValidPath, PoolOk, Replay, LedgerPath, NoCollisions, Effect, SpentStaysSpent, EntriesWellBorn, FreshFor;
    hide TransactionIds, BlockIds, SpentBy, Remove, Keyed, LinkOk, NoneSpent, Elements;
    var longer, rest := path + [b], Uncommitted(env, pool, b.transactions);
    assert longer[..|longer| - 1] == path;
    ShapeOfValidPath(env, longer);
    PrefixOfLedgerPath(env, longer, |path|);
    NoCollisionsPrefix(env, longer, |path|);
    HistoryInvariant(env, path);
    LastBlockEffect(env, longer);
    var before, after, height := Replay(env, path).entries, Replay(env, longer).entries, Last(path).header.height;
    RemoveKeepsPool(env, pool, Elements(TransactionIds(env, b.transactions)), before, height);
    SurvivesExactly(env, rest, before, after, b.transactions, BlockIds(env, b), height, b.header.height);
  }

  // ---- blocks ----

  lemma VerdictOfAccepted(env: Env, c: ChainState, b: Block, nowMs: int)
    requires Inv(env, c) && Accepts(env, nowMs, c, b)
    ensures Add(env, nowMs, c, b).verdict.Some?
  {
    hide CheckBlock, EntryOk, EntryFor;
  }

  lemma JobShaped(env: Env, c: ChainState, job: MiningJob)
    requires Inv(env, c) && JobSound(env, c, job)
    ensures Shaped(env, job.block.transactions)
  {
    hide Inv, Shaped, NextDifficulty, SeedOk, CoinbaseFits, TransactionsOk, DisjointInputs;
  }

  lemma AcceptedShaped(env: Env, c: ChainState, b: Block, nowMs: int)
    requires Inv(env, c) && Accepts(env, nowMs, c, b)
    ensures Shaped(env, b.transactions)
  {
    hide Inv, LinkOk, PowOk, BlockOk, Shaped;
  }

  /** An accepted block overtakes the best tip. */
  ghost predicate Overtakes(env: Env, c: ChainState, b: Block, nowMs: int)
    requires Inv(env, c)
  {
    && Accepts(env, nowMs, c, b)
    && c.entries[b.header.previousHash].totalWork + WorkOf(b.header.difficulty) > c.entries[c.bestHash].totalWork
  }

  lemma TipAfter(env: Env, c: ChainState, b: Block, nowMs: int)
    requires Inv(env, c) && Accepts(env, nowMs, c, b)
    ensures
      var e := EntryFor(env, c.entries[b.header.previousHash], b);
      && Linked(env, c.entries[b.hash := e])
      && Add(env, nowMs, c, b).chain
         == ChainState(c.entries[b.hash := e], if Overtakes(env, c, b, nowMs) then b.hash else c.bestHash)
      && Inv(env, Add(env, nowMs, c, b).chain)
  {
    hide CheckBlock, AfterBlock, EntryOk;
    AddKeepsInv(env, nowMs, c, b);
    NewEntryOk(env, c.entries, b, EntryFor(env, c.entries[b.header.previousHash], b));
  }

  /** Jobs still fit when the tree grows. */
  lemma JobsStaySound(env: Env, c: ChainState, jobs: map<string, MiningJob>, b: Block, nowMs: int)
    requires Inv(env, c) && JobsSound(env, c, jobs)
    ensures Inv(env, Add(env, nowMs, c, b).chain) && JobsSound(env, Add(env, nowMs, c, b).chain, jobs)
  {
    hide JobFits, CheckBlock, AfterBlock, EntryOk, Add, Linked;
    AddKeepsInv(env, nowMs, c, b);
    TipStored(env, c);
    var d := Add(env, nowMs, c, b).chain;
    TipStored(env, d);
    forall id | id in jobs ensures JobSound(env, d, jobs[id]) {
      assert JobSound(env, c, jobs[id]);
      PathFrame(env, c.entries, d.entries, jobs[id].block.header.previousHash);
    }
  }

  /**
   * A block that strands pending transactions: it overtakes the best tip, and some input of an entry that it does not
   * commit is spent, unknown or immature after it. This can be read off the block, the entry of its parent and the
   * pool before the call.
   */
  ghost predicate Strands(env: Env, n: Node, b: Block, nowMs: int)
    requires Inv(env, n.chain)
  {
    && Overtakes(env, n.chain, b, nowMs)
    && !AllRedeemable(Uncommitted(env, n.pool, b.transactions),
          AfterBlock(env, n.chain.entries[b.header.previousHash].state, b).entries, b.header.height)
  }

  /** The best chains before and after a block is offered hash no two texts to one digest. */
  ghost predicate NoCollisionsOver(env: Env, n: Node, m: Node)
    requires Inv(env, n.chain) && Inv(env, m.chain)
  {
    NoCollisionsBetween(env, BestPath(env, n.chain), BestPath(env, m.chain))
  }

  /** The pool after a block that overtakes: what it leaves of the pool is valid exactly when nothing is stranded. */
  lemma OvertakingBlock(env: Env, n: Node, b: Block, nowMs: int)
    requires NodeSafe(env, n) && Overtakes(env, n.chain, b, nowMs)
    requires
      var d := Add(env, nowMs, n.chain, b).chain;
      Inv(env, d) && NoCollisionsBetween(env, BestPath(env, n.chain), BestPath(env, d))
    ensures
      var m := AfterBlockOffer(env, n, b, nowMs);
      && Inv(env, m.chain)
      && (PoolOk(env, m.pool, TipEntry(m).state.entries, TipHeight(m)) <==> !Strands(env, n, b, nowMs))
  {
    hide Inv, PoolOk, CheckBlock, ValidPath, Replay, NoCollisionsBetween, JobsSound, Add, LedgerPath, AllRedeemable;
    hide Shaped, Uncommitted, BestPath, AfterBlock, Accepts;
    var d, rest := Add(env, nowMs, n.chain, b).chain, Uncommitted(env, n.pool, b.transactions);
    AcceptedShaped(env, n.chain, b, nowMs);
    VerdictOfAccepted(env, n.chain, b, nowMs);
    TipAfter(env, n.chain, b, nowMs);
    OfferTaken(env, n, b, nowMs);
    TipStored(env, n.chain);
    TipFacts(env, n.chain);
    TipFacts(env, d);
    LedgerOfTip(env, n.chain);
    LedgerOfTip(env, d);
    RemoveKeepsPool(
      env, n.pool, Elements(TransactionIds(env, b.transactions)), TipEntry(n).state.entries, TipHeight(n));
    PoolMovesExactly(env, rest, BestPath(env, n.chain), TipHeight(n), BestPath(env, d), b.header.height);
  }

  lemma LedgerOfTip(env: Env, c: ChainState)
    requires Inv(env, c)
    ensures LedgerPath(env, BestPath(env, c))
  {
    hide Inv, ValidPath, LedgerPath, BestPath;
    TipFacts(env, c);
    ShapeOfValidPath(env, BestPath(env, c));
  }

  lemma OfferTaken(env: Env, n: Node, b: Block, nowMs: int)
    requires Inv(env, n.chain) && Add(env, nowMs, n.chain, b).verdict.Some? && Shaped(env, b.transactions)
    ensures
      AfterBlockOffer(env, n, b, nowMs)
      == n.(chain := Add(env, nowMs, n.chain, b).chain, pool := Uncommitted(env, n.pool, b.transactions))
  {
    hide Inv, Add, Shaped, Elements, TransactionIds, Remove;
  }

  lemma OfferChain(env: Env, n: Node, b: Block, nowMs: int)
    requires Inv(env, n.chain)
    ensures
      var m := AfterBlockOffer(env, n, b, nowMs);
      && m.chain == Add(env, nowMs, n.chain, b).chain && m.jobs == n.jobs
      && (m.pool == n.pool || m.pool == Uncommitted(env, n.pool, b.transactions))
  {
    hide Inv, EntryFor, Accepts, Shaped, Elements, TransactionIds, Remove;
  }

  /** A block that leaves the tip where it is can only take entries out of the pool. */
  lemma QuietBlock(env: Env, n: Node, b: Block, nowMs: int)
    requires NodeSafe(env, n) && !Overtakes(env, n.chain, b, nowMs)
    ensures
      var m := AfterBlockOffer(env, n, b, nowMs);
      && Inv(env, m.chain) && m.chain.bestHash == n.chain.bestHash
      && PoolOk(env, m.pool, TipEntry(m).state.entries, TipHeight(m))
  {
    hide EntryOk, PoolOk, CheckBlock, JobsSound, Elements, TransactionIds, AfterBlock, Linked, Shaped;
    OfferChain(env, n, b, nowMs);
    AddKeepsInv(env, nowMs, n.chain, b);
    TipStored(env, n.chain);
    RemoveKeepsPool(
      env, n.pool, Elements(TransactionIds(env, b.transactions)), TipEntry(n).state.entries, TipHeight(n));
  }

  /** A block with a stored hash only takes entries out of the pool. */
  lemma KnownBlockKeeps(env: Env, n: Node, b: Block, nowMs: int)
    requires NodeSafe(env, n) && Hex(b.hash, 64) && b.hash in n.chain.entries && Shaped(env, b.transactions)
    ensures NodeSafe(env, AfterBlockOffer(env, n, b, nowMs))
    ensures AfterBlockOffer(env, n, b, nowMs) == n.(pool := Uncommitted(env, n.pool, b.transactions))
  {
    hide Inv, PoolOk, JobsSound, Shaped, Elements, TransactionIds;
    TipStored(env, n.chain);
    RemoveKeepsPool(
      env, n.pool, Elements(TransactionIds(env, b.transactions)), TipEntry(n).state.entries, TipHeight(n));
  }

  /** Any block that is offered, by a miner or a peer, keeps the node safe exactly when it strands nothing. */
  lemma BlockKeepsExactly(env: Env, n: Node, b: Block, nowMs: int)
    requires NodeSafe(env, n)
    requires
      var m := AfterBlockOffer(env, n, b, nowMs);
      Inv(env, m.chain) && NoCollisionsOver(env, n, m)
    ensures NodeSafe(env, AfterBlockOffer(env, n, b, nowMs)) <==> !Strands(env, n, b, nowMs)
  {
    hide Inv, PoolOk, JobsSound, Accepts, NoCollisionsBetween, BestPath, AfterBlock, AllRedeemable, AfterBlockOffer;
    hide Uncommitted, Add;
    OfferChain(env, n, b, nowMs);
    JobsStaySound(env, n.chain, n.jobs, b, nowMs);
    if Overtakes(env, n.chain, b, nowMs) {
      OvertakingBlock(env, n, b, nowMs);
    } else {
      QuietBlock(env, n, b, nowMs);
    }
  }

  /** The block that a call offers to consensus, if it offers one. */
  ghost function Offered(n: Node, op: Op): Option<Offer> {
    match op
    case Submit(_, _) => None
    case CreateJob(_, _, _) => None
    case Share(jobId, nonceHex, hashHex, nowMs) =>
      if WellFormedShare(n, jobId, nonceHex, hashHex)
      then Some(Offer(nowMs, ShareBlock(n, jobId, nonceHex, hashHex))) else None
    case Receive(block, nowMs) => Some(Offer(nowMs, block))
  }

  /** The call offers no block that strands a pending transaction. */
  ghost predicate Harmless(env: Env, n: Node, op: Op)
    requires Inv(env, n.chain)
  {
    var o := Offered(n, op);
    o.Some? ==> !Strands(env, n, o.value.block, o.value.nowMs)
  }

  /** A call keeps the node safe exactly when it is harmless. */
  lemma StepKeepsExactly(env: Env, n: Node, op: Op)
    requires NodeSafe(env, n)
    requires Inv(env, After(env, n, op).chain) && NoCollisionsOver(env, n, After(env, n, op))
    ensures NodeSafe(env, After(env, n, op)) <==> Harmless(env, n, op)
  {
    hide Strands, AfterSubmit, AfterCreateJob, AfterBlockOffer, NoCollisionsOver, PoolOk, JobsSound, Inv, ShareBlock;
    match op
    case Submit(tx, nowMs) => SubmitKeeps(env, n, tx, nowMs);
    case CreateJob(payout, nowSeconds, jobId) => CreateJobKeeps(env, n, payout, nowSeconds, jobId);
    case Share(jobId, nonceHex, hashHex, nowMs) =>
      if WellFormedShare(n, jobId, nonceHex, hashHex) {
        BlockKeepsExactly(env, n, ShareBlock(n, jobId, nonceHex, hashHex), nowMs);
      }
    case Receive(block, nowMs) => BlockKeepsExactly(env, n, block, nowMs);
  }

  // ---- whole runs ----

  ghost predicate HarmlessAt(env: Env, ops: seq<Op>, i: nat)
    requires i < |ops|
  {
    Harmless(env, RunOps(env, ops[..i]), ops[i])
  }

  /** No block of the run strands a pending transaction. */
  ghost predicate HarmlessRun(env: Env, ops: seq<Op>) {
    forall i :: 0 <= i < |ops| ==> HarmlessAt(env, ops, i)
  }

  ghost predicate SafeAt(env: Env, ops: seq<Op>, i: nat)
    requires i <= |ops|
  {
    NodeSafe(env, RunOps(env, ops[..i]))
  }

  /** The node is safe at every moment of the run. */
  ghost predicate SafeRun(env: Env, ops: seq<Op>) {
    forall i :: 0 <= i <= |ops| ==> SafeAt(env, ops, i)
  }

  /** No digests collide on the best chains before and after a call, at any moment of the run. */
  ghost predicate NoCollisionsInRun(env: Env, ops: seq<Op>) {
    forall i :: 0 <= i < |ops| ==> NoCollisionsAt(env, ops, i)
  }

  ghost predicate NoCollisionsAt(env: Env, ops: seq<Op>, i: nat)
    requires i < |ops|
  {
    NoCollisionsOver(env, RunOps(env, ops[..i]), RunOps(env, ops[..i + 1]))
  }

  lemma StartSafe(env: Env)
    ensures NodeSafe(env, Start(env))
  {
    GenesisInv(env);
  }

  /** One moment of a run and the next. */
  lemma OneMoment(env: Env, ops: seq<Op>, i: nat)
    requires i < |ops| && SafeAt(env, ops, i) && NoCollisionsAt(env, ops, i)
    ensures SafeAt(env, ops, i + 1) <==> HarmlessAt(env, ops, i)
  {
    hide Harmless, NoCollisionsOver, BestPath, NodeSafe, After, Inv;
    assert ops[..i + 1][..i] == ops[..i];
    AfterKeepsTree(env, RunOps(env, ops[..i]), ops[i]);
    StepKeepsExactly(env, RunOps(env, ops[..i]), ops[i]);
  }

  lemma SafeAtStart(env: Env, ops: seq<Op>)
    ensures SafeAt(env, ops, 0)
  {
    hide NodeSafe;
    assert ops[..0] == [];
    StartSafe(env);
  }

  lemma {:induction false} SafeUpTo(env: Env, ops: seq<Op>, i: nat)
    requires HarmlessRun(env, ops) && NoCollisionsInRun(env, ops) && i <= |ops|
    ensures SafeAt(env, ops, i)
  {
    hide SafeAt, HarmlessAt, NoCollisionsAt;
    if i == 0 {
      SafeAtStart(env, ops);
    } else {
      SafeUpTo(env, ops, i - 1);
      OneMoment(env, ops, i - 1);
    }
  }

  /** A run is safe at every moment exactly when none of the blocks offered in it strands a pending transaction. */
  lemma MiningLoopSafeExactly(env: Env, ops: seq<Op>)
    requires NoCollisionsInRun(env, ops)
    ensures SafeRun(env, ops) <==> HarmlessRun(env, ops)
  {
    hide SafeAt, HarmlessAt, NoCollisionsAt;
    if HarmlessRun(env, ops) {
      forall i | 0 <= i <= |ops| ensures SafeAt(env, ops, i) {
        SafeUpTo(env, ops, i);
      }
    }
    if SafeRun(env, ops) {
      forall i | 0 <= i < |ops| ensures HarmlessAt(env, ops, i) {
        OneMoment(env, ops, i);
      }
    }
  }

  /** So in a harmless run no share of a job still held is refused for one of its transactions. */
  lemma SharesPassTransactionChecks(env: Env, ops: seq<Op>, jobId: string, nonce: int, hash: string)
    requires HarmlessRun(env, ops) && NoCollisionsInRun(env, ops) && jobId in RunOps(env, ops).jobs
    ensures
      var n := RunOps(env, ops);
      var b := Candidate(n.jobs[jobId].block, nonce, hash);
      && b.header.previousHash in n.chain.entries
      && var parent := n.chain.entries[b.header.previousHash];
         TransactionsOk(env, parent.state.entries, b.header.height, b.transactions) && DisjointInputs(b.transactions)
  {
    hide ValidPath, TransactionsOk, DisjointInputs, Replay, Work, BodyOk, CoinbaseFits, LinkOk, RunOps, PoolOk;
    SafeUpTo(env, ops, |ops|);
    assert ops[..|ops|] == ops;
    var n := RunOps(env, ops);
    assert JobSound(env, n.chain, n.jobs[jobId]);
    assert EntryOk(env, n.chain.entries, n.jobs[jobId].block.header.previousHash);
  }
}
