/**
 * A chain of at most eight blocks that consensus accepts, in an environment without digest collisions. It shows why
 * conservation needs its condition: applyBlock checks every transaction of a block against the entries before the
 * block (packages/core/src/state.ts:91-118), so two of them may consume the same output.
 */
module SmallChain {
  import opened Prelude
  import opened Text
  import opened Base58
  import opened Types
  import opened SigningText
  import opened HeaderCodec
  import opened Difficulty
  import opened Schedule
  import opened State
  import opened Merkle
  import opened History
  import opened Conservation
  import opened Paths
  import opened Chain
  import opened Mining
  import Amount
  import Reward

  const LENGTH := 8
  const SUBSIDY: nat := Reward.PHASE_1_REWARD

  lemma NamesSuffice()
    ensures LENGTH < 16
  {
  }

  // ---- the environment ----

  function Named(k: nat): (h: HashText)
    requires k < 16
  {
    seq(64, i => if i == 0 then HexChar(k) else '0')
  }

  lemma NamesDiffer()
    ensures forall j: nat, k: nat :: j < 16 && k < 16 && Named(j) == Named(k) ==> j == k
  {
    forall j: nat, k: nat | j < 16 && k < 16 && Named(j) == Named(k) ensures j == k {
      assert Named(j)[0] == HexChar(j) && Named(k)[0] == HexChar(k);
      assert NibbleOf(HexChar(j)) == j && NibbleOf(HexChar(k)) == k;
    }
  }

  const SIGNATURE: string := Named(0) + Named(0)
  const KEY: string := "02" + Named(0)

  function AnyDigest(data: seq<byte>): Digest {
    seq(32, _ => 0)
  }

  function AnyKeyHash(key: string): KeyHash {
    seq(20, _ => 0)
  }

  function AnySignature(key: string, message: string, signature: string): bool {
    true
  }

  function AnyWork(blob: seq<byte>, hash: string, difficulty: int): bool {
    true
  }

  ghost function Payee(): string {
    Encoded(WithChecksum(AnyDigest, [ADDRESS_VERSION] + AnyKeyHash(KEY)))
  }

  ghost function TheCoinbase(): Coinbase {
    CoinbaseFor(Payee(), SUBSIDY)
  }

  /** Consumes the coinbase output of block 1: all but the fee goes back to its owner. */
  ghost function Spend(fee: nat): Transaction
    requires 1 <= fee <= 2
  {
    Transaction(
      [Outpoint(Named(1), 0)], [Output(Payee(), Amount.Print(SUBSIDY - fee))], Amount.Print(fee), KEY, SIGNATURE)
  }

  ghost predicate IsReward(text: string, h: nat) {
    1 <= h <= LENGTH && text == CoinbasePayload(h, TheCoinbase())
  }

  /** Names the coinbase of block `h` by `h` and the two transactions by 9 and 10. */
  ghost function Identify(text: string): HashText {
    if text == IdPayload(Spend(1)) then Named(9)
    else if text == IdPayload(Spend(2)) then Named(10)
    else if exists h: nat :: IsReward(text, h) then
      var h: nat :| IsReward(text, h);
      Named(h)
    else Named(0)
  }

  /** An environment in which every signature and every proof of work is accepted. */
  ghost function TheEnv(): Env {
    Env(AnyDigest, Identify, AnyDigest, AnyKeyHash, AnySignature, AnyWork, Named(0), Named(0))
  }

  lemma Printed(v: nat)
    ensures Amount.Parse(Amount.Print(v)) == Some(v) && Photons(Amount.Print(v)) == v
  {
    hide Amount.Parse, Amount.Print, Hex;
    Amount.ParseOfFormat(v);
  }

  lemma PayeeFacts()
    ensures AddressOf(TheEnv(), KEY) == Payee() && ValidAddress(TheEnv(), Payee())
    ensures |Payee()| <= 75 && Ascii(Payee())
  {
    hide IdPayload, Encoded, Identify, Hex;
    AddressOfKey(TheEnv(), KEY, KEY);
    EncodedLength(WithChecksum(AnyDigest, [ADDRESS_VERSION] + AnyKeyHash(KEY)));
    LettersAreAscii(Payee());
  }

  lemma LettersAreAscii(s: string)
    requires AllInAlphabet(s)
    ensures Ascii(s)
  {
  }

  lemma SpendContent(fee: nat)
    requires 1 <= fee <= 2
    ensures ContentOk(TheEnv(), Spend(fee)) && ShapeOk(TheEnv(), Spend(fee)) && Consumed(Spend(fee)) == SUBSIDY
  {
    hide ValidAddress, Amount.Parse, Amount.Print, AddressOf, IdPayload, TransactionMessage, Photons, Identify, Payee;
    PayeeFacts();
    Printed(SUBSIDY - fee);
    Printed(fee);
    var tx := Spend(fee);
    assert tx.outputs[..0] == [];
    assert OutputTotal(tx.outputs) == OutputTotal(tx.outputs[..0]) + (SUBSIDY - fee);
  }

  lemma SpendsDiffer()
    ensures IdPayload(Spend(1)) != IdPayload(Spend(2))
  {
    hide IdPayload, Amount.Print, Amount.Parse, ContentOk, Payee, Hex;
    Printed(1);
    Printed(2);
    SpendContent(1);
    SpendContent(2);
    PayloadDeterminesAllButKey(TheEnv(), Spend(2), Spend(1));
  }

  /** The identifiers of the environment. */
  lemma Identifiers(h: nat)
    requires 1 <= h <= LENGTH
    ensures CoinbaseId(TheEnv(), h, TheCoinbase()) == Named(h)
    ensures TransactionId(TheEnv(), Spend(1)) == Named(9) && TransactionId(TheEnv(), Spend(2)) == Named(10)
  {
    hide IdPayload, CoinbasePayload, Amount.Print, Payee, Hex;
    SpendsDiffer();
    var text := CoinbasePayload(h, TheCoinbase());
    assert IsReward(text, h);
    forall g: nat | IsReward(text, g) ensures g == h {
      DomainsApart(TheEnv(), Spend(1), h, TheCoinbase(), g, TheCoinbase());
    }
    DomainsApart(TheEnv(), Spend(1), h, TheCoinbase(), h, TheCoinbase());
    DomainsApart(TheEnv(), Spend(2), h, TheCoinbase(), h, TheCoinbase());
  }

  ghost predicate IsKnown(text: string) {
    text == IdPayload(Spend(1)) || text == IdPayload(Spend(2)) || exists h: nat :: IsReward(text, h)
  }

  ghost predicate AllKnown(texts: set<string>) {
    forall x :: x in texts ==> IsKnown(x)
  }

  lemma KnownTextsDiffer(x: string, y: string)
    requires IsKnown(x) && IsKnown(y) && Identify(x) == Identify(y)
    ensures x == y
  {
    hide IdPayload, CoinbasePayload, Amount.Print, Payee, Named, Hex;
    NamesDiffer();
    NameOf(x);
    NameOf(y);
  }

  lemma NameOf(x: string)
    requires IsKnown(x)
    ensures
      || (x == IdPayload(Spend(1)) && Identify(x) == Named(9))
      || (x == IdPayload(Spend(2)) && Identify(x) == Named(10))
      || exists h: nat :: IsReward(x, h) && Identify(x) == Named(h)
  {
    hide IdPayload, CoinbasePayload, Amount.Print, Payee, Named, Hex;
    Identifiers(1);
    if x != IdPayload(Spend(1)) && x != IdPayload(Spend(2)) {
      var h: nat :| IsReward(x, h);
      Identifiers(h);
    }
  }

  // ---- the blocks ----

  ghost function SmallBlock(k: nat, txs: seq<Transaction>): Block
    requires 1 <= k <= LENGTH
  {
    var env, c := TheEnv(), TheCoinbase();
    Block(
      Header(PROTOCOL_VERSION, k, Named(k - 1), GENESIS_TIMESTAMP_SECONDS + k, INITIAL_DIFFICULTY,
             MerkleRoot(env, k, Some(c), TransactionIds(env, txs)), Named(0), Payee()),
      Named(k), 0, Some(c), txs)
  }

  lemma BlockFields(k: nat, txs: seq<Transaction>)
    requires 1 <= k <= LENGTH
    ensures
      var b := SmallBlock(k, txs);
      && b.hash == Named(k) && b.header.previousHash == Named(k - 1) && b.header.powSeed == Named(0)
      && b.header.version == PROTOCOL_VERSION && b.header.height == k && b.header.difficulty == INITIAL_DIFFICULTY
      && b.header.timestampSeconds == GENESIS_TIMESTAMP_SECONDS + k && b.nonce == 0
      && b.coinbase == Some(CoinbaseFor(Payee(), SUBSIDY)) && b.header.payoutAddress == Payee() && b.transactions == txs
  {
    hide MerkleRoot, Payee, Named, TheEnv, CoinbaseFor, Hex;
  }

  lemma CoinbaseFields()
    ensures TheCoinbase().outputs == [Output(Payee(), Amount.Print(SUBSIDY))]
    ensures RewardReadable(Some(TheCoinbase()))
  {
    hide Payee, Amount.Print, AmountsParse, Hex;
    CoinbaseReadable(Payee(), SUBSIDY);
  }

  lemma GenesisFields()
    ensures
      var b := GenesisBlock(TheEnv());
      && b.hash == Named(0) && b.header.version == PROTOCOL_VERSION && b.header.height == 0
      && b.header.timestampSeconds == GENESIS_TIMESTAMP_SECONDS
  {
    hide Named, Hex;
  }

  /** The genesis block and one block for each list of transactions. */
  ghost function SmallPath(bodies: seq<seq<Transaction>>): (path: seq<Block>)
    requires |bodies| <= LENGTH
    ensures |path| == |bodies| + 1
  {
    if |bodies| == 0 then [GenesisBlock(TheEnv())]
    else SmallPath(bodies[..|bodies| - 1]) + [SmallBlock(|bodies|, bodies[|bodies| - 1])]
  }

  lemma {:induction false} SmallPathAt(bodies: seq<seq<Transaction>>, i: nat)
    requires i <= |bodies| <= LENGTH
    ensures SmallPath(bodies)[i] == if i == 0 then GenesisBlock(TheEnv()) else SmallBlock(i, bodies[i - 1])
  {
    hide SmallBlock, GenesisBlock, TheEnv, Hex;
    if i < |bodies| {
      SmallPathAt(bodies[..|bodies| - 1], i);
    }
  }

  lemma SmallPathStep(bodies: seq<seq<Transaction>>, txs: seq<Transaction>)
    requires |bodies| < LENGTH
    ensures SmallPath(bodies + [txs]) == SmallPath(bodies) + [SmallBlock(|bodies| + 1, txs)]
  {
    hide SmallBlock, TheEnv, GenesisBlock, Hex;
    assert (bodies + [txs])[..|bodies|] == bodies;
  }

  /** A list all of whose values lie below a bound has its median below it. */
  lemma MedianBelow(s: seq<int>, bound: int)
    requires |s| > 0 && forall k :: 0 <= k < |s| ==> s[k] < bound
    ensures MedianOf(s) < bound
  {
    MedianCount(s);
    if MedianOf(s) >= bound {
      NoneAtLeast(s, MedianOf(s));
    }
  }

  lemma {:induction false} NoneAtLeast(s: seq<int>, m: int)
    requires forall k :: 0 <= k < |s| ==> s[k] < m
    ensures CountAtLeast(s, m) == 0
  {
    if |s| > 0 {
      NoneAtLeast(s[1..], m);
    }
  }

  lemma TimesRise(bodies: seq<seq<Transaction>>)
    requires |bodies| < LENGTH
    ensures MedianTime(SmallPath(bodies)) < GENESIS_TIMESTAMP_SECONDS + |bodies| + 1
  {
    hide SmallPath, MerkleRoot, Payee, MedianOf, Hex;
    var path := SmallPath(bodies);
    forall k | 0 <= k < |path| ensures Timestamps(path)[k] < GENESIS_TIMESTAMP_SECONDS + |bodies| + 1 {
      SmallPathAt(bodies, k);
    }
    MedianBelow(LastWindow(Timestamps(path), MEDIAN_WINDOW), GENESIS_TIMESTAMP_SECONDS + |bodies| + 1);
  }

  lemma TipOnPath(bodies: seq<seq<Transaction>>)
    requires |bodies| <= LENGTH
    ensures
      var b := Last(SmallPath(bodies));
      && b.hash == Named(|bodies|) && b.header.height == |bodies| && b.header.version == PROTOCOL_VERSION
    ensures SmallPath(bodies)[0].hash == Named(0)
  {
    hide SmallPath, SmallBlock, GenesisBlock, TheEnv, Named, Hex, CoinbaseFor, Payee;
    SmallPathAt(bodies, |bodies|);
    SmallPathAt(bodies, 0);
    GenesisFields();
    if |bodies| > 0 {
      BlockFields(|bodies|, bodies[|bodies| - 1]);
    }
  }

  lemma DifficultyOnPath(bodies: seq<seq<Transaction>>)
    requires |bodies| < LENGTH && ValidPath(TheEnv(), SmallPath(bodies))
    ensures NextDifficulty(SmallPath(bodies)) == Some(INITIAL_DIFFICULTY)
  {
    hide SmallPath, ValidPath, NextDifficulty, TheEnv, Hex;
    InitialDifficulty(TheEnv(), SmallPath(bodies), |bodies|);
    DifficultyRule(SmallPath(bodies));
  }

  lemma EarlySeed(height: int)
    requires 1 <= height <= LENGTH
    ensures ExpectedSeedHeight(height) == Ok(0)
  {
  }

  /** What the miner of the next block reads off the path. */
  lemma NextOnPath(bodies: seq<seq<Transaction>>)
    requires |bodies| < LENGTH && ValidPath(TheEnv(), SmallPath(bodies))
    ensures NextFor(SmallPath(bodies)) == Some(NextData(|bodies| + 1, INITIAL_DIFFICULTY, Named(0)))
  {
    hide *;
    TipOnPath(bodies);
    DifficultyOnPath(bodies);
    NextForOf(SmallPath(bodies), |bodies| + 1, INITIAL_DIFFICULTY);
  }

  lemma NextForOf(path: seq<Block>, height: nat, difficulty: int)
    requires |path| > 0 && Last(path).header.height + 1 == height && 1 <= height <= LENGTH
    requires NextDifficulty(path) == Some(difficulty)
    ensures NextFor(path) == Some(NextData(height, difficulty, path[0].hash))
  {
    hide NextDifficulty, ExpectedSeedHeight;
    EarlySeed(height);
  }

  lemma RewardOnPath(bodies: seq<seq<Transaction>>)
    requires |bodies| < LENGTH && ValidPath(TheEnv(), SmallPath(bodies))
    ensures Replay(TheEnv(), SmallPath(bodies)).issuedPhotons == |bodies| * SUBSIDY
    ensures Reward.RewardForBlock(|bodies| + 1, |bodies| * SUBSIDY) == Ok(SUBSIDY)
    ensures |bodies| * SUBSIDY + SUBSIDY <= Reward.TOTAL_SUPPLY
  {
    hide *;
    ShapeOfValidPath(TheEnv(), SmallPath(bodies));
    IssuanceFollowsSchedule(TheEnv(), SmallPath(bodies));
    EarlyRewards(|bodies|);
  }

  lemma EarlyRewards(height: nat)
    requires height < LENGTH
    ensures Reward.IssuedAt(height) == Some(height * SUBSIDY)
    ensures Reward.RewardForBlock(height + 1, height * SUBSIDY) == Ok(SUBSIDY)
    ensures height * SUBSIDY + SUBSIDY <= Reward.TOTAL_SUPPLY
  {
    hide Reward.IssuedAt;
    Reward.PhaseOne(height);
  }

  lemma CoinbaseOkOf(env: Env, issued: int, b: Block, payee: string, subsidy: nat)
    requires b.coinbase == Some(CoinbaseFor(payee, subsidy)) && b.header.payoutAddress == payee
    requires ValidAddress(env, payee) && issued + subsidy <= Reward.TOTAL_SUPPLY
    requires Reward.RewardForBlock(b.header.height, issued) == Ok(subsidy)
    ensures CoinbaseOk(env, issued, b)
  {
    hide ValidAddress, Amount.Parse, Amount.Print, Photons, Reward.RewardForBlock;
    Printed(subsidy);
  }

  lemma SmallCoinbaseOk(bodies: seq<seq<Transaction>>, txs: seq<Transaction>)
    requires |bodies| < LENGTH && ValidPath(TheEnv(), SmallPath(bodies))
    ensures CoinbaseOk(TheEnv(), |bodies| * SUBSIDY, SmallBlock(|bodies| + 1, txs))
  {
    hide *;
    PayeeFacts();
    RewardOnPath(bodies);
    BlockFields(|bodies| + 1, txs);
    CoinbaseOkOf(TheEnv(), |bodies| * SUBSIDY, SmallBlock(|bodies| + 1, txs), Payee(), SUBSIDY);
  }

  lemma LinkOkOf(path: seq<Block>, b: Block)
    requires |path| > 0 && 1 <= b.header.height <= LENGTH
    requires b.header.version == Last(path).header.version && b.header.height == Last(path).header.height + 1
    requires NextDifficulty(path) == Some(b.header.difficulty) && b.header.powSeed == path[0].hash
    requires b.header.timestampSeconds > MedianTime(path)
    ensures LinkOk(path, b)
  {
    hide NextDifficulty, MedianTime, ExpectedSeedHeight;
    EarlySeed(b.header.height);
  }

  lemma SmallLinkOk(bodies: seq<seq<Transaction>>, txs: seq<Transaction>)
    requires |bodies| < LENGTH && ValidPath(TheEnv(), SmallPath(bodies))
    ensures LinkOk(SmallPath(bodies), SmallBlock(|bodies| + 1, txs))
  {
    hide *;
    TimesRise(bodies);
    TipOnPath(bodies);
    DifficultyOnPath(bodies);
    BlockFields(|bodies| + 1, txs);
    LinkOkOf(SmallPath(bodies), SmallBlock(|bodies| + 1, txs));
  }

  lemma SmallBodyOk(k: nat, txs: seq<Transaction>)
    requires 1 <= k <= LENGTH && Shaped(TheEnv(), txs)
    ensures BodyOk(TheEnv(), SmallBlock(k, txs))
  {
    hide MerkleRoot, Payee, Shaped, RewardReadable, TheEnv, TheCoinbase, Named, Hex;
    CoinbaseFields();
  }

  lemma SmallPowOk(k: nat, txs: seq<Transaction>)
    requires 1 <= k <= LENGTH
    ensures PowOk(TheEnv(), SmallBlock(k, txs)) && Encodable(SmallBlock(k, txs).header, 0)
  {
    hide *;
    BlockFields(k, txs);
    SmallHeaderEncodes(k, txs);
    AllWorkAccepted(SmallBlock(k, txs));
  }

  lemma AllWorkAccepted(b: Block)
    requires Encodable(b.header, b.nonce)
    ensures PowOk(TheEnv(), b)
  {
    hide Blob, Encodable, Identify;
  }

  lemma SmallHeaderEncodes(k: nat, txs: seq<Transaction>)
    requires 1 <= k <= LENGTH
    ensures Encodable(SmallBlock(k, txs).header, 0)
  {
    hide SmallBlock, Payee, Named, Hex, Ascii, TheEnv, CoinbaseFor;
    PayeeFacts();
    BlockFields(k, txs);
    MerkleRootIsHex(k, txs);
    NameIsHex(0);
    NameIsHex(k - 1);
  }

  lemma NameIsHex(k: nat)
    requires k < 16
    ensures Hex(Named(k), 64)
  {
    hide Hex, Named;
  }

  lemma MerkleRootIsHex(k: nat, txs: seq<Transaction>)
    requires 1 <= k <= LENGTH
    ensures Hex(SmallBlock(k, txs).header.merkleRoot, 64)
  {
    hide MerkleRoot, Hex, Named, TheEnv, TheCoinbase;
  }

  /** Consensus takes such a block on such a path if the ledger takes its transactions. */
  lemma SmallBlockChecks(bodies: seq<seq<Transaction>>, txs: seq<Transaction>)
    requires |bodies| < LENGTH && ValidPath(TheEnv(), SmallPath(bodies))
    requires TransactionsOk(TheEnv(), Replay(TheEnv(), SmallPath(bodies)).entries, |bodies| + 1, txs)
    requires TransactionsLength(txs) <= MAX_BLOCK_BODY_BYTES
    ensures CheckBlock(TheEnv(), SmallPath(bodies), SmallBlock(|bodies| + 1, txs))
  {
    hide SmallPath, LinkOk, BodyOk, PowOk, CoinbaseOk, Replay, TransactionsOk, TheEnv, SmallBlock, Payee, ValidPath;
    hide TransactionsLength, Named, Hex, TheCoinbase, Shaped;
    ShapedOfOk(TheEnv(), Replay(TheEnv(), SmallPath(bodies)).entries, |bodies| + 1, txs);
    SmallLinkOk(bodies, txs);
    SmallBodyOk(|bodies| + 1, txs);
    SmallPowOk(|bodies| + 1, txs);
    BlockFields(|bodies| + 1, txs);
    SmallCoinbaseOk(bodies, txs);
    RewardOnPath(bodies);
  }

  lemma SmallPathGrows(bodies: seq<seq<Transaction>>, txs: seq<Transaction>)
    requires |bodies| < LENGTH && ValidPath(TheEnv(), SmallPath(bodies))
    requires CheckBlock(TheEnv(), SmallPath(bodies), SmallBlock(|bodies| + 1, txs))
    ensures ValidPath(TheEnv(), SmallPath(bodies + [txs]))
  {
    hide SmallPath, CheckBlock, TheEnv, SmallBlock;
    SmallPathStep(bodies, txs);
    var path := SmallPath(bodies + [txs]);
    assert path[..|path| - 1] == SmallPath(bodies);
  }

  lemma ShapeOfOk(env: Env, entries: Entries, height: int, tx: Transaction)
    requires TransactionOk(env, entries, height, tx)
    ensures ShapeOk(env, tx)
  {
    hide ShapeOk;
  }

  lemma ShapedOfOk(env: Env, entries: Entries, height: int, txs: seq<Transaction>)
    requires TransactionsOk(env, entries, height, txs)
    ensures Shaped(env, txs)
  {
    hide ShapeOk, TransactionOk;
    forall k | 0 <= k < |txs| ensures ShapeOk(env, txs[k]) {
      assert TransactionOk(env, entries, height, txs[k]);
      ShapeOfOk(env, entries, height, txs[k]);
    }
  }

  // ---- seven blocks without transactions ----

  function Nothing(k: nat): (bodies: seq<seq<Transaction>>)
    ensures |bodies| == k
  {
    seq(k, _ => [])
  }

  lemma NothingStep(k: nat)
    ensures Nothing(k + 1) == Nothing(k) + [[]]
  {
  }

  lemma NoTransactionsOk(env: Env, entries: Entries, height: int)
    ensures TransactionsOk(env, entries, height, []) && TransactionsLength([]) <= MAX_BLOCK_BODY_BYTES
  {
  }

  lemma {:induction false} EmptyBlocksAccepted(k: nat)
    requires k < LENGTH
    ensures ValidPath(TheEnv(), SmallPath(Nothing(k)))
  {
    hide CheckBlock, Replay, TheEnv, Hex, SmallPath, ValidPath, TransactionsOk, TransactionsLength, SmallBlock, Nothing;
    if k > 0 {
      EmptyBlocksAccepted(k - 1);
      NothingStep(k - 1);
      NoTransactionsOk(TheEnv(), Replay(TheEnv(), SmallPath(Nothing(k - 1))).entries, k);
      SmallBlockChecks(Nothing(k - 1), []);
      SmallPathGrows(Nothing(k - 1), []);
    } else {
      GenesisAccepted();
    }
  }

  lemma GenesisAccepted()
    ensures ValidPath(TheEnv(), SmallPath(Nothing(0)))
  {
    hide CheckBlock, TheEnv;
    assert SmallPath(Nothing(0)) == [GenesisBlock(TheEnv())];
  }

  ghost function FirstReward(): UtxoEntry {
    UtxoEntry(Named(1), 0, Payee(), SUBSIDY, true, 1)
  }

  lemma EmptyBlockEffect(k: nat)
    requires 1 <= k <= LENGTH
    ensures
      Replay(TheEnv(), SmallPath(Nothing(k))).entries
      == Replay(TheEnv(), SmallPath(Nothing(k - 1))).entries
           [Outpoint(Named(k), 0) := UtxoEntry(Named(k), 0, Payee(), SUBSIDY, true, k)]
  {
    hide SmallPath, Payee, MerkleRoot, CoinbaseId, Amount.Parse, Amount.Print, Photons, TheEnv, Named, Hex;
    NothingStep(k - 1);
    SmallPathStep(Nothing(k - 1), []);
    var path := SmallPath(Nothing(k));
    assert path[..|path| - 1] == SmallPath(Nothing(k - 1));
    Identifiers(k);
    Printed(SUBSIDY);
  }

  lemma {:induction false} FirstRewardStays(k: nat)
    requires 1 <= k <= LENGTH
    ensures
      var entries := Replay(TheEnv(), SmallPath(Nothing(k))).entries;
      Outpoint(Named(1), 0) in entries && entries[Outpoint(Named(1), 0)] == FirstReward()
  {
    hide Replay, SmallPath, Payee, TheEnv, Named, Hex;
    EmptyBlockEffect(k);
    if k > 1 {
      FirstRewardStays(k - 1);
      NamesDiffer();
    }
  }

  lemma OneInputSum(entries: Entries, i: Outpoint)
    requires i in entries
    ensures InputSum(entries, [i]) == entries[i].amountPhotons
  {
    assert [i][..0] == [] && InputSum(entries, []) == 0;
  }

  lemma SpendOkOn(entries: Entries, fee: nat, height: int)
    requires 1 <= fee <= 2 && height >= LENGTH - 1
    requires Outpoint(Named(1), 0) in entries && entries[Outpoint(Named(1), 0)] == FirstReward()
    ensures TransactionOk(TheEnv(), entries, height, Spend(fee))
  {
    hide ShapeOk, Payee, Named, AddressOf, Consumed, Amount.Print, TheEnv, Hex, InputSum;
    PayeeFacts();
    SpendContent(fee);
    OneInputSum(entries, Outpoint(Named(1), 0));
  }

  /** From height 7 on, either transaction is valid on a chain without transactions. */
  lemma SpendOk(k: nat, fee: nat, height: int)
    requires 1 <= k <= LENGTH && 1 <= fee <= 2 && height >= LENGTH - 1
    ensures TransactionOk(TheEnv(), Replay(TheEnv(), SmallPath(Nothing(k))).entries, height, Spend(fee))
  {
    hide *;
    FirstRewardStays(k);
    SpendOkOn(Replay(TheEnv(), SmallPath(Nothing(k))).entries, fee, height);
  }

  // ---- the texts of such a chain ----

  ghost predicate KnownBody(txs: seq<Transaction>) {
    forall k :: 0 <= k < |txs| ==> txs[k] == Spend(1) || txs[k] == Spend(2)
  }

  lemma {:induction false} KnownPayloads(txs: seq<Transaction>)
    requires KnownBody(txs)
    ensures AllKnown(PayloadsOf(txs))
  {
    hide IdPayload, Spend, IsReward, Hex;
    if |txs| > 0 {
      KnownPayloads(txs[..|txs| - 1]);
    }
  }

  lemma {:induction false} PathIsKnown(bodies: seq<seq<Transaction>>)
    requires |bodies| <= LENGTH && forall k :: 0 <= k < |bodies| ==> KnownBody(bodies[k])
    ensures AllKnown(Payloads(SmallPath(bodies)))
  {
    hide KnownBody, BlockPayloads, TheEnv, Payee, Hex, SmallBlock, IsKnown, GenesisBlock;
    if |bodies| > 0 {
      var n := |bodies| - 1;
      PathIsKnown(bodies[..n]);
      assert KnownBody(bodies[n]);
      BlockIsKnown(n + 1, bodies[n]);
      var path := SmallPath(bodies);
      assert path[..|path| - 1] == SmallPath(bodies[..n]);
    }
  }

  lemma BlockIsKnown(k: nat, txs: seq<Transaction>)
    requires 1 <= k <= LENGTH && KnownBody(txs)
    ensures AllKnown(BlockPayloads(SmallBlock(k, txs)))
  {
    hide IdPayload, Spend, CoinbasePayload, KnownBody, PayloadsOf, SmallBlock, Payee, Hex, Named;
    KnownPayloads(txs);
    BlockFields(k, txs);
    assert IsReward(CoinbasePayload(k, TheCoinbase()), k);
  }

  lemma NoneCollide(bodies: seq<seq<Transaction>>)
    requires |bodies| <= LENGTH && forall k :: 0 <= k < |bodies| ==> KnownBody(bodies[k])
    ensures NoCollisions(TheEnv(), SmallPath(bodies))
  {
    hide Payloads, SmallPath, IsKnown, Identify, KnownBody, Hex;
    PathIsKnown(bodies);
    var texts := Payloads(SmallPath(bodies));
    forall x, y | x in texts && y in texts && Identify(x) == Identify(y) ensures x == y {
      KnownTextsDiffer(x, y);
    }
  }

  // ---- conservation fails ----

  ghost function BothSpends(): seq<Transaction> {
    [Spend(1), Spend(2)]
  }

  ghost function DoubleBodies(): (bodies: seq<seq<Transaction>>)
    ensures |bodies| == LENGTH
  {
    Nothing(LENGTH - 1) + [BothSpends()]
  }

  lemma BothShort()
    ensures TransactionsLength(BothSpends()) <= MAX_BLOCK_BODY_BYTES
    ensures TransactionsLength(BothSpends()[..1]) <= MAX_BLOCK_BODY_BYTES
    ensures TransactionsLength(BothSpends()[1..]) <= MAX_BLOCK_BODY_BYTES
  {
    hide Payee, Amount.Print, Hex;
    PayeeFacts();
    SpendLength(1);
    SpendLength(2);
    var txs := BothSpends();
    assert txs[..1][..0] == [] && txs[1..][..0] == [] && txs[..1][0] == Spend(1) && txs[1..][0] == Spend(2);
    assert TransactionsLength(txs) <= TransactionsLength(txs[..1]) + 1000;
  }

  lemma SpendLength(fee: nat)
    requires 1 <= fee <= 2
    ensures OutputsLength(Spend(fee).outputs) <= 100 && |Spend(fee).inputs| == 1
  {
    hide Payee, Amount.Print, Hex;
    PayeeFacts();
    var outputs := Spend(fee).outputs;
    assert outputs[..0] == [];
    assert OutputsLength(outputs) == OutputsLength(outputs[..0]) + 1 + |outputs[0].address| + 8;
  }

  lemma BothAccepted()
    ensures ValidPath(TheEnv(), SmallPath(DoubleBodies()))
  {
    hide Spend, Replay, SmallPath, ValidPath, TransactionOk, TransactionId, TheEnv, Named, CheckBlock, Hex;
    hide TransactionsLength, SmallBlock, CoinbaseId, TheCoinbase;
    EmptyBlocksAccepted(LENGTH - 1);
    SpendOk(LENGTH - 1, 1, LENGTH);
    SpendOk(LENGTH - 1, 2, LENGTH);
    Identifiers(1);
    NamesDiffer();
    BothShort();
    SmallBlockChecks(Nothing(LENGTH - 1), BothSpends());
    SmallPathGrows(Nothing(LENGTH - 1), BothSpends());
  }

  lemma BothShareInput()
    ensures !DisjointInputs(BothSpends())
  {
    hide Named, Payee, Amount.Print;
    SharedInput(1);
    SharedInput(2);
    assert BothSpends()[0] == Spend(1) && BothSpends()[1] == Spend(2);
  }

  lemma SharedInput(fee: nat)
    requires 1 <= fee <= 2
    ensures Outpoint(Named(1), 0) in InputSet(Spend(fee).inputs)
  {
    hide Named, Payee, Amount.Print;
    assert Spend(fee).inputs[0] == Outpoint(Named(1), 0);
  }

  /** Consensus accepts a chain without collisions on which outputs and burned fees exceed what was issued. */
  lemma ConservationFails() returns (env: Env, path: seq<Block>)
    ensures ValidPath(env, path) && LedgerPath(env, path) && NoCollisions(env, path) && !AllBlocksDisjoint(path)
    ensures Value(Replay(env, path).entries) + FeesBurned(path) > Replay(env, path).issuedPhotons
  {
    hide Spend, SmallPath, Replay, ValidPath, NoCollisions, Value, FeesBurned, DisjointInputs, LedgerPath, TheEnv;
    hide Hex;
    hide SmallBlock;
    env, path := TheEnv(), SmallPath(DoubleBodies());
    BothAccepted();
    ShapeOfValidPath(env, path);
    forall k | 0 <= k < LENGTH ensures KnownBody(DoubleBodies()[k]) {
    }
    NoneCollide(DoubleBodies());
    SmallPathAt(DoubleBodies(), LENGTH);
    BlockFields(LENGTH, BothSpends());
    BothShareInput();
    assert !DisjointInputs(path[LENGTH].transactions);
    ConservationOverChains(env, path);
  }
}
