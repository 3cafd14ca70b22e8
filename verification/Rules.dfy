/**
 * The rules of consensus in their own terms: what a transaction and a block must satisfy, with every constant as a
 * number and every sum as a total, independently of how packages/core/src checks it; and that a node's tree takes a
 * block exactly by these rules, in every run.
 */
module Rules {
  import opened Prelude
  import opened Text
  import opened Types
  import opened SigningText
  import opened HeaderCodec
  import opened Sums
  import opened Difficulty
  import opened Schedule
  import opened State
  import opened Merkle
  import opened History
  import opened Paths
  import opened Chain
  import opened Order
  import opened Mempool
  import opened Mining
  import opened Locate
  import opened Growth
  import opened Sync
  import Conservation
  import Amount
  import Reward

  // ---- transactions ----

  predicate HexText(s: string, length: nat) {
    |s| == length && forall k :: 0 <= k < |s| ==> '0' <= s[k] <= '9' || 'a' <= s[k] <= 'f'
  }

  ghost predicate AmountIs(s: string, photons: int) {
    Amount.Parse(s).Some? && Amount.Parse(s).value == photons
  }

  function PhotonsOf(outputs: seq<Output>): seq<int> {
    seq(|outputs|, k requires 0 <= k < |outputs| => Photons(outputs[k].amount))
  }

  function Consumable(entries: Entries, inputs: seq<Outpoint>): seq<int> {
    seq(|inputs|, k requires 0 <= k < |inputs| => if inputs[k] in entries then entries[inputs[k]].amountPhotons else 0)
  }

  /** The input is an unspent output of the signer, and a reward only six blocks after its birth. */
  ghost predicate InputRule(env: Env, entries: Entries, height: int, tx: Transaction, i: Outpoint) {
    && 0 <= i.index <= 9_007_199_254_740_991 && HexText(i.txid, 64)
    && i in entries && entries[i].address == AddressOf(env, tx.pubkey)
    && (entries[i].isCoinbase ==> height >= entries[i].birthHeight + 6)
  }

  ghost predicate OutputRule(env: Env, o: Output) {
    ValidAddress(env, o.address) && exists v :: v > 0 && AmountIs(o.amount, v)
  }

  ghost predicate SignatureRule(env: Env, tx: Transaction) {
    && HexText(tx.pubkey, 66) && (tx.pubkey[..2] == "02" || tx.pubkey[..2] == "03") && HexText(tx.signature, 128)
    && env.verifySignature(tx.pubkey, TransactionMessage(tx), tx.signature)
  }

  ghost predicate TransactionRules(env: Env, entries: Entries, height: int, tx: Transaction) {
    && 1 <= |tx.inputs| <= 1000 && 1 <= |tx.outputs| <= 100
    && (forall j, k :: 0 <= j < k < |tx.inputs| ==> tx.inputs[j] != tx.inputs[k])
    && (forall k :: 0 <= k < |tx.inputs| ==> InputRule(env, entries, height, tx, tx.inputs[k]))
    && (forall k :: 0 <= k < |tx.outputs| ==> OutputRule(env, tx.outputs[k]))
    && SignatureRule(env, tx)
    && exists fee :: fee > 0 && AmountIs(tx.fee, fee)
         && Total(Consumable(entries, tx.inputs)) == Total(PhotonsOf(tx.outputs)) + fee
  }

  lemma {:induction false} OutputTotalIs(outputs: seq<Output>)
    ensures OutputTotal(outputs) == Total(PhotonsOf(outputs))
  {
    hide Photons, Total;
    if |outputs| > 0 {
      var init, last := outputs[..|outputs| - 1], outputs[|outputs| - 1];
      OutputTotalIs(init);
      assert PhotonsOf(outputs) == PhotonsOf(init) + [Photons(last.amount)];
      TotalSnoc(PhotonsOf(init), Photons(last.amount));
    } else {
      assert PhotonsOf(outputs) == [];
      NoTotal();
    }
  }

  lemma {:induction false} InputSumIs(entries: Entries, inputs: seq<Outpoint>)
    ensures InputSum(entries, inputs) == Total(Consumable(entries, inputs))
  {
    hide Total;
    if |inputs| > 0 {
      var init, last := inputs[..|inputs| - 1], inputs[|inputs| - 1];
      var amount := if last in entries then entries[last].amountPhotons else 0;
      InputSumIs(entries, init);
      assert Consumable(entries, inputs) == Consumable(entries, init) + [amount];
      TotalSnoc(Consumable(entries, init), amount);
    } else {
      assert Consumable(entries, inputs) == [];
      NoTotal();
    }
  }

  lemma HexIsText(s: string, length: nat)
    ensures Hex(s, length) <==> HexText(s, length)
  {
  }

  lemma OutputRuleIs(env: Env, o: Output)
    ensures OutputShapeOk(env, o) <==> OutputRule(env, o)
  {
    hide ValidAddress, Amount.Parse;
    if OutputShapeOk(env, o) {
      assert AmountIs(o.amount, Amount.Parse(o.amount).value);
    }
  }

  lemma InputRuleIs(env: Env, entries: Entries, height: int, tx: Transaction, i: Outpoint)
    ensures InputShapeOk(i) && InputOk(entries, AddressOf(env, tx.pubkey), height, i)
      <==> InputRule(env, entries, height, tx, i)
  {
    hide AddressOf, Hex, HexText;
    HexIsText(i.txid, 64);
  }

  lemma SignatureRuleIs(env: Env, tx: Transaction)
    ensures
      (Hex(tx.pubkey, 66) && Hex(tx.signature, 128) && tx.pubkey[0] == '0'
        && (tx.pubkey[1] == '2' || tx.pubkey[1] == '3')
        && env.verifySignature(tx.pubkey, TransactionMessage(tx), tx.signature))
      <==> SignatureRule(env, tx)
  {
    hide TransactionMessage, Hex, HexText;
    HexIsText(tx.pubkey, 66);
    HexIsText(tx.signature, 128);
    HexLength(tx.pubkey, 66);
    if |tx.pubkey| == 66 {
      assert tx.pubkey[..2] == [tx.pubkey[0], tx.pubkey[1]];
    }
  }

  lemma HexLength(s: string, length: nat)
    ensures Hex(s, length) ==> |s| == length
    ensures HexText(s, length) ==> |s| == length
  {
  }

  /** All checks of a transaction together amount to the rules. */
  lemma TransactionByRules(env: Env, entries: Entries, height: int, tx: Transaction)
    ensures TransactionOk(env, entries, height, tx) <==> TransactionRules(env, entries, height, tx)
  {
    hide AddressOf, Hex, HexText, InputRule, OutputRule, SignatureRule, ValidAddress, Amount.Parse, TransactionMessage;
    hide InputShapeOk, OutputShapeOk, InputOk, Total, InputSum, OutputTotal, Consumable, PhotonsOf;
    InputSumIs(entries, tx.inputs);
    OutputTotalIs(tx.outputs);
    SignatureRuleIs(env, tx);
    forall k | 0 <= k < |tx.inputs|
      ensures InputShapeOk(tx.inputs[k]) && InputOk(entries, AddressOf(env, tx.pubkey), height, tx.inputs[k])
        <==> InputRule(env, entries, height, tx, tx.inputs[k])
    {
      InputRuleIs(env, entries, height, tx, tx.inputs[k]);
    }
    forall k | 0 <= k < |tx.outputs| ensures OutputShapeOk(env, tx.outputs[k]) <==> OutputRule(env, tx.outputs[k]) {
      OutputRuleIs(env, tx.outputs[k]);
    }
    if TransactionOk(env, entries, height, tx) {
      assert AmountIs(tx.fee, Photons(tx.fee));
    }
  }

  // ---- rewards ----

  /** 400 EDX up to height 518,400; then a 2,097,152nd of what is left in whole EDX, at least one; at last 1.5 EDX. */
  function Subsidy(height: int, issued: int): int {
    if height <= 518_400 then 40_000_000_000
    else if height <= 21_024_000 then
      var whole := (210_000_000_000_000_000 - issued) / 209_715_200_000_000;
      (if whole < 1 then 1 else whole) * 100_000_000
    else 150_000_000
  }

  ghost predicate RewardRules(env: Env, issued: int, b: Block) {
    && b.coinbase.Some? && |b.coinbase.value.outputs| == 1
    && var o := b.coinbase.value.outputs[0];
    && o.address == b.header.payoutAddress && ValidAddress(env, o.address)
    && 1 <= b.header.height <= 9_007_199_254_740_991 && 0 <= issued <= 210_000_000_000_000_000
    && AmountIs(o.amount, Subsidy(b.header.height, issued))
    && issued + Subsidy(b.header.height, issued) <= 210_000_000_000_000_000
  }

  lemma SubsidyIs(height: int, issued: int)
    ensures Reward.RewardForBlock(height, issued).Ok?
      <==> 1 <= height <= 9_007_199_254_740_991 && 0 <= issued <= 210_000_000_000_000_000
    ensures Reward.RewardForBlock(height, issued).Ok? ==>
      Reward.RewardForBlock(height, issued).value == Subsidy(height, issued) && Subsidy(height, issued) > 0
  {
  }

  lemma RewardByRules(env: Env, issued: int, b: Block)
    ensures CoinbaseOk(env, issued, b) <==> RewardRules(env, issued, b)
  {
    hide ValidAddress, Amount.Parse, Reward.RewardForBlock, Subsidy;
    SubsidyIs(b.header.height, issued);
  }

  // ---- sizes ----

  function OutputBytes(outputs: seq<Output>): seq<int> {
    seq(|outputs|, k requires 0 <= k < |outputs| => 9 + |outputs[k].address|)
  }

  function TransactionBytes(tx: Transaction): int {
    142 + 36 * |tx.inputs| + Total(OutputBytes(tx.outputs))
  }

  function BytesOf(txs: seq<Transaction>): seq<int> {
    seq(|txs|, k requires 0 <= k < |txs| => TransactionBytes(txs[k]))
  }

  /** Four bytes, and for every transaction 142, 36 an input, and 9 and its address an output. */
  function BodyBytes(txs: seq<Transaction>): int {
    4 + Total(BytesOf(txs))
  }

  lemma {:induction false} OutputBytesAre(outputs: seq<Output>)
    ensures OutputsLength(outputs) == Total(OutputBytes(outputs))
  {
    hide Total;
    if |outputs| > 0 {
      var init, last := outputs[..|outputs| - 1], outputs[|outputs| - 1];
      OutputBytesAre(init);
      assert OutputBytes(outputs) == OutputBytes(init) + [9 + |last.address|];
      TotalSnoc(OutputBytes(init), 9 + |last.address|);
    } else {
      assert OutputBytes(outputs) == [];
      NoTotal();
    }
  }

  lemma {:induction false} BodyBytesAre(txs: seq<Transaction>)
    ensures TransactionsLength(txs) == BodyBytes(txs)
  {
    hide Total, OutputsLength, TransactionBytes;
    if |txs| > 0 {
      var init, last := txs[..|txs| - 1], txs[|txs| - 1];
      BodyBytesAre(init);
      assert BytesOf(txs) == BytesOf(init) + [TransactionBytes(last)];
      TotalSnoc(BytesOf(init), TransactionBytes(last));
      LastBytes(last);
    } else {
      assert BytesOf(txs) == [];
      NoTotal();
    }
  }

  lemma LastBytes(tx: Transaction)
    ensures TransactionBytes(tx) == 4 + |tx.inputs| * 36 + OutputsLength(tx.outputs) + (8 + 66 + 64)
  {
    hide Total, OutputsLength, OutputBytes;
    OutputBytesAre(tx.outputs);
  }

  // ---- times ----

  /** The time exceeds the middle of the last eleven, or the mean of the two middle ones. */
  ghost predicate MedianRule(times: seq<int>, time: int) {
    exists s: seq<int> ::
      && multiset(s) == multiset(times) && |s| == |times| && IsAscending(s)
      && time > Middle(s)
  }

  ghost predicate IsAscending(s: seq<int>) {
    forall j, k :: 0 <= j < k < |s| ==> s[j] <= s[k]
  }

  function Middle(s: seq<int>): int {
    if |s| == 0 then 0 else if |s| % 2 == 1 then s[|s| / 2] else (s[|s| / 2 - 1] + s[|s| / 2]) / 2
  }

  lemma {:induction false} InsertPermutes(x: int, s: seq<int>)
    ensures multiset(Insert(x, s)) == multiset(s) + multiset{x}
  {
    if |s| > 0 && x > s[0] {
      assert s == [s[0]] + s[1..];
      InsertPermutes(x, s[1..]);
    }
  }

  lemma {:induction false} SortPermutes(s: seq<int>)
    ensures multiset(Sort(s)) == multiset(s)
  {
    if |s| > 0 {
      assert s == [s[0]] + s[1..];
      SortPermutes(s[1..]);
      InsertPermutes(s[0], Sort(s[1..]));
    }
  }

  lemma WithoutOne(s: seq<int>, before: seq<int>, x: int, after: seq<int>)
    requires |s| > 0 && s[0] == x && multiset(s) == multiset(before + [x] + after)
    ensures multiset(s[1..]) == multiset(before + after)
  {
    assert s == [x] + s[1..];
    assert multiset(before + [x] + after) == multiset(before + after) + multiset{x};
    assert multiset(s) == multiset(s[1..]) + multiset{x};
    assert multiset(s[1..]) == multiset(s) - multiset{x};
    assert multiset(before + after) == multiset(before + [x] + after) - multiset{x};
  }

  lemma {:induction false} SameCounts(s: seq<int>, t: seq<int>, m: int)
    requires multiset(s) == multiset(t)
    ensures CountAtLeast(s, m) == CountAtLeast(t, m)
  {
    if |s| > 0 {
      assert s[0] in multiset(s);
      assert s[0] in multiset(t);
      var j :| 0 <= j < |t| && t[j] == s[0];
      var before, after := t[..j], t[j + 1..];
      assert t == before + [s[0]] + after;
      WithoutOne(s, before, s[0], after);
      SameCounts(s[1..], before + after, m);
      CountConcat(before + [s[0]], after, m);
      CountConcat(before, [s[0]], m);
      CountConcat(before, after, m);
      assert [s[0]][1..] == [];
    } else {
      assert |multiset(t)| == |t|;
      assert t == [];
    }
  }

  lemma SortedAlike(s: seq<int>, t: seq<int>, i: nat)
    requires IsAscending(s) && IsAscending(t) && |s| == |t| && i < |s| && multiset(s) == multiset(t)
    ensures s[i] == t[i]
  {
    SameCounts(s, t, s[i]);
    SameCounts(s, t, t[i]);
    SortedCount(s, s[i], i);
    SortedCount(t, s[i], i);
    SortedCount(s, t[i], i);
    SortedCount(t, t[i], i);
  }

  lemma MedianByRule(times: seq<int>, time: int)
    requires |times| > 0
    ensures time > MedianOf(times) <==> MedianRule(times, time)
  {
    hide Sort;
    var sorted := Sort(times);
    SortPermutes(times);
    SortLength(times);
    SortSorted(times);
    assert Middle(sorted) == MedianOf(times);
    if time > MedianOf(times) {
      assert IsAscending(sorted);
    }
    forall s: seq<int> | multiset(s) == multiset(times) && |s| == |times| && IsAscending(s)
      ensures Middle(s) == Middle(sorted)
    {
      SortedAlike(s, sorted, |s| / 2);
      if |s| % 2 == 0 {
        SortedAlike(s, sorted, |s| / 2 - 1);
      }
    }
  }

  // ---- blocks ----

  /** The block whose hash keys the proof of work at a height: genesis, or 64 below the last multiple of 2,048. */
  function SeedHeight(height: int): int {
    if height <= 2048 then 0 else (height - 1) / 2048 * 2048 - 64
  }

  /** The last headers of a path, at most as many as asked for. */
  function Recent(path: seq<Block>, most: nat): (headers: seq<Header>) {
    var n := if |path| < most then |path| else most;
    seq(n, k requires 0 <= k < n => path[|path| - n + k].header)
  }

  function Times(headers: seq<Header>): seq<int> {
    seq(|headers|, k requires 0 <= k < |headers| => headers[k].timestampSeconds)
  }

  function Retargeted(headers: seq<Header>): seq<Summary> {
    seq(|headers|, k requires 0 <= k < |headers| =>
      Summary(headers[k].height, headers[k].timestampSeconds, headers[k].difficulty))
  }

  lemma RecentTimes(path: seq<Block>)
    ensures LastWindow(Timestamps(path), MEDIAN_WINDOW) == Times(Recent(path, 11))
  {
  }

  lemma RecentSummariesAre(path: seq<Block>)
    requires |path| >= 240
    ensures Summaries(path)[|path| - 240..] == Retargeted(Recent(path, 240))
  {
  }

  /** One million below height 240; from there on the retarget of the last 240 blocks, whose timestamps increase. */
  ghost predicate DifficultyRules(path: seq<Block>, difficulty: int)
    requires |path| > 0
  {
    if |path| < 240 then difficulty == 1_000_000
    else
      var w := Retargeted(Recent(path, 240));
      && (forall k :: 0 < k < 240 ==> w[k - 1].timestampSeconds < w[k].timestampSeconds)
      && difficulty == RetargetValue(w)
  }

  ghost predicate WorkRule(env: Env, b: Block) {
    Encodable(b.header, b.nonce) && env.verifyPow(Blob(b.header, b.nonce), b.hash, b.header.difficulty)
  }

  ghost predicate HeaderRules(env: Env, path: seq<Block>, b: Block, nowMs: int)
    requires |path| > 0
  {
    && HexText(b.hash, 64) && WorkRule(env, b)
    && b.header.version == 1 && b.header.height == |path| <= 9_007_199_254_740_991
    && DifficultyRules(path, b.header.difficulty)
    && 0 <= SeedHeight(|path|) < |path| && b.header.powSeed == path[SeedHeight(|path|)].hash
    && MedianRule(Times(Recent(path, 11)), b.header.timestampSeconds)
    && b.header.timestampSeconds * 1000 <= nowMs + 120_000
  }

  ghost predicate BodyRules(env: Env, l: Ledger, b: Block) {
    && BodyBytes(b.transactions) <= 2_000_000
    && RewardRules(env, l.issuedPhotons, b)
    && (forall k :: 0 <= k < |b.transactions| ==>
      TransactionRules(env, l.entries, b.header.height, b.transactions[k]))
    && (forall j, k :: 0 <= j < k < |b.transactions| ==>
      (env.sha256Hex)(IdPayload(b.transactions[j])) != (env.sha256Hex)(IdPayload(b.transactions[k])))
    && b.header.merkleRoot
      == MerkleRoot(env, b.header.height, b.coinbase, TransactionIds(env, b.transactions))
  }

  lemma SeedByRule(path: seq<Block>, header: Header)
    requires |path| > 0 && header.height == |path|
    ensures
      var allowed := |path| <= 9_007_199_254_740_991 && 0 <= SeedHeight(|path|) < |path|
        && header.powSeed == path[SeedHeight(|path|)].hash;
      SeedOk(path, header) <==> allowed
  {
    assert |path| <= 9_007_199_254_740_991 ==> ExpectedSeedHeight(|path|) == Ok(SeedHeight(|path|));
  }

  lemma DifficultyByRule(env: Env, path: seq<Block>, difficulty: int)
    requires ValidPath(env, path)
    ensures |path| > 0 && (NextDifficulty(path) == Some(difficulty) <==> DifficultyRules(path, difficulty))
  {
    hide ValidPath, NextDifficulty, RetargetValue, Next, Retargeted, Recent;
    PathIsShort(env, path);
    if |path| >= 240 {
      RecentSummariesAre(path);
    }
    DifficultyRule(path);
    forall k | 0 <= k < |path| ensures Summaries(path)[k].difficulty >= 1 {
      DifficultyControlled(env, path, k);
    }
    NextInNumbers(Summaries(path));
    InitialDifficultyAtTip(env, path);
  }

  lemma InitialDifficultyAtTip(env: Env, path: seq<Block>)
    requires ValidPath(env, path) && |path| > 0
    ensures |path| < 240 ==> Last(path).header.difficulty == 1_000_000
  {
    hide ValidPath;
    if |path| < 240 {
      InitialDifficulty(env, path, |path| - 1);
    }
  }

  lemma HeaderByRules(env: Env, path: seq<Block>, b: Block, nowMs: int)
    requires ValidPath(env, path)
    ensures |path| > 0
    ensures (Hex(b.hash, 64) && LinkOk(path, b) && PowOk(env, b) && NotTooEarly(nowMs, b))
      <==> HeaderRules(env, path, b, nowMs)
  {
    hide ValidPath, Hex, HexText, Encodable, Blob, NextDifficulty, DifficultyRules, SeedOk, SeedHeight, MedianOf;
    hide MedianRule, LastWindow, Times, Recent;
    PathIsShort(env, path);
    ShapeOfTip(env, path);
    HexIsText(b.hash, 64);
    DifficultyByRule(env, path, b.header.difficulty);
    RecentTimes(path);
    MedianByRule(LastWindow(Timestamps(path), MEDIAN_WINDOW), b.header.timestampSeconds);
    if b.header.height == |path| {
      SeedByRule(path, b.header);
    }
  }

  lemma ShapeOfTip(env: Env, path: seq<Block>)
    requires ValidPath(env, path) && |path| > 0
    ensures Last(path).header.height == |path| - 1 && Last(path).header.version == 1
  {
    hide ValidPath, LedgerPath;
    ShapeOfValidPath(env, path);
  }

  lemma IdsDiffer(env: Env, txs: seq<Transaction>)
    ensures DistinctIds(env, txs) <==>
      forall j, k :: 0 <= j < k < |txs| ==>
        (env.sha256Hex)(IdPayload(txs[j])) != (env.sha256Hex)(IdPayload(txs[k]))
  {
    hide IdPayload;
  }

  lemma RulesAreShaped(env: Env, entries: Entries, height: int, txs: seq<Transaction>)
    requires forall k :: 0 <= k < |txs| ==> TransactionRules(env, entries, height, txs[k])
    ensures Shaped(env, txs)
  {
    hide ShapeOk, TransactionRules;
    forall k | 0 <= k < |txs| ensures ShapeOk(env, txs[k]) {
      TransactionByRules(env, entries, height, txs[k]);
    }
  }

  lemma RewardIsReadable(env: Env, issued: int, b: Block)
    requires RewardRules(env, issued, b)
    ensures RewardReadable(b.coinbase) && b.coinbase.Some? && |b.coinbase.value.outputs| > 0
      && b.coinbase.value.outputs[0].address == b.header.payoutAddress && b.header.height >= 1
  {
    hide ValidAddress, Amount.Parse, Subsidy;
  }

  lemma BodyByRules(env: Env, l: Ledger, b: Block)
    ensures (TransactionsLength(b.transactions) <= MAX_BLOCK_BODY_BYTES && BodyOk(env, b) && BlockOk(env, l, b))
      <==> BodyRules(env, l, b)
  {
    hide TransactionOk, TransactionRules, CoinbaseOk, RewardRules, BodyBytes, TransactionsLength, DistinctIds, Shaped;
    hide MerkleRoot, TransactionIds, RewardReadable, IdPayload;
    BodyBytesAre(b.transactions);
    RewardByRules(env, l.issuedPhotons, b);
    IdsDiffer(env, b.transactions);
    forall k | 0 <= k < |b.transactions|
      ensures TransactionOk(env, l.entries, b.header.height, b.transactions[k])
        <==> TransactionRules(env, l.entries, b.header.height, b.transactions[k])
    {
      TransactionByRules(env, l.entries, b.header.height, b.transactions[k]);
    }
    if BodyRules(env, l, b) {
      RulesAreShaped(env, l.entries, b.header.height, b.transactions);
      RewardIsReadable(env, l.issuedPhotons, b);
    }
  }

  /** All checks of a block on an accepted chain together amount to the rules. */
  lemma BlockByRules(env: Env, path: seq<Block>, b: Block, nowMs: int)
    requires ValidPath(env, path)
    ensures |path| > 0
    ensures CheckBlock(env, path, b) && NotTooEarly(nowMs, b)
      <==> HeaderRules(env, path, b, nowMs) && BodyRules(env, Replay(env, path), b)
  {
    hide ValidPath, Hex, LinkOk, PowOk, NotTooEarly, HeaderRules, BodyRules, BodyOk, BlockOk, TransactionsLength;
    hide Replay;
    HeaderByRules(env, path, b, nowMs);
    BodyByRules(env, Replay(env, path), b);
  }

  // ---- the tree ----

  /** A tree takes a block, as new or as known, exactly if it has it or the rules allow it on its parent. */
  lemma AddedByRules(env: Env, c: ChainState, b: Block, nowMs: int)
    requires Inv(env, c)
    ensures
      Add(env, nowMs, c, b).verdict.Some? <==>
        b.hash in c.entries || (b.header.previousHash in c.entries && AllowedOn(env, c, b, nowMs))
  {
    hide ValidPath, CheckBlock, NotTooEarly, HeaderRules, BodyRules, Replay, PathOf, EntryFor, Hex;
    if b.hash in c.entries {
      StoredHash(env, c, b.hash);
    } else if b.header.previousHash in c.entries {
      assert EntryOk(env, c.entries, b.header.previousHash);
      BlockByRules(env, PathOf(env, c.entries, b.header.previousHash), b, nowMs);
    }
  }

  /** The first block of every tree. */
  lemma GenesisIs(env: Env, feed: seq<Offer>)
    ensures
      var c := Run(env, feed);
      && env.genesisHash in c.entries
      && var e, b := c.entries[env.genesisHash], c.entries[env.genesisHash].block;
      && b.header.version == 1 && b.header.height == 0 && b.header.timestampSeconds == 1_767_225_600
      && |b.header.previousHash| == 64 && (forall k :: 0 <= k < 64 ==> b.header.previousHash[k] == '0')
      && b.header.difficulty == 1_000_000 && b.header.payoutAddress == "" && b.hash == env.genesisHash
      && b.coinbase.None? && b.transactions == [] && e.state == Ledger(map[], 0)
  {
    hide Linked, CheckBlock, Run;
    GenesisStays(env, Run(env, feed));
    assert EntryOk(env, Run(env, feed).entries, env.genesisHash);
  }

  ghost predicate AllowedOn(env: Env, c: ChainState, b: Block, nowMs: int)
    requires Inv(env, c) && b.header.previousHash in c.entries
  {
    var path := PathOf(env, c.entries, b.header.previousHash);
    |path| > 0 && HeaderRules(env, path, b, nowMs) && BodyRules(env, Replay(env, path), b)
  }

  lemma StoredHash(env: Env, c: ChainState, h: string)
    requires Inv(env, c) && h in c.entries
    ensures Hex(h, 64)
  {
    hide CheckBlock, Hex, GenesisBlock, PathOf;
    if h != env.genesisHash {
      AcceptedPath(env, c, h);
    } else {
      GenesisIsHex(env);
    }
  }

  lemma GenesisIsHex(env: Env)
    ensures Hex(env.genesisHash, 64)
  {
    hide Hex;
  }

  /** In every run, each stored block but genesis satisfied the rules on its parent when it was offered. */
  lemma StoredByRules(env: Env, feed: seq<Offer>, h: string) returns (i: nat)
    requires h in Run(env, feed).entries && h != env.genesisHash
    ensures
      var c, b := Run(env, feed), Run(env, feed).entries[h].block;
      && b.hash == h && b.header.previousHash in c.entries
      && var path := PathOf(env, c.entries, b.header.previousHash);
      && |path| > 0 && PathOf(env, c.entries, h) == path + [b] && b.header.previousHash == Last(path).hash
      && i < |feed| && feed[i].block == b
      && HeaderRules(env, path, b, feed[i].nowMs) && BodyRules(env, Replay(env, path), b)
  {
    hide Inv, CheckBlock, NotTooEarly, HeaderRules, BodyRules, Replay, PathOf, Run, ValidPath;
    var c := Run(env, feed);
    i := StoredWasOffered(env, feed, h);
    AcceptedPath(env, c, h);
    var b := c.entries[h].block;
    TreeIsLinked(env, c);
    ParentIsValid(env, c, b.header.previousHash);
    BlockByRules(env, PathOf(env, c.entries, b.header.previousHash), b, feed[i].nowMs);
  }

  lemma TreeIsLinked(env: Env, c: ChainState)
    requires Inv(env, c)
    ensures Linked(env, c.entries)
  {
  }

  lemma ParentIsValid(env: Env, c: ChainState, h: string)
    requires Inv(env, c) && h in c.entries
    ensures
      var path := PathOf(env, c.entries, h);
      ValidPath(env, path) && |path| > 0 && Last(path).hash == h
  {
    hide ValidPath, Replay, Work, PathOf;
    assert EntryOk(env, c.entries, h) && LinkedAt(env, c.entries, h);
    PathIsShort(env, PathOf(env, c.entries, h));
    TipOfPath(env, c.entries, h);
  }

  lemma TipOfPath(env: Env, entries: Tree, h: string)
    requires Linked(env, entries) && h in entries
    ensures |PathOf(env, entries, h)| > 0 && Last(PathOf(env, entries, h)) == entries[h].block
  {
  }

  /** The last block carries a proof of work for its own mining blob, and names the seed that its height demands. */
  ghost predicate CarriesWork(env: Env, path: seq<Block>)
    requires |path| > 0
  {
    var b := path[|path| - 1];
    && Encodable(b.header, b.nonce)
    && env.verifyPow(Blob(b.header, b.nonce), b.hash, b.header.difficulty)
    && b.header.height == |path| - 1 >= 1
    && var seed := if b.header.height <= 2048 then 0 else (b.header.height - 1) / 2048 * 2048 - 64;
       0 <= seed < b.header.height && b.header.powSeed == path[seed].hash
  }

  lemma RulesCarryWork(env: Env, path: seq<Block>, b: Block, nowMs: int)
    requires |path| > 0 && HeaderRules(env, path, b, nowMs)
    ensures CarriesWork(env, path + [b])
  {
    hide Encodable, Blob, DifficultyRules, MedianRule, HexText;
  }

  /** In every run, each stored block but genesis carries its proof of work and its seed. */
  lemma StoredHasWork(env: Env, feed: seq<Offer>, h: string)
    requires h in Run(env, feed).entries && h != env.genesisHash
    ensures
      var path := PathOf(env, Run(env, feed).entries, h);
      |path| > 1 && path[|path| - 1].hash == h && CarriesWork(env, path)
  {
    hide Run, PathOf, HeaderRules, BodyRules, Replay, CarriesWork;
    var i := StoredByRules(env, feed, h);
    var c, b := Run(env, feed), feed[i].block;
    RulesCarryWork(env, PathOf(env, c.entries, b.header.previousHash), b, feed[i].nowMs);
  }

  // ---- the tip ----

  /** 2^256 - 1 by the difficulty, and one. */
  function WorkNumber(difficulty: int): int {
    var power := 0x1_0000_0000_0000_0000_0000_0000_0000_0000;
    if difficulty < 1 then 0 else (power * power - 1) / difficulty + 1
  }

  function WorkNumbers(path: seq<Block>): seq<int> {
    seq(|path|, k requires 0 <= k < |path| => WorkNumber(path[k].header.difficulty))
  }

  lemma WorkNumberIs(difficulty: int)
    ensures WorkNumber(difficulty) == WorkOf(difficulty)
  {
    if difficulty >= 1 {
      WorkFalls(difficulty, difficulty);
    }
  }

  lemma {:induction false} WorkIsTotal(path: seq<Block>)
    ensures Work(path) == Total(WorkNumbers(path))
  {
    hide Total, WorkOf, WorkNumber;
    if |path| > 0 {
      var init := path[..|path| - 1];
      WorkIsTotal(init);
      WorkNumberIs(path[|path| - 1].header.difficulty);
      assert WorkNumbers(path) == WorkNumbers(init) + [WorkNumbers(path)[|path| - 1]];
      TotalSnoc(WorkNumbers(init), WorkNumbers(path)[|path| - 1]);
    } else {
      assert WorkNumbers(path) == [];
      NoTotal();
    }
  }

  lemma StoredWork(env: Env, c: ChainState, h: string)
    requires Inv(env, c) && h in c.entries
    ensures c.entries[h].totalWork == Total(WorkNumbers(PathOf(env, c.entries, h)))
  {
    hide ValidPath, Replay, Work, Total, WorkNumbers;
    assert EntryOk(env, c.entries, h);
    WorkIsTotal(PathOf(env, c.entries, h));
  }

  /** A new block moves the tip exactly if its chain has more work than the best one; among equals the first stays. */
  lemma TipByRules(env: Env, c: ChainState, b: Block, nowMs: int)
    requires Inv(env, c) && b.hash !in c.entries && Add(env, nowMs, c, b).verdict.Some?
    ensures b.header.previousHash in c.entries
    ensures
      var path := PathOf(env, c.entries, b.header.previousHash) + [b];
      Add(env, nowMs, c, b).chain.bestHash
      == if Total(WorkNumbers(path)) > Total(WorkNumbers(BestPath(env, c))) then b.hash else c.bestHash
  {
    hide EntryOk, Linked, CheckBlock, NotTooEarly, Total, WorkNumbers, PathOf, WorkOf;
    var before := PathOf(env, c.entries, b.header.previousHash);
    StoredWork(env, c, c.bestHash);
    StoredWork(env, c, b.header.previousHash);
    WorkIsTotal(before);
    WorkIsTotal(before + [b]);
    assert (before + [b])[..|before|] == before;
  }

  /** In every run the best chain is one with the most work. */
  lemma BestIsHeaviest(env: Env, feed: seq<Offer>, h: string)
    requires h in Run(env, feed).entries
    ensures
      var c := Run(env, feed);
      c.bestHash in c.entries
      && Total(WorkNumbers(PathOf(env, c.entries, h))) <= Total(WorkNumbers(PathOf(env, c.entries, c.bestHash)))
  {
    hide EntryOk, Linked, PathOf, Total, WorkNumbers, Run;
    StoredWork(env, Run(env, feed), h);
    StoredWork(env, Run(env, feed), Run(env, feed).bestHash);
  }

  // ---- the pool ----

  /** No pending transaction has an input of this one. */
  ghost predicate SharesNoInput(items: Pool, tx: Transaction) {
    forall k, i :: 0 <= k < |items| && i in items[k].transaction.inputs ==> i !in tx.inputs
  }

  lemma NoConflictMeans(items: Pool, tx: Transaction)
    ensures NoConflict(items, tx) <==> SharesNoInput(items, tx)
  {
    if NoConflict(items, tx) {
      forall k, i | 0 <= k < |items| && i in items[k].transaction.inputs ensures i !in tx.inputs {
        assert i in InputSet(items[k].transaction.inputs);
        assert i in tx.inputs ==> i in InputSet(tx.inputs);
      }
    }
    if SharesNoInput(items, tx) {
      forall k | 0 <= k < |items| ensures InputSet(items[k].transaction.inputs) !! InputSet(tx.inputs) {
        forall i | i in InputSet(items[k].transaction.inputs) ensures i !in InputSet(tx.inputs) {
          assert i in items[k].transaction.inputs;
        }
      }
    }
  }

  /**
   * A submission only ever adds to the pool, and one that is not pending yet gets in exactly if the rules allow it at
   * the tip and it shares no input with a pending one.
   */
  lemma SubmitByRules(env: Env, n: Node, tx: Transaction, nowMs: int)
    requires Inv(env, n.chain)
    ensures n.chain.bestHash in n.chain.entries
    ensures
      var after, tip := AfterSubmit(env, n, tx, nowMs), n.chain.entries[n.chain.bestHash];
      var pending, allowed := exists k :: 0 <= k < |n.pool| && n.pool[k].id == TransactionId(env, tx),
        TransactionRules(env, tip.state.entries, tip.block.header.height, tx) && SharesNoInput(n.pool, tx);
      && after.chain == n.chain && after.jobs == n.jobs
      && (pending ==> after == n)
      && (!pending ==> (after != n <==> allowed))
  {
    hide EntryOk, Linked, ShapeOk, InputsOk, TransactionRules, TransactionId, NoConflict, SharesNoInput, InputSum;
    var tip := n.chain.entries[n.chain.bestHash];
    TransactionByRules(env, tip.state.entries, tip.block.header.height, tx);
    NoConflictMeans(n.pool, tx);
    if AfterAccept(env, n.pool, tip.state, tip.block.header.height, tx, nowMs).Some?
      && !Has(n.pool, TransactionId(env, tx)) {
      NewestLast(env, n.pool, tip.state, tip.block.header.height, tx, nowMs);
      Added(n.pool, AfterSubmit(env, n, tx, nowMs).pool, TransactionId(env, tx));
    }
  }

  lemma Added(items: Pool, after: Pool, id: string)
    requires !Has(items, id) && |after| > 0 && after[|after| - 1].id == id
    ensures after != items
  {
  }

  lemma PendingIsShaped(env: Env, n: Node)
    requires NodeSafe(env, n)
    ensures Shaped(env, Pending(n))
  {
    hide EntryOk, Linked, JobsSound, ShapeOk;
    var txs := Pending(n);
    forall k | 0 <= k < |txs| ensures ShapeOk(env, txs[k]) {
      assert EntryFits(env, n.pool[k], TipEntry(n).state.entries, TipHeight(n));
    }
  }

  lemma TipReward(env: Env, path: seq<Block>)
    requires ValidPath(env, path)
    ensures |path| > 0 && Last(path).header.height + 1 == |path| < 0x1_0000_0000
    ensures Hex(Last(path).hash, 64) && forall k :: 0 <= k < |path| ==> Hex(path[k].hash, 64)
    ensures Reward.RewardForBlock(|path|, Replay(env, path).issuedPhotons).Ok?
  {
    hide ValidPath, Replay, LedgerPath, Hex, Reward.RewardForBlock;
    PathIsShort(env, path);
    ShapeOfTip(env, path);
    ShapeOfValidPath(env, path);
    ChainsEndEarly(env, path);
    Conservation.IssuanceFollowsSchedule(env, path);
    SubsidyIs(|path|, Replay(env, path).issuedPhotons);
    forall k | 0 <= k < |path| ensures Hex(path[k].hash, 64) {
      HashesAreHex(env, path, k);
    }
  }

  /** What keeps a job from being made: the payee, the clock, or a difficulty that does not exist or does not fit. */
  ghost predicate JobAllowed(env: Env, path: seq<Block>, payout: string, nowSeconds: int)
    requires |path| > 0
  {
    && ValidAddress(env, payout) && |payout| <= 255 && Ascii(payout)
    && 0 <= nowSeconds < 0x1_0000_0000
    && exists d :: 1 <= d < 0x1_0000_0000_0000_0000_0000_0000_0000_0000 && DifficultyRules(path, d)
  }

  /** On an accepted chain whose transactions are well formed nothing else keeps a job from being made. */
  lemma TemplateIsMade(env: Env, path: seq<Block>, payout: string, txs: seq<Transaction>, nowSeconds: int)
    requires ValidPath(env, path) && Shaped(env, txs)
    ensures |path| > 0
    ensures
      TemplateFor(env, path, Replay(env, path).issuedPhotons, payout, txs, nowSeconds).Some?
      <==> JobAllowed(env, path, payout, nowSeconds)
  {
    hide ValidPath, Replay, Shaped, ValidAddress, Reward.RewardForBlock, NextDifficulty, DifficultyRules, MerkleRoot;
    hide Amount.Print, Hex, TransactionIds, ExpectedSeedHeight;
    TipReward(env, path);
    OnlyRetargetFails(env, path);
    Reward.RewardIsPositive(|path|, Replay(env, path).issuedPhotons);
    var next := NextDifficulty(path);
    forall d ensures next == Some(d) <==> DifficultyRules(path, d) {
      DifficultyByRule(env, path, d);
    }
  }

  /** A safe node makes a job exactly if payee, clock and next difficulty allow it, whatever is pending. */
  lemma JobIsMade(env: Env, n: Node, payout: string, nowSeconds: int)
    requires NodeSafe(env, n)
    ensures |BestPath(env, n.chain)| > 0
    ensures
      TemplateFor(env, BestPath(env, n.chain), TipEntry(n).state.issuedPhotons, payout, Pending(n), nowSeconds).Some?
      <==> JobAllowed(env, BestPath(env, n.chain), payout, nowSeconds)
  {
    hide Inv, PoolOk, JobsSound, TemplateFor, JobAllowed, ValidPath, Replay, Shaped;
    TipFacts(env, n.chain);
    PendingIsShaped(env, n);
    TemplateIsMade(env, BestPath(env, n.chain), payout, Pending(n), nowSeconds);
  }

  /** A block from a peer is counted as refused unless the rules allow it, or it is stored and its body well formed. */
  lemma RefusedByRules(env: Env, c: ChainState, b: Block, nowMs: int)
    requires Inv(env, c)
    ensures
      var allowed := if b.hash in c.entries then Shaped(env, b.transactions)
        else b.header.previousHash in c.entries && AllowedOn(env, c, b, nowMs);
      Refused(env, c, b, nowMs) <==> !allowed
  {
    hide EntryOk, Linked, Add, Shaped, HeaderRules, TransactionRules, PathOf, Replay, RewardRules, BodyBytes;
    hide MerkleRoot, IdPayload;
    AddedByRules(env, c, b, nowMs);
    if b.hash !in c.entries && b.header.previousHash in c.entries && AllowedOn(env, c, b, nowMs) {
      var l := Replay(env, PathOf(env, c.entries, b.header.previousHash));
      RulesAreShaped(env, l.entries, b.header.height, b.transactions);
    }
  }
}
