/**
 * Long chains without transactions that consensus accepts, several of them side by side: long enough for the retarget,
 * and for two nodes whose chains part right after genesis never to find their fork.
 */
module LongChain {
  import opened Prelude
  import opened Positional
  import opened Text
  import opened Types
  import opened SigningText
  import opened HeaderCodec
  import opened Difficulty
  import opened Schedule
  import opened State
  import opened Merkle
  import opened History
  import opened Conservation
  import opened Paths
  import opened Growth
  import opened Chain
  import opened Mining
  import opened SmallChain
  import opened StrandedRun
  import Commitment
  import Amount
  import Reward

  /** Chains of this height exist at least. */
  const REACH: nat := 307

  // ---- names ----

  function NameBytes(branch: nat, k: nat): (b: seq<byte>)
    requires 1 <= branch < 256 && k < 0x1_0000
    ensures |b| == 32
  {
    [branch, k / 256, k % 256] + seq(29, _ => 0)
  }

  /** The hash of the block of height `k` on a branch. */
  function BranchName(branch: nat, k: nat): HashText
    requires 1 <= branch < 256 && k < 0x1_0000
  {
    HexOf(NameBytes(branch, k))
  }

  lemma NamesApart(a: nat, j: nat, b: nat, k: nat)
    requires 1 <= a < 256 && 1 <= b < 256 && j < 0x1_0000 && k < 0x1_0000
    ensures BranchName(a, j) == BranchName(b, k) <==> a == b && j == k
  {
    hide HexOf, HexChar;
    if BranchName(a, j) == BranchName(b, k) {
      Commitment.HexOfInjective(NameBytes(a, j), NameBytes(b, k));
      assert NameBytes(a, j)[0] == a && NameBytes(b, k)[0] == b;
      assert NameBytes(a, j)[1] == j / 256 && NameBytes(b, k)[1] == k / 256;
      assert NameBytes(a, j)[2] == j % 256 && NameBytes(b, k)[2] == k % 256;
    }
  }

  lemma NotGenesis(branch: nat, k: nat)
    requires 1 <= branch < 256 && k < 0x1_0000
    ensures BranchName(branch, k) != TheEnv().genesisHash
  {
    var name, genesis := BranchName(branch, k), TheEnv().genesisHash;
    assert NameBytes(branch, k)[0] == branch;
    assert name[0] == HexChar(branch / 16) && name[1] == HexChar(branch % 16);
    assert genesis[0] == HexChar(0) && genesis[1] == '0';
    assert NibbleOf(name[0]) == branch / 16 && NibbleOf(name[1]) == branch % 16;
  }

  // ---- a chain without transactions ----

  /** The blocks of a branch after genesis: named by their heights, one second apart, each behind the one before. */
  ghost predicate OnBranch(branch: nat, path: seq<Block>)
    requires 1 <= branch < 256
  {
    && 1 <= |path| <= REACH + 1 && path[0] == GenesisBlock(TheEnv())
    && forall i :: 1 <= i < |path| ==> BranchBlock(branch, path, i)
  }

  ghost predicate BranchBlock(branch: nat, path: seq<Block>, i: nat)
    requires 1 <= branch < 256 && 1 <= i < |path| <= REACH + 1
  {
    && path[i].hash == BranchName(branch, i) && path[i].header.previousHash == path[i - 1].hash
    && path[i].header.timestampSeconds == GENESIS_TIMESTAMP_SECONDS + i && path[i].transactions == []
  }

  lemma TimeAt(branch: nat, path: seq<Block>, i: nat)
    requires 1 <= branch < 256 && OnBranch(branch, path) && i < |path|
    ensures path[i].header.timestampSeconds == GENESIS_TIMESTAMP_SECONDS + i
    ensures i > 0 ==> path[i].hash == BranchName(branch, i)
    ensures i == 0 ==> path[i].hash == TheEnv().genesisHash
  {
    hide BranchName, TheEnv;
    assert i > 0 ==> BranchBlock(branch, path, i);
  }

  lemma BranchSize(branch: nat, path: seq<Block>)
    requires 1 <= branch < 256 && OnBranch(branch, path)
    ensures 1 <= |path| <= REACH + 1
  {
    hide BranchName, TheEnv;
  }

  lemma NewerThanMedian(branch: nat, path: seq<Block>)
    requires 1 <= branch < 256 && OnBranch(branch, path)
    ensures MedianTime(path) < GENESIS_TIMESTAMP_SECONDS + |path|
  {
    hide MedianOf, OnBranch, BranchName;
    BranchSize(branch, path);
    forall k | 0 <= k < |path| ensures Timestamps(path)[k] < GENESIS_TIMESTAMP_SECONDS + |path| {
      TimeAt(branch, path, k);
    }
    MedianBelow(LastWindow(Timestamps(path), MEDIAN_WINDOW), GENESIS_TIMESTAMP_SECONDS + |path|);
  }

  lemma IncreasingWindow(all: seq<Summary>, n: nat)
    requires Increasing(all)
    ensures Increasing(LastWindow(all, n))
  {
    var w := LastWindow(all, n);
    var skipped := |all| - |w|;
    assert w == all[skipped..];
    hide LastWindow;
    forall k | 0 < k < |w| ensures w[k - 1].timestampSeconds < w[k].timestampSeconds {
      assert w[k] == all[skipped + k] && w[k - 1] == all[skipped + k - 1];
    }
  }

  lemma TimesIncrease(branch: nat, path: seq<Block>)
    requires 1 <= branch < 256 && OnBranch(branch, path)
    ensures Increasing(LastWindow(Summaries(path), LWMA_WINDOW))
  {
    hide OnBranch, BranchName, LastWindow, TheEnv;
    var all := Summaries(path);
    forall k | 0 < k < |all| ensures all[k - 1].timestampSeconds < all[k].timestampSeconds {
      TimeAt(branch, path, k);
      TimeAt(branch, path, k - 1);
    }
    IncreasingWindow(all, LWMA_WINDOW);
  }

  lemma TriplesFit()
    ensures Power(3, REACH - (LWMA_WINDOW - 1)) * INITIAL_DIFFICULTY < U128_LIMIT
  {
    assert Power(3, 2) == 9 && Power(3, 4) == 81;
    SumOfPowers(4, 4);
    SumOfPowers(8, 8);
    SumOfPowers(16, 16);
    SumOfPowers(32, 32);
    SumOfPowers(64, 4);
    assert Power(3, 8) == 6561;
    assert Power(3, 16) == 43_046_721;
    assert Power(3, 32) == 1_853_020_188_851_841;
    assert Power(3, 64) == 3_433_683_820_292_512_484_657_849_089_281;
    assert Power(3, 68) == 278_128_389_443_693_511_257_285_776_231_761;
  }

  lemma {:induction false} SumOfPowers(a: nat, b: nat)
    ensures Power(3, a + b) == Power(3, a) * Power(3, b)
  {
    if b > 0 {
      SumOfPowers(a, b - 1);
      assert Power(3, a) * (Power(3, b - 1) * 3) == (Power(3, a) * Power(3, b - 1)) * 3;
    }
  }

  lemma {:induction false} PowersRise(a: nat, b: nat)
    requires a <= b
    ensures Power(3, a) <= Power(3, b)
  {
    if a < b {
      PowersRise(a, b - 1);
    }
  }

  /** The next difficulty exists and fits the header. */
  lemma NextFits(branch: nat, path: seq<Block>)
    requires 1 <= branch < 256 && OnBranch(branch, path) && ValidPath(TheEnv(), path) && |path| <= REACH
    ensures NextDifficulty(path).Some? && 1 <= NextDifficulty(path).value < U128_LIMIT
  {
    hide ValidPath, OnBranch, Increasing, TheEnv, Power, Raw, Clamp;
    BranchSize(branch, path);
    var last := |path| - 1;
    TimesIncrease(branch, path);
    DifficultyRule(path);
    NextReadsWindow(Summaries(path));
    DifficultyControlled(TheEnv(), path, last);
    if |path| < LWMA_WINDOW {
      InitialDifficulty(TheEnv(), path, last);
    } else {
      assert NextDifficulty(path).Some?;
      NextStaysInRange(Summaries(path));
      DifficultyAtMostTriples(TheEnv(), path, last);
      TriplesMore(last);
    }
  }

  lemma TriplesMore(last: nat)
    requires LWMA_WINDOW - 1 <= last < REACH
    ensures 3 * (Power(3, last - (LWMA_WINDOW - 1)) * INITIAL_DIFFICULTY) < U128_LIMIT
  {
    TriplesFit();
    PowersRise(last + 1 - (LWMA_WINDOW - 1), REACH - (LWMA_WINDOW - 1));
    assert Power(3, last + 1 - (LWMA_WINDOW - 1)) == Power(3, last - (LWMA_WINDOW - 1)) * 3;
  }

  lemma RewardFits(path: seq<Block>)
    requires ValidPath(TheEnv(), path)
    ensures Reward.RewardForBlock(|path|, Replay(TheEnv(), path).issuedPhotons) == Ok(SUBSIDY)
    ensures Replay(TheEnv(), path).issuedPhotons + SUBSIDY <= Reward.TOTAL_SUPPLY
  {
    hide ValidPath, Replay, TheEnv;
    PathIsShort(TheEnv(), path);
    EmissionEndsEarly(TheEnv(), path);
    ChainsEndEarly(TheEnv(), path);
  }

  lemma HashesFit(env: Env, path: seq<Block>, k: nat)
    requires ValidPath(env, path) && k < |path|
    ensures Hex(path[k].hash, 64)
  {
    hide ValidPath, CheckBlock, Hex, GenesisBlock;
    if k == 0 {
      ShapeOfValidPath(env, path);
      GenesisHash(env);
    } else {
      PrefixOfValidPath(env, path, k);
      LinkOfCheck(env, path[..k], path[k]);
    }
  }

  lemma GenesisHash(env: Env)
    ensures Hex(GenesisBlock(env).hash, 64)
  {
    hide Hex;
  }

  /** The block that a miner puts on a chain without transactions. */
  ghost function NextTemplate(path: seq<Block>): Block
    requires |path| > 0 && NextFor(path).Some?
  {
    Template(TheEnv(), Last(path).hash, NextFor(path).value, Payee(), SUBSIDY, [], GENESIS_TIMESTAMP_SECONDS + |path|)
  }

  lemma TemplateFields(path: seq<Block>)
    requires |path| > 0 && NextFor(path).Some?
    ensures
      var b := NextTemplate(path);
      && b.header.previousHash == Last(path).hash && b.transactions == [] && b.nonce == 0
      && b.header.timestampSeconds == GENESIS_TIMESTAMP_SECONDS + |path|
      && b.header.height == NextFor(path).value.height && b.header.difficulty == NextFor(path).value.difficulty
      && b.header.powSeed == NextFor(path).value.powSeed && b.header.payoutAddress == Payee()
      && b.header.version == PROTOCOL_VERSION && Hex(b.header.merkleRoot, 64)
      && b.coinbase == Some(CoinbaseFor(Payee(), SUBSIDY))
  {
    hide TheEnv, Payee, CoinbaseFor, MerkleRoot, Hex, NextFor;
  }

  /** What the next block of an accepted chain reads off it. */
  lemma NextReads(path: seq<Block>)
    requires ValidPath(TheEnv(), path) && NextDifficulty(path).Some?
    ensures |path| > 0 && NextFor(path).Some? && NextFor(path).value.height == |path|
    ensures NextFor(path).value.difficulty == NextDifficulty(path).value && Hex(NextFor(path).value.powSeed, 64)
  {
    hide ValidPath, TheEnv, NextDifficulty, ExpectedSeedHeight, Hex, LedgerPath;
    OnlyRetargetFails(TheEnv(), path);
    ShapeOfValidPath(TheEnv(), path);
    PathIsShort(TheEnv(), path);
    HashesFit(TheEnv(), path, ExpectedSeedHeight(|path|).value);
  }

  lemma EncodableOf(h: Header)
    requires h.version == 1 && 0 <= h.height <= REACH && 1 <= h.difficulty < U128_LIMIT
    requires 0 <= h.timestampSeconds - GENESIS_TIMESTAMP_SECONDS <= REACH
    requires Hex(h.previousHash, 64) && Hex(h.merkleRoot, 64) && Hex(h.powSeed, 64)
    requires |h.payoutAddress| <= 75 && Ascii(h.payoutAddress)
    ensures Encodable(h, 0)
  {
    hide Hex, Ascii;
  }

  lemma TemplateEncodes(branch: nat, path: seq<Block>)
    requires 1 <= branch < 256 && OnBranch(branch, path) && ValidPath(TheEnv(), path) && |path| <= REACH
    ensures NextFor(path).Some? && NextFor(path).value.height == |path|
    ensures Encodable(NextTemplate(path).header, 0)
  {
    hide *;
    BranchSize(branch, path);
    NextFits(branch, path);
    NextReads(path);
    TemplateFields(path);
    PayeeFacts();
    HashesFit(TheEnv(), path, |path| - 1);
    LastIs(path);
    EncodableOf(NextTemplate(path).header);
  }

  lemma LastIs(path: seq<Block>)
    requires |path| > 0
    ensures Last(path) == path[|path| - 1] && PROTOCOL_VERSION == 1
  {
  }

  lemma NothingIsOk(env: Env, entries: Entries, height: int)
    ensures TransactionsOk(env, entries, height, []) && DisjointInputs([]) && Shaped(env, [])
    ensures TransactionsLength([]) <= MAX_BLOCK_BODY_BYTES
  {
  }

  lemma MintedBySubsidy(b: Block)
    requires b.coinbase == Some(CoinbaseFor(Payee(), SUBSIDY))
    ensures Minted(b) == SUBSIDY
  {
    hide Payee, Photons, Amount.Print;
    Printed(SUBSIDY);
  }

  lemma NextJobFits(branch: nat, path: seq<Block>)
    requires 1 <= branch < 256 && OnBranch(branch, path) && ValidPath(TheEnv(), path) && |path| <= REACH
    requires NextFor(path).Some?
    ensures |path| > 0 && JobFits(TheEnv(), path, NextTemplate(path))
  {
    hide *;
    var env, issued := TheEnv(), Replay(TheEnv(), path).issuedPhotons;
    BranchSize(branch, path);
    TemplateEncodes(branch, path);
    PayeeFacts();
    RewardFits(path);
    NothingIsOk(env, Replay(env, path).entries, Last(path).header.height + 1);
    NextTemplateIs(path);
    TemplateOf(env, path, NextFor(path).value, issued, Payee(), SUBSIDY, [], GENESIS_TIMESTAMP_SECONDS + |path|);
    TemplateFits(env, path, Payee(), [], GENESIS_TIMESTAMP_SECONDS + |path|);
  }

  lemma CandidateFields(b: Block, hash: string)
    ensures
      var c := Candidate(b, 0, hash);
      c.header == b.header && c.nonce == 0 && c.hash == hash && c.transactions == b.transactions
  {
  }

  /** Consensus takes the next block, whatever hash it is given. */
  lemma NextAccepted(branch: nat, path: seq<Block>, hash: string)
    requires 1 <= branch < 256 && OnBranch(branch, path) && ValidPath(TheEnv(), path) && |path| <= REACH
    requires Hex(hash, 64) && NextFor(path).Some?
    ensures |path| > 0 && CheckBlock(TheEnv(), path, Candidate(NextTemplate(path), 0, hash))
  {
    hide *;
    var env := TheEnv();
    BranchSize(branch, path);
    NextJobFits(branch, path);
    ShareChecks(env, path, NextTemplate(path), 0, hash);
    TemplateFields(path);
    TemplateEncodes(branch, path);
    CandidateFields(NextTemplate(path), hash);
    NothingIsOk(env, Replay(env, path).entries, 0);
    NewerThanMedian(branch, path);
    AllWorkAccepted(Candidate(NextTemplate(path), 0, hash));
    MintedBySubsidy(NextTemplate(path));
    RewardFits(path);
  }

  lemma NextTemplateIs(path: seq<Block>)
    requires |path| > 0 && NextFor(path).Some?
    ensures
      NextTemplate(path) == Template(
        TheEnv(), Last(path).hash, NextFor(path).value, Payee(), SUBSIDY, [], GENESIS_TIMESTAMP_SECONDS + |path|)
  {
    hide NextFor, Template, TheEnv, Payee;
  }

  lemma OneMoreOnBranch(branch: nat, path: seq<Block>, b: Block)
    requires 1 <= branch < 256 && OnBranch(branch, path) && |path| <= REACH
    requires b.hash == BranchName(branch, |path|) && b.header.previousHash == Last(path).hash
    requires b.header.timestampSeconds == GENESIS_TIMESTAMP_SECONDS + |path| && b.transactions == []
    ensures OnBranch(branch, path + [b])
  {
    hide BranchName, TheEnv;
    var longer := path + [b];
    forall i | 1 <= i < |longer| ensures BranchBlock(branch, longer, i) {
      if i < |path| {
        assert BranchBlock(branch, path, i);
      }
    }
  }

  lemma GrowBranch(branch: nat, init: seq<Block>) returns (path: seq<Block>)
    requires 1 <= branch < 256 && |init| <= REACH && ValidPath(TheEnv(), init) && OnBranch(branch, init)
    ensures |path| == |init| + 1 && ValidPath(TheEnv(), path) && OnBranch(branch, path)
  {
    hide CheckBlock, OnBranch, TheEnv, BranchName, NextFor, NextTemplate, Encodable, Hex;
    BranchSize(branch, init);
    TemplateEncodes(branch, init);
    var b := Candidate(NextTemplate(init), 0, BranchName(branch, |init|));
    NameIsText(branch, |init|);
    NextAccepted(branch, init, BranchName(branch, |init|));
    TemplateFields(init);
    OneMoreOnBranch(branch, init, b);
    path := init + [b];
    assert path[..|path| - 1] == init;
  }

  lemma NameIsText(branch: nat, k: nat)
    requires 1 <= branch < 256 && k < 0x1_0000
    ensures Hex(BranchName(branch, k), 64)
  {
    hide Hex, HexOf;
  }

  /** Every branch has an accepted chain of every height up to 307. */
  lemma {:induction false} ChainExists(branch: nat, height: nat) returns (path: seq<Block>)
    requires 1 <= branch < 256 && height <= REACH
    ensures |path| == height + 1 && ValidPath(TheEnv(), path) && OnBranch(branch, path)
  {
    hide ValidPath, OnBranch, TheEnv;
    if height == 0 {
      path := [GenesisBlock(TheEnv())];
      GenesisOnBranch(branch);
    } else {
      var init := ChainExists(branch, height - 1);
      path := GrowBranch(branch, init);
    }
  }

  lemma GenesisOnBranch(branch: nat)
    requires 1 <= branch < 256
    ensures OnBranch(branch, [GenesisBlock(TheEnv())]) && ValidPath(TheEnv(), [GenesisBlock(TheEnv())])
  {
    hide TheEnv, CheckBlock;
  }

  /** There are accepted chains past the first retarget, with the difficulty doubled five times and more. */
  lemma RetargetIsReached() returns (env: Env, path: seq<Block>)
    ensures ValidPath(env, path) && |path| == REACH + 1
    ensures path[LWMA_WINDOW].header.difficulty == 3 * INITIAL_DIFFICULTY
    ensures path[REACH].header.difficulty >= 32 * INITIAL_DIFFICULTY
  {
    hide ValidPath, TheEnv, OnBranch;
    env := TheEnv();
    path := ChainExists(1, REACH);
    FirstRetargetTriples(env, path);
    DifficultyDoubles(env, path, 5, REACH);
    FiveDoublings();
  }

  lemma FiveDoublings()
    ensures Floor(5) == 32 * INITIAL_DIFFICULTY
  {
    assert Power(2, 2) == 4 && Power(2, 4) == 16;
  }
}
