/**
 * A chain that the wallet's appendBlocks takes and that truncate does not roll back: its last two blocks consume the
 * same output. appendBlocks checks links, amounts and shapes only, so it is consensus that keeps such chains away.
 */
module LostSpender {
  import opened Prelude
  import opened Types
  import opened SigningText
  import opened Text
  import opened State
  import opened History
  import opened Paths
  import opened WalletTables
  import opened WalletIndex
  import opened WalletStore
  import opened WalletRollback
  import opened WalletRuns
  import opened SmallChain
  import opened Mining

  const QUIET: nat := LENGTH - 2

  ghost function Bodies(): (bodies: seq<seq<Transaction>>)
    ensures |bodies| == LENGTH
  {
    Nothing(QUIET) + [[Spend(1)], [Spend(2)]]
  }

  ghost function Chain(): (path: seq<Block>)
    ensures |path| == LENGTH + 1
  {
    SmallPath(Bodies())
  }

  // ---- appendBlocks takes the chain ----

  lemma BodiesAt(i: nat)
    requires 1 <= i <= LENGTH
    ensures Bodies()[i - 1] == if i <= QUIET then [] else [Spend(i - QUIET)]
  {
    hide Spend;
  }

  lemma ChainAt(i: nat)
    requires 1 <= i <= LENGTH
    ensures Chain()[i] == SmallBlock(i, Bodies()[i - 1])
  {
    hide Bodies, SmallBlock, TheEnv, SmallPath;
    SmallPathAt(Bodies(), i);
  }

  lemma BodyOf(i: nat)
    requires 1 <= i <= LENGTH
    ensures
      var txs := Chain()[i].transactions;
      txs == if i <= QUIET then [] else [Spend(i - QUIET)]
    ensures Chain()[i] == SmallBlock(i, Chain()[i].transactions)
  {
    hide Spend, SmallBlock, TheEnv, SmallPath, Named, Bodies, Chain;
    BodiesAt(i);
    ChainAt(i);
    BlockFields(i, Bodies()[i - 1]);
  }

  lemma FirstBlock()
    ensures Chain()[0] == GenesisBlock(TheEnv())
  {
    hide Spend, SmallBlock, TheEnv, SmallPath, Named;
    SmallPathAt(Bodies(), 0);
  }

  lemma GenesisContinues()
    ensures Continues(TheEnv(), [], GenesisBlock(TheEnv()))
  {
  }

  lemma SmallReadable(k: nat, txs: seq<Transaction>)
    requires 1 <= k <= LENGTH && KnownBody(txs)
    ensures Readable(TheEnv(), SmallBlock(k, txs))
  {
    hide SmallBlock, TheEnv, Spend, ShapeOk, Named, CoinbaseFor, AmountsParse, ContentOk;
    BlockFields(k, txs);
    CoinbaseFields();
    SpendContent(1);
    SpendContent(2);
    assert SmallBlock(k, txs).coinbase == Some(TheCoinbase()) by { SameCoinbase(); }
  }

  lemma SameCoinbase()
    ensures TheCoinbase() == CoinbaseFor(Payee(), SUBSIDY)
  {
  }

  lemma ContinuesOf(env: Env, path: seq<Block>, b: Block)
    requires |path| > 0 && b.header.height == |path| && Readable(env, b)
    requires b.header.previousHash == path[|path| - 1].hash && path[|path| - 1].hash != ""
    ensures Continues(env, path, b)
  {
    hide ShapeOk;
  }

  lemma LaterContinues(i: nat)
    requires 1 <= i <= LENGTH
    ensures Continues(TheEnv(), Chain()[..i], Chain()[i])
  {
    hide *;
    BodyOf(i);
    var txs := Chain()[i].transactions;
    BlockFields(i, txs);
    BodyKnown(i);
    SmallReadable(i, txs);
    HashAt(i - 1);
    NameNotEmpty(i - 1);
    assert Chain()[..i][i - 1] == Chain()[i - 1];
    ContinuesOf(TheEnv(), Chain()[..i], Chain()[i]);
  }

  lemma BodyKnown(i: nat)
    requires 1 <= i <= LENGTH
    ensures KnownBody(Chain()[i].transactions) && i - 1 < 16
  {
    hide Spend, Chain, SmallBlock, TheEnv;
    BodyOf(i);
    if i > QUIET {
      assert i - QUIET == 1 || i - QUIET == 2;
    }
  }

  lemma ChainContinues(i: nat)
    requires i <= LENGTH
    ensures Continues(TheEnv(), Chain()[..i], Chain()[i])
  {
    hide Spend, TheEnv, Continues, GenesisBlock, Chain;
    if i == 0 {
      FirstBlock();
      GenesisContinues();
      assert Chain()[..0] == [];
    } else {
      LaterContinues(i);
    }
  }

  lemma HashAt(i: nat)
    requires i <= LENGTH
    ensures Chain()[i].hash == Named(i) && Chain()[i].header.height == i
  {
    hide Spend, SmallBlock, TheEnv, SmallPath, Named, GenesisBlock;
    if i == 0 {
      FirstBlock();
      GenesisFields();
    } else {
      BodyOf(i);
      BlockFields(i, Chain()[i].transactions);
    }
  }

  lemma NameNotEmpty(k: nat)
    requires k < 16
    ensures |Named(k)| == 64
  {
  }

  lemma ChainAccepted()
    ensures ContinuesAll(TheEnv(), [], Chain())
  {
    hide Continues, Chain, TheEnv;
    forall k | 0 <= k < |Chain()| ensures Continues(TheEnv(), [] + Chain()[..k], Chain()[k]) {
      ChainContinues(k);
      assert [] + Chain()[..k] == Chain()[..k];
    }
  }

  // ---- its identifiers are distinct ----

  lemma IdsOfBody(txs: seq<Transaction>)
    requires txs == [] || txs == [Spend(1)]
    ensures IdsOf(TheEnv(), txs) <= {Named(9)}
  {
    hide Spend, TheEnv, Named, TransactionId;
    Identifiers(1);
    if txs == [Spend(1)] {
      assert txs[..0] == [];
    }
  }

  lemma BlockIdsOf(k: nat, txs: seq<Transaction>)
    requires 1 <= k <= LENGTH
    ensures BlockIds(TheEnv(), SmallBlock(k, txs)) == IdsOf(TheEnv(), txs) + {Named(k)}
    ensures Brought(TheEnv(), SmallBlock(k, txs)) == IdsOf(TheEnv(), txs) + {Named(k)}
  {
    hide Spend, TheEnv, Named, SmallBlock, CoinbaseId, IdsOf, Payee;
    BlockFields(k, txs);
    Identifiers(k);
    SameCoinbase();
  }

  lemma {:induction false} NotYetNamed(bodies: seq<seq<Transaction>>)
    requires |bodies| < LENGTH && forall k :: 0 <= k < |bodies| ==> bodies[k] == [] || bodies[k] == [Spend(1)]
    ensures Named(LENGTH) !in Ids(TheEnv(), SmallPath(bodies)) && Named(10) !in Ids(TheEnv(), SmallPath(bodies))
  {
    hide Spend, TheEnv, Named, SmallBlock, BlockIds, IdsOf;
    if |bodies| > 0 {
      var n := |bodies| - 1;
      NotYetNamed(bodies[..n]);
      IdsOfBody(bodies[n]);
      BlockIdsOf(n + 1, bodies[n]);
      NamesDiffer();
      var path := SmallPath(bodies);
      assert path[..|path| - 1] == SmallPath(bodies[..n]);
    }
  }

  // ---- the first spend is one that consensus applies ----

  ghost function SpentOnce(): (bodies: seq<seq<Transaction>>)
    ensures |bodies| == LENGTH - 1
  {
    Nothing(QUIET) + [[Spend(1)]]
  }

  lemma FirstSpendAccepted()
    ensures ValidPath(TheEnv(), SmallPath(Nothing(QUIET))) && ValidPath(TheEnv(), SmallPath(SpentOnce()))
  {
    hide Spend, TheEnv, SmallPath, ValidPath, TransactionOk, Replay, TransactionsLength, CheckBlock, SmallBlock;
    EmptyBlocksAccepted(QUIET);
    SpendOk(QUIET, 1, LENGTH - 1);
    BothShort();
    assert BothSpends()[..1] == [Spend(1)];
    SmallBlockChecks(Nothing(QUIET), [Spend(1)]);
    SmallPathGrows(Nothing(QUIET), [Spend(1)]);
  }

  lemma IsWalletPath(bodies: seq<seq<Transaction>>)
    requires |bodies| <= LENGTH && ValidPath(TheEnv(), SmallPath(bodies))
    requires forall k :: 0 <= k < |bodies| ==> KnownBody(bodies[k])
    ensures WalletPath(TheEnv(), SmallPath(bodies))
  {
    hide TheEnv, SmallPath, ValidPath, LedgerPath, NoCollisions, KnownBody;
    ShapeOfValidPath(TheEnv(), SmallPath(bodies));
    NoneCollide(bodies);
  }

  lemma BothAreWalletPaths()
    ensures WalletPath(TheEnv(), SmallPath(Nothing(QUIET))) && WalletPath(TheEnv(), SmallPath(SpentOnce()))
  {
    hide TheEnv, SmallPath, ValidPath, Spend, WalletPath;
    FirstSpendAccepted();
    IsWalletPath(Nothing(QUIET));
    IsWalletPath(SpentOnce());
  }

  /** The index of the shorter chain holds the output that is going to be consumed. */
  lemma OutputIndexed(wallet: set<string>)
    ensures Outpoint(Named(1), 0) in IndexOf(TheEnv(), wallet, SmallPath(Nothing(QUIET))).outputs
  {
    hide TheEnv, SmallPath, IndexOf, Replay, Ids, WalletPath, Named, Within, OwnMirrors, InputsSpent;
    BothAreWalletPaths();
    IndexAgrees(TheEnv(), wallet, SmallPath(Nothing(QUIET)));
    FirstRewardStays(QUIET);
  }

  lemma SpendIsSpent(fee: nat)
    requires 1 <= fee <= 2
    ensures Outpoint(Named(1), 0) in SpentBy([Spend(fee)])
  {
    hide Spend, InputSet;
    SharedInput(fee);
    assert [Spend(fee)][..0] == [];
  }

  /** After the first spend it is noted as spent. */
  lemma OutputSpent(wallet: set<string>)
    ensures
      var t := IndexOf(TheEnv(), wallet, SmallPath(SpentOnce()));
      Outpoint(Named(1), 0) in t.outputs && t.outputs[Outpoint(Named(1), 0)].spent.Some?
  {
    hide TheEnv, SmallPath, Within, Named, SmallBlock, Spend, Loose, Undoable, AddedAbove, WalletPath, IndexBlock;
    hide SpentBy, Ids, FreshBlock, BroughtBy, FreshBlocks, IndexOf;
    var env, before, b := TheEnv(), SmallPath(Nothing(QUIET)), SmallBlock(LENGTH - 1, [Spend(1)]);
    var t := IndexOf(env, wallet, before);
    BothAreWalletPaths();
    SmallPathStep(Nothing(QUIET), [Spend(1)]);
    NextIndex(wallet, before, b);
    AppliedIsIndexable(env, before);
    WithinOfIndex(env, wallet, before);
    BroughtIsFiled(env, before + [b]);
    assert (before + [b])[..|before|] == before;
    BlockFields(LENGTH - 1, [Spend(1)]);
    NoProgress(t, LENGTH - 2, SpentBy(b.transactions));
    assert t.transactions.Keys + {} == t.transactions.Keys;
    BlockProgress(env, wallet, t, t, b, LENGTH - 2, {}, {}, SpentBy(b.transactions));
    OutputIndexed(wallet);
    SpendIsSpent(1);
  }

  lemma NextIndex(wallet: set<string>, path: seq<Block>, b: Block)
    ensures IndexOf(TheEnv(), wallet, path + [b]) == IndexBlock(TheEnv(), wallet, IndexOf(TheEnv(), wallet, path), b)
  {
    hide TheEnv, IndexBlock;
    assert (path + [b])[..|path|] == path;
  }

  // ---- the second spend is not rolled back ----

  lemma ChainSplits()
    ensures Chain() == SmallPath(SpentOnce()) + [SmallBlock(LENGTH, [Spend(2)])]
  {
    hide TheEnv, SmallPath, SmallBlock, Spend;
    assert Bodies() == SpentOnce() + [[Spend(2)]];
    SmallPathStep(SpentOnce(), [Spend(2)]);
  }

  lemma SingleIds(env: Env, tx: Transaction)
    ensures IdsOf(env, [tx]) == {TransactionId(env, tx)} && DistinctIds(env, [tx])
  {
    hide TransactionId;
    assert [tx][..0] == [];
  }

  lemma FreshOf(env: Env, ids: set<string>, b: Block, coinbaseId: string, id: string)
    requires HasMining(b) && CoinbaseId(env, b.header.height, b.coinbase.value) == coinbaseId
    requires IdsOf(env, b.transactions) == {id} && DistinctIds(env, b.transactions)
    requires coinbaseId !in ids && id !in ids && coinbaseId != id
    ensures FreshBlock(env, ids, b)
  {
    hide CoinbaseId, IdsOf, DistinctIds;
  }

  lemma SecondIsFresh()
    ensures FreshBlock(TheEnv(), Ids(TheEnv(), SmallPath(SpentOnce())), SmallBlock(LENGTH, [Spend(2)]))
  {
    hide TheEnv, SmallPath, SmallBlock, Spend, Named, TransactionId, Ids, Hex, CoinbaseId, IdsOf, DistinctIds, Payee;
    hide FreshBlock, CoinbaseFor;
    NotYetNamed(SpentOnce());
    BlockFields(LENGTH, [Spend(2)]);
    CoinbaseFields();
    SameCoinbase();
    Identifiers(LENGTH);
    NamesDiffer();
    SingleIds(TheEnv(), Spend(2));
    FreshOf(TheEnv(), Ids(TheEnv(), SmallPath(SpentOnce())), SmallBlock(LENGTH, [Spend(2)]), Named(LENGTH), Named(10));
  }

  lemma ChainIndexable()
    ensures IndexablePath(TheEnv(), Chain())
  {
    hide TheEnv, SmallPath, SmallBlock, Spend, FreshBlock, Ids, WalletPath, BroughtBy, Chain;
    var low, b := SmallPath(SpentOnce()), SmallBlock(LENGTH, [Spend(2)]);
    ChainSplits();
    BothAreWalletPaths();
    AppliedIsIndexable(TheEnv(), low);
    SecondIsFresh();
    assert (low + [b])[..|low|] == low;
    assert {} + BroughtBy(TheEnv(), low) == Ids(TheEnv(), low);
    forall i | 0 <= i < |Chain()| ensures Chain()[i].header.height == i {
      HashAt(i);
    }
  }

  /**
   * A chain with distinct identifiers that appendBlocks takes from an empty store, and that rolling back its last
   * block does not restore: the note of the first spend is lost.
   */
  lemma RollbackLosesSpend(wallet: set<string>) returns (env: Env, path: seq<Block>)
    ensures ContinuesAll(env, [], path) && IndexablePath(env, path) && |path| > 1
    ensures Truncated(IndexOf(env, wallet, path), |path| - 2) != IndexOf(env, wallet, path[..|path| - 1])
  {
    hide TheEnv, SmallPath, SmallBlock, Spend, Truncated, IndexOf, Chain, ContinuesAll, IndexablePath, Named, SpentBy;
    env, path := TheEnv(), Chain();
    var low, b := SmallPath(SpentOnce()), SmallBlock(LENGTH, [Spend(2)]);
    ChainAccepted();
    ChainIndexable();
    ChainSplits();
    RollbackUndoesAppend(env, wallet, path, LENGTH - 1);
    assert UpTo(path, LENGTH - 1) == low && path[..|path| - 1] == low;
    assert Above(path, LENGTH - 1) == [b];
    OutputSpent(wallet);
    BlockFields(LENGTH, [Spend(2)]);
    SpendIsSpent(2);
    SpentInOne(b);
  }

  lemma SpentInOne(b: Block)
    ensures SpentIn([b]) == SpentBy(b.transactions)
  {
    hide SpentBy;
    assert [b][..0] == [];
  }
}
