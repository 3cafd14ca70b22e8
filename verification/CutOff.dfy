/**
 * Two nodes whose chains part right after genesis, at heights 127 and 200: the question of the shorter one never
 * reaches genesis, so it downloads nothing from the longer one, although that is honest and has more work.
 */
module CutOff {
  import opened Prelude
  import opened Types
  import opened Difficulty
  import opened Paths
  import opened Chain
  import opened Order
  import opened Mining
  import opened PendingJobs
  import opened Locate
  import opened Sync
  import opened SmallChain
  import opened LongChain

  // ---- the tree of a branch ----

  /** The offers of a chain's blocks, each at its own time. */
  ghost function Offers(path: seq<Block>): (feed: seq<Offer>)
    ensures |feed| == if |path| == 0 then 0 else |path| - 1
  {
    if |path| <= 1 then []
    else Offers(path[..|path| - 1]) + [Offer(Last(path).header.timestampSeconds * 1000, Last(path))]
  }

  /** What a node has stored that was offered the chain. */
  ghost predicate HasChain(c: ChainState, path: seq<Block>)
    requires Inv(TheEnv(), c)
  {
    && BestPath(TheEnv(), c) == path
    && forall h :: h in c.entries <==> exists k :: 0 <= k < |path| && path[k].hash == h
  }

  lemma BranchInit(branch: nat, path: seq<Block>)
    requires 1 <= branch < 256 && OnBranch(branch, path) && |path| > 1
    ensures OnBranch(branch, path[..|path| - 1])
  {
    hide BranchName, TheEnv;
    var init := path[..|path| - 1];
    forall i | 1 <= i < |init| ensures BranchBlock(branch, init, i) {
      assert BranchBlock(branch, path, i);
    }
  }

  /** The last block has a hash that none before it has, and names its parent. */
  lemma LastIsNew(branch: nat, path: seq<Block>)
    requires 1 <= branch < 256 && OnBranch(branch, path) && |path| > 1
    ensures forall k :: 0 <= k < |path| - 1 ==> path[k].hash != Last(path).hash
    ensures Last(path).header.previousHash == path[|path| - 2].hash
  {
    hide BranchName, TheEnv, OnBranch;
    BranchSize(branch, path);
    var n := |path| - 1;
    TimeAt(branch, path, n);
    LastNamesParent(branch, path);
    NotGenesis(branch, n);
    forall k | 0 <= k < n ensures path[k].hash != path[n].hash {
      TimeAt(branch, path, k);
      NamesApart(branch, k, branch, n);
    }
  }

  lemma LastNamesParent(branch: nat, path: seq<Block>)
    requires 1 <= branch < 256 && OnBranch(branch, path) && |path| > 1
    ensures Last(path).header.previousHash == path[|path| - 2].hash
  {
    hide BranchName, TheEnv;
    assert BranchBlock(branch, path, |path| - 1);
  }

  lemma NewHash(c: ChainState, init: seq<Block>, hash: string)
    requires Inv(TheEnv(), c) && HasChain(c, init)
    requires forall k :: 0 <= k < |init| ==> init[k].hash != hash
    ensures hash !in c.entries
  {
    hide Inv, TheEnv, BestPath;
  }

  lemma TipOfChain(c: ChainState, init: seq<Block>)
    requires Inv(TheEnv(), c) && HasChain(c, init) && |init| > 0
    ensures Linked(TheEnv(), c.entries) && c.bestHash in c.entries && c.bestHash == init[|init| - 1].hash
    ensures PathOf(TheEnv(), c.entries, c.bestHash) == init
  {
    hide Inv, TheEnv, BestPath, ValidPath, HasChain, PathOf;
    BestOf(c, init);
    TipFacts(TheEnv(), c);
    BestIsPathOf(c);
  }

  lemma LastIsChecked(path: seq<Block>)
    requires ValidPath(TheEnv(), path) && |path| > 1
    ensures CheckBlock(TheEnv(), path[..|path| - 1], Last(path))
  {
    hide CheckBlock, TheEnv;
  }

  lemma OnTime(b: Block)
    ensures NotTooEarly(b.header.timestampSeconds * 1000, b)
  {
  }

  lemma AcceptsNext(c: ChainState, path: seq<Block>)
    requires Inv(TheEnv(), c) && |path| > 1 && ValidPath(TheEnv(), path) && HasChain(c, path[..|path| - 1])
    requires forall k :: 0 <= k < |path| - 1 ==> path[k].hash != Last(path).hash
    requires Last(path).header.previousHash == path[|path| - 2].hash
    ensures Linked(TheEnv(), c.entries)
    ensures Accepts(TheEnv(), Last(path).header.timestampSeconds * 1000, c, Last(path))
    ensures Last(path).header.previousHash == c.bestHash
  {
    hide Inv, CheckBlock, TheEnv, PathOf, HasChain, ValidPath, NotTooEarly, Last, Linked;
    var init := path[..|path| - 1];
    TipOfChain(c, init);
    NewHash(c, init, Last(path).hash);
    LastIsChecked(path);
    OnTime(Last(path));
  }

  lemma BestIsPathOf(c: ChainState)
    requires Inv(TheEnv(), c)
    ensures Linked(TheEnv(), c.entries) && c.bestHash in c.entries
    ensures BestPath(TheEnv(), c) == PathOf(TheEnv(), c.entries, c.bestHash)
  {
    hide PathOf, TheEnv, EntryOk;
  }

  lemma HasOneMore(c: ChainState, d: ChainState, path: seq<Block>)
    requires Inv(TheEnv(), c) && Inv(TheEnv(), d) && |path| > 1 && HasChain(c, path[..|path| - 1])
    requires BestPath(TheEnv(), d) == path && d.entries.Keys == c.entries.Keys + {Last(path).hash}
    ensures HasChain(d, path)
  {
    hide Inv, BestPath, TheEnv;
    var init := path[..|path| - 1];
    forall h ensures h in d.entries <==> exists k :: 0 <= k < |path| && path[k].hash == h {
      if h in c.entries {
        var k :| 0 <= k < |init| && init[k].hash == h;
        assert path[k].hash == h;
      }
      if h == Last(path).hash {
        assert path[|path| - 1].hash == h;
      }
      if k :| 0 <= k < |path| && path[k].hash == h {
        assert k < |init| ==> init[k].hash == h;
      }
    }
  }

  lemma GrownKeys(c: ChainState, b: Block, nowMs: int)
    requires Inv(TheEnv(), c) && Accepts(TheEnv(), nowMs, c, b)
    ensures Add(TheEnv(), nowMs, c, b).chain.entries.Keys == c.entries.Keys + {b.hash}
  {
    hide Inv, Accepts, Add, EntryFor, TheEnv;
    TipAfter(TheEnv(), c, b, nowMs);
  }

  /** A node that is offered a branch block by block has exactly that branch. */
  lemma {:induction false} Followed(branch: nat, path: seq<Block>)
    requires 1 <= branch < 256 && OnBranch(branch, path) && ValidPath(TheEnv(), path)
    ensures HasChain(Run(TheEnv(), Offers(path)), path)
  {
    hide CheckBlock, TheEnv, OnBranch, Inv, Add, HasChain, Accepts, BestPath;
    if |path| == 1 {
      OnlyGenesis(path);
    } else {
      var init, b := path[..|path| - 1], Last(path);
      var nowMs, c := b.header.timestampSeconds * 1000, Run(TheEnv(), Offers(init));
      BranchInit(branch, path);
      Followed(branch, init);
      LastIsNew(branch, path);
      AcceptsNext(c, path);
      ExtendedPath(TheEnv(), c, b, nowMs);
      GrownKeys(c, b, nowMs);
      OffersStep(path);
      BestOf(c, init);
      assert path == init + [b];
      HasOneMore(c, Run(TheEnv(), Offers(path)), path);
    }
  }

  lemma BestOf(c: ChainState, path: seq<Block>)
    requires Inv(TheEnv(), c) && HasChain(c, path)
    ensures BestPath(TheEnv(), c) == path
  {
    hide Inv, TheEnv, BestPath;
  }

  lemma OnlyGenesis(path: seq<Block>)
    requires ValidPath(TheEnv(), path) && |path| == 1
    ensures HasChain(Run(TheEnv(), Offers(path)), path)
  {
    hide CheckBlock, TheEnv, Inv;
    GenesisInv(TheEnv());
    GenesisStays(TheEnv(), Genesis(TheEnv()));
    assert Run(TheEnv(), []) == Genesis(TheEnv());
    forall h ensures h in Genesis(TheEnv()).entries <==> exists k :: 0 <= k < |path| && path[k].hash == h {
      if h in Genesis(TheEnv()).entries {
        assert path[0].hash == h;
      }
    }
  }

  lemma OffersStep(path: seq<Block>)
    requires |path| > 1
    ensures
      var init, b := path[..|path| - 1], Last(path);
      var nowMs := b.header.timestampSeconds * 1000;
      Run(TheEnv(), Offers(path)) == Add(TheEnv(), nowMs, Run(TheEnv(), Offers(init)), b).chain
  {
    hide TheEnv, Add, Inv;
    var feed := Offers(path);
    assert feed[..|feed| - 1] == Offers(path[..|path| - 1]);
  }

  // ---- work ----

  lemma {:induction false} WorkOfEarly(path: seq<Block>)
    requires ValidPath(TheEnv(), path) && |path| <= LWMA_WINDOW
    ensures Work(path) == |path| * WorkOf(INITIAL_DIFFICULTY)
  {
    hide CheckBlock, TheEnv, WorkOf, ValidPath;
    EarlyDifficulty(path);
    if |path| > 1 {
      PrefixOfValidPath(TheEnv(), path, |path| - 1);
      WorkOfEarly(path[..|path| - 1]);
      OneMoreTime(|path|, WorkOf(INITIAL_DIFFICULTY));
    } else {
      assert path[..0] == [];
    }
  }

  lemma EarlyDifficulty(path: seq<Block>)
    requires ValidPath(TheEnv(), path) && |path| <= LWMA_WINDOW
    ensures |path| > 0 && Last(path).header.difficulty == INITIAL_DIFFICULTY
  {
    hide ValidPath, TheEnv;
    PathIsShort(TheEnv(), path);
    InitialDifficulty(TheEnv(), path, |path| - 1);
  }

  lemma OneMoreTime(n: nat, w: nat)
    requires n > 0
    ensures n * w == (n - 1) * w + w
  {
  }

  lemma MoreBlocksMoreWork(m: nat, n: nat)
    requires m < n
    ensures m * WorkOf(INITIAL_DIFFICULTY) < n * WorkOf(INITIAL_DIFFICULTY)
  {
    WorkFalls(INITIAL_DIFFICULTY, INITIAL_DIFFICULTY);
  }

  // ---- the two nodes ----

  /** The position of the first asked hash that is stored, or -1. */
  ghost function FirstKnown(entries: Tree, asked: seq<string>): (index: int)
    ensures IsFirstKnown(entries, asked, index)
  {
    if |asked| == 0 then -1
    else
      var before := FirstKnown(entries, asked[..|asked| - 1]);
      if before >= 0 then before else if asked[|asked| - 1] in entries then |asked| - 1 else -1
  }

  ghost function AnswersOf(entries: Tree): Answers {
    hashes => Some(FirstKnown(entries, Asked(hashes)))
  }

  lemma AnswersAreHonest(entries: Tree)
    ensures AnswersFrom(AnswersOf(entries), entries)
  {
    hide IsFirstKnown, FirstKnown, Asked;
    forall hashes
      ensures AnswersOf(entries)(hashes).Some?
      ensures IsFirstKnown(entries, Asked(hashes), AnswersOf(entries)(hashes).value)
    {
      KnownIsFirst(entries, Asked(hashes));
    }
  }

  lemma KnownIsFirst(entries: Tree, asked: seq<string>)
    ensures IsFirstKnown(entries, asked, FirstKnown(entries, asked))
  {
    hide IsFirstKnown;
  }

  ghost function PagesOf(path: seq<Block>): nat -> Option<seq<Option<Block>>> {
    (start: nat) => Some(Wrapped(Page(path, start, BLOCKS_PAGE_SIZE)))
  }

  ghost function HonestPeer(p: ChainState): Peer
    requires Inv(TheEnv(), p)
  {
    var path := BestPath(TheEnv(), p);
    BestNonEmpty(TheEnv(), p);
    TipStored(TheEnv(), p);
    Peer(Some(Tip(|path| - 1, p.bestHash, p.entries[p.bestHash].totalWork)), AnswersOf(p.entries), PagesOf(path))
  }

  lemma PeerIsHonest(p: ChainState)
    requires Inv(TheEnv(), p)
    ensures Honest(TheEnv(), HonestPeer(p), p)
  {
    hide Inv, TheEnv, BestPath, AnswersFrom, AnswersOf, Page, Wrapped;
    BestNonEmpty(TheEnv(), p);
    TipStored(TheEnv(), p);
    AnswersAreHonest(p.entries);
  }

  /** Two branches share genesis and nothing else. */
  lemma BranchesShareGenesis(a: nat, p: seq<Block>, b: nat, q: seq<Block>, j: nat, k: nat)
    requires 1 <= a < 256 && 1 <= b < 256 && a != b && OnBranch(a, p) && OnBranch(b, q) && j < |p| && k < |q|
    requires p[j].hash == q[k].hash
    ensures j == 0 && k == 0
  {
    hide OnBranch, BranchName, TheEnv;
    BranchSize(a, p);
    BranchSize(b, q);
    TimeAt(a, p, j);
    TimeAt(b, q, k);
    NamesApart(a, j, b, k);
    NotGenesis(a, j);
    NotGenesis(b, k);
  }

  lemma StoredOnPath(c: ChainState, path: seq<Block>, h: string) returns (k: nat)
    requires Inv(TheEnv(), c) && HasChain(c, path) && h in c.entries
    ensures k < |path| && path[k].hash == h && c.entries[h].block == path[k]
  {
    hide Inv, TheEnv, BestPath;
    k :| 0 <= k < |path| && path[k].hash == h;
    MemberIs(c, k);
  }

  lemma MemberIs(c: ChainState, k: nat)
    requires Inv(TheEnv(), c) && k < |BestPath(TheEnv(), c)|
    ensures
      var b := BestPath(TheEnv(), c)[k];
      b.hash in c.entries && c.entries[b.hash].block == b
  {
    hide EntryOk, PathOf, TheEnv, Linked;
    PathMembers(TheEnv(), c.entries, c.bestHash, k);
  }

  lemma TreesAgree(a: nat, p: seq<Block>, c: ChainState, b: nat, q: seq<Block>, d: ChainState)
    requires 1 <= a < 256 && 1 <= b < 256 && a != b && OnBranch(a, p) && OnBranch(b, q)
    requires Inv(TheEnv(), c) && Inv(TheEnv(), d) && HasChain(c, p) && HasChain(d, q)
    ensures SameHashSameBlock(c.entries, d.entries)
    ensures forall k :: 1 <= k < |p| ==> p[k].hash !in d.entries
  {
    hide Inv, TheEnv, BestPath, HasChain, OnBranch;
    forall h | h in c.entries && h in d.entries ensures c.entries[h].block == d.entries[h].block {
      var j := StoredOnPath(c, p, h);
      var k := StoredOnPath(d, q, h);
      BranchesShareGenesis(a, p, b, q, j, k);
      SameGenesis(a, p, b, q);
    }
    forall k | 1 <= k < |p| ensures p[k].hash !in d.entries {
      if p[k].hash in d.entries {
        var i := StoredOnPath(d, q, p[k].hash);
        BranchesShareGenesis(a, p, b, q, k, i);
      }
    }
  }

  lemma SameGenesis(a: nat, p: seq<Block>, b: nat, q: seq<Block>)
    requires 1 <= a < 256 && 1 <= b < 256 && OnBranch(a, p) && OnBranch(b, q)
    ensures |p| > 0 && |q| > 0 && p[0] == q[0]
  {
    hide TheEnv, BranchName;
  }

  /** What a tip has accumulated is the work of its chain. */
  lemma TipWork(c: ChainState, path: seq<Block>)
    requires Inv(TheEnv(), c) && HasChain(c, path)
    ensures c.bestHash in c.entries && c.entries[c.bestHash].totalWork == Work(path)
  {
    hide TheEnv, PathOf, Work, ValidPath;
    assert EntryOk(TheEnv(), c.entries, c.bestHash);
  }

  lemma LongerIsAhead(c: ChainState, p: seq<Block>, d: ChainState, q: seq<Block>)
    requires Inv(TheEnv(), c) && Inv(TheEnv(), d) && HasChain(c, p) && HasChain(d, q)
    requires ValidPath(TheEnv(), p) && ValidPath(TheEnv(), q) && |p| < |q| <= LWMA_WINDOW && p[0] == q[0]
    requires SameHashSameBlock(c.entries, d.entries)
    requires forall k :: 1 <= k < |p| ==> p[k].hash !in d.entries
    ensures Ahead(TheEnv(), c, d)
  {
    hide Inv, TheEnv, BestPath, HasChain, ValidPath, Work, SameHashSameBlock, WorkOf;
    BestOf(c, p);
    BestOf(d, q);
    TipWork(c, p);
    TipWork(d, q);
    WorkOfEarly(p);
    WorkOfEarly(q);
    MoreBlocksMoreWork(|p|, |q|);
  }

  /**
   * There are two such nodes: the shorter one stands at height 127 and the longer one, honest, unchanging and of more
   * work, at height 200, and one pass of the shorter against the longer downloads nothing.
   */
  lemma CutOffForGood() returns (env: Env, c: ChainState, p: ChainState, peer: Peer)
    ensures Inv(env, c) && Inv(env, p) && |BestPath(env, c)| == 128 && Ahead(env, c, p) && Honest(env, peer, p)
    ensures !Knows(p.entries, BestPath(env, c), 1) && ForkAnchor(BestPath(env, c), peer.locate) == None
    ensures SyncHaul(env, c, peer) == Haul([], 0)
  {
    hide Inv, TheEnv, BestPath, HasChain, ValidPath, OnBranch, SameHashSameBlock, ForkAnchor, AnswersFrom, Ahead;
    hide Honest, StartHeight, Linked, Run, HonestPeer;
    env := TheEnv();
    var a := ChainExists(1, 127);
    var b := ChainExists(2, 200);
    Followed(1, a);
    Followed(2, b);
    c, p := Run(env, Offers(a)), Run(env, Offers(b));
    BestOf(c, a);
    TreesAgree(1, a, c, 2, b, p);
    SameGenesis(1, a, 2, b);
    LongerIsAhead(c, a, p, b);
    peer := HonestPeer(p);
    PeerIsHonest(p);
    HonestAnswers(p, peer);
    TipStored(env, p);
    GenesisIsCutOff(env, c, p.entries, peer.locate);
    StartsAtAnchor(env, c, p, peer);
  }

  lemma HonestAnswers(p: ChainState, peer: Peer)
    requires Inv(TheEnv(), p) && Honest(TheEnv(), peer, p)
    ensures AnswersFrom(peer.locate, p.entries)
  {
    hide Inv, TheEnv, AnswersFrom, BestPath;
    TipStored(TheEnv(), p);
  }
}
