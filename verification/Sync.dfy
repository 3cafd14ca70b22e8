/**
 * Block synchronization with one peer: apps/node/src/p2p.ts (serveBlocks, serveLocate, locateForkAnchor,
 * syncWithSocket).
 */
module Sync {
  import opened Prelude
  import opened Text
  import opened Types
  import opened State
  import opened History
  import opened Paths
  import opened Growth
  import opened Chain
  import opened Order
  import opened Mining
  import opened Service
  import opened Locate

  const BLOCKS_PAGE_SIZE := 200
  const MAX_BLOCKS_PER_SYNC_RUN := 3_000

  /** A `tip` frame; work 0 stands for a peer that does not tell its work. */
  datatype Tip = Tip(height: nat, bestHash: string, totalWork: nat)

  /**
   * A peer as this node sees it during one pass: its answers to the three requests, which may be anything.
   * None is a frame that is no answer, or an item that is no block.
   */
  datatype Peer = Peer(tip: Option<Tip>, locate: Answers, blocks: nat -> Option<seq<Option<Block>>>)

  // ---- serving ----

  function Page(path: seq<Block>, start: nat, limit: nat): seq<Block> {
    if start >= |path| then [] else if start + limit <= |path| then path[start..start + limit] else path[start..]
  }

  function Clamped(limit: int): nat {
    if limit == 0 || limit > BLOCKS_PAGE_SIZE then BLOCKS_PAGE_SIZE else if limit < 1 then 1 else limit
  }

  function Wrapped<T>(items: seq<T>): (r: seq<Option<T>>)
    ensures |r| == |items|
  {
    seq(|items|, k requires 0 <= k < |items| => Some(items[k]))
  }

  /** A peer that answers from the tree `p` and does not change meanwhile. */
  ghost predicate Honest(env: Env, peer: Peer, p: ChainState)
    requires Inv(env, p)
  {
    var path := BestPath(env, p);
    && peer.tip == Some(Tip(|path| - 1, p.bestHash, p.entries[p.bestHash].totalWork))
    && AnswersFrom(peer.locate, p.entries)
    && forall start: nat :: peer.blocks(start) == Some(Wrapped(Page(path, start, BLOCKS_PAGE_SIZE)))
  }

  // ---- downloading ----

  /** How many leading items are blocks of the heights `at`, `at` + 1, .... */
  function InOrder(items: seq<Option<Block>>, at: nat): (n: nat)
    ensures n <= |items|
    ensures forall k :: 0 <= k < n ==> items[k].Some? && items[k].value.header.height == at + k
    ensures n < |items| ==> items[n].None? || items[n].value.header.height != at + n
  {
    InOrderFrom(items, at, 0)
  }

  function InOrderFrom(items: seq<Option<Block>>, at: nat, from: nat): (n: nat)
    requires from <= |items|
    ensures from <= n <= |items|
    ensures forall k :: from <= k < n ==> items[k].Some? && items[k].value.header.height == at + k
    ensures n < |items| ==> items[n].None? || items[n].value.header.height != at + n
    decreases |items| - from
  {
    if from == |items| || items[from].None? || items[from].value.header.height != at + from then from
    else InOrderFrom(items, at, from + 1)
  }

  function Values(items: seq<Option<Block>>): (r: seq<Block>)
    requires forall k :: 0 <= k < |items| ==> items[k].Some?
    ensures |r| == |items|
  {
    seq(|items|, k requires 0 <= k < |items| => items[k].value)
  }

  datatype Haul = Haul(blocks: seq<Block>, fetched: nat)

  /** The blocks that the download loop hands to consensus from height `at` on, and the items it received. */
  function Download(peer: Peer, top: nat, at: nat, fetched: nat): Haul
    decreases top + 1 - at
  {
    if at > top || fetched >= MAX_BLOCKS_PER_SYNC_RUN then Haul([], fetched)
    else
      match peer.blocks(at)
      case None => Haul([], fetched)
      case Some(items) =>
        if |items| == 0 then Haul([], fetched)
        else
          var n := InOrder(items, at);
          if n == 0 then Haul([], fetched + |items|)
          else
            var rest := Download(peer, top, at + n, fetched + |items|);
            Haul(Values(items[..n]) + rest.blocks, rest.fetched)
  }

  /** Where the download starts; None when nothing is downloaded. */
  ghost function StartHeight(env: Env, c: ChainState, peer: Peer): Option<nat>
    requires Inv(env, c)
  {
    var path := BestPath(env, c);
    if peer.tip.None? || peer.tip.value.height <= |path| - 1 then None
    else if peer.tip.value.totalWork != 0 && peer.tip.value.totalWork <= c.entries[c.bestHash].totalWork then None
    else if peer.tip.value.bestHash in c.entries then Some(|path|)
    else ForkAnchor(path, peer.locate)
  }

  ghost function SyncHaul(env: Env, c: ChainState, peer: Peer): Haul
    requires Inv(env, c)
  {
    var start := StartHeight(env, c, peer);
    if start.None? then Haul([], 0) else Download(peer, peer.tip.value.height, start.value, 0)
  }

  // ---- consensus on what was downloaded ----

  datatype Fed = Fed(node: Node, refused: nat)

  /** Consensus refuses the block, or its body is malformed. */
  ghost predicate Refused(env: Env, c: ChainState, b: Block, nowMs: int)
    requires Inv(env, c)
  {
    Add(env, nowMs, c, b).verdict.None? || !Shaped(env, b.transactions)
  }

  lemma OfferKeepsInv(env: Env, n: Node, b: Block, nowMs: int)
    requires Inv(env, n.chain)
    ensures Inv(env, AfterBlockOffer(env, n, b, nowMs).chain)
  {
    hide Inv, Add, Shaped, TransactionIds;
    AddKeepsInv(env, nowMs, n.chain, b);
  }

  /** The node after it was offered the blocks in order, and how many it refused. */
  ghost function Feed(env: Env, n: Node, feed: seq<Offer>): (f: Fed)
    requires Inv(env, n.chain)
    ensures Inv(env, f.node.chain)
  {
    if |feed| == 0 then Fed(n, 0)
    else
      var before, o := Feed(env, n, feed[..|feed| - 1]), feed[|feed| - 1];
      OfferKeepsInv(env, before.node, o.block, o.nowMs);
      Fed(AfterBlockOffer(env, before.node, o.block, o.nowMs),
          before.refused + if Refused(env, before.node.chain, o.block, o.nowMs) then 1 else 0)
  }

  /** Whatever a peer sends, entries are only added and the best work never falls. */
  lemma {:induction false} FeedOnlyGrows(env: Env, n: Node, feed: seq<Offer>)
    requires Inv(env, n.chain)
    ensures
      var c, d := n.chain, Feed(env, n, feed).node.chain;
      && (forall h :: h in c.entries ==> h in d.entries && d.entries[h] == c.entries[h])
      && c.entries[c.bestHash].totalWork <= d.entries[d.bestHash].totalWork
  {
    hide EntryOk, Linked, Accepts, EntryFor;
    if |feed| > 0 {
      var m := |feed| - 1;
      FeedOnlyGrows(env, n, feed[..m]);
      AddKeepsInv(env, feed[m].nowMs, Feed(env, n, feed[..m]).node.chain, feed[m].block);
    }
  }

  // ---- catching up ----

  /** The peer is ahead of us, agrees with us on hashes, and has our blocks only where its own best chain has them. */
  ghost predicate Ahead(env: Env, c: ChainState, p: ChainState)
    requires Inv(env, c) && Inv(env, p)
  {
    && |BestPath(env, p)| > |BestPath(env, c)|
    && p.entries[p.bestHash].totalWork > c.entries[c.bestHash].totalWork
    && SameHashSameBlock(c.entries, p.entries)
    && forall k :: 0 <= k < |BestPath(env, c)| && Knows(p.entries, BestPath(env, c), k) ==>
      k < |BestPath(env, p)| && BestPath(env, p)[k].hash == BestPath(env, c)[k].hash
  }

  /** Every block of the path is stored, behind its part of the path. */
  ghost predicate HoldsPath(env: Env, c: ChainState, path: seq<Block>, n: nat)
    requires Inv(env, c) && n <= |path|
  {
    forall k :: 0 <= k < n ==> HoldsAt(env, c, path, k)
  }

  ghost predicate HoldsAt(env: Env, c: ChainState, path: seq<Block>, k: nat)
    requires Inv(env, c) && k < |path|
  {
    path[k].hash in c.entries && PathOf(env, c.entries, path[k].hash) == path[..k + 1]
  }

  /** A tree that agrees with an honest peer's never holds its tip before the work says so. */
  lemma SameAncestorIsDead(env: Env, c: ChainState, p: ChainState)
    requires Inv(env, c) && Inv(env, p) && Ahead(env, c, p)
    ensures p.bestHash !in c.entries
  {
    hide PathOf, EntryOk, Linked;
    if p.bestHash in c.entries {
      SharedPath(env, c.entries, p.entries, p.bestHash);
      SamePathSameEntry(env, c, p, p.bestHash);
    }
  }

  lemma HonestPage(path: seq<Block>, at: nat)
    requires forall k :: 0 <= k < |path| ==> path[k].header.height == k
    ensures
      var page := Page(path, at, BLOCKS_PAGE_SIZE);
      && InOrder(Wrapped(page), at) == |page|
      && Values(Wrapped(page)) == page
  {
    var page := Page(path, at, BLOCKS_PAGE_SIZE);
    forall k | 0 <= k < |page| ensures page[k].header.height == at + k {
      assert page[k] == path[at + k];
    }
  }

  /** Where a download from height `at` on stops that has received `fetched` items before. */
  function Upto(length: nat, at: nat, fetched: nat): (e: nat)
    requires at <= length
    ensures at <= e <= length
  {
    if fetched >= 3_000 then at else if length - at <= 3_000 - fetched then length else at + 3_000 - fetched
  }

  lemma PageFollows(path: seq<Block>, at: nat, e: nat)
    requires at < |path|
    ensures
      var page := Page(path, at, BLOCKS_PAGE_SIZE);
      && Wrapped(page)[..|page|] == Wrapped(page)
      && (at + |page| <= e <= |path| ==> path[at..e] == page + path[at + |page|..e])
  {
    hide Wrapped;
  }

  /** From a peer that serves a path the loop gets that path from `at` on, in order, up to 3,000 blocks. */
  lemma {:induction false} DownloadIsPrefix(peer: Peer, path: seq<Block>, at: nat, fetched: nat)
    requires |path| > 0 && at <= |path| && forall k :: 0 <= k < |path| ==> path[k].header.height == k
    requires forall start: nat :: peer.blocks(start) == Some(Wrapped(Page(path, start, BLOCKS_PAGE_SIZE)))
    requires at < |path| ==> fetched % BLOCKS_PAGE_SIZE == 0
    ensures Download(peer, |path| - 1, at, fetched).blocks == path[at..Upto(|path|, at, fetched)]
    decreases |path| - at
  {
    hide InOrder, Wrapped, Values;
    if at < |path| && fetched < MAX_BLOCKS_PER_SYNC_RUN {
      var page := Page(path, at, BLOCKS_PAGE_SIZE);
      HonestPage(path, at);
      DownloadIsPrefix(peer, path, at + |page|, fetched + |page|);
      var e := Upto(|path|, at + |page|, fetched + |page|);
      PageFollows(path, at, e);
      assert e == Upto(|path|, at, fetched);
    }
  }

  lemma HonestHeights(env: Env, p: ChainState)
    requires Inv(env, p)
    ensures |BestPath(env, p)| > 0
    ensures forall k :: 0 <= k < |BestPath(env, p)| ==> BestPath(env, p)[k].header.height == k
  {
    hide ValidPath, EntryOk, Linked;
    BestIsValid(env, p);
    ShapeOfValidPath(env, BestPath(env, p));
  }

  /** What we share with the peer up to the anchor, we hold as the peer does. */
  lemma HoldsUpToAnchor(env: Env, c: ChainState, p: ChainState, a: nat)
    requires Inv(env, c) && Inv(env, p) && Ahead(env, c, p)
    requires a < |BestPath(env, c)| && Knows(p.entries, BestPath(env, c), a)
    ensures a < |BestPath(env, p)| && HoldsPath(env, c, BestPath(env, p), a)
  {
    hide EntryOk, Linked, PathOf;
    var ours, theirs := BestPath(env, c), BestPath(env, p);
    var h := ours[a].hash;
    assert theirs[a].hash == h;
    PathMembers(env, c.entries, c.bestHash, a);
    PathMembers(env, p.entries, p.bestHash, a);
    SharedPath(env, c.entries, p.entries, h);
    forall k | 0 <= k < a ensures HoldsAt(env, c, theirs, k) {
      PathMembers(env, c.entries, h, k);
      assert theirs[..a + 1][..k + 1] == theirs[..k + 1];
    }
  }

  /** On chains that consensus accepts, the anchor is the greatest common height whenever there is one. */
  lemma AnchorIsExact(env: Env, c: ChainState, p: Tree, ask: Answers)
    requires Inv(env, c) && Linked(env, p) && SameHashSameBlock(c.entries, p) && AnswersFrom(ask, p)
    ensures |BestPath(env, c)| > 0 && Knows(p, BestPath(env, c), 0)
    ensures
      var path := BestPath(env, c);
      && (ForkAnchor(path, ask).Some? <==> HighestKnown(p, path) >= LowestAsked(|path| - 1))
      && (ForkAnchor(path, ask).Some? ==> ForkAnchor(path, ask).value == HighestKnown(p, path))
  {
    hide Inv, Linked, PathOf, ForkAnchor, AnswersFrom, BestPath, CeilDiv, LowestAsked, HighestKnown, ValidPath;
    BestIsValid(env, c);
    ChainsEndEarly(env, BestPath(env, c));
    ForkAnchorBound(env, c, p, ask);
  }

  lemma CheckedIsShaped(env: Env, path: seq<Block>, b: Block)
    requires |path| > 0 && CheckBlock(env, path, b)
    ensures Shaped(env, b.transactions)
  {
    hide LinkOk, PowOk, BlockOk, Shaped;
  }

  /** A block of the peer's best chain, seen from its tree. */
  lemma PeerBlock(env: Env, p: ChainState, n: nat)
    requires Inv(env, p) && 0 < n < |BestPath(env, p)|
    ensures
      var path := BestPath(env, p);
      var b := path[n];
      && b.hash in p.entries && p.entries[b.hash].block == b && Hex(b.hash, 64)
      && PathOf(env, p.entries, b.hash) == path[..n + 1]
      && b.header.previousHash == path[n - 1].hash && CheckBlock(env, path[..n], b) && Shaped(env, b.transactions)
  {
    hide EntryOk, Linked, PathOf, CheckBlock, GenesisBlock, Shaped;
    var path := BestPath(env, p);
    HonestHeights(env, p);
    PathMembers(env, p.entries, p.bestHash, n);
    GenesisStays(env, p);
    var b := path[n];
    assert |PathOf(env, p.entries, b.hash)| == n + 1;
    AcceptedPath(env, p, b.hash);
    var before := PathOf(env, p.entries, b.header.previousHash);
    assert before == path[..n] by {
      assert (before + [b])[..n] == before;
      assert path[..n + 1][..n] == path[..n];
    }
    FiledUnderHash(env, p.entries, b.header.previousHash);
    CheckedIsShaped(env, path[..n], b);
  }

  /** With the blocks below it in place, the next block of the peer's best chain gets in, or is in. */
  lemma TakesNext(env: Env, d: ChainState, p: ChainState, n: nat, nowMs: int)
    requires Inv(env, d) && Inv(env, p) && SameHashSameBlock(d.entries, p.entries)
    requires n < |BestPath(env, p)| && HoldsPath(env, d, BestPath(env, p), n)
    requires NotTooEarly(nowMs, BestPath(env, p)[n])
    ensures
      var step := Add(env, nowMs, d, BestPath(env, p)[n]);
      && step.verdict.Some? && Shaped(env, BestPath(env, p)[n].transactions) && Inv(env, step.chain)
      && SameHashSameBlock(step.chain.entries, p.entries)
      && HoldsPath(env, step.chain, BestPath(env, p), n + 1)
  {
    hide EntryOk, Linked, PathOf, CheckBlock, GenesisBlock, HoldsPath, NotTooEarly, Add, SameHashSameBlock, Shaped;
    var path := BestPath(env, p);
    AddKeepsInv(env, nowMs, d, path[n]);
    if n == 0 {
      TakesGenesis(env, d, p, nowMs);
    } else {
      PeerBlock(env, p, n);
      if path[n].hash in d.entries {
        SharedPath(env, d.entries, p.entries, path[n].hash);
        KnownStep(env, d, path[n], nowMs);
        HoldsMore(env, d, d, path, n);
      } else {
        TakesNew(env, d, p, n, nowMs);
      }
    }
  }

  lemma KnownStep(env: Env, d: ChainState, b: Block, nowMs: int)
    requires Inv(env, d) && Hex(b.hash, 64) && b.hash in d.entries
    ensures Add(env, nowMs, d, b) == Step(d, Some(Known))
  {
    hide Inv;
  }

  lemma TakesGenesis(env: Env, d: ChainState, p: ChainState, nowMs: int)
    requires Inv(env, d) && Inv(env, p)
    ensures |BestPath(env, p)| > 0
    ensures
      var b := BestPath(env, p)[0];
      && Add(env, nowMs, d, b) == Step(d, Some(Known)) && HoldsPath(env, d, BestPath(env, p), 1)
      && Shaped(env, b.transactions)
  {
    hide CheckBlock, Replay, Work, Add;
    BestIsValid(env, p);
    ShapeOfValidPath(env, BestPath(env, p));
    GenesisStays(env, d);
    KnownStep(env, d, GenesisBlock(env), nowMs);
    assert BestPath(env, p)[..1] == [GenesisBlock(env)];
  }

  /** Holding survives growth, and one more block makes one more. */
  lemma HoldsMore(env: Env, d: ChainState, e: ChainState, path: seq<Block>, n: nat)
    requires Inv(env, d) && Inv(env, e) && n < |path| && HoldsPath(env, d, path, n) && HoldsAt(env, e, path, n)
    requires forall h :: h in d.entries ==> h in e.entries && e.entries[h] == d.entries[h]
    ensures HoldsPath(env, e, path, n + 1)
  {
    hide EntryOk, PathOf;
    forall k | 0 <= k < n + 1 ensures HoldsAt(env, e, path, k) {
      if k < n {
        assert HoldsAt(env, d, path, k);
        PathFrame(env, d.entries, e.entries, path[k].hash);
      }
    }
  }

  lemma TakesNew(env: Env, d: ChainState, p: ChainState, n: nat, nowMs: int)
    requires Inv(env, d) && Inv(env, p) && SameHashSameBlock(d.entries, p.entries)
    requires 0 < n < |BestPath(env, p)| && HoldsPath(env, d, BestPath(env, p), n)
    requires NotTooEarly(nowMs, BestPath(env, p)[n]) && BestPath(env, p)[n].hash !in d.entries
    ensures
      var step := Add(env, nowMs, d, BestPath(env, p)[n]);
      && step.verdict.Some? && Shaped(env, BestPath(env, p)[n].transactions) && Inv(env, step.chain)
      && SameHashSameBlock(step.chain.entries, p.entries)
      && HoldsPath(env, step.chain, BestPath(env, p), n + 1)
  {
    hide Inv, PathOf, CheckBlock, HoldsPath, NotTooEarly, Add, Shaped;
    var path := BestPath(env, p);
    var b := path[n];
    PeerBlock(env, p, n);
    HeldAt(env, d, path, n, n - 1);
    VerdictOfAccepted(env, d, b, nowMs);
    StoredAfterAdd(env, nowMs, d, b);
    AddKeepsInv(env, nowMs, d, b);
    var e := Add(env, nowMs, d, b).chain;
    NewPath(env, d, e, b);
    HoldsMore(env, d, e, path, n);
  }

  lemma NewPath(env: Env, d: ChainState, e: ChainState, b: Block)
    requires Inv(env, d) && Inv(env, e) && b.header.previousHash in d.entries
    requires b.hash !in d.entries && b.hash in e.entries && e.entries[b.hash].block == b
    requires forall h :: h in d.entries ==> h in e.entries && e.entries[h] == d.entries[h]
    ensures PathOf(env, e.entries, b.hash) == PathOf(env, d.entries, b.header.previousHash) + [b]
  {
    hide EntryOk, PathOf, CheckBlock, GenesisBlock;
    AcceptedPath(env, e, b.hash);
    PathFrame(env, d.entries, e.entries, b.header.previousHash);
  }

  lemma HeldAt(env: Env, d: ChainState, path: seq<Block>, n: nat, k: nat)
    requires Inv(env, d) && k < n <= |path| && HoldsPath(env, d, path, n)
    ensures path[k].hash in d.entries && PathOf(env, d.entries, path[k].hash) == path[..k + 1]
  {
    hide Inv, PathOf;
    assert HoldsAt(env, d, path, k);
  }

  /** The offers are the peer's blocks from height `a` on, none of them too early. */
  ghost predicate FeedOf(env: Env, p: ChainState, a: nat, feed: seq<Offer>)
    requires Inv(env, p) && a + |feed| <= |BestPath(env, p)|
  {
    forall k :: 0 <= k < |feed| ==>
      feed[k].block == BestPath(env, p)[a + k] && NotTooEarly(feed[k].nowMs, feed[k].block)
  }

  lemma FeedOfInit(env: Env, p: ChainState, a: nat, feed: seq<Offer>)
    requires Inv(env, p) && a + |feed| <= |BestPath(env, p)| && FeedOf(env, p, a, feed) && |feed| > 0
    ensures
      var m := |feed| - 1;
      && FeedOf(env, p, a, feed[..m])
      && feed[m].block == BestPath(env, p)[a + m] && NotTooEarly(feed[m].nowMs, feed[m].block)
  {
    hide Inv, NotTooEarly, BestPath;
  }

  /** The offers that a pass makes of the peer's blocks from height `a` on. */
  lemma {:induction false} FeedHolds(env: Env, n: Node, p: ChainState, a: nat, feed: seq<Offer>)
    requires Inv(env, n.chain) && Inv(env, p) && SameHashSameBlock(n.chain.entries, p.entries)
    requires a + |feed| <= |BestPath(env, p)| && HoldsPath(env, n.chain, BestPath(env, p), a)
    requires FeedOf(env, p, a, feed)
    ensures
      var f := Feed(env, n, feed);
      && f.refused == 0 && SameHashSameBlock(f.node.chain.entries, p.entries)
      && HoldsPath(env, f.node.chain, BestPath(env, p), a + |feed|)
  {
    hide Inv, HoldsPath, NotTooEarly, Add, SameHashSameBlock, BestPath, Shaped, FeedOf;
    if |feed| > 0 {
      var m := |feed| - 1;
      FeedOfInit(env, p, a, feed);
      FeedHolds(env, n, p, a, feed[..m]);
      TakesNext(env, Feed(env, n, feed[..m]).node.chain, p, a + m, feed[m].nowMs);
    }
  }

  /** Every block of the path is admitted by every reading of the clock. */
  ghost predicate PathAdmitted(path: seq<Block>, clock: nat -> int) {
    forall k, j: nat :: 0 <= k < |path| ==> NotTooEarly(clock(j), path[k])
  }

  /** With an honest peer ahead of us the pass starts from the anchor. */
  lemma StartsAtAnchor(env: Env, c: ChainState, p: ChainState, peer: Peer)
    requires Inv(env, c) && Inv(env, p) && Honest(env, peer, p) && Ahead(env, c, p) && |BestPath(env, c)| > 0
    ensures StartHeight(env, c, peer) == ForkAnchor(BestPath(env, c), peer.locate)
    ensures peer.tip.Some? && peer.tip.value.height == |BestPath(env, p)| - 1 >= 0
  {
    hide Inv, PathOf, ForkAnchor, AnswersFrom, Wrapped, Page, BestPath, SameHashSameBlock;
    TipStored(env, p);
    TipStored(env, c);
    SameAncestorIsDead(env, c, p);
  }

  /** With an honest peer ahead of us the pass downloads its best chain from the anchor on. */
  lemma HonestHaul(env: Env, c: ChainState, p: ChainState, peer: Peer)
    requires Inv(env, c) && Inv(env, p) && Honest(env, peer, p) && Ahead(env, c, p)
    requires |BestPath(env, c)| > 0 && ForkAnchor(BestPath(env, c), peer.locate).Some?
    ensures
      var a := ForkAnchor(BestPath(env, c), peer.locate).value;
      && a < |BestPath(env, p)| && HoldsPath(env, c, BestPath(env, p), a) && SameHashSameBlock(c.entries, p.entries)
      && SyncHaul(env, c, peer).blocks == BestPath(env, p)[a..]
  {
    hide Inv, PathOf, HoldsPath, ForkAnchor, AnswersFrom, Wrapped, Page, BestPath, CeilDiv, LowestAsked, ValidPath;
    hide StartHeight, SameHashSameBlock, Download, HighestKnown;
    HonestHeights(env, p);
    StartsAtAnchor(env, c, p, peer);
    AheadAgrees(env, c, p);
    ForkAnchorBound(env, c, p.entries, peer.locate);
    var a := ForkAnchor(BestPath(env, c), peer.locate).value;
    HoldsUpToAnchor(env, c, p, a);
    BestIsValid(env, p);
    ChainsEndEarly(env, BestPath(env, p));
    DownloadIsPrefix(peer, BestPath(env, p), a, 0);
    assert BestPath(env, p)[a..|BestPath(env, p)|] == BestPath(env, p)[a..];
  }

  lemma AheadAgrees(env: Env, c: ChainState, p: ChainState)
    requires Inv(env, c) && Inv(env, p) && Ahead(env, c, p)
    ensures SameHashSameBlock(c.entries, p.entries) && Linked(env, p.entries)
  {
    hide SameHashSameBlock, BestPath, EntryOk;
  }

  /** What holding the whole best chain of a peer means. */
  lemma HoldsTip(env: Env, d: ChainState, p: ChainState)
    requires Inv(env, d) && Inv(env, p) && HoldsPath(env, d, BestPath(env, p), |BestPath(env, p)|)
    ensures p.bestHash in d.entries && d.entries[p.bestHash] == p.entries[p.bestHash]
    ensures d.entries[d.bestHash].totalWork >= p.entries[p.bestHash].totalWork
  {
    hide PathOf, EntryOk;
    var path := BestPath(env, p);
    HonestHeights(env, p);
    FiledUnderHash(env, p.entries, p.bestHash);
    assert HoldsAt(env, d, path, |path| - 1);
    assert path[..|path|] == path;
    SamePathSameEntry(env, d, p, p.bestHash);
  }

  /**
   * One pass catches up: with an honest, static peer that is ahead of us, if an anchor is found then no block is
   * refused, the whole best chain of the peer is stored with its states and works, and our best work is at least the
   * peer's. The limit of 3,000 blocks for one pass never matters, because no chain is that long.
   */
  lemma OnePassCatchesUp(env: Env, n: Node, p: ChainState, peer: Peer, clock: nat -> int)
    requires Inv(env, n.chain) && Inv(env, p) && Honest(env, peer, p) && Ahead(env, n.chain, p)
    requires PathAdmitted(BestPath(env, p), clock)
    requires |BestPath(env, n.chain)| > 0 && ForkAnchor(BestPath(env, n.chain), peer.locate).Some?
    ensures
      var f := Feed(env, n, OffersOf(SyncHaul(env, n.chain, peer).blocks, clock));
      var d := f.node.chain;
      && f.refused == 0
      && (forall k :: 0 <= k < |BestPath(env, p)| ==>
        var h := BestPath(env, p)[k].hash;
        h in d.entries && h in p.entries && d.entries[h] == p.entries[h])
      && d.entries[d.bestHash].totalWork >= p.entries[p.bestHash].totalWork
  {
    hide Inv, HoldsPath, ForkAnchor, AnswersFrom, Wrapped, Page, BestPath, NotTooEarly, Add, SyncHaul;
    hide Honest, Ahead, Feed, AfterBlockOffer;
    var path := BestPath(env, p);
    HonestHaul(env, n.chain, p, peer);
    var a := ForkAnchor(BestPath(env, n.chain), peer.locate).value;
    var feed := OffersOf(SyncHaul(env, n.chain, peer).blocks, clock);
    OffersFeed(env, p, a, |path|, clock);
    assert path[a..|path|] == path[a..];
    FeedHolds(env, n, p, a, feed);
    var d := Feed(env, n, feed).node.chain;
    HoldsTip(env, d, p);
    forall k | 0 <= k < |path|
      ensures path[k].hash in d.entries && path[k].hash in p.entries
      ensures d.entries[path[k].hash] == p.entries[path[k].hash]
    {
      SameEntryAt(env, d, p, k);
    }
  }

  lemma SameEntryAt(env: Env, d: ChainState, p: ChainState, k: nat)
    requires Inv(env, d) && Inv(env, p) && k < |BestPath(env, p)|
    requires HoldsPath(env, d, BestPath(env, p), |BestPath(env, p)|)
    ensures
      var h := BestPath(env, p)[k].hash;
      h in d.entries && h in p.entries && d.entries[h] == p.entries[h]
  {
    hide PathOf, EntryOk;
    var path := BestPath(env, p);
    HeldAt(env, d, path, |path|, k);
    PathMembers(env, p.entries, p.bestHash, k);
    SamePathSameEntry(env, d, p, path[k].hash);
  }

  /** The tip stays where it is exactly when the block's path does not outweigh it. */
  lemma NextMovesTip(env: Env, d: ChainState, p: ChainState, n: nat, nowMs: int)
    requires Inv(env, d) && Inv(env, p) && SameHashSameBlock(d.entries, p.entries)
    requires n < |BestPath(env, p)| && HoldsPath(env, d, BestPath(env, p), n)
    requires NotTooEarly(nowMs, BestPath(env, p)[n])
    ensures
      var b := BestPath(env, p)[n];
      var e := Add(env, nowMs, d, b).chain;
      && (e.bestHash == d.bestHash <==> Work(BestPath(env, p)[..n + 1]) <= d.entries[d.bestHash].totalWork)
      && e.entries.Keys <= d.entries.Keys + {b.hash}
  {
    hide PathOf, EntryOk, ValidPath, NotTooEarly, HoldsPath, SameHashSameBlock, CheckBlock, Work, GenesisBlock, Linked;
    var path := BestPath(env, p);
    var e := Add(env, nowMs, d, path[n]).chain;
    TakesNext(env, d, p, n, nowMs);
    HeldWork(env, e, path, n + 1);
  }

  /** The work of a path that is held is filed with its last block. */
  lemma HeldWork(env: Env, d: ChainState, path: seq<Block>, n: nat)
    requires Inv(env, d) && 0 < n <= |path| && HoldsPath(env, d, path, n)
    ensures path[n - 1].hash in d.entries && d.entries[path[n - 1].hash].totalWork == Work(path[..n])
  {
    hide PathOf, ValidPath, Work, Linked;
    HeldAt(env, d, path, n, n - 1);
    assert EntryOk(env, d.entries, path[n - 1].hash);
  }

  lemma {:induction false} WorkRises(env: Env, path: seq<Block>, i: nat, j: nat)
    requires ValidPath(env, path) && 1 <= i <= j <= |path|
    ensures Work(path[..i]) <= Work(path[..j])
  {
    hide ValidPath, Work;
    if i < j {
      WorkRises(env, path, i, j - 1);
      PrefixOfValidPath(env, path, j);
      WorkGrows(env, path[..j]);
      assert path[..j][..j - 1] == path[..j - 1];
    }
  }

  /** Offers of the peer's blocks up to a path that does not outweigh our tip leave the tip where it is. */
  lemma {:induction false} LightFeedKeepsTip(env: Env, n: Node, p: ChainState, a: nat, feed: seq<Offer>)
    requires Inv(env, n.chain) && Inv(env, p) && SameHashSameBlock(n.chain.entries, p.entries)
    requires a + |feed| <= |BestPath(env, p)| && HoldsPath(env, n.chain, BestPath(env, p), a)
    requires FeedOf(env, p, a, feed)
    requires |feed| > 0 ==> Work(BestPath(env, p)[..a + |feed|]) <= n.chain.entries[n.chain.bestHash].totalWork
    ensures Feed(env, n, feed).node.chain.bestHash == n.chain.bestHash
  {
    hide Inv, HoldsPath, NotTooEarly, Add, SameHashSameBlock, BestPath, Shaped, AfterBlockOffer, ValidPath, Work;
    hide FeedOf;
    if |feed| > 0 {
      var m := |feed| - 1;
      FeedOfInit(env, p, a, feed);
      var before := Feed(env, n, feed[..m]).node;
      BestIsValid(env, p);
      if m > 0 {
        WorkRises(env, BestPath(env, p), a + m, a + m + 1);
      }
      LightFeedKeepsTip(env, n, p, a, feed[..m]);
      FeedHolds(env, n, p, a, feed[..m]);
      FeedOnlyGrows(env, n, feed[..m]);
      TipStored(env, n.chain);
      OfferChain(env, before, feed[m].block, feed[m].nowMs);
      NextMovesTip(env, before.chain, p, a + m, feed[m].nowMs);
    }
  }

  /**
   * Offered a stretch of the peer's best chain, the node keeps its tip exactly when the peer's chain up to there does
   * not outweigh it.
   */
  lemma FeedMovesTipExactly(env: Env, n: Node, p: ChainState, a: nat, feed: seq<Offer>)
    requires Inv(env, n.chain) && Inv(env, p) && SameHashSameBlock(n.chain.entries, p.entries)
    requires a + |feed| <= |BestPath(env, p)| && HoldsPath(env, n.chain, BestPath(env, p), a)
    requires FeedOf(env, p, a, feed) && |feed| > 0
    ensures
      Feed(env, n, feed).node.chain.bestHash == n.chain.bestHash
      <==> Work(BestPath(env, p)[..a + |feed|]) <= n.chain.entries[n.chain.bestHash].totalWork
  {
    hide EntryOk, Linked, HoldsPath, SameHashSameBlock, Shaped, AfterBlockOffer, ValidPath, Work, PathOf, Feed, FeedOf;
    var e, d := a + |feed|, Feed(env, n, feed).node.chain;
    FeedHolds(env, n, p, a, feed);
    FeedOnlyGrows(env, n, feed);
    HeldWork(env, d, BestPath(env, p), e);
    if Work(BestPath(env, p)[..e]) <= n.chain.entries[n.chain.bestHash].totalWork {
      LightFeedKeepsTip(env, n, p, a, feed);
    }
  }

  /** A hash that none of the offered blocks has is not stored on their account. */
  lemma {:induction false} FeedSkips(env: Env, n: Node, feed: seq<Offer>, h: string)
    requires Inv(env, n.chain) && h !in n.chain.entries
    requires forall k :: 0 <= k < |feed| ==> feed[k].block.hash != h
    ensures h !in Feed(env, n, feed).node.chain.entries
  {
    hide Inv, EntryFor, Accepts, Shaped, AfterBlockOffer;
    if |feed| > 0 {
      var m := |feed| - 1;
      FeedSkips(env, n, feed[..m], h);
      OfferChain(env, Feed(env, n, feed[..m]).node, feed[m].block, feed[m].nowMs);
    }
  }

  lemma TipIsNotBelow(env: Env, p: ChainState, k: nat)
    requires Inv(env, p) && k < |BestPath(env, p)| - 1
    ensures BestPath(env, p)[k].hash != p.bestHash
  {
    hide EntryOk, Linked, PathOf;
    HonestHeights(env, p);
    PathMembers(env, p.entries, p.bestHash, k);
    FiledUnderHash(env, p.entries, p.bestHash);
  }

  /** With the tip unmoved and the peer's tip still unknown, the next pass downloads what this one did. */
  lemma SamePassAgain(env: Env, n: Node, feed: seq<Offer>, peer: Peer)
    requires Inv(env, n.chain) && Feed(env, n, feed).node.chain.bestHash == n.chain.bestHash
    requires peer.tip.Some? ==> peer.tip.value.bestHash !in Feed(env, n, feed).node.chain.entries
    ensures SyncHaul(env, Feed(env, n, feed).node.chain, peer) == SyncHaul(env, n.chain, peer)
  {
    hide EntryOk, Feed, ForkAnchor, PathOf, Download;
    var c, d := n.chain, Feed(env, n, feed).node.chain;
    FeedOnlyGrows(env, n, feed);
    PathFrame(env, c.entries, d.entries, c.bestHash);
    assert peer.tip.Some? ==> peer.tip.value.bestHash !in c.entries;
  }

  /**
   * A pass that is cut short, by a peer that stops answering after it sent the blocks of its best chain from height
   * `a` to `e`: it moves our tip exactly when the peer's chain up to there outweighs it, and if it does not, the next
   * pass starts over and downloads the same blocks.
   */
  lemma CutShortPass(env: Env, n: Node, p: ChainState, peer: Peer, clock: nat -> int, a: nat, e: nat)
    requires Inv(env, n.chain) && Inv(env, p) && SameHashSameBlock(n.chain.entries, p.entries)
    requires a < e < |BestPath(env, p)| && HoldsPath(env, n.chain, BestPath(env, p), a)
    requires peer.tip.Some? && peer.tip.value.bestHash == p.bestHash && p.bestHash !in n.chain.entries
    requires SyncHaul(env, n.chain, peer).blocks == BestPath(env, p)[a..e] && PathAdmitted(BestPath(env, p), clock)
    ensures
      var d := Feed(env, n, OffersOf(SyncHaul(env, n.chain, peer).blocks, clock)).node.chain;
      && (d.bestHash == n.chain.bestHash
          <==> Work(BestPath(env, p)[..e]) <= n.chain.entries[n.chain.bestHash].totalWork)
      && (d.bestHash == n.chain.bestHash ==> SyncHaul(env, d, peer) == SyncHaul(env, n.chain, peer))
  {
    hide Inv, HoldsPath, NotTooEarly, SameHashSameBlock, BestPath, Work, Feed, SyncHaul;
    var feed := OffersOf(SyncHaul(env, n.chain, peer).blocks, clock);
    OffersFeed(env, p, a, e, clock);
    FeedMovesTipExactly(env, n, p, a, feed);
    forall k | 0 <= k < |feed| ensures feed[k].block.hash != p.bestHash {
      TipIsNotBelow(env, p, a + k);
    }
    FeedSkips(env, n, feed, p.bestHash);
    if Feed(env, n, feed).node.chain.bestHash == n.chain.bestHash {
      SamePassAgain(env, n, feed, peer);
    }
  }

  lemma OffersFeed(env: Env, p: ChainState, a: nat, e: nat, clock: nat -> int)
    requires Inv(env, p) && a <= e <= |BestPath(env, p)| && PathAdmitted(BestPath(env, p), clock)
    ensures FeedOf(env, p, a, OffersOf(BestPath(env, p)[a..e], clock))
  {
    hide Inv, BestPath, NotTooEarly;
    var path := BestPath(env, p);
    var feed := OffersOf(path[a..e], clock);
    forall k | 0 <= k < |feed| ensures feed[k].block == path[a + k] && NotTooEarly(feed[k].nowMs, feed[k].block) {
      assert feed[k] == Offer(clock(k), path[a + k]);
    }
  }

  // ---- the node ----

  lemma OffersSnoc(blocks: seq<Block>, b: Block, clock: nat -> int)
    ensures OffersOf(blocks + [b], clock) == OffersOf(blocks, clock) + [Offer(clock(|blocks|), b)]
  {
  }

  class P2PNetwork {
    const service: ChainService
    var fetchedBlocks: nat
    var rejectedBlocks: nat

    constructor (service: ChainService)
      ensures this.service == service && fetchedBlocks == 0 && rejectedBlocks == 0
    {
      this.service := service;
      fetchedBlocks, rejectedBlocks := 0, 0;
    }

    /** The best chain of this node. */
    ghost function Path(): (path: seq<Block>)
      requires service.Valid()
      reads service, service.chain
      ensures 0 < |path| <= MAX_SAFE_INTEGER
    {
      BestIsValid(service.env, service.chain.Snapshot());
      PathIsShort(service.env, BestPath(service.env, service.chain.Snapshot()));
      BestPath(service.env, service.chain.Snapshot())
    }

    method TipHeight() returns (height: nat)
      requires service.Valid()
      ensures height == |Path()| - 1
    {
      hide ValidPath;
      TipFacts(service.env, service.chain.Snapshot());
      HonestHeights(service.env, service.chain.Snapshot());
      height := service.chain.entries[service.chain.bestHash].block.header.height;
    }

    method BlockAtHeight(height: nat) returns (b: Option<Block>)
      requires service.Valid()
      ensures b == if height < |Path()| then Some(Path()[height]) else None
    {
      b := service.chain.ChainAtHeight(height);
    }

    /** The tip of the best chain with the work of the whole chain. */
    method ServeTip() returns (tip: Tip)
      requires service.Valid()
      ensures tip == Tip(|Path()| - 1, Path()[|Path()| - 1].hash, Work(Path()))
    {
      hide ValidPath, Work;
      TipFacts(service.env, service.chain.Snapshot());
      BestWork(service.env, service.chain.Snapshot());
      var height := TipHeight();
      tip := Tip(height, service.chain.bestHash, service.chain.entries[service.chain.bestHash].totalWork);
    }

    /** One page of the best chain, from a height on. */
    method ServeBlocks(start: int, limit: int) returns (items: seq<Block>)
      requires service.Valid()
      ensures
        var first := if start < 0 then 0 else start;
        var size := if limit < 0 then 1 else if 1 <= limit <= 200 then limit else 200;
        && |items| == (if |Path()| <= first then 0 else if |Path()| - first < size then |Path()| - first else size)
        && forall k :: 0 <= k < |items| ==> items[k] == Path()[first + k]
    {
      hide Inv, BestPath, Path;
      ghost var path := Path();
      var first, size := if start < 0 then 0 else start, Clamped(limit);
      var tipHeight := TipHeight();
      items := [];
      var height := first;
      while height <= tipHeight && |items| < size
        modifies {}
        invariant height == first + |items| && |items| <= size
        invariant items == Page(path, first, |items|)
      {
        var block := BlockAtHeight(height);
        if block.None? {
          break;
        }
        items := items + [block.value];
        height := height + 1;
      }
    }

    /** The position of the first of the asked hashes that this node stores. */
    method ServeLocate(hashes: seq<string>) returns (index: int)
      ensures IsFirstKnown(service.chain.entries, Asked(hashes), index)
      ensures
        var stored := service.chain.entries.Keys;
        |hashes| <= 64 && (forall k :: 0 <= k < |hashes| ==> Hex(hashes[k], 64)) ==>
          (index == -1 && (forall k :: 0 <= k < |hashes| ==> hashes[k] !in stored))
          || (0 <= index < |hashes| && hashes[index] in stored
              && forall k :: 0 <= k < index ==> hashes[k] !in stored)
    {
      if forall k :: 0 <= k < |hashes| ==> Hex(hashes[k], 64) {
        AllHex(hashes);
      }
      var asked: seq<string> := [];
      for k := 0 to |hashes|
        invariant asked == HexOnly(hashes[..k])
      {
        assert hashes[..k + 1][..k] == hashes[..k];
        if Hex(hashes[k], 64) {
          asked := asked + [hashes[k]];
        }
      }
      assert hashes[..|hashes|] == hashes;
      asked := if |asked| > LOCATE_MAX_HASHES then asked[..LOCATE_MAX_HASHES] else asked;
      for position := 0 to |asked|
        invariant forall k :: 0 <= k < position ==> asked[k] !in service.chain.entries
      {
        if asked[position] in service.chain.entries {
          return position;
        }
      }
      index := -1;
    }

    /** The heights and hashes of a question. */
    method Sample(from: int, above: int, step: nat) returns (heights: seq<int>, hashes: seq<string>)
      requires service.Valid() && step > 0 && -1 <= above && from < |Path()|
      ensures heights == DownTo(from, above, step)
      ensures forall i :: 0 <= i < |heights| ==> 0 <= heights[i] < |Path()|
      ensures hashes == HashesAt(Path(), heights)
    {
      hide Inv, BestPath, Path;
      heights, hashes := [], [];
      var height := from;
      while height > above
        modifies {}
        invariant height <= from
        invariant heights + DownTo(height, above, step) == DownTo(from, above, step)
        invariant forall i :: 0 <= i < |heights| ==> 0 <= heights[i] < |Path()|
        invariant hashes == HashesAt(Path(), heights)
        decreases height - above
      {
        var block := BlockAtHeight(height);
        assert DownTo(height, above, step) == [height] + DownTo(height - step, above, step);
        heights := heights + [height];
        if block.Some? {
          hashes := hashes + [block.value.hash];
        }
        height := height - step;
      }
    }

    /** The first question: evenly spaced heights and, if they miss it, genesis. */
    method Samples(height: nat) returns (heights: seq<int>, hashes: seq<string>)
      requires service.Valid() && height == |Path()| - 1
      ensures heights == SampleHeights(height)
      ensures forall i :: 0 <= i < |heights| ==> 0 <= heights[i] < |Path()|
      ensures hashes == HashesAt(Path(), heights)
    {
      hide Inv, BestPath, Path, DownTo, CeilDiv;
      heights, hashes := Sample(height, -1, SampleStep(height));
      if |heights| > 0 && heights[|heights| - 1] != 0 {
        var genesis := BlockAtHeight(0);
        heights, hashes := heights + [0], hashes + [genesis.value.hash];
      }
    }

    method LocateForkAnchor(ask: Answers) returns (r: Option<nat>)
      requires service.Valid()
      ensures r == ForkAnchor(Path(), ask)
    {
      hide Inv, BestPath, Path, SampleHeights, RefineHeights, HashesAt, Refined;
      var height := TipHeight();
      SamplesSpaced(height);
      var heights, hashes := Samples(height);
      var first := ask(hashes);
      if first.None? || first.value < 0 || first.value >= |heights| {
        return None;
      }
      var anchor := heights[first.value];
      if first.value > 0 && heights[first.value - 1] - anchor > 1 {
        r := Refine(ask, heights[first.value - 1], anchor);
      } else {
        r := Some(anchor);
      }
    }

    /** The second question, between a known height and an unknown one. */
    method Refine(ask: Answers, upper: nat, anchor: nat) returns (r: Option<nat>)
      requires service.Valid() && anchor < upper < |Path()|
      ensures r == Refined(Path(), ask, upper, anchor)
    {
      hide Inv, BestPath, Path, DownTo;
      var step := RefineStep(upper, anchor);
      RefineSpaced(upper, anchor);
      var heights, hashes := Sample(upper - step, anchor, step);
      r := Some(anchor);
      if |heights| > 0 {
        var second := ask(hashes);
        if second.Some? && second.value >= 0 {
          r := if second.value < |heights| then Some(heights[second.value]) else None;
        }
      }
    }

    /** A block that consensus refuses is counted and dropped. */
    method HandlePeerBlock(block: Block, nowMs: int)
      requires service.Valid()
      modifies this`rejectedBlocks, service`store, service.chain, service.mempool
      ensures service.Valid() && service.State() == AfterBlockOffer(service.env, old(service.State()), block, nowMs)
      ensures rejectedBlocks == old(rejectedBlocks)
        + if Refused(service.env, old(service.chain.Snapshot()), block, nowMs) then 1 else 0
      ensures old(Persists(service.store, service.chain.entries)) ==> Persists(service.store, service.chain.entries)
    {
      hide Inv, Add, Persists, AfterBlockOffer;
      var accepted := service.AcceptBlock(block, nowMs);
      if accepted.Err? {
        rejectedBlocks := rejectedBlocks + 1;
      }
    }

    /** The node is where feeding `fed` to the node `n` leads, and the refusals are counted. */
    ghost predicate Follows(n: Node, fed: seq<Block>, clock: nat -> int, refused: int)
      requires Inv(service.env, n.chain)
      reads this, service, service.chain, service.mempool
    {
      var f := Feed(service.env, n, OffersOf(fed, clock));
      service.State() == f.node && rejectedBlocks == refused + f.refused
    }

    /** Hands the blocks of a page that arrive in order to consensus, behind those of `fed`. */
    method FeedPage(
      items: seq<Option<Block>>, at: nat, offered: nat, clock: nat -> int, ghost n: Node, ghost fed: seq<Block>,
      ghost refused: int)
      returns (count: nat)
      requires service.Valid() && Inv(service.env, n.chain) && offered == |fed|
      requires Follows(n, fed, clock, refused)
      modifies this`rejectedBlocks, service`store, service.chain, service.mempool
      ensures service.Valid() && count == InOrder(items, at)
      ensures Follows(n, fed + Values(items[..count]), clock, refused)
    {
      hide Inv, AfterBlockOffer, Add, OffersOf, Feed, InOrder;
      assert fed + Values(items[..0]) == fed;
      count := 0;
      while count < |items| && items[count].Some? && items[count].value.header.height == at + count
        invariant service.Valid() && count <= InOrder(items, at)
        invariant Follows(n, fed + Values(items[..count]), clock, refused)
      {
        var block := items[count].value;
        OneMoreFed(service.env, n, fed + Values(items[..count]), block, clock);
        assert fed + Values(items[..count]) + [block] == fed + Values(items[..count + 1]);
        HandlePeerBlock(block, clock(offered + count));
        count := count + 1;
      }
    }

    /** The download loop; every block that arrives in order goes to consensus at once. */
    method DownloadFrom(peer: Peer, top: nat, start: nat, clock: nat -> int)
      requires service.Valid()
      modifies this, service`store, service.chain, service.mempool
      ensures service.Valid()
      ensures
        var haul := Download(peer, top, start, 0);
        var f := Feed(service.env, old(service.State()), OffersOf(haul.blocks, clock));
        && service.State() == f.node && rejectedBlocks == old(rejectedBlocks) + f.refused
        && fetchedBlocks == old(fetchedBlocks) + haul.fetched
    {
      hide Inv, OffersOf, Feed, InOrder, Values;
      ghost var n, before, haul := service.State(), rejectedBlocks, Download(peer, top, start, 0);
      ghost var fed: seq<Block> := [];
      NothingFed(service.env, n, clock);
      var fetched: nat, requestHeight: nat, offered: nat := 0, start, 0;
      while requestHeight <= top && fetched < MAX_BLOCKS_PER_SYNC_RUN
        invariant service.Valid() && fetchedBlocks == old(fetchedBlocks) && offered == |fed|
        invariant Continues(haul, fed, Download(peer, top, requestHeight, fetched))
        invariant Follows(n, fed, clock, before)
        decreases top + 1 - requestHeight
      {
        var response := peer.blocks(requestHeight);
        if response.None? || |response.value| == 0 {
          break;
        }
        var items := response.value;
        var count := FeedPage(items, requestHeight, offered, clock, n, fed, before);
        if count == 0 {
          assert Values(items[..0]) == [] && fed + [] == fed;
          fetched := fetched + |items|;
          break;
        }
        ContinuesStep(haul, fed, peer, top, requestHeight, fetched);
        fed := fed + Values(items[..count]);
        fetched, requestHeight, offered := fetched + |items|, requestHeight + count, offered + count;
      }
      assert fed + [] == fed;
      fetchedBlocks := fetchedBlocks + fetched;
    }

    /** Refines `SyncHaul` and `Feed`: what is downloaded, what consensus makes of it, and both counters. */
    method SyncWithSocket(peer: Peer, clock: nat -> int)
      requires service.Valid()
      modifies this, service`store, service.chain, service.mempool
      ensures service.Valid()
      ensures
        var haul := SyncHaul(service.env, old(service.chain.Snapshot()), peer);
        var f := Feed(service.env, old(service.State()), OffersOf(haul.blocks, clock));
        && service.State() == f.node && rejectedBlocks == old(rejectedBlocks) + f.refused
        && fetchedBlocks == old(fetchedBlocks) + haul.fetched
    {
      hide Inv, OffersOf, Feed, Download, BestPath, ForkAnchor, AfterBlockOffer, Add, Refused;
      NothingFed(service.env, service.State(), clock);
      TipStored(service.env, service.chain.Snapshot());
      if peer.tip.None? {
        return;
      }
      var peerTip := peer.tip.value;
      var height := TipHeight();
      if peerTip.height <= height {
        return;
      }
      if peerTip.totalWork != 0 && peerTip.totalWork <= service.chain.entries[service.chain.bestHash].totalWork {
        return;
      }
      var fromHeight := height + 1;
      if peerTip.bestHash !in service.chain.entries {
        var anchor := LocateForkAnchor(peer.locate);
        if anchor.None? {
          return;
        }
        fromHeight := anchor.value;
      }
      assert SyncHaul(service.env, service.chain.Snapshot(), peer) == Download(peer, peerTip.height, fromHeight, 0);
      hide SyncHaul, StartHeight, Path;
      DownloadFrom(peer, peerTip.height, fromHeight, clock);
    }
  }

  lemma BestWork(env: Env, c: ChainState)
    requires Inv(env, c)
    ensures c.bestHash in c.entries && c.entries[c.bestHash].totalWork == Work(BestPath(env, c))
  {
    hide ValidPath, Replay, Work;
    assert EntryOk(env, c.entries, c.bestHash);
  }

  /** The answer that `ServeBlocks` gives to a request for a page of 200 blocks. */
  predicate IsPage(path: seq<Block>, start: nat, items: seq<Option<Block>>) {
    && |items| == (if |path| <= start then 0 else if |path| - start < 200 then |path| - start else 200)
    && forall k :: 0 <= k < |items| ==> items[k] == Some(path[start + k])
  }

  lemma PageIsPage(path: seq<Block>, start: nat, items: seq<Option<Block>>)
    requires IsPage(path, start, items)
    ensures items == Wrapped(Page(path, start, BLOCKS_PAGE_SIZE))
  {
    var page := Page(path, start, BLOCKS_PAGE_SIZE);
    assert |items| == |page|;
    forall k | 0 <= k < |items| ensures items[k] == Wrapped(page)[k] {
      assert page[k] == path[start + k];
    }
  }

  /** A node that answers with `ServeTip`, `ServeLocate` and `ServeBlocks(start, 200)` is an honest peer. */
  lemma ServingIsHonest(node: P2PNetwork, peer: Peer)
    requires node.service.Valid()
    requires peer.tip == Some(Tip(|node.Path()| - 1, node.Path()[|node.Path()| - 1].hash, Work(node.Path())))
    requires forall hashes ::
      && peer.locate(hashes).Some?
      && IsFirstKnown(node.service.chain.entries, Asked(hashes), peer.locate(hashes).value)
    requires forall start: nat :: peer.blocks(start).Some? && IsPage(node.Path(), start, peer.blocks(start).value)
    ensures Honest(node.service.env, peer, node.service.chain.Snapshot())
  {
    hide Inv, ValidPath, Work, Replay, IsPage, Page, IsFirstKnown, Asked;
    var env, p := node.service.env, node.service.chain.Snapshot();
    TipFacts(env, p);
    BestWork(env, p);
    forall start: nat
      ensures peer.blocks(start) == Some(Wrapped(Page(BestPath(env, p), start, BLOCKS_PAGE_SIZE)))
    {
      PageIsPage(BestPath(env, p), start, peer.blocks(start).value);
    }
  }

  // ---- what is downloaded ----

  predicate HeightsFrom(blocks: seq<Block>, at: nat) {
    forall k :: 0 <= k < |blocks| ==> blocks[k].header.height == at + k
  }

  lemma {:induction false} DownloadInOrder(peer: Peer, top: nat, at: nat, fetched: nat)
    ensures
      var haul := Download(peer, top, at, fetched);
      HeightsFrom(haul.blocks, at) && fetched + |haul.blocks| <= haul.fetched
    decreases top + 1 - at
  {
    hide InOrderFrom;
    if at <= top && fetched < MAX_BLOCKS_PER_SYNC_RUN && peer.blocks(at).Some? {
      var items := peer.blocks(at).value;
      var n := InOrder(items, at);
      if n > 0 {
        DownloadInOrder(peer, top, at + n, fetched + |items|);
      }
    }
  }

  /** Every block of a page counts as fetched, also behind the one that is out of order, which ends the download. */
  lemma PagesCount(peer: Peer, top: nat, at: nat, fetched: nat)
    requires at <= top && fetched < 3_000
    ensures
      var haul := Download(peer, top, at, fetched);
      && (peer.blocks(at).None? || |peer.blocks(at).value| == 0 ==> haul == Haul([], fetched))
      && (peer.blocks(at).Some? ==>
          var items := peer.blocks(at).value;
          && fetched + |items| <= haul.fetched
          && (|items| > 0 && (items[0].None? || items[0].value.header.height != at) ==>
              haul == Haul([], fetched + |items|)))
  {
    hide InOrderFrom;
    if peer.blocks(at).Some? {
      var items := peer.blocks(at).value;
      DownloadInOrder(peer, top, at + InOrder(items, at), fetched + |items|);
    }
  }

  /** Nothing is downloaded from a peer that is not higher, or tells its work and has no more. */
  ghost predicate NothingToGain(path: seq<Block>, peer: Peer) {
    peer.tip.None? || peer.tip.value.height < |path| || 0 < peer.tip.value.totalWork <= Work(path)
  }

  /**
   * Whatever a peer answers: nothing is downloaded from one that is not higher, or tells its work and has no more.
   * From any other, consensus gets blocks of consecutive heights, from our next height on if we store the peer's tip,
   * else from the anchor on; without an anchor none.
   */
  lemma HaulInOrder(env: Env, c: ChainState, peer: Peer)
    requires Inv(env, c)
    ensures |BestPath(env, c)| > 0
    ensures
      var path, haul := BestPath(env, c), SyncHaul(env, c, peer);
      && HaulFrom(haul, path, peer, c.entries.Keys)
      && |haul.blocks| <= haul.fetched
  {
    hide Inv, ValidPath, Work, Download, ForkAnchor, HeightsFrom;
    BestWork(env, c);
    HonestHeights(env, c);
    var start := StartHeight(env, c, peer);
    if start.Some? {
      DownloadInOrder(peer, peer.tip.value.height, start.value, 0);
    }
  }

  /** Where a pass starts, and what it gets. */
  ghost predicate HaulFrom(haul: Haul, path: seq<Block>, peer: Peer, stored: set<string>)
    requires |path| > 0
  {
    if NothingToGain(path, peer) then haul == Haul([], 0)
    else
      var tip := peer.tip.value;
      var start := if tip.bestHash in stored then Some(|path|) else ForkAnchor(path, peer.locate);
      if start.None? then haul == Haul([], 0)
      else HeightsFrom(haul.blocks, start.value) && haul == Download(peer, tip.height, start.value, 0)
  }

  /** `haul` is what was fed, and what is still to come. */
  predicate Continues(haul: Haul, fed: seq<Block>, rest: Haul) {
    haul == Haul(fed + rest.blocks, rest.fetched)
  }

  lemma ContinuesStep(haul: Haul, fed: seq<Block>, peer: Peer, top: nat, at: nat, fetched: nat)
    requires Continues(haul, fed, Download(peer, top, at, fetched))
    requires at <= top && fetched < MAX_BLOCKS_PER_SYNC_RUN
    requires peer.blocks(at).Some? && InOrder(peer.blocks(at).value, at) > 0
    ensures
      var items := peer.blocks(at).value;
      var count := InOrder(items, at);
      Continues(haul, fed + Values(items[..count]), Download(peer, top, at + count, fetched + |items|))
  {
    hide InOrder, Values;
    var items := peer.blocks(at).value;
    var count := InOrder(items, at);
    var rest := Download(peer, top, at + count, fetched + |items|);
    assert fed + (Values(items[..count]) + rest.blocks) == fed + Values(items[..count]) + rest.blocks;
  }

  lemma NothingFed(env: Env, n: Node, clock: nat -> int)
    requires Inv(env, n.chain)
    ensures Feed(env, n, OffersOf([], clock)) == Fed(n, 0)
  {
    hide Inv;
  }

  lemma OneMoreFed(env: Env, n: Node, fed: seq<Block>, b: Block, clock: nat -> int)
    requires Inv(env, n.chain)
    ensures
      var before, nowMs := Feed(env, n, OffersOf(fed, clock)), clock(|fed|);
      Feed(env, n, OffersOf(fed + [b], clock))
      == Fed(AfterBlockOffer(env, before.node, b, nowMs),
             before.refused + if Refused(env, before.node.chain, b, nowMs) then 1 else 0)
  {
    hide Inv, AfterBlockOffer, Add;
    OffersSnoc(fed, b, clock);
    var feed := OffersOf(fed + [b], clock);
    assert feed[..|feed| - 1] == OffersOf(fed, clock);
  }
}
