/**
 * The tree a node ends up with does not depend on the order in which it learns blocks:
 * packages/core/src/chain.ts (addBlock) and the restart replay of apps/node/src/service.ts.
 */
module Order {
  import opened Prelude
  import opened Text
  import opened Types
  import opened State
  import opened History
  import opened Paths
  import opened Chain
  import Conservation
  import Reward

  /** Some offer before position `n` carries the block with this hash. */
  ghost predicate OfferedBefore(feed: seq<Offer>, n: nat, hash: string) {
    exists j :: 0 <= j < n && j < |feed| && feed[j].block.hash == hash
  }

  /**
   * A feed from which `c` can be rebuilt: offers of stored hashes carry the stored block, come after an
   * offer of their parent, and arrive when the clock admits them.
   */
  ghost predicate Covers(env: Env, c: ChainState, feed: seq<Offer>) {
    forall k :: 0 <= k < |feed| && feed[k].block.hash in c.entries && feed[k].block.hash != env.genesisHash
      ==> CoversAt(env, c, feed, k)
  }

  ghost predicate CoversAt(env: Env, c: ChainState, feed: seq<Offer>, k: nat)
    requires k < |feed|
  {
    var b := feed[k].block;
    && b.hash in c.entries && b == c.entries[b.hash].block
    && NotTooEarly(feed[k].nowMs, b)
    && (b.header.previousHash == env.genesisHash || OfferedBefore(feed, k, b.header.previousHash))
  }

  lemma AcceptedPath(env: Env, c: ChainState, h: string)
    requires Inv(env, c) && h in c.entries && h != env.genesisHash
    ensures
      var b := c.entries[h].block;
      && b.hash == h && Hex(h, 64) && b.header.height >= 1 && b.header.previousHash in c.entries
      && c.entries[b.header.previousHash].block.header.height == b.header.height - 1
      && PathOf(env, c.entries, h) == PathOf(env, c.entries, b.header.previousHash) + [b]
      && CheckBlock(env, PathOf(env, c.entries, b.header.previousHash), b)
  {
    hide CheckBlock, Replay, Work;
    assert LinkedAt(env, c.entries, h) && EntryOk(env, c.entries, h);
    var path := PathOf(env, c.entries, h);
    var parent := PathOf(env, c.entries, c.entries[h].block.header.previousHash);
    assert path[..|path| - 1] == parent;
    LinkOfCheck(env, parent, c.entries[h].block);
  }

  /** Stored blocks other than genesis were offered while the clock admitted them. */
  lemma {:induction false} StoredWasOffered(env: Env, feed: seq<Offer>, h: string) returns (i: nat)
    requires h in Run(env, feed).entries && h != env.genesisHash
    ensures i < |feed| && feed[i].block == Run(env, feed).entries[h].block && feed[i].block.hash == h
    ensures NotTooEarly(feed[i].nowMs, feed[i].block)
  {
    hide Inv, CheckBlock, AfterBlock;
    var n := |feed| - 1;
    var c := Run(env, feed[..n]);
    if h in c.entries {
      RunsOnlyGrow(env, feed, n);
      i := StoredWasOffered(env, feed[..n], h);
    } else {
      i := n;
    }
  }

  lemma GenesisStays(env: Env, c: ChainState)
    requires Inv(env, c)
    ensures env.genesisHash in c.entries && PathOf(env, c.entries, env.genesisHash) == [GenesisBlock(env)]
  {
  }

  lemma PathKept(env: Env, feed: seq<Offer>, n: nat, h: string)
    requires n <= |feed| && h in Run(env, feed[..n]).entries
    ensures h in Run(env, feed).entries
    ensures PathOf(env, Run(env, feed[..n]).entries, h) == PathOf(env, Run(env, feed).entries, h)
  {
    hide EntryOk;
    RunsOnlyGrow(env, feed, n);
    PathFrame(env, Run(env, feed[..n]).entries, Run(env, feed).entries, h);
  }

  /** Every offer of a stored block of `c` leaves it stored, behind the same path. */
  lemma {:induction false} Rebuild(env: Env, c: ChainState, feed: seq<Offer>, k: nat)
    requires Inv(env, c) && Covers(env, c, feed) && k < |feed| && feed[k].block.hash in c.entries
    ensures
      var d, h := Run(env, feed[..k + 1]), feed[k].block.hash;
      h in d.entries && PathOf(env, d.entries, h) == PathOf(env, c.entries, h)
    decreases c.entries[feed[k].block.hash].block.header.height, 0
  {
    hide Inv, CheckBlock, Run, PathOf, GenesisBlock, Add, NotTooEarly;
    var b, before, after := feed[k].block, Run(env, feed[..k]), Run(env, feed[..k + 1]);
    if b.hash == env.genesisHash {
      GenesisStays(env, c);
      GenesisStays(env, after);
    } else {
      assert CoversAt(env, c, feed, k);
      AcceptedPath(env, c, b.hash);
      ParentRebuilt(env, c, feed, k);
      OneMore(env, c, feed, k);
    }
  }

  /** The parent of a covered offer is already there, behind its path. */
  lemma {:induction false} ParentRebuilt(env: Env, c: ChainState, feed: seq<Offer>, k: nat)
    requires Inv(env, c) && Covers(env, c, feed) && k < |feed| && CoversAt(env, c, feed, k)
    requires feed[k].block.hash != env.genesisHash
    requires feed[k].block.header.previousHash in c.entries && feed[k].block.header.height >= 1
    requires c.entries[feed[k].block.header.previousHash].block.header.height == feed[k].block.header.height - 1
    ensures
      var before, parent := Run(env, feed[..k]), feed[k].block.header.previousHash;
      parent in before.entries && PathOf(env, before.entries, parent) == PathOf(env, c.entries, parent)
    decreases c.entries[feed[k].block.header.previousHash].block.header.height, 1
  {
    hide Inv, CheckBlock, Run, PathOf, GenesisBlock, Add, NotTooEarly;
    var parent, before := feed[k].block.header.previousHash, Run(env, feed[..k]);
    if parent == env.genesisHash {
      GenesisStays(env, c);
      GenesisStays(env, before);
    } else {
      var j :| 0 <= j < k && feed[j].block.hash == parent;
      Rebuild(env, c, feed, j);
      assert feed[..k][..j + 1] == feed[..j + 1];
      PathKept(env, feed[..k], j + 1, parent);
    }
  }

  /** With its parent in place, the offered block is stored, now or already. */
  lemma OneMore(env: Env, c: ChainState, feed: seq<Offer>, k: nat)
    requires Inv(env, c) && Covers(env, c, feed) && k < |feed| && CoversAt(env, c, feed, k)
    requires feed[k].block.hash != env.genesisHash && feed[k].block.header.previousHash in c.entries
    requires
      var before, parent := Run(env, feed[..k]), feed[k].block.header.previousHash;
      parent in before.entries && PathOf(env, before.entries, parent) == PathOf(env, c.entries, parent)
    ensures
      var d, h := Run(env, feed[..k + 1]), feed[k].block.hash;
      h in d.entries && PathOf(env, d.entries, h) == PathOf(env, c.entries, h)
  {
    hide CheckBlock, EntryOk, PathOf, GenesisBlock, NotTooEarly;
    var b, before, after := feed[k].block, Run(env, feed[..k]), Run(env, feed[..k + 1]);
    AcceptedPath(env, c, b.hash);
    assert feed[..k + 1][..k] == feed[..k];
    assert after == Add(env, feed[k].nowMs, before, b).chain;
    PathKept(env, feed[..k + 1], k, b.header.previousHash);
    if b.hash in before.entries {
      var i := StoredWasOffered(env, feed[..k], b.hash);
      assert CoversAt(env, c, feed, i);
      AcceptedPath(env, before, b.hash);
      PathKept(env, feed[..k + 1], k, b.hash);
    } else {
      AcceptedPath(env, after, b.hash);
    }
  }

  /**
   * Every state that any node ever stores has issued what the schedule says for its height, and never more than the
   * cap.
   */
  lemma StoredSupply(env: Env, feed: seq<Offer>, h: string)
    requires h in Run(env, feed).entries
    ensures
      var e := Run(env, feed).entries[h];
      && e.block.header.height >= 0
      && Reward.IssuedAt(e.block.header.height) == Option<int>.Some(e.state.issuedPhotons)
      && e.state.issuedPhotons <= Reward.TOTAL_SUPPLY
      && e.block.header.height <= Reward.FinalHeight()
  {
    hide Run, ValidPath, Replay, Work, LedgerPath, Reward.IssuedAt;
    var c := Run(env, feed);
    assert EntryOk(env, c.entries, h);
    ShapeOfValidPath(env, PathOf(env, c.entries, h));
    Conservation.IssuanceFollowsSchedule(env, PathOf(env, c.entries, h));
  }

  /** An entry is determined by its path. */
  lemma SamePathSameEntry(env: Env, c: ChainState, d: ChainState, h: string)
    requires Inv(env, c) && Inv(env, d) && h in c.entries && h in d.entries
    requires PathOf(env, c.entries, h) == PathOf(env, d.entries, h)
    ensures c.entries[h] == d.entries[h]
  {
    hide ValidPath, Replay, Work;
    assert EntryOk(env, c.entries, h) && EntryOk(env, d.entries, h);
  }

  /** A covering feed that offers every stored block rebuilds every entry. */
  lemma RebuildsAll(env: Env, c: ChainState, feed: seq<Offer>, h: string)
    requires Inv(env, c) && Covers(env, c, feed) && h in c.entries
    requires h == env.genesisHash || OfferedBefore(feed, |feed|, h)
    ensures h in Run(env, feed).entries && Run(env, feed).entries[h] == c.entries[h]
  {
    hide Inv, CheckBlock, Run, PathOf, GenesisBlock, Covers;
    if h == env.genesisHash {
      GenesisStays(env, c);
      GenesisStays(env, Run(env, feed));
    } else {
      var k :| 0 <= k < |feed| && feed[k].block.hash == h;
      Rebuild(env, c, feed, k);
      PathKept(env, feed, k + 1, h);
    }
    SamePathSameEntry(env, c, Run(env, feed), h);
  }

  // ---- two nodes ----

  ghost predicate SameBlocks(f: seq<Offer>, g: seq<Offer>) {
    && (forall i :: 0 <= i < |f| ==> OfferedBefore(g, |g|, f[i].block.hash))
    && (forall i :: 0 <= i < |g| ==> OfferedBefore(f, |f|, g[i].block.hash))
  }

  /** Across both feeds a hash identifies its block. */
  ghost predicate HashIdentified(f: seq<Offer>, g: seq<Offer>) {
    forall i, j :: 0 <= i < |f| && 0 <= j < |g| && f[i].block.hash == g[j].block.hash ==> f[i].block == g[j].block
  }

  /** Blocks come after their parents, where the feed has these at all. */
  ghost predicate ParentFirst(feed: seq<Offer>) {
    forall k :: 0 <= k < |feed| && OfferedBefore(feed, |feed|, feed[k].block.header.previousHash)
      ==> OfferedBefore(feed, k, feed[k].block.header.previousHash)
  }

  ghost predicate SameClock(feed: seq<Offer>, nowMs: int) {
    forall k :: 0 <= k < |feed| ==> feed[k].nowMs == nowMs
  }

  lemma OneFeedCoversTheOther(env: Env, f: seq<Offer>, g: seq<Offer>, nowMs: int)
    requires SameBlocks(f, g) && HashIdentified(f, g) && ParentFirst(g) && SameClock(f, nowMs) && SameClock(g, nowMs)
    ensures Covers(env, Run(env, f), g)
  {
    hide Inv, Run, PathOf, CheckBlock, NotTooEarly;
    var c := Run(env, f);
    forall k | 0 <= k < |g| && g[k].block.hash in c.entries && g[k].block.hash != env.genesisHash
      ensures CoversAt(env, c, g, k) {
      var b := g[k].block;
      var i := StoredWasOffered(env, f, b.hash);
      assert f[i].block == b;
      AcceptedPath(env, c, b.hash);
      var parent := b.header.previousHash;
      if parent != env.genesisHash {
        var p := StoredWasOffered(env, f, parent);
        assert OfferedBefore(g, |g|, f[p].block.hash);
      }
    }
  }

  /**
   * Two nodes that are offered the same blocks, each parents first and under the same clock, hold the
   * same entries, with equal states and total works, and tips of equal work.
   */
  lemma OrderIndependence(env: Env, f: seq<Offer>, g: seq<Offer>, nowMs: int)
    requires SameBlocks(f, g) && HashIdentified(f, g)
    requires ParentFirst(f) && ParentFirst(g) && SameClock(f, nowMs) && SameClock(g, nowMs)
    ensures
      var c, d := Run(env, f), Run(env, g);
      c.entries == d.entries && c.entries[c.bestHash].totalWork == d.entries[d.bestHash].totalWork
  {
    hide Run, PathOf, CheckBlock, EntryOk, Linked, ParentFirst, SameClock, Covers, NotTooEarly;
    var c, d := Run(env, f), Run(env, g);
    OneFeedCoversTheOther(env, f, g, nowMs);
    OneFeedCoversTheOther(env, g, f, nowMs);
    forall h | h in c.entries ensures h in d.entries && d.entries[h] == c.entries[h] {
      if h != env.genesisHash {
        var i := StoredWasOffered(env, f, h);
        assert OfferedBefore(g, |g|, f[i].block.hash);
      }
      RebuildsAll(env, c, g, h);
    }
    forall h | h in d.entries ensures h in c.entries {
      if h != env.genesisHash {
        var i := StoredWasOffered(env, g, h);
        assert OfferedBefore(f, |f|, g[i].block.hash);
      }
      RebuildsAll(env, d, f, h);
    }
    assert c.entries == d.entries;
  }

  // ---- restart ----

  /** The stored blocks of `c` in ascending height, each offered when the clock admits it. */
  ghost predicate PersistedRows(env: Env, c: ChainState, rows: seq<Offer>) {
    && (forall k :: 0 <= k < |rows| ==>
      && rows[k].block.hash in c.entries && rows[k].block == c.entries[rows[k].block.hash].block
      && NotTooEarly(rows[k].nowMs, rows[k].block))
    && (forall h :: h in c.entries ==> OfferedBefore(rows, |rows|, h))
    && (forall j, k :: 0 <= j < k < |rows| ==> rows[j].block.header.height <= rows[k].block.header.height)
  }

  /** Replaying the persisted blocks by height rebuilds the tree, with a tip of the same work. */
  lemma RestartRestoresTree(env: Env, c: ChainState, rows: seq<Offer>)
    requires Inv(env, c) && PersistedRows(env, c, rows)
    ensures
      var d := Run(env, rows);
      d.entries == c.entries && d.entries[d.bestHash].totalWork == c.entries[c.bestHash].totalWork
  {
    hide Run, PathOf, CheckBlock, EntryOk, Linked, Covers, NotTooEarly;
    RowsCover(env, c, rows);
    var d := Run(env, rows);
    forall h | h in c.entries ensures h in d.entries && d.entries[h] == c.entries[h] {
      RebuildsAll(env, c, rows, h);
    }
    forall h | h in d.entries ensures h in c.entries {
      if h == env.genesisHash {
        GenesisStays(env, c);
      } else {
        var i := StoredWasOffered(env, rows, h);
      }
    }
    assert c.entries == d.entries;
  }

  lemma RowsCover(env: Env, c: ChainState, rows: seq<Offer>)
    requires Inv(env, c) && PersistedRows(env, c, rows)
    ensures Covers(env, c, rows)
  {
    hide Inv, PathOf, CheckBlock, NotTooEarly;
    forall k | 0 <= k < |rows| && rows[k].block.hash in c.entries && rows[k].block.hash != env.genesisHash
      ensures CoversAt(env, c, rows, k)
    {
      var b := rows[k].block;
      AcceptedPath(env, c, b.hash);
      var parent := b.header.previousHash;
      assert OfferedBefore(rows, |rows|, parent);
      var j :| 0 <= j < |rows| && rows[j].block.hash == parent;
      assert rows[j].block.header.height < rows[k].block.header.height;
      assert j < k;
    }
  }
}
