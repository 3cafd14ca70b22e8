/** Who may consume an output: over whole chains, only a transaction signed for the address that the output names. */
module Ownership {
  import opened Types
  import opened SigningText
  import opened State
  import opened History
  import opened Conservation

  /** The transaction consumes the output, signed by a key of its address; a reward only six blocks after its birth. */
  ghost predicate ConsumedByOwner(env: Env, tx: Transaction, height: int, k: Outpoint, e: UtxoEntry) {
    && k in tx.inputs
    && AddressOf(env, tx.pubkey) == e.address
    && env.verifySignature(tx.pubkey, TransactionMessage(tx), tx.signature)
    && (e.isCoinbase ==> height >= e.birthHeight + 6)
  }

  lemma CheckedInput(env: Env, entries: Entries, height: int, tx: Transaction, k: Outpoint)
    requires TransactionOk(env, entries, height, tx) && k in InputSet(tx.inputs)
    ensures k in entries && ConsumedByOwner(env, tx, height, k, entries[k])
  {
    hide ContentOk, AddressOf, TransactionMessage;
    var i :| 0 <= i < |tx.inputs| && tx.inputs[i] == k;
    assert InputOk(entries, AddressOf(env, tx.pubkey), height, tx.inputs[i]);
  }

  lemma LastChecked(env: Env, path: seq<Block>, t: nat)
    requires LedgerPath(env, path) && |path| > 1 && t < |path[|path| - 1].transactions|
    ensures path[|path| - 1].header.height == |path| - 1
    ensures
      TransactionOk(env, Replay(env, path[..|path| - 1]).entries, |path| - 1, path[|path| - 1].transactions[t])
  {
    hide TransactionOk, CoinbaseOk, Replay;
    assert BlockOk(env, Replay(env, path[..|path| - 1]), path[|path| - 1]);
  }

  /** The last block consumed what the chain before it held and it does not hold any more. */
  lemma LastConsumer(env: Env, path: seq<Block>, k: Outpoint) returns (t: nat)
    requires LedgerPath(env, path) && |path| > 1 && NoCollisions(env, path)
    requires k in Replay(env, path[..|path| - 1]).entries && k !in Replay(env, path).entries
    ensures t < |path[|path| - 1].transactions|
    ensures ConsumedByOwner(env, path[|path| - 1].transactions[t], path[|path| - 1].header.height, k,
      Replay(env, path[..|path| - 1]).entries[k])
  {
    hide TransactionOk, NoCollisions, Replay, LedgerPath, InputSet, SpentStaysSpent, EntriesWellBorn, SpentBy;
    hide ConsumedByOwner;
    var init := path[..|path| - 1];
    PrefixOfLedgerPath(env, path, |path| - 1);
    NoCollisionsPrefix(env, path, |path| - 1);
    HistoryInvariant(env, init);
    LastBlockEffect(env, path);
    t := SpentMember(path[|path| - 1].transactions, k);
    LastChecked(env, path, t);
    CheckedInput(env, Replay(env, init).entries, |path| - 1, path[|path| - 1].transactions[t], k);
  }

  lemma KeptAlike(env: Env, path: seq<Block>, k: Outpoint)
    requires LedgerPath(env, path) && |path| > 1 && NoCollisions(env, path)
    requires k in Replay(env, path[..|path| - 1]).entries && k in Replay(env, path).entries
    ensures Replay(env, path).entries[k] == Replay(env, path[..|path| - 1]).entries[k]
  {
    hide NoCollisions, Replay, LedgerPath, SpentStaysSpent, EntriesWellBorn, SpentBy;
    var init := path[..|path| - 1];
    PrefixOfLedgerPath(env, path, |path| - 1);
    NoCollisionsPrefix(env, path, |path| - 1);
    HistoryInvariant(env, init);
    LastBlockEffect(env, path);
  }

  /**
   * An output that a chain held at one height and does not hold at a later one was consumed in between, by a
   * transaction that the owner of its address signed, and if it was a reward then six blocks after its birth.
   */
  lemma {:induction false} OnlyOwnersConsume(env: Env, path: seq<Block>, i: nat, j: nat, k: Outpoint)
    returns (m: nat, t: nat)
    requires LedgerPath(env, path) && NoCollisions(env, path) && 1 <= i <= j <= |path|
    requires k in Replay(env, path[..i]).entries && k !in Replay(env, path[..j]).entries
    ensures i <= m < j && path[m].header.height == m && t < |path[m].transactions|
    ensures ConsumedByOwner(env, path[m].transactions[t], m, k, Replay(env, path[..i]).entries[k])
    decreases j - i
  {
    hide NoCollisions, Replay, LedgerPath, ConsumedByOwner;
    var next := path[..i + 1];
    PrefixOfLedgerPath(env, path, i + 1);
    NoCollisionsPrefix(env, path, i + 1);
    assert next[..|next| - 1] == path[..i];
    HeightOfLast(env, next);
    if k in Replay(env, next).entries {
      KeptAlike(env, next, k);
      m, t := OnlyOwnersConsume(env, path, i + 1, j, k);
    } else {
      m := i;
      t := LastConsumer(env, next, k);
    }
  }

  lemma HeightOfLast(env: Env, path: seq<Block>)
    requires LedgerPath(env, path) && |path| > 1
    ensures path[|path| - 1].header.height == |path| - 1
  {
    hide BlockOk, Replay;
  }
}
