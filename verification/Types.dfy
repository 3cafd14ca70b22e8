/** Blocks, transactions and the cryptographic environment they are checked in. */
module Types {
  import opened Prelude
  import opened Text
  import opened Base58

  /** Names one transaction output. */
  datatype Outpoint = Outpoint(txid: string, index: int)

  datatype Output = Output(address: string, amount: string)

  datatype Transaction = Transaction(
    inputs: seq<Outpoint>, outputs: seq<Output>, fee: string, pubkey: string, signature: string)

  datatype Coinbase = Coinbase(outputs: seq<Output>)

  datatype Header = Header(
    version: int, height: int, previousHash: string, timestampSeconds: int, difficulty: int,
    merkleRoot: string, powSeed: string, payoutAddress: string)

  datatype Block = Block(
    header: Header, hash: string, nonce: int, coinbase: Option<Coinbase>, transactions: seq<Transaction>)

  /** No block stands before one of smaller height. */
  predicate Ascending(rows: seq<Block>) {
    forall j, k :: 0 <= j < k < |rows| ==> rows[j].header.height <= rows[k].header.height
  }

  type HashText = s: string | Hex(s, 64) witness Zeros64()

  function Zeros64(): (s: string)
    ensures Hex(s, 64) && forall k :: 0 <= k < 64 ==> s[k] == '0'
  {
    seq(64, _ => '0')
  }

  /** Hash160 of a public key. */
  type KeyHash = d: seq<byte> | |d| == 20 witness seq(20, _ => 0)

  /**
   * The cryptographic functions, of which nothing is known but that they are functions.
   * Where a result needs digests not to collide, it says so for the finitely many texts that
   * the chain at hand really hashes.
   */
  datatype Env = Env(
    sha256: seq<byte> -> Digest,
    sha256Hex: string -> HashText,
    doubleSha256: seq<byte> -> Digest,
    hash160: string -> KeyHash,
    verifySignature: (string, string, string) -> bool,
    verifyPow: (seq<byte>, string, int) -> bool,
    genesisHash: HashText,
    genesisSeed: HashText)
}
