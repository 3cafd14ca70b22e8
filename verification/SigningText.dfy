/**
 * The text a transaction signs, its identifier, and its shape check:
 * packages/shared/src/crypto/keys.ts and packages/shared/src/transaction.ts.
 */
module SigningText {
  import opened Prelude
  import opened Text
  import opened Types
  import opened Base58
  import Amount

  const ADDRESS_VERSION: byte := 0x21
  const ADDRESS_HASH_LENGTH := 20
  const MAX_TX_INPUTS := 1000
  const MAX_TX_OUTPUTS := 100

  ghost predicate ValidAddress(env: Env, address: string) {
    var c := CheckDecoded(env.doubleSha256, address);
    c.Some? && c.value.version == ADDRESS_VERSION && |c.value.payload| == ADDRESS_HASH_LENGTH
  }

  ghost function AddressOf(env: Env, pubkey: string): string {
    Encoded(WithChecksum(env.doubleSha256, [ADDRESS_VERSION] + env.hash160(pubkey)))
  }

  method ValidateAddress(env: Env, address: string) returns (ok: bool)
    ensures ok == ValidAddress(env, address)
  {
    var decoded := CheckDecode(env.doubleSha256, address);
    ok := decoded.Ok? && decoded.value.version == ADDRESS_VERSION && |decoded.value.payload| == ADDRESS_HASH_LENGTH;
  }

  method AddressFromPublicKey(env: Env, pubkey: string) returns (address: string)
    ensures address == AddressOf(env, pubkey)
  {
    address := CheckEncode(env.doubleSha256, [ADDRESS_VERSION] + env.hash160(pubkey));
  }

  /** Every public key has a valid address, and two keys share it only if their hashes agree. */
  lemma AddressOfKey(env: Env, a: string, b: string)
    ensures ValidAddress(env, AddressOf(env, a))
    ensures AddressOf(env, a) == Encoded([0x21] + env.hash160(a) + env.doubleSha256([0x21] + env.hash160(a))[..4])
    ensures AddressOf(env, a) == AddressOf(env, b) ==> env.hash160(a) == env.hash160(b)
  {
    CheckDecodeOfEncode(env.doubleSha256, [ADDRESS_VERSION] + env.hash160(a));
    CheckDecodeOfEncode(env.doubleSha256, [ADDRESS_VERSION] + env.hash160(b));
  }

  function IntegerText(i: int): string {
    if i < 0 then "-" + DecimalText(-i) else DecimalText(i)
  }

  function InputLine(position: nat, input: Outpoint): string {
    "input:" + DecimalText(position) + ":" + input.txid + ":" + IntegerText(input.index)
  }

  function OutputLine(position: nat, output: Output): string {
    DecimalText(position) + ":" + output.address + ":" + output.amount
  }

  function InputLines(inputs: seq<Outpoint>): (lines: seq<string>)
    ensures |lines| == |inputs|
  {
    seq(|inputs|, k requires 0 <= k < |inputs| => InputLine(k, inputs[k]))
  }

  function OutputLines(outputs: seq<Output>): (lines: seq<string>)
    ensures |lines| == |outputs|
  {
    seq(|outputs|, k requires 0 <= k < |outputs| => OutputLine(k, outputs[k]))
  }

  function TransactionMessage(tx: Transaction): string {
    Join([Join(InputLines(tx.inputs), '\n'), "fee:" + tx.fee, Join(OutputLines(tx.outputs), '\n')], '\n')
  }

  /** The text whose digest is the transaction identifier. */
  function IdPayload(tx: Transaction): string {
    TransactionMessage(tx) + "\n" + tx.signature
  }

  function TransactionId(env: Env, tx: Transaction): HashText {
    (env.sha256Hex)(IdPayload(tx))
  }

  ghost predicate InputShapeOk(input: Outpoint) {
    0 <= input.index <= MAX_SAFE_INTEGER && Hex(input.txid, 64)
  }

  ghost predicate OutputShapeOk(env: Env, output: Output) {
    ValidAddress(env, output.address) && Amount.Parse(output.amount).Some? && Amount.Parse(output.amount).value > 0
  }

  /** What the signing text depends on. */
  ghost predicate ContentOk(env: Env, tx: Transaction) {
    && 0 < |tx.inputs| <= MAX_TX_INPUTS
    && 0 < |tx.outputs| <= MAX_TX_OUTPUTS
    && (forall k :: 0 <= k < |tx.inputs| ==> InputShapeOk(tx.inputs[k]))
    && (forall j, k :: 0 <= j < k < |tx.inputs| ==> tx.inputs[j] != tx.inputs[k])
    && (forall k :: 0 <= k < |tx.outputs| ==> OutputShapeOk(env, tx.outputs[k]))
    && Amount.Parse(tx.fee).Some? && Amount.Parse(tx.fee).value > 0
  }

  ghost predicate ShapeOk(env: Env, tx: Transaction) {
    && ContentOk(env, tx)
    && Hex(tx.pubkey, 66) && Hex(tx.signature, 128)
    && tx.pubkey[0] == '0' && (tx.pubkey[1] == '2' || tx.pubkey[1] == '3')
    && env.verifySignature(tx.pubkey, TransactionMessage(tx), tx.signature)
  }

  /** Photons named by a parsable amount; zero otherwise. */
  function Photons(amount: string): nat {
    var p := Amount.Parse(amount);
    if p.Some? then p.value else 0
  }

  predicate AmountsParse(outputs: seq<Output>) {
    forall k :: 0 <= k < |outputs| ==> Amount.Parse(outputs[k].amount).Some?
  }

  function OutputTotal(outputs: seq<Output>): nat {
    if |outputs| == 0 then 0
    else OutputTotal(outputs[..|outputs| - 1]) + Photons(outputs[|outputs| - 1].amount)
  }

  function Consumed(tx: Transaction): nat {
    OutputTotal(tx.outputs) + Photons(tx.fee)
  }

  method CheckInputs(inputs: seq<Outpoint>) returns (r: Result<()>)
    ensures r.Ok? <==>
      && (forall k :: 0 <= k < |inputs| ==> InputShapeOk(inputs[k]))
      && (forall j, k :: 0 <= j < k < |inputs| ==> inputs[j] != inputs[k])
  {
    var seenInputs: set<Outpoint> := {};
    for index := 0 to |inputs|
      invariant forall k :: 0 <= k < index ==> InputShapeOk(inputs[k])
      invariant forall j, k :: 0 <= j < k < index ==> inputs[j] != inputs[k]
      invariant forall x :: x in seenInputs <==> x in inputs[..index]
    {
      var input := inputs[index];
      if input.index < 0 || input.index > MAX_SAFE_INTEGER {
        return Err("invalid input index");
      }
      if !Hex(input.txid, 64) {
        return Err("txid must be 64-character lowercase hex");
      }
      if input in seenInputs {
        return Err("duplicate input reference");
      }
      seenInputs := seenInputs + {input};
    }
    r := Ok(());
  }

  method CheckOutputs(env: Env, outputs: seq<Output>) returns (r: Result<nat>)
    ensures r.Ok? <==> forall k :: 0 <= k < |outputs| ==> OutputShapeOk(env, outputs[k])
    ensures r.Ok? ==> r.value == OutputTotal(outputs)
  {
    hide ValidAddress, Amount.Parse;
    var outputTotal := 0;
    for index := 0 to |outputs|
      invariant forall k :: 0 <= k < index ==> OutputShapeOk(env, outputs[k])
      invariant outputTotal == OutputTotal(outputs[..index])
    {
      var output := outputs[index];
      assert outputs[..index + 1][..index] == outputs[..index];
      var valid := ValidateAddress(env, output.address);
      if !valid {
        return Err("invalid output address");
      }
      var amount := Amount.Parse(output.amount);
      if amount.None? {
        return Err("invalid output amount");
      }
      if amount.value <= 0 {
        return Err("non-positive output");
      }
      outputTotal := outputTotal + amount.value;
    }
    assert outputs[..|outputs|] == outputs;
    r := Ok(outputTotal);
  }

  method ValidateSignedTransactionShape(env: Env, tx: Transaction) returns (r: Result<nat>)
    ensures r.Ok? <==> ShapeOk(env, tx)
    ensures r.Ok? ==> r.value == Consumed(tx)
  {
    hide ValidAddress, Amount.Parse;
    if |tx.inputs| == 0 || |tx.inputs| > MAX_TX_INPUTS {
      return Err("transaction must contain 1-1000 inputs");
    }
    if |tx.outputs| == 0 || |tx.outputs| > MAX_TX_OUTPUTS {
      return Err("transaction must contain 1-100 outputs");
    }
    var inputsOk := CheckInputs(tx.inputs);
    if inputsOk.Err? {
      return Err(inputsOk.error);
    }
    var outputTotal := CheckOutputs(env, tx.outputs);
    if outputTotal.Err? {
      return outputTotal;
    }
    var fee := Amount.Parse(tx.fee);
    if fee.None? {
      return Err("invalid fee");
    }
    if fee.value <= 0 {
      return Err("fee must be greater than zero");
    }
    if !Hex(tx.pubkey, 66) || !Hex(tx.signature, 128) {
      return Err("public key and signature must be lowercase hex");
    }
    if tx.pubkey[..2] != "02" && tx.pubkey[..2] != "03" {
      return Err("public key must be compressed");
    }
    if !env.verifySignature(tx.pubkey, TransactionMessage(tx), tx.signature) {
      return Err("invalid transaction signature");
    }
    r := Ok(outputTotal.value + fee.value);
  }

  // ---- unique decoding ----

  lemma AddressCharacters(env: Env, address: string)
    requires ValidAddress(env, address)
    ensures ':' !in address && '\n' !in address
  {
  }

  lemma AmountCharacters(s: string)
    requires Amount.Parse(s).Some?
    ensures ':' !in s && '\n' !in s
  {
    Amount.SplitAtPoint(s);
  }

  /** The fields of a line behind its fixed prefix. */
  function InputFields(position: nat, input: Outpoint): seq<string> {
    [DecimalText(position), input.txid, IntegerText(input.index)]
  }

  function OutputFields(position: nat, output: Output): seq<string> {
    [DecimalText(position), output.address, output.amount]
  }

  lemma InputLineFields(position: nat, input: Outpoint)
    requires InputShapeOk(input)
    ensures InputLine(position, input) == "input:" + Join(InputFields(position, input), ':')
    ensures Free(InputFields(position, input), ':')
    ensures '\n' !in InputLine(position, input)
    ensures InputLine(position, input)[0] == 'i'
  {
    JoinThree(DecimalText(position), input.txid, IntegerText(input.index), ':');
  }

  lemma OutputLineFields(env: Env, position: nat, output: Output)
    requires OutputShapeOk(env, output)
    ensures OutputLine(position, output) == Join(OutputFields(position, output), ':')
    ensures Free(OutputFields(position, output), ':')
    ensures '\n' !in OutputLine(position, output)
  {
    AddressCharacters(env, output.address);
    AmountCharacters(output.amount);
    JoinThree(DecimalText(position), output.address, output.amount, ':');
  }

  lemma InputLineInjective(position: nat, a: Outpoint, b: Outpoint)
    requires InputShapeOk(a) && InputShapeOk(b)
    requires InputLine(position, a) == InputLine(position, b)
    ensures a == b
  {
    InputLineFields(position, a);
    InputLineFields(position, b);
    assert Join(InputFields(position, a), ':') == InputLine(position, a)[6..];
    assert Join(InputFields(position, b), ':') == InputLine(position, b)[6..];
    JoinInjective(InputFields(position, a), InputFields(position, b), ':');
    assert InputFields(position, a)[1] == InputFields(position, b)[1];
    assert InputFields(position, a)[2] == InputFields(position, b)[2];
    DecimalRoundTrip(a.index);
    DecimalRoundTrip(b.index);
  }

  lemma OutputLineInjective(env: Env, position: nat, a: Output, b: Output)
    requires OutputShapeOk(env, a) && OutputShapeOk(env, b)
    requires OutputLine(position, a) == OutputLine(position, b)
    ensures a == b
  {
    OutputLineFields(env, position, a);
    OutputLineFields(env, position, b);
    JoinInjective(OutputFields(position, a), OutputFields(position, b), ':');
    assert OutputFields(position, a)[1] == OutputFields(position, b)[1];
    assert OutputFields(position, a)[2] == OutputFields(position, b)[2];
  }

  /** All lines of the signing text: the inputs, the fee, the outputs. */
  function Lines(tx: Transaction): seq<string> {
    InputLines(tx.inputs) + ["fee:" + tx.fee] + OutputLines(tx.outputs)
  }

  lemma MessageIsLines(env: Env, tx: Transaction)
    requires ContentOk(env, tx)
    ensures TransactionMessage(tx) == Join(Lines(tx), '\n')
  {
    var i, f, o := InputLines(tx.inputs), ["fee:" + tx.fee], OutputLines(tx.outputs);
    JoinConcat(i, f, '\n');
    JoinConcat(i + f, o, '\n');
    JoinThree(Join(i, '\n'), f[0], Join(o, '\n'), '\n');
  }

  lemma LinesAreFree(env: Env, tx: Transaction)
    requires ContentOk(env, tx)
    ensures Free(Lines(tx), '\n')
  {
    hide ValidAddress, Amount.Parse, InputLine, OutputLine, Lines;
    var n := |tx.inputs|;
    LineCount(tx);
    AmountCharacters(tx.fee);
    forall k | 0 <= k < |Lines(tx)| ensures '\n' !in Lines(tx)[k] {
      LineAt(tx, k);
      if k < n {
        InputLineFields(k, tx.inputs[k]);
      } else if k > n {
        OutputLineFields(env, k - n - 1, tx.outputs[k - n - 1]);
      }
    }
  }

  lemma LineCount(tx: Transaction)
    ensures |Lines(tx)| == |tx.inputs| + 1 + |tx.outputs|
  {
    hide InputLine, OutputLine;
  }

  lemma LineAt(tx: Transaction, k: nat)
    requires k < |Lines(tx)|
    ensures Lines(tx)[k] ==
      if k < |tx.inputs| then InputLine(k, tx.inputs[k])
      else if k == |tx.inputs| then "fee:" + tx.fee
      else OutputLine(k - |tx.inputs| - 1, tx.outputs[k - |tx.inputs| - 1])
  {
    hide InputLine, OutputLine;
  }

  /** Equal lines come from equal contents: the fee line marks where the inputs end. */
  lemma LinesDetermineContent(env: Env, a: Transaction, b: Transaction)
    requires ContentOk(env, a) && ContentOk(env, b) && Lines(a) == Lines(b)
    ensures a.inputs == b.inputs && a.outputs == b.outputs && a.fee == b.fee
  {
    hide ValidAddress, Amount.Parse, Lines, InputLine, OutputLine;
    SameInputCount(a, b, env);
    var n := |a.inputs|;
    LineCount(a);
    LineCount(b);
    LineAt(a, n);
    LineAt(b, n);
    assert a.fee == ("fee:" + a.fee)[4..] && b.fee == ("fee:" + b.fee)[4..];
    forall k | 0 <= k < n ensures a.inputs[k] == b.inputs[k] {
      LineAt(a, k);
      LineAt(b, k);
      InputLineInjective(k, a.inputs[k], b.inputs[k]);
    }
    forall k | 0 <= k < |a.outputs| ensures a.outputs[k] == b.outputs[k] {
      LineAt(a, n + 1 + k);
      LineAt(b, n + 1 + k);
      OutputLineInjective(env, k, a.outputs[k], b.outputs[k]);
    }
  }

  lemma SameInputCount(a: Transaction, b: Transaction, env: Env)
    requires ContentOk(env, a) && ContentOk(env, b) && Lines(a) == Lines(b)
    ensures |a.inputs| == |b.inputs|
  {
    if |a.inputs| < |b.inputs| {
      LineAt(a, |a.inputs|);
      LineAt(b, |a.inputs|);
      InputLineFields(|a.inputs|, b.inputs[|a.inputs|]);
    } else if |b.inputs| < |a.inputs| {
      LineAt(a, |b.inputs|);
      LineAt(b, |b.inputs|);
      InputLineFields(|b.inputs|, a.inputs[|b.inputs|]);
    }
  }

  /** Two well-shaped transactions with the same signing text have equal inputs, outputs and fee. */
  lemma MessageDeterminesContent(env: Env, a: Transaction, b: Transaction)
    requires ContentOk(env, a) && ContentOk(env, b)
    ensures TransactionMessage(a) == TransactionMessage(b)
            <==> a.inputs == b.inputs && a.outputs == b.outputs && a.fee == b.fee
  {
    if TransactionMessage(a) == TransactionMessage(b) {
      MessageIsLines(env, a);
      MessageIsLines(env, b);
      LinesAreFree(env, a);
      LinesAreFree(env, b);
      JoinInjective(Lines(a), Lines(b), '\n');
      LinesDetermineContent(env, a, b);
    }
  }

  lemma SuffixSplit(m: string, s: string, m': string, s': string)
    requires |s| == |s'| && m + "\n" + s == m' + "\n" + s'
    ensures m == m' && s == s'
  {
    var p := m + "\n" + s;
    assert m == p[..|p| - |s| - 1] == m';
    assert s == p[|p| - |s|..] == s';
  }

  /** Equal identifier payloads also force equal signatures; only the public key is left open. */
  lemma PayloadDeterminesAllButKey(env: Env, a: Transaction, b: Transaction)
    requires ContentOk(env, a) && ContentOk(env, b) && Hex(a.signature, 128) && Hex(b.signature, 128)
    ensures IdPayload(a) == IdPayload(b) <==> a == b.(pubkey := a.pubkey)
  {
    hide ValidAddress, Amount.Parse, TransactionMessage;
    if IdPayload(a) == IdPayload(b) {
      SuffixSplit(TransactionMessage(a), a.signature, TransactionMessage(b), b.signature);
    }
    MessageDeterminesContent(env, a, b);
  }

  /** The text key of an output entry determines the output, for identifiers without a colon. */
  lemma OutpointKeyInjective(a: Outpoint, b: Outpoint)
    requires InputShapeOk(a) && InputShapeOk(b)
    ensures a.txid + ":" + IntegerText(a.index) == b.txid + ":" + IntegerText(b.index) <==> a == b
  {
    var s, t := a.txid + ":" + IntegerText(a.index), b.txid + ":" + IntegerText(b.index);
    if s == t {
      assert a.txid == s[..64] && b.txid == t[..64];
      assert IntegerText(a.index) == s[65..] && IntegerText(b.index) == t[65..];
      DecimalRoundTrip(a.index);
      DecimalRoundTrip(b.index);
    }
  }

  // ---- addresses and signing texts, spelled out ----

  /** An address is valid exactly when it encodes the byte 0x21, some twenty bytes and their checksum. */
  lemma AddressMeans(env: Env, address: string)
    ensures ValidAddress(env, address) <==>
      exists hash: seq<byte> ::
        |hash| == 20 && address == Encoded([0x21] + hash + env.doubleSha256([0x21] + hash)[..4])
  {
    hide Encoded, Decoded;
    if ValidAddress(env, address) {
      CheckEncodeOfDecode(env.doubleSha256, address);
      var c := CheckDecoded(env.doubleSha256, address).value;
      assert |c.payload| == 20 && address == Encoded([0x21] + c.payload + env.doubleSha256([0x21] + c.payload)[..4]);
    }
    if hash: seq<byte> :|
      |hash| == 20 && address == Encoded([0x21] + hash + env.doubleSha256([0x21] + hash)[..4]) {
      CheckDecodeOfEncode(env.doubleSha256, [0x21] + hash);
      assert ([0x21] + hash)[1..] == hash;
    }
  }

  lemma LinesOfOne(input: Outpoint, output: Output, fee: string)
    ensures
      Join([Join([InputLine(0, input)], '\n'), "fee:" + fee, Join([OutputLine(0, output)], '\n')], '\n')
      == InputLine(0, input) + "\n" + ("fee:" + fee) + "\n" + OutputLine(0, output)
  {
    hide InputLine, OutputLine, Join;
    JoinOne(InputLine(0, input), '\n');
    JoinOne(OutputLine(0, output), '\n');
    JoinThree(InputLine(0, input), "fee:" + fee, OutputLine(0, output), '\n');
  }

  /** What the owner of one input signs to pay one output. */
  lemma MessageOfOne(input: Outpoint, output: Output, fee: string, pubkey: string, signature: string)
    ensures
      var tx := Transaction([input], [output], fee, pubkey, signature);
      var message := "input:0:" + input.txid + ":" + IntegerText(input.index) + "\n" + ("fee:" + fee) + "\n"
        + ("0:" + output.address + ":" + output.amount);
      TransactionMessage(tx) == message && IdPayload(tx) == message + "\n" + signature
  {
    hide IntegerText, Join;
    var tx := Transaction([input], [output], fee, pubkey, signature);
    assert InputLines(tx.inputs) == [InputLine(0, input)] && OutputLines(tx.outputs) == [OutputLine(0, output)];
    LinesOfOne(input, output, fee);
    assert DecimalText(0) == "0";
    assert InputLine(0, input) == "input:0:" + input.txid + ":" + IntegerText(input.index);
    assert OutputLine(0, output) == "0:" + output.address + ":" + output.amount;
  }
}
