/** Splitting a payment over several transactions: apps/wallet/src/core/transactionPlanner.ts. */
module Planner {
  import opened Prelude
  import opened Types
  import opened SigningText
  import opened Sums
  import Amount

  /** An unspent output with its amount in photons. */
  datatype Utxo = Utxo(txid: string, index: int, address: string, amountPhotons: nat, birthHeight: int)

  datatype Payment = Payment(address: string, amountPhotons: int)

  datatype PlannedChunk = PlannedChunk(from: string, utxos: seq<Utxo>, outputs: seq<Payment>, change: int)

  const INVALID_PARAMS := "invalid parameters"
  const INSUFFICIENT_FUNDS := "insufficient balance"
  const FEE_NOT_COVERED := "selected inputs cannot cover the per-transaction fee"
  const QUEUE_EXHAUSTED := "split plan payment queue exhausted"

  function SumUtxos(utxos: seq<Utxo>): nat {
    if |utxos| == 0 then 0 else SumUtxos(utxos[..|utxos| - 1]) + utxos[|utxos| - 1].amountPhotons
  }

  function SumPayments(payments: seq<Payment>): int {
    if |payments| == 0 then 0 else payments[0].amountPhotons + SumPayments(payments[1..])
  }

  ghost predicate Positive(payments: seq<Payment>) {
    forall p :: p in payments ==> p.amountPhotons > 0
  }

  // ---- one chunk ----

  /** How a chunk is cut: at a change of address, or anywhere. */
  datatype Limits = Limits(fee: int, maxInputs: int, oneAddress: bool)

  /** Where the selection that starts at `start` and has reached `cursor` with `total` ends. */
  function SelectEnd(ordered: seq<Utxo>, start: nat, cursor: nat, total: nat, remaining: int, l: Limits): (end: nat)
    requires start < |ordered| && start <= cursor <= |ordered|
    ensures cursor <= end <= |ordered|
    ensures cursor == start && l.maxInputs >= 1 ==> end > start
    decreases |ordered| - cursor
  {
    if cursor >= |ordered| || cursor - start >= l.maxInputs
       || (l.oneAddress && ordered[cursor].address != ordered[start].address)
    then cursor
    else
      var selectedTotal := total + ordered[cursor].amountPhotons;
      if selectedTotal - l.fee >= remaining then cursor + 1
      else SelectEnd(ordered, start, cursor + 1, selectedTotal, remaining, l)
  }

  datatype Filled = Filled(outputs: seq<Payment>, queue: seq<Payment>)

  /**
   * Takes `toFill` from the front of the queue, splitting the last payment it reaches; None when there is not enough.
   */
  function Fill(queue: seq<Payment>, toFill: int): Option<Filled> {
    if toFill <= 0 then Some(Filled([], queue))
    else if |queue| == 0 || queue[0].amountPhotons <= 0 then None
    else if queue[0].amountPhotons <= toFill then
      match Fill(queue[1..], toFill - queue[0].amountPhotons)
      case None => None
      case Some(f) => Some(Filled([queue[0]] + f.outputs, f.queue))
    else Some(Filled([queue[0].(amountPhotons := toFill)],
                     [queue[0].(amountPhotons := queue[0].amountPhotons - toFill)] + queue[1..]))
  }

  // ---- the plan ----

  function Plan(ordered: seq<Utxo>, queue: seq<Payment>, remaining: int, cursor: nat, l: Limits)
    : Result<seq<PlannedChunk>>
    requires l.maxInputs >= 1 && cursor <= |ordered|
    decreases |ordered| - cursor
  {
    if remaining <= 0 then Ok([])
    else if cursor >= |ordered| then Err(INSUFFICIENT_FUNDS)
    else
      var end := SelectEnd(ordered, cursor, cursor, 0, remaining, l);
      var selected := ordered[cursor..end];
      var spendable := SumUtxos(selected) - l.fee;
      if spendable <= 0 then Err(FEE_NOT_COVERED)
      else
        var payable := if spendable >= remaining then remaining else spendable;
        match Fill(queue, payable)
        case None => Err(QUEUE_EXHAUSTED)
        case Some(f) =>
          var chunk := PlannedChunk(ordered[cursor].address, selected, f.outputs, spendable - payable);
          match Plan(ordered, f.queue, remaining - payable, end, l)
          case Err(e) => Err(e)
          case Ok(rest) => Ok([chunk] + rest)
  }

  function PlanTransfer(ordered: seq<Utxo>, payments: seq<Payment>, l: Limits): Result<seq<PlannedChunk>> {
    if l.maxInputs < 1 || l.maxInputs > MAX_SAFE_INTEGER || l.fee <= 0 then Err(INVALID_PARAMS)
    else if SumUtxos(ordered) < SumPayments(payments) + l.fee then Err(INSUFFICIENT_FUNDS)
    else Plan(ordered, payments, SumPayments(payments), 0, l)
  }

  // ---- what a plan achieves ----

  ghost predicate ChunkOk(c: PlannedChunk, l: Limits) {
    && 0 < |c.utxos| <= l.maxInputs
    && c.from == c.utxos[0].address
    && (l.oneAddress ==> forall k :: 0 <= k < |c.utxos| ==> c.utxos[k].address == c.from)
    && SumUtxos(c.utxos) == SumPayments(c.outputs) + c.change + l.fee
    && c.change >= 0
    && |c.outputs| > 0 && Positive(c.outputs)
  }

  function Inputs(chunks: seq<PlannedChunk>): seq<Utxo> {
    if |chunks| == 0 then [] else chunks[0].utxos + Inputs(chunks[1..])
  }

  function Outputs(chunks: seq<PlannedChunk>): seq<Payment> {
    if |chunks| == 0 then [] else chunks[0].outputs + Outputs(chunks[1..])
  }

  /** What is still owed after the outputs were paid in order; None when one of them pays what is not due. */
  function Settle(queue: seq<Payment>, outputs: seq<Payment>): Option<seq<Payment>>
    decreases |outputs|
  {
    if |outputs| == 0 then Some(queue)
    else if |queue| == 0 || queue[0].address != outputs[0].address
            || !(0 < outputs[0].amountPhotons <= queue[0].amountPhotons) then None
    else
      var left := queue[0].amountPhotons - outputs[0].amountPhotons;
      Settle((if left == 0 then [] else [queue[0].(amountPhotons := left)]) + queue[1..], outputs[1..])
  }

  /** What was filled took exactly `toFill`, and settles in order. */
  ghost predicate FillsUp(queue: seq<Payment>, toFill: int, f: Filled) {
    && Positive(f.outputs) && Positive(f.queue)
    && SumPayments(f.outputs) == toFill && SumPayments(f.queue) == SumPayments(queue) - toFill
    && (toFill > 0 ==> |f.outputs| > 0)
    && Settle(queue, f.outputs) == Some(f.queue)
  }

  lemma WholeHead(queue: seq<Payment>, toFill: int, f: Filled)
    requires Positive(queue) && |queue| > 0 && 0 < queue[0].amountPhotons <= toFill
    requires FillsUp(queue[1..], toFill - queue[0].amountPhotons, f)
    ensures FillsUp(queue, toFill, Filled([queue[0]] + f.outputs, f.queue))
  {
    assert ([queue[0]] + f.outputs)[1..] == f.outputs;
    assert [] + queue[1..] == queue[1..];
    assert Settle(queue, [queue[0]] + f.outputs) == Settle(queue[1..], f.outputs);
  }

  lemma PartOfHead(queue: seq<Payment>, toFill: int)
    requires Positive(queue) && |queue| > 0 && 0 < toFill < queue[0].amountPhotons
    ensures FillsUp(queue, toFill, Fill(queue, toFill).value)
  {
    var head := queue[0];
    var paid, left := head.(amountPhotons := toFill), head.(amountPhotons := head.amountPhotons - toFill);
    assert ([left] + queue[1..])[1..] == queue[1..] && [paid][1..] == [];
    assert Settle(queue, [paid]) == Settle([left] + queue[1..], []);
    assert forall p :: p in queue[1..] ==> p in queue;
  }

  /** Filling from positive payments always works. */
  lemma {:induction false} FillPays(queue: seq<Payment>, toFill: int)
    requires Positive(queue) && 0 <= toFill <= SumPayments(queue)
    ensures Fill(queue, toFill).Some? && FillsUp(queue, toFill, Fill(queue, toFill).value)
  {
    hide Settle;
    if toFill == 0 {
      NothingFilled(queue);
    } else {
      assert |queue| > 0 && queue[0] in queue;
      if queue[0].amountPhotons <= toFill {
        assert forall p :: p in queue[1..] ==> p in queue;
        FillPays(queue[1..], toFill - queue[0].amountPhotons);
        WholeHead(queue, toFill, Fill(queue[1..], toFill - queue[0].amountPhotons).value);
      } else {
        PartOfHead(queue, toFill);
      }
    }
  }

  lemma NothingFilled(queue: seq<Payment>)
    requires Positive(queue)
    ensures FillsUp(queue, 0, Filled([], queue))
  {
  }

  lemma {:induction false} SettleConcat(queue: seq<Payment>, a: seq<Payment>, b: seq<Payment>)
    requires Settle(queue, a).Some?
    ensures Settle(queue, a + b) == Settle(Settle(queue, a).value, b)
    decreases |a|
  {
    if |a| == 0 {
      assert a + b == b;
    } else {
      assert (a + b)[1..] == a[1..] + b;
      var left := queue[0].amountPhotons - a[0].amountPhotons;
      SettleConcat((if left == 0 then [] else [queue[0].(amountPhotons := left)]) + queue[1..], a[1..], b);
    }
  }

  lemma {:induction false} SelectEndBounds(ordered: seq<Utxo>, start: nat, cursor: nat, total: nat, remaining: int,
    l: Limits)
    requires start < |ordered| && start <= cursor <= |ordered| && l.maxInputs >= cursor - start
    requires l.oneAddress ==> forall k :: start <= k < cursor ==> ordered[k].address == ordered[start].address
    ensures
      var end := SelectEnd(ordered, start, cursor, total, remaining, l);
      && end - start <= l.maxInputs
      && (l.oneAddress ==> forall k :: start <= k < end ==> ordered[k].address == ordered[start].address)
    decreases |ordered| - cursor
  {
    if cursor < |ordered| && cursor - start < l.maxInputs
       && !(l.oneAddress && ordered[cursor].address != ordered[start].address) {
      var selectedTotal := total + ordered[cursor].amountPhotons;
      if selectedTotal - l.fee < remaining {
        SelectEndBounds(ordered, start, cursor + 1, selectedTotal, remaining, l);
      }
    }
  }

  /** The last input was needed: without it the chunk would not cover its outputs and its fee. */
  ghost predicate Lean(c: PlannedChunk, l: Limits) {
    |c.utxos| > 0 && SumUtxos(c.utxos[..|c.utxos| - 1]) < SumPayments(c.outputs) + l.fee
  }

  /** A chunk that is not the last one ends at the input cap, or where the address changes. */
  ghost predicate EndsAtLimit(c: PlannedChunk, next: PlannedChunk, l: Limits) {
    |c.utxos| == l.maxInputs || (l.oneAddress && next.from != c.from)
  }

  /** All that a plan promises about the chunks it returns. */
  ghost predicate PlanOk(ordered: seq<Utxo>, queue: seq<Payment>, cursor: nat, l: Limits, chunks: seq<PlannedChunk>)
    requires cursor <= |ordered|
  {
    && Inputs(chunks) <= ordered[cursor..]
    && (forall k :: 0 <= k < |chunks| ==> ChunkOk(chunks[k], l))
    && (forall k :: 0 <= k < |chunks| - 1 ==> chunks[k].change == 0)
    && (forall k :: 0 <= k < |chunks| - 1 ==> EndsAtLimit(chunks[k], chunks[k + 1], l))
    && (|chunks| > 0 ==> Lean(chunks[|chunks| - 1], l))
    && Settle(queue, Outputs(chunks)) == Some([])
  }

  /** So the change is less than the last input. */
  lemma LeanChange(c: PlannedChunk, l: Limits)
    requires ChunkOk(c, l) && Lean(c, l)
    ensures c.change < c.utxos[|c.utxos| - 1].amountPhotons
  {
  }

  /** Without its last input a selection would not cover what remains. */
  lemma {:induction false} SelectionLean(
    ordered: seq<Utxo>, start: nat, cursor: nat, total: nat, remaining: int, l: Limits)
    requires start < |ordered| && start <= cursor <= |ordered|
    ensures
      var end := SelectEnd(ordered, start, cursor, total, remaining, l);
      end > cursor ==> end == cursor + 1 || total + SumUtxos(ordered[cursor..end - 1]) - l.fee < remaining
    decreases |ordered| - cursor
  {
    hide SumUtxos;
    var end := SelectEnd(ordered, start, cursor, total, remaining, l);
    if end > cursor + 1 {
      var selectedTotal := total + ordered[cursor].amountPhotons;
      SelectionLean(ordered, start, cursor + 1, selectedTotal, remaining, l);
      FirstOf(ordered, cursor, end - 1);
      NoneOf(ordered, cursor + 1);
    }
  }

  /** A selection that does not cover what remains took all it could. */
  lemma {:induction false} SelectionFull(
    ordered: seq<Utxo>, start: nat, cursor: nat, total: nat, remaining: int, l: Limits)
    requires start < |ordered| && start <= cursor <= |ordered|
    ensures
      var end := SelectEnd(ordered, start, cursor, total, remaining, l);
      total + SumUtxos(ordered[cursor..end]) - l.fee < remaining && end > cursor ==>
        || end == |ordered| || end - start >= l.maxInputs
        || (l.oneAddress && ordered[end].address != ordered[start].address)
    decreases |ordered| - cursor
  {
    hide SumUtxos;
    var end := SelectEnd(ordered, start, cursor, total, remaining, l);
    if end > cursor {
      var selectedTotal := total + ordered[cursor].amountPhotons;
      FirstOf(ordered, cursor, end);
      NoneOf(ordered, cursor + 1);
      if selectedTotal - l.fee < remaining {
        SelectionFull(ordered, start, cursor + 1, selectedTotal, remaining, l);
      }
    }
  }

  lemma {:induction false} FirstOfRest(ordered: seq<Utxo>, end: nat, l: Limits, rest: seq<PlannedChunk>)
    requires end <= |ordered| && |rest| > 0 && ChunkOk(rest[0], l) && Inputs(rest) <= ordered[end..]
    ensures end < |ordered| && rest[0].from == ordered[end].address
  {
    assert Inputs(rest)[0] == rest[0].utxos[0];
  }

  lemma PlanOkMore(
    ordered: seq<Utxo>, queue: seq<Payment>, cursor: nat, end: nat, l: Limits, chunk: PlannedChunk,
    rest: seq<PlannedChunk>, left: seq<Payment>)
    requires cursor < end <= |ordered| && chunk.utxos == ordered[cursor..end] && ChunkOk(chunk, l)
    requires Settle(queue, chunk.outputs) == Some(left) && PlanOk(ordered, left, end, l, rest)
    requires if |rest| > 0 then chunk.change == 0 else Lean(chunk, l)
    requires |rest| > 0 ==>
      || end == |ordered| || end - cursor == l.maxInputs
      || (l.oneAddress && ordered[end].address != ordered[cursor].address)
    ensures PlanOk(ordered, queue, cursor, l, [chunk] + rest)
  {
    hide Settle, Lean;
    var chunks := [chunk] + rest;
    assert chunks[1..] == rest;
    assert ordered[cursor..] == ordered[cursor..end] + ordered[end..];
    SettleConcat(queue, chunk.outputs, Outputs(rest));
    if |rest| > 0 {
      FirstOfRest(ordered, end, l, rest);
    }
    hide ChunkOk;
    forall k | 0 <= k < |chunks| ensures ChunkOk(chunks[k], l) {
      assert k > 0 ==> chunks[k] == rest[k - 1];
    }
    forall k | 0 <= k < |chunks| - 1
      ensures chunks[k].change == 0 && EndsAtLimit(chunks[k], chunks[k + 1], l)
    {
      if k > 0 {
        assert chunks[k] == rest[k - 1] && chunks[k + 1] == rest[k];
      }
    }
  }

  lemma PlanNothing(ordered: seq<Utxo>, queue: seq<Payment>, cursor: nat, l: Limits)
    requires cursor <= |ordered| && Positive(queue) && SumPayments(queue) == 0
    ensures PlanOk(ordered, queue, cursor, l, [])
  {
    if |queue| > 0 {
      assert queue[0] in queue;
      NotNegative(queue[1..]);
    }
  }

  lemma {:induction false} NotNegative(queue: seq<Payment>)
    requires Positive(queue)
    ensures SumPayments(queue) >= 0
  {
    if |queue| > 0 {
      assert queue[0] in queue;
      NotNegative(queue[1..]);
    }
  }

  /** One chunk of a plan: what is selected, what it pays and what stays owed. */
  lemma FirstChunk(ordered: seq<Utxo>, queue: seq<Payment>, cursor: nat, l: Limits)
    requires l.maxInputs >= 1 && l.fee > 0 && cursor < |ordered| && Positive(queue) && SumPayments(queue) > 0
    ensures
      var remaining := SumPayments(queue);
      var end := SelectEnd(ordered, cursor, cursor, 0, remaining, l);
      var spendable := SumUtxos(ordered[cursor..end]) - l.fee;
      var payable := if spendable >= remaining then remaining else spendable;
      spendable > 0 ==>
        && Fill(queue, payable).Some?
        && var f := Fill(queue, payable).value;
           && Positive(f.queue) && SumPayments(f.queue) == remaining - payable
           && Settle(queue, f.outputs) == Some(f.queue)
           && ChunkOk(PlannedChunk(ordered[cursor].address, ordered[cursor..end], f.outputs, spendable - payable), l)
           && (payable == remaining ==>
             Lean(PlannedChunk(ordered[cursor].address, ordered[cursor..end], f.outputs, spendable - payable), l))
           && (payable < remaining ==>
             || end == |ordered| || end - cursor == l.maxInputs
             || (l.oneAddress && ordered[end].address != ordered[cursor].address))
  {
    hide Settle, Fill, SelectEnd, SumUtxos;
    var remaining := SumPayments(queue);
    SelectEndBounds(ordered, cursor, cursor, 0, remaining, l);
    var end := SelectEnd(ordered, cursor, cursor, 0, remaining, l);
    var spendable := SumUtxos(ordered[cursor..end]) - l.fee;
    var payable := if spendable >= remaining then remaining else spendable;
    SelectionLean(ordered, cursor, cursor, 0, remaining, l);
    SelectionFull(ordered, cursor, cursor, 0, remaining, l);
    SumOfNone();
    assert ordered[cursor..end][..end - cursor - 1] == ordered[cursor..end - 1];
    assert end == cursor + 1 ==> ordered[cursor..end - 1] == [];
    if spendable > 0 {
      FillPays(queue, payable);
    }
  }

  /**
   * Every plan is right: chunks of one address and bounded size, balanced to the photon, over outputs used at
   * most once, with change only at the end, and the payments settled exactly and in order. The queue never runs out.
   */
  lemma {:induction false} PlanIsRight(ordered: seq<Utxo>, queue: seq<Payment>, cursor: nat, l: Limits)
    requires l.maxInputs >= 1 && l.fee > 0 && cursor <= |ordered| && Positive(queue)
    ensures
      var r := Plan(ordered, queue, SumPayments(queue), cursor, l);
      && (r.Ok? ==> PlanOk(ordered, queue, cursor, l, r.value))
      && (r.Err? ==> r.error == INSUFFICIENT_FUNDS || r.error == FEE_NOT_COVERED)
    decreases |ordered| - cursor
  {
    hide Settle, Fill, SelectEnd, SumUtxos, ChunkOk, PlanOk, SumPayments;
    NotNegative(queue);
    var remaining := SumPayments(queue);
    if remaining == 0 {
      PlanNothing(ordered, queue, cursor, l);
    } else if cursor < |ordered| {
      FirstChunk(ordered, queue, cursor, l);
      var end := SelectEnd(ordered, cursor, cursor, 0, remaining, l);
      var spendable := SumUtxos(ordered[cursor..end]) - l.fee;
      if spendable > 0 {
        var payable := if spendable >= remaining then remaining else spendable;
        var f := Fill(queue, payable).value;
        PlanIsRight(ordered, f.queue, end, l);
        var rest := Plan(ordered, f.queue, remaining - payable, end, l);
        if rest.Ok? {
          var chunk := PlannedChunk(ordered[cursor].address, ordered[cursor..end], f.outputs, spendable - payable);
          PlanOkMore(ordered, queue, cursor, end, l, chunk, rest.value, f.queue);
        }
      }
    }
  }

  /** With enough for one fee per output, and no output that does not pay its own fee, there always is a plan. */
  lemma {:induction false} FundsSuffice(ordered: seq<Utxo>, queue: seq<Payment>, cursor: nat, l: Limits)
    requires l.maxInputs >= 1 && l.fee > 0 && cursor <= |ordered| && Positive(queue)
    requires forall k :: cursor <= k < |ordered| ==> ordered[k].amountPhotons > l.fee
    requires SumUtxos(ordered[cursor..]) >= SumPayments(queue) + l.fee * (|ordered| - cursor)
    ensures Plan(ordered, queue, SumPayments(queue), cursor, l).Ok?
    decreases |ordered| - cursor
  {
    hide Settle, Fill, SelectEnd, SumUtxos, ChunkOk, SumPayments, Plan;
    NotNegative(queue);
    var remaining := SumPayments(queue);
    if remaining == 0 {
      PlanDone(ordered, queue, cursor, l);
    } else if cursor == |ordered| {
      assert ordered[cursor..] == [];
      SumOfNone();
    } else {
      FirstChunk(ordered, queue, cursor, l);
      var end := SelectEnd(ordered, cursor, cursor, 0, remaining, l);
      SumSplits(ordered, cursor, end);
      LargeSum(ordered, cursor, end, l.fee);
      FeesSplit(l.fee, |ordered| - cursor, end - cursor);
      var spendable := SumUtxos(ordered[cursor..end]) - l.fee;
      var payable := if spendable >= remaining then remaining else spendable;
      var f := Fill(queue, payable).value;
      if payable == remaining {
        PlanDone(ordered, f.queue, end, l);
      } else {
        FundsSuffice(ordered, f.queue, end, l);
      }
      PlanStep(ordered, queue, cursor, l);
    }
  }

  // ---- exactly when there is a plan ----

  /** Where a chunk that is not the last one ends: at a change of address, at the input cap, or with the outputs. */
  function CutEnd(ordered: seq<Utxo>, start: nat, cursor: nat, l: Limits): (end: nat)
    requires start < |ordered| && start <= cursor <= |ordered|
    ensures cursor <= end <= |ordered|
    ensures cursor == start && l.maxInputs >= 1 ==> end > start
    decreases |ordered| - cursor
  {
    if cursor >= |ordered| || cursor - start >= l.maxInputs
       || (l.oneAddress && ordered[cursor].address != ordered[start].address)
    then cursor
    else CutEnd(ordered, start, cursor + 1, l)
  }

  /** What each full chunk pays once its fee is taken off; the payments have no part in it. */
  function Gains(ordered: seq<Utxo>, cursor: nat, l: Limits): seq<int>
    requires l.maxInputs >= 1 && cursor <= |ordered|
    decreases |ordered| - cursor
  {
    if cursor == |ordered| then []
    else
      var end := CutEnd(ordered, cursor, cursor, l);
      [SumUtxos(ordered[cursor..end]) - l.fee] + Gains(ordered, end, l)
  }

  /** The first `m` chunks cover the amount, and each of them but the last exceeds its fee. */
  ghost predicate Covers(gains: seq<int>, amount: int, m: nat)
    requires m <= |gains|
  {
    (forall j :: 0 <= j < m - 1 ==> gains[j] > 0) && Total(gains[..m]) >= amount
  }

  ghost predicate Affords(gains: seq<int>, amount: int) {
    exists m: nat :: m <= |gains| && Covers(gains, amount, m)
  }

  lemma CoversMore(g: int, rest: seq<int>, amount: int, m: nat)
    requires m <= |rest|
    ensures Covers([g] + rest, amount, m + 1) <==> (m > 0 ==> g > 0) && Covers(rest, amount - g, m)
  {
    var gains := [g] + rest;
    assert gains[..m + 1][1..] == rest[..m];
    if Covers(gains, amount, m + 1) {
      assert forall j :: 0 <= j < m - 1 ==> rest[j] == gains[j + 1];
    }
  }

  lemma AffordsStep(g: int, rest: seq<int>, amount: int)
    requires amount > 0
    ensures Affords([g] + rest, amount) <==> g >= amount || (g > 0 && Affords(rest, amount - g))
  {
    hide Covers;
    var gains := [g] + rest;
    NoChunk(gains, amount);
    CoversMore(g, rest, amount, 0);
    NoChunk(rest, amount - g);
    if Affords(gains, amount) {
      var m: nat :| m <= |gains| && Covers(gains, amount, m);
      CoversMore(g, rest, amount, m - 1);
    }
    if g >= amount {
      assert Covers(gains, amount, 1);
    } else if g > 0 && Affords(rest, amount - g) {
      var m: nat :| m <= |rest| && Covers(rest, amount - g, m);
      CoversMore(g, rest, amount, m);
      assert Covers(gains, amount, m + 1);
    }
  }

  lemma NoChunk(gains: seq<int>, amount: int)
    ensures Covers(gains, amount, 0) <==> amount <= 0
  {
    assert gains[..0] == [];
  }

  /** A chunk that cannot cover what remains is cut where a full one is. */
  lemma {:induction false} SelectedOrCut(
    ordered: seq<Utxo>, start: nat, cursor: nat, total: nat, remaining: int, l: Limits)
    requires start < |ordered| && start <= cursor <= |ordered|
    ensures
      var end, cut := SelectEnd(ordered, start, cursor, total, remaining, l), CutEnd(ordered, start, cursor, l);
      && end <= cut
      && (total + SumUtxos(ordered[cursor..cut]) - l.fee < remaining ==> end == cut)
      && (total + SumUtxos(ordered[cursor..cut]) - l.fee >= remaining && cursor < cut ==>
        total + SumUtxos(ordered[cursor..end]) - l.fee >= remaining)
    decreases |ordered| - cursor
  {
    hide SumUtxos;
    var cut := CutEnd(ordered, start, cursor, l);
    if cursor < cut {
      var selectedTotal := total + ordered[cursor].amountPhotons;
      FirstOf(ordered, cursor, cut);
      if selectedTotal - l.fee < remaining {
        SelectedOrCut(ordered, start, cursor + 1, selectedTotal, remaining, l);
        FirstOf(ordered, cursor, SelectEnd(ordered, start, cursor + 1, selectedTotal, remaining, l));
        NoneOf(ordered, cursor + 1);
      } else {
        FirstOf(ordered, cursor, cursor + 1);
        NoneOf(ordered, cursor + 1);
      }
    }
  }

  lemma FirstOf(ordered: seq<Utxo>, cursor: nat, end: nat)
    requires cursor < end <= |ordered|
    ensures SumUtxos(ordered[cursor..end]) == ordered[cursor].amountPhotons + SumUtxos(ordered[cursor + 1..end])
  {
    var one := [ordered[cursor]];
    assert ordered[cursor..end] == one + ordered[cursor + 1..end];
    SumConcat(one, ordered[cursor + 1..end]);
    assert one[..0] == [];
    assert SumUtxos(one) == SumUtxos(one[..0]) + ordered[cursor].amountPhotons;
  }

  lemma NoneOf(ordered: seq<Utxo>, cursor: nat)
    requires cursor <= |ordered|
    ensures SumUtxos(ordered[cursor..cursor]) == 0
  {
  }

  /**
   * There is a plan exactly when some number of full chunks covers the payments and every one of them but the last
   * exceeds its fee.
   */
  lemma {:induction false} PlanExists(ordered: seq<Utxo>, queue: seq<Payment>, cursor: nat, l: Limits)
    requires l.maxInputs >= 1 && l.fee > 0 && cursor <= |ordered| && Positive(queue)
    ensures
      var total := SumPayments(queue);
      Plan(ordered, queue, total, cursor, l).Ok? <==> Affords(Gains(ordered, cursor, l), total)
    decreases |ordered| - cursor
  {
    hide Fill, SelectEnd, SumUtxos, SumPayments, Settle, ChunkOk, CutEnd, Affords;
    NotNegative(queue);
    var remaining := SumPayments(queue);
    if remaining == 0 {
      NothingToAfford(Gains(ordered, cursor, l));
    } else if cursor == |ordered| {
      NothingToSpend(remaining);
    } else {
      FirstChunk(ordered, queue, cursor, l);
      SelectedOrCut(ordered, cursor, cursor, 0, remaining, l);
      var end, cut := SelectEnd(ordered, cursor, cursor, 0, remaining, l), CutEnd(ordered, cursor, cursor, l);
      var gain := SumUtxos(ordered[cursor..cut]) - l.fee;
      AffordsStep(gain, Gains(ordered, cut, l), remaining);
      if gain >= remaining {
        var f := Fill(queue, remaining).value;
        PlanDone(ordered, f.queue, end, l);
      } else if gain > 0 {
        PlanExists(ordered, Fill(queue, gain).value.queue, cut, l);
      }
    }
  }

  lemma NothingToAfford(gains: seq<int>)
    ensures Affords(gains, 0)
  {
    NoChunk(gains, 0);
  }

  lemma NothingToSpend(amount: int)
    requires amount > 0
    ensures !Affords([], amount)
  {
  }

  /** Either planner succeeds exactly on sound parameters and affordable payments. */
  lemma TransferExists(ordered: seq<Utxo>, payments: seq<Payment>, l: Limits)
    requires |payments| > 0 && Positive(payments)
    ensures
      PlanTransfer(ordered, payments, l).Ok?
      <==> 1 <= l.maxInputs <= MAX_SAFE_INTEGER && l.fee > 0 && Affords(Gains(ordered, 0, l), SumPayments(payments))
  {
    hide Plan, SumUtxos, SumPayments, Affords, Gains;
    SomethingDue(payments);
    if 1 <= l.maxInputs && l.fee > 0 {
      PlanExists(ordered, payments, 0, l);
      assert ordered[0..] == ordered;
      if Affords(Gains(ordered, 0, l), SumPayments(payments)) {
        AffordableIsFunded(ordered, SumPayments(payments), 0, l);
      }
    }
  }

  lemma SomethingDue(payments: seq<Payment>)
    requires |payments| > 0 && Positive(payments)
    ensures SumPayments(payments) > 0
  {
    assert payments[0] in payments;
    NotNegative(payments[1..]);
  }

  /** What is affordable passes the check of the funds. */
  lemma {:induction false} AffordableIsFunded(ordered: seq<Utxo>, amount: int, cursor: nat, l: Limits)
    requires l.maxInputs >= 1 && l.fee > 0 && cursor <= |ordered| && amount > 0
    requires Affords(Gains(ordered, cursor, l), amount)
    ensures SumUtxos(ordered[cursor..]) >= amount + l.fee
    decreases |ordered| - cursor
  {
    hide SumUtxos, CutEnd, Affords;
    if cursor == |ordered| {
      NothingToSpend(amount);
    } else {
      var cut := CutEnd(ordered, cursor, cursor, l);
      var gain := SumUtxos(ordered[cursor..cut]) - l.fee;
      SumSplits(ordered, cursor, cut);
      AffordsStep(gain, Gains(ordered, cut, l), amount);
      if gain < amount {
        AffordableIsFunded(ordered, amount - gain, cut, l);
      }
    }
  }

  /** Funds that suffice do not make a plan: a chunk below the fee blocks those behind it. */
  lemma DustBlocks() returns (ordered: seq<Utxo>, payments: seq<Payment>, l: Limits)
    ensures 1 <= l.maxInputs <= MAX_SAFE_INTEGER && l.fee > 0 && |payments| > 0 && Positive(payments)
    ensures OneAddress(ordered) && SumUtxos(ordered) >= SumPayments(payments) + l.fee * |ordered|
    ensures PlanTransfer(ordered, payments, l) == Err(FEE_NOT_COVERED)
  {
    hide SumUtxos, SumPayments;
    var a, b, c := Utxo("a", 0, "A", 100, 1), Utxo("b", 0, "A", 1, 2), Utxo("c", 0, "A", 100, 3);
    ordered, payments, l := [a, b, c], [Payment("P", 150)], Limits(2, 1, true);
    SumOfThree(a, b, c);
    OneInputChunk(ordered, 0, 150, l);
    OneInputChunk(ordered, 1, 52, l);
    SumOfOne(Payment("P", 150));
    assert [Payment("P", 52)] + payments[1..] == [Payment("P", 52)];
    assert Fill(payments, 98) == Some(Filled([Payment("P", 98)], [Payment("P", 52)]));
    assert Plan(ordered, [Payment("P", 52)], 52, 1, l) == Err(FEE_NOT_COVERED);
  }

  lemma SumOfThree(a: Utxo, b: Utxo, c: Utxo)
    ensures SumUtxos([a, b, c]) == a.amountPhotons + b.amountPhotons + c.amountPhotons
  {
    hide SumUtxos;
    var utxos := [a, b, c];
    FirstOf(utxos, 0, 3);
    FirstOf(utxos, 1, 3);
    FirstOf(utxos, 2, 3);
    NoneOf(utxos, 3);
    assert utxos[0..3] == utxos;
  }

  lemma SumOfOne(p: Payment)
    ensures SumPayments([p]) == p.amountPhotons
  {
    assert [p][1..] == [];
  }

  lemma OneInputChunk(ordered: seq<Utxo>, start: nat, remaining: int, l: Limits)
    requires start < |ordered| && l.maxInputs == 1
    ensures SelectEnd(ordered, start, start, 0, remaining, l) == start + 1
    ensures SumUtxos(ordered[start..start + 1]) == ordered[start].amountPhotons
  {
    hide SumUtxos;
    FirstOf(ordered, start, start + 1);
    NoneOf(ordered, start + 1);
  }

  lemma PlanDone(ordered: seq<Utxo>, queue: seq<Payment>, cursor: nat, l: Limits)
    requires l.maxInputs >= 1 && cursor <= |ordered| && SumPayments(queue) <= 0
    ensures Plan(ordered, queue, SumPayments(queue), cursor, l).Ok?
  {
  }

  /** A plan exists when its first chunk works and the rest has one. */
  lemma PlanStep(ordered: seq<Utxo>, queue: seq<Payment>, cursor: nat, l: Limits)
    requires l.maxInputs >= 1 && cursor < |ordered| && SumPayments(queue) > 0
    requires
      var end := SelectEnd(ordered, cursor, cursor, 0, SumPayments(queue), l);
      var spendable := SumUtxos(ordered[cursor..end]) - l.fee;
      var payable := if spendable >= SumPayments(queue) then SumPayments(queue) else spendable;
      && spendable > 0 && Fill(queue, payable).Some?
      && Plan(ordered, Fill(queue, payable).value.queue, SumPayments(queue) - payable, end, l).Ok?
    ensures Plan(ordered, queue, SumPayments(queue), cursor, l).Ok?
  {
    hide Fill, SelectEnd, SumUtxos, SumPayments;
  }

  lemma FeesSplit(fee: int, n: nat, m: nat)
    requires fee > 0 && 1 <= m <= n
    ensures fee * n == fee * (n - m) + fee * m && fee * m >= fee && fee * (n - m) >= 0
  {
  }

  lemma SumOfNone()
    ensures SumUtxos([]) == 0
  {
  }

  lemma {:induction false} SumConcat(a: seq<Utxo>, b: seq<Utxo>)
    ensures SumUtxos(a + b) == SumUtxos(a) + SumUtxos(b)
  {
    if |b| == 0 {
      assert a + b == a;
    } else {
      assert (a + b)[..|a + b| - 1] == a + b[..|b| - 1];
      SumConcat(a, b[..|b| - 1]);
    }
  }

  lemma SumSplits(ordered: seq<Utxo>, cursor: nat, end: nat)
    requires cursor <= end <= |ordered|
    ensures SumUtxos(ordered[cursor..]) == SumUtxos(ordered[cursor..end]) + SumUtxos(ordered[end..])
  {
    assert ordered[cursor..] == ordered[cursor..end] + ordered[end..];
    SumConcat(ordered[cursor..end], ordered[end..]);
  }

  lemma {:induction false} LargeSum(ordered: seq<Utxo>, cursor: nat, end: nat, fee: int)
    requires cursor < end <= |ordered| && forall k :: cursor <= k < end ==> ordered[k].amountPhotons > fee
    ensures SumUtxos(ordered[cursor..end]) > fee
    decreases end
  {
    assert ordered[cursor..end][..end - cursor - 1] == ordered[cursor..end - 1];
  }

  /** On outputs of a single address the limit to one address per chunk changes nothing. */
  lemma {:induction false} OneAddressSamePlan(
    ordered: seq<Utxo>, queue: seq<Payment>, remaining: int, cursor: nat, fee: int, maxInputs: int)
    requires maxInputs >= 1 && cursor <= |ordered|
    requires forall j, k :: 0 <= j < k < |ordered| ==> ordered[j].address == ordered[k].address
    ensures Plan(ordered, queue, remaining, cursor, Limits(fee, maxInputs, true))
      == Plan(ordered, queue, remaining, cursor, Limits(fee, maxInputs, false))
    decreases |ordered| - cursor
  {
    hide Fill, SelectEnd, SumUtxos;
    if remaining > 0 && cursor < |ordered| {
      SameSelection(ordered, cursor, cursor, 0, remaining, fee, maxInputs);
      var end := SelectEnd(ordered, cursor, cursor, 0, remaining, Limits(fee, maxInputs, true));
      var spendable := SumUtxos(ordered[cursor..end]) - fee;
      var payable := if spendable >= remaining then remaining else spendable;
      if spendable > 0 && Fill(queue, payable).Some? {
        OneAddressSamePlan(ordered, Fill(queue, payable).value.queue, remaining - payable, end, fee, maxInputs);
      }
    }
  }

  lemma {:induction false} SameSelection(
    ordered: seq<Utxo>, start: nat, cursor: nat, total: nat, remaining: int, fee: int, maxInputs: int)
    requires start < |ordered| && start <= cursor <= |ordered|
    requires forall j, k :: 0 <= j < k < |ordered| ==> ordered[j].address == ordered[k].address
    ensures SelectEnd(ordered, start, cursor, total, remaining, Limits(fee, maxInputs, true))
      == SelectEnd(ordered, start, cursor, total, remaining, Limits(fee, maxInputs, false))
    decreases |ordered| - cursor
  {
    if cursor < |ordered| && cursor - start < maxInputs {
      assert start < cursor ==> ordered[start].address == ordered[cursor].address;
      var selectedTotal := total + ordered[cursor].amountPhotons;
      if selectedTotal - fee < remaining {
        SameSelection(ordered, start, cursor + 1, selectedTotal, remaining, fee, maxInputs);
      }
    }
  }

  /** What the sums of outputs and of payments are. */
  lemma {:induction false} SumsAre(utxos: seq<Utxo>, payments: seq<Payment>)
    ensures SumUtxos(utxos) == Total(seq(|utxos|, k requires 0 <= k < |utxos| => utxos[k].amountPhotons as int))
    ensures SumPayments(payments) == Total(seq(|payments|, k requires 0 <= k < |payments| => payments[k].amountPhotons))
  {
    UtxoTotal(utxos);
    PaymentTotal(payments);
  }

  lemma {:induction false} UtxoTotal(utxos: seq<Utxo>)
    ensures SumUtxos(utxos) == Total(seq(|utxos|, k requires 0 <= k < |utxos| => utxos[k].amountPhotons as int))
  {
    hide Total;
    var amounts := seq(|utxos|, k requires 0 <= k < |utxos| => utxos[k].amountPhotons as int);
    if |utxos| > 0 {
      var init := utxos[..|utxos| - 1];
      UtxoTotal(init);
      var rest := seq(|init|, k requires 0 <= k < |init| => init[k].amountPhotons as int);
      assert amounts == rest + [amounts[|init|]];
      TotalSnoc(rest, amounts[|init|]);
    } else {
      assert amounts == [];
      NoTotal();
    }
  }

  lemma {:induction false} PaymentTotal(payments: seq<Payment>)
    ensures SumPayments(payments) == Total(seq(|payments|, k requires 0 <= k < |payments| => payments[k].amountPhotons))
  {
    var amounts := seq(|payments|, k requires 0 <= k < |payments| => payments[k].amountPhotons);
    if |payments| > 0 {
      var rest := payments[1..];
      PaymentTotal(rest);
      assert amounts[1..] == seq(|rest|, k requires 0 <= k < |rest| => rest[k].amountPhotons);
    } else {
      assert amounts == [];
    }
  }

  /** Whatever either planner returns for positive payments is right, and accounts for every photon it takes. */
  lemma TransferIsRight(ordered: seq<Utxo>, payments: seq<Payment>, l: Limits)
    requires Positive(payments)
    ensures
      var r := PlanTransfer(ordered, payments, l);
      && (r.Ok? ==>
        && PlanOk(ordered, payments, 0, l, r.value)
        && SumUtxos(Inputs(r.value)) == SumPayments(Outputs(r.value)) + TotalChange(r.value) + l.fee * |r.value|)
      && (r.Err? ==> r.error != QUEUE_EXHAUSTED)
  {
    hide Plan, PlanOk, SumUtxos, SumPayments;
    var r := PlanTransfer(ordered, payments, l);
    if l.maxInputs >= 1 && l.fee > 0 {
      PlanIsRight(ordered, payments, 0, l);
      if r.Ok? {
        ChunksOfPlan(ordered, payments, l, r.value);
        ChunksBalance(r.value, l);
      }
    }
  }

  lemma {:induction false} LateErrors(
    ordered: seq<Utxo>, queue: seq<Payment>, remaining: int, cursor: nat, l: Limits)
    requires l.maxInputs >= 1 && cursor <= |ordered|
    ensures
      var r := Plan(ordered, queue, remaining, cursor, l);
      r.Err? ==> r.error == INSUFFICIENT_FUNDS || r.error == FEE_NOT_COVERED || r.error == QUEUE_EXHAUSTED
    decreases |ordered| - cursor
  {
    hide SelectEnd, SumUtxos, Fill;
    if remaining > 0 && cursor < |ordered| {
      var end := SelectEnd(ordered, cursor, cursor, 0, remaining, l);
      var spendable := SumUtxos(ordered[cursor..end]) - l.fee;
      var payable := if spendable >= remaining then remaining else spendable;
      var f := Fill(queue, payable);
      if spendable > 0 && f.Some? {
        LateErrors(ordered, f.value.queue, remaining - payable, end, l);
      }
    }
  }

  /** Which failure is reported: unsound parameters first, then missing funds; later on the fee or the funds. */
  lemma PlanErrors(ordered: seq<Utxo>, payments: seq<Payment>, l: Limits)
    requires |payments| > 0 && Positive(payments)
    ensures
      var r := PlanTransfer(ordered, payments, l);
      var sound := 1 <= l.maxInputs <= 9_007_199_254_740_991 && l.fee > 0;
      && (!sound ==> r == Err(INVALID_PARAMS))
      && (sound && SumUtxos(ordered) < SumPayments(payments) + l.fee ==> r == Err(INSUFFICIENT_FUNDS))
      && (sound && r.Err? ==> r.error == INSUFFICIENT_FUNDS || r.error == FEE_NOT_COVERED)
  {
    hide Plan, SumUtxos, SumPayments, PlanOk;
    TransferIsRight(ordered, payments, l);
    if 1 <= l.maxInputs && l.fee > 0 {
      LateErrors(ordered, payments, SumPayments(payments), 0, l);
    }
  }

  function TotalChange(chunks: seq<PlannedChunk>): int {
    if |chunks| == 0 then 0 else chunks[0].change + TotalChange(chunks[1..])
  }

  lemma ChunksOfPlan(ordered: seq<Utxo>, payments: seq<Payment>, l: Limits, chunks: seq<PlannedChunk>)
    requires PlanOk(ordered, payments, 0, l, chunks)
    ensures forall k :: 0 <= k < |chunks| ==> ChunkOk(chunks[k], l)
  {
    hide ChunkOk;
  }

  lemma {:induction false} SumPaymentsConcat(a: seq<Payment>, b: seq<Payment>)
    ensures SumPayments(a + b) == SumPayments(a) + SumPayments(b)
  {
    if |a| == 0 {
      assert a + b == b;
    } else {
      assert (a + b)[1..] == a[1..] + b;
      SumPaymentsConcat(a[1..], b);
    }
  }

  lemma {:induction false} ChunksBalance(chunks: seq<PlannedChunk>, l: Limits)
    requires forall k :: 0 <= k < |chunks| ==> ChunkOk(chunks[k], l)
    ensures SumUtxos(Inputs(chunks)) == SumPayments(Outputs(chunks)) + TotalChange(chunks) + l.fee * |chunks|
  {
    hide SumUtxos, SumPayments;
    if |chunks| == 0 {
      SumOfNone();
      NothingPaid();
    } else {
      ChunksBalance(chunks[1..], l);
      SumConcat(chunks[0].utxos, Inputs(chunks[1..]));
      SumPaymentsConcat(chunks[0].outputs, Outputs(chunks[1..]));
      assert ChunkOk(chunks[0], l);
      assert l.fee * |chunks| == l.fee * |chunks[1..]| + l.fee;
    }
  }

  lemma NothingPaid()
    ensures SumPayments([]) == 0
  {
  }

  // ---- reading the payments ----

  datatype PaymentInput = PaymentInput(address: string, amount: string)

  /** A payment goes to a valid address other than the sender's and is worth something. */
  ghost predicate Payable(env: Env, p: PaymentInput, from: string) {
    && ValidAddress(env, p.address) && p.address != from
    && Amount.Parse(p.amount).Some? && Amount.Parse(p.amount).value > 0
  }

  method NormalizePayments(env: Env, payments: seq<PaymentInput>, from: string) returns (r: Result<seq<Payment>>)
    ensures r.Ok? <==> |payments| > 0 && forall k :: 0 <= k < |payments| ==>
      && ValidAddress(env, payments[k].address) && payments[k].address != from
      && Amount.Parse(payments[k].amount).Some? && Amount.Parse(payments[k].amount).value > 0
    ensures r.Ok? ==>
      && |r.value| == |payments| && Positive(r.value)
      && forall k :: 0 <= k < |payments| ==>
        Amount.Parse(payments[k].amount) == Option<nat>.Some(r.value[k].amountPhotons)
          && r.value[k].address == payments[k].address
  {
    hide ValidAddress, Amount.Parse;
    if |payments| == 0 {
      return Err(INVALID_PARAMS);
    }
    var normalized: seq<Payment> := [];
    for k := 0 to |payments|
      invariant |normalized| == k && Positive(normalized)
      invariant forall j :: 0 <= j < k ==>
        && Payable(env, payments[j], from)
        && Amount.Parse(payments[j].amount) == Option<nat>.Some(normalized[j].amountPhotons)
        && normalized[j].address == payments[j].address
    {
      var payment := payments[k];
      var valid := ValidateAddress(env, payment.address);
      if !valid {
        return Err("invalid address");
      }
      var amountPhotons := Amount.Parse(payment.amount);
      if amountPhotons.None? || amountPhotons.value <= 0 || payment.address == from {
        return Err(INVALID_PARAMS);
      }
      normalized := normalized + [Payment(payment.address, amountPhotons.value)];
    }
    r := Ok(normalized);
  }

  // ---- what settling means per address ----

  function PaidTo(payments: seq<Payment>, address: string): int {
    if |payments| == 0 then 0
    else (if payments[0].address == address then payments[0].amountPhotons else 0) + PaidTo(payments[1..], address)
  }

  /** Outputs that settle the queue pay every address what it is owed. */
  lemma {:induction false} SettledPerAddress(queue: seq<Payment>, outputs: seq<Payment>, address: string)
    requires Settle(queue, outputs).Some?
    ensures PaidTo(outputs, address) + PaidTo(Settle(queue, outputs).value, address) == PaidTo(queue, address)
    decreases |outputs|
  {
    if |outputs| > 0 {
      var left := queue[0].amountPhotons - outputs[0].amountPhotons;
      var next := (if left == 0 then [] else [queue[0].(amountPhotons := left)]) + queue[1..];
      SettledPerAddress(next, outputs[1..], address);
      if left == 0 {
        assert next == queue[1..];
      } else {
        assert next[1..] == queue[1..];
      }
    }
  }

  /** A plan over distinct outputs uses none of them twice. */
  lemma NoOutputTwice(ordered: seq<Utxo>, queue: seq<Payment>, cursor: nat, l: Limits, chunks: seq<PlannedChunk>)
    requires cursor <= |ordered| && PlanOk(ordered, queue, cursor, l, chunks)
    requires forall j, k :: 0 <= j < k < |ordered| ==> ordered[j] != ordered[k]
    ensures
      var used := Inputs(chunks);
      && |used| <= |ordered| - cursor
      && (forall k :: 0 <= k < |used| ==> used[k] == ordered[cursor + k])
      && (forall j, k :: 0 <= j < k < |used| ==> used[j] != used[k])
  {
    hide ChunkOk, Settle, Inputs, Outputs;
    var used := Inputs(chunks);
    assert forall k :: 0 <= k < |used| ==> used[k] == ordered[cursor..][k];
  }

  // ---- the planners ----

  lemma SumNext(ordered: seq<Utxo>, start: nat, cursor: nat)
    requires start <= cursor < |ordered|
    ensures ordered[start..cursor + 1] == ordered[start..cursor] + [ordered[cursor]]
    ensures SumUtxos(ordered[start..cursor + 1]) == SumUtxos(ordered[start..cursor]) + ordered[cursor].amountPhotons
  {
    assert ordered[start..cursor + 1][..cursor - start] == ordered[start..cursor];
  }

  /** The outputs from `start` on that one transaction takes. */
  method SelectInputs(ordered: seq<Utxo>, start: nat, remaining: int, l: Limits)
    returns (selected: seq<Utxo>, selectedTotal: nat, cursor: nat)
    requires start < |ordered|
    ensures cursor == SelectEnd(ordered, start, start, 0, remaining, l)
    ensures selected == ordered[start..cursor] && selectedTotal == SumUtxos(selected)
  {
    hide SumUtxos;
    selected, selectedTotal, cursor := [], 0, start;
    SumOfNone();
    while cursor < |ordered| && |selected| < l.maxInputs
      invariant start <= cursor <= |ordered| && selected == ordered[start..cursor]
        && selectedTotal == SumUtxos(selected)
      invariant SelectEnd(ordered, start, cursor, selectedTotal, remaining, l)
        == SelectEnd(ordered, start, start, 0, remaining, l)
    {
      var utxo := ordered[cursor];
      if l.oneAddress && utxo.address != ordered[start].address {
        break;
      }
      SumNext(ordered, start, cursor);
      selected := selected + [utxo];
      selectedTotal := selectedTotal + utxo.amountPhotons;
      cursor := cursor + 1;
      if selectedTotal - l.fee >= remaining {
        break;
      }
    }
  }

  /** `whole` is what was put out already, followed by what filling the rest gives. */
  predicate Fills(whole: Option<Filled>, outputs: seq<Payment>, rest: Option<Filled>) {
    whole == match rest
      case None => None
      case Some(f) => Some(Filled(outputs + f.outputs, f.queue))
  }

  method FillOutputs(payments: seq<Payment>, payable: int) returns (r: Option<Filled>)
    ensures r == Fill(payments, payable)
  {
    var queue, toFill: int, outputs: seq<Payment> := payments, payable, [];
    EmptyFront(Fill(payments, payable));
    while toFill > 0
      invariant Fills(Fill(payments, payable), outputs, Fill(queue, toFill))
      decreases |queue|, toFill
    {
      if |queue| == 0 || queue[0].amountPhotons <= 0 {
        return None;
      }
      var payment := queue[0];
      if payment.amountPhotons <= toFill {
        OneFilled(Fill(payments, payable), outputs, payment, Fill(queue[1..], toFill - payment.amountPhotons));
        outputs := outputs + [payment];
        toFill := toFill - payment.amountPhotons;
        queue := queue[1..];
      } else {
        outputs := outputs + [payment.(amountPhotons := toFill)];
        queue := [payment.(amountPhotons := payment.amountPhotons - toFill)] + queue[1..];
        break;
      }
    }
    assert toFill <= 0 ==> outputs + [] == outputs;
    r := Some(Filled(outputs, queue));
  }

  lemma EmptyFront(whole: Option<Filled>)
    ensures Fills(whole, [], whole)
  {
    if whole.Some? {
      assert [] + whole.value.outputs == whole.value.outputs;
    }
  }

  lemma OneFilled(whole: Option<Filled>, outputs: seq<Payment>, payment: Payment, rest: Option<Filled>)
    requires Fills(whole, outputs,
      if rest.None? then None else Some(Filled([payment] + rest.value.outputs, rest.value.queue)))
    ensures Fills(whole, outputs + [payment], rest)
  {
    if rest.Some? {
      assert outputs + ([payment] + rest.value.outputs) == outputs + [payment] + rest.value.outputs;
    }
  }

  /** `whole` is the chunks so far, followed by the plan for the rest. */
  predicate Joins(whole: Result<seq<PlannedChunk>>, chunks: seq<PlannedChunk>, rest: Result<seq<PlannedChunk>>) {
    whole == match rest
      case Err(e) => Err(e)
      case Ok(more) => Ok(chunks + more)
  }

  lemma EmptyJoin(whole: Result<seq<PlannedChunk>>)
    ensures Joins(whole, [], whole)
  {
    if whole.Ok? {
      assert [] + whole.value == whole.value;
    }
  }

  lemma OneJoined(
    whole: Result<seq<PlannedChunk>>, chunks: seq<PlannedChunk>, chunk: PlannedChunk, rest: Result<seq<PlannedChunk>>)
    requires Joins(whole, chunks, if rest.Err? then rest else Ok([chunk] + rest.value))
    ensures Joins(whole, chunks + [chunk], rest)
  {
    if rest.Ok? {
      assert chunks + ([chunk] + rest.value) == chunks + [chunk] + rest.value;
    }
  }

  method TotalOf(payments: seq<Payment>) returns (total: int)
    ensures total == SumPayments(payments)
  {
    total := 0;
    assert payments[0..] == payments;
    for k := 0 to |payments|
      invariant total + SumPayments(payments[k..]) == SumPayments(payments)
    {
      assert payments[k..][1..] == payments[k + 1..];
      total := total + payments[k].amountPhotons;
    }
  }

  /** Plans one chunk of the plan at hand. */
  method NextChunk(ordered: seq<Utxo>, queue: seq<Payment>, remaining: int, cursor: nat, l: Limits)
    returns (r: Result<PlannedChunk>, nextQueue: seq<Payment>, nextRemaining: int, nextCursor: nat)
    requires l.maxInputs >= 1 && cursor < |ordered| && remaining > 0
    ensures cursor < nextCursor <= |ordered|
    ensures r.Err? ==> Plan(ordered, queue, remaining, cursor, l) == Err(r.error)
    ensures r.Ok? ==>
      var rest := Plan(ordered, nextQueue, nextRemaining, nextCursor, l);
      Plan(ordered, queue, remaining, cursor, l) == if rest.Err? then rest else Ok([r.value] + rest.value)
  {
    hide SelectEnd, Fill, SumUtxos;
    nextQueue, nextRemaining := queue, remaining;
    var selected, selectedTotal, end := SelectInputs(ordered, cursor, remaining, l);
    nextCursor := end;
    var spendable := selectedTotal - l.fee;
    if spendable <= 0 {
      r := Err(FEE_NOT_COVERED);
      return;
    }
    var isFinal := spendable >= remaining;
    var payable := if isFinal then remaining else spendable;
    nextRemaining := remaining - payable;
    var filled := FillOutputs(queue, payable);
    if filled.None? {
      r := Err(QUEUE_EXHAUSTED);
      return;
    }
    nextQueue := filled.value.queue;
    r := Ok(PlannedChunk(
      selected[0].address, selected, filled.value.outputs, if isFinal then spendable - payable else 0));
  }

  function Flatten(groups: seq<seq<Utxo>>): seq<Utxo> {
    if |groups| == 0 then [] else Flatten(groups[..|groups| - 1]) + groups[|groups| - 1]
  }

  method PlanAddressChunks(groups: seq<seq<Utxo>>, payments: seq<Payment>, fee: int, maxInputs: int)
    returns (r: Result<seq<PlannedChunk>>)
    ensures r == PlanTransfer(Flatten(groups), payments, Limits(fee, maxInputs, true))
  {
    hide Plan, SumUtxos, SumPayments;
    if maxInputs < 1 || maxInputs > MAX_SAFE_INTEGER || fee <= 0 {
      return Err(INVALID_PARAMS);
    }
    var l := Limits(fee, maxInputs, true);
    var totalPayments := TotalOf(payments);
    var ordered := Flatten(groups);
    if SumUtxos(ordered) < totalPayments + fee {
      return Err(INSUFFICIENT_FUNDS);
    }
    var chunks: seq<PlannedChunk>, queue, remaining, cursor: nat := [], payments, totalPayments, 0;
    ghost var whole := Plan(ordered, payments, totalPayments, 0, l);
    EmptyJoin(whole);
    while remaining > 0
      invariant cursor <= |ordered| && Joins(whole, chunks, Plan(ordered, queue, remaining, cursor, l))
      decreases |ordered| - cursor
    {
      if cursor >= |ordered| {
        OutOfOutputs(ordered, queue, remaining, l);
        return Err(INSUFFICIENT_FUNDS);
      }
      var chunk, nextQueue, nextRemaining, nextCursor := NextChunk(ordered, queue, remaining, cursor, l);
      if chunk.Err? {
        return Err(chunk.error);
      }
      OneJoined(whole, chunks, chunk.value, Plan(ordered, nextQueue, nextRemaining, nextCursor, l));
      chunks := chunks + [chunk.value];
      queue, remaining, cursor := nextQueue, nextRemaining, nextCursor;
    }
    NothingRemains(ordered, queue, remaining, cursor, l);
    assert chunks + [] == chunks;
    r := Ok(chunks);
  }

  lemma OutOfOutputs(ordered: seq<Utxo>, queue: seq<Payment>, remaining: int, l: Limits)
    requires l.maxInputs >= 1 && remaining > 0
    ensures Plan(ordered, queue, remaining, |ordered|, l) == Err(INSUFFICIENT_FUNDS)
  {
  }

  lemma NothingRemains(ordered: seq<Utxo>, queue: seq<Payment>, remaining: int, cursor: nat, l: Limits)
    requires l.maxInputs >= 1 && remaining <= 0 && cursor <= |ordered|
    ensures Plan(ordered, queue, remaining, cursor, l) == Ok([])
  {
  }

  method PlanSplitTransfer(
    utxos: seq<Utxo>, payments: seq<Payment>, fee: int, maxInputs: int, localeLeq: (string, string) -> bool)
    returns (r: Result<seq<PlannedChunk>>)
    ensures r == PlanTransfer(SortBy(OldestFirst(localeLeq), utxos), payments, Limits(fee, maxInputs, false))
  {
    hide Plan, SumPayments, SortBy;
    if maxInputs < 1 || maxInputs > MAX_SAFE_INTEGER || fee <= 0 {
      return Err(INVALID_PARAMS);
    }
    var l := Limits(fee, maxInputs, false);
    var totalPayments := TotalOf(payments);
    var sorted := SortBy(OldestFirst(localeLeq), utxos);
    if SumUtxos(sorted) < totalPayments + fee {
      return Err(INSUFFICIENT_FUNDS);
    }
    var chunks: seq<PlannedChunk>, queue, remaining, cursor: nat := [], payments, totalPayments, 0;
    ghost var whole := Plan(sorted, payments, totalPayments, 0, l);
    EmptyJoin(whole);
    while remaining > 0
      invariant cursor <= |sorted| && (remaining > 0 ==> cursor < |sorted|)
      invariant Joins(whole, chunks, Plan(sorted, queue, remaining, cursor, l))
      decreases |sorted| - cursor
    {
      var chunk, nextQueue, nextRemaining, nextCursor := NextChunk(sorted, queue, remaining, cursor, l);
      if chunk.Err? {
        return Err(chunk.error);
      }
      OneJoined(whole, chunks, chunk.value, Plan(sorted, nextQueue, nextRemaining, nextCursor, l));
      chunks := chunks + [chunk.value];
      queue, remaining, cursor := nextQueue, nextRemaining, nextCursor;
      if remaining > 0 && cursor >= |sorted| {
        OutOfOutputs(sorted, queue, remaining, l);
        return Err(INSUFFICIENT_FUNDS);
      }
    }
    NothingRemains(sorted, queue, remaining, cursor, l);
    assert chunks + [] == chunks;
    r := Ok(chunks);
  }

  // ---- ordering ----

  /** A stable sort: equal elements keep their order. */
  function SortBy<T>(leq: (T, T) -> bool, s: seq<T>): seq<T> {
    if |s| == 0 then [] else InsertBy(leq, SortBy(leq, s[..|s| - 1]), s[|s| - 1])
  }

  function InsertBy<T>(leq: (T, T) -> bool, sorted: seq<T>, x: T): seq<T> {
    if |sorted| == 0 || leq(sorted[|sorted| - 1], x) then sorted + [x]
    else InsertBy(leq, sorted[..|sorted| - 1], x) + [sorted[|sorted| - 1]]
  }

  /** By birth height, then identifier in the locale's order, then position. */
  function OldestFirst(localeLeq: (string, string) -> bool): (Utxo, Utxo) -> bool {
    (a: Utxo, b: Utxo) =>
      || a.birthHeight < b.birthHeight
      || (a.birthHeight == b.birthHeight
          && (!localeLeq(b.txid, a.txid) || (localeLeq(a.txid, b.txid) && a.index <= b.index)))
  }

  ghost predicate TotalPreorder<T(!new)>(leq: (T, T) -> bool) {
    && (forall x, y :: leq(x, y) || leq(y, x))
    && forall x, y, z :: leq(x, y) && leq(y, z) ==> leq(x, z)
  }

  ghost predicate Sorted<T(!new)>(leq: (T, T) -> bool, s: seq<T>) {
    forall j, k :: 0 <= j < k < |s| ==> leq(s[j], s[k])
  }

  lemma OldestFirstIsPreorder(localeLeq: (string, string) -> bool)
    requires TotalPreorder(localeLeq)
    ensures TotalPreorder(OldestFirst(localeLeq))
  {
    var leq := OldestFirst(localeLeq);
    forall x, y ensures leq(x, y) || leq(y, x) {
      assert localeLeq(x.txid, y.txid) || localeLeq(y.txid, x.txid);
    }
    forall x, y, z | leq(x, y) && leq(y, z) ensures leq(x, z) {
      assert localeLeq(x.txid, y.txid) && localeLeq(y.txid, z.txid) ==> localeLeq(x.txid, z.txid);
      assert localeLeq(z.txid, x.txid) && localeLeq(x.txid, y.txid) ==> localeLeq(z.txid, y.txid);
      assert localeLeq(y.txid, z.txid) && localeLeq(z.txid, x.txid) ==> localeLeq(y.txid, x.txid);
    }
  }

  lemma {:induction false} InsertByPermutes<T>(leq: (T, T) -> bool, sorted: seq<T>, x: T)
    ensures multiset(InsertBy(leq, sorted, x)) == multiset(sorted) + multiset{x}
  {
    if |sorted| > 0 {
      var init, last := sorted[..|sorted| - 1], sorted[|sorted| - 1];
      assert sorted == init + [last];
      if !leq(last, x) {
        InsertByPermutes(leq, init, x);
      }
    }
  }

  lemma {:induction false} SortByPermutes<T>(leq: (T, T) -> bool, s: seq<T>)
    ensures multiset(SortBy(leq, s)) == multiset(s)
  {
    if |s| > 0 {
      var init, last := s[..|s| - 1], s[|s| - 1];
      assert s == init + [last];
      SortByPermutes(leq, init);
      InsertByPermutes(leq, SortBy(leq, init), last);
    }
  }

  lemma {:induction false} InsertBySorts<T(!new)>(leq: (T, T) -> bool, sorted: seq<T>, x: T)
    requires TotalPreorder(leq) && Sorted(leq, sorted)
    ensures Sorted(leq, InsertBy(leq, sorted, x))
  {
    if |sorted| > 0 {
      var init, last := sorted[..|sorted| - 1], sorted[|sorted| - 1];
      if leq(last, x) {
        assert forall j :: 0 <= j < |sorted| ==> leq(sorted[j], last) || j == |sorted| - 1;
      } else {
        InsertBySorts(leq, init, x);
        InsertByPermutes(leq, init, x);
        var r := InsertBy(leq, init, x);
        forall j | 0 <= j < |r| ensures leq(r[j], last) {
          assert r[j] in multiset(r);
          assert r[j] in init || r[j] == x;
        }
      }
    }
  }

  lemma {:induction false} SortBySorts<T(!new)>(leq: (T, T) -> bool, s: seq<T>)
    requires TotalPreorder(leq)
    ensures Sorted(leq, SortBy(leq, s))
  {
    if |s| > 0 {
      SortBySorts(leq, s[..|s| - 1]);
      InsertBySorts(leq, SortBy(leq, s[..|s| - 1]), s[|s| - 1]);
    }
  }

  /** Sorted, and what ties is in the order of `before`. */
  ghost predicate StablySorted<T(!new)>(leq: (T, T) -> bool, before: (T, T) -> bool, s: seq<T>) {
    forall j, k :: 0 <= j < k < |s| ==> leq(s[j], s[k]) && (leq(s[k], s[j]) ==> before(s[j], s[k]))
  }

  lemma {:induction false} InsertByIsStable<T(!new)>(
    leq: (T, T) -> bool, before: (T, T) -> bool, sorted: seq<T>, x: T)
    requires TotalPreorder(leq) && StablySorted(leq, before, sorted)
    requires forall y :: y in sorted ==> before(y, x)
    ensures StablySorted(leq, before, InsertBy(leq, sorted, x))
  {
    if |sorted| > 0 {
      var init, last := sorted[..|sorted| - 1], sorted[|sorted| - 1];
      if !leq(last, x) {
        InsertByIsStable(leq, before, init, x);
        InsertByPermutes(leq, init, x);
        var r := InsertBy(leq, init, x);
        forall j | 0 <= j < |r| ensures leq(r[j], last) && (leq(last, r[j]) ==> before(r[j], last)) {
          assert r[j] in multiset(r);
          assert r[j] in init || r[j] == x;
        }
      } else {
        assert forall j :: 0 <= j < |sorted| ==> leq(sorted[j], last) || j == |sorted| - 1;
      }
    }
  }

  lemma {:induction false} SortByIsStable<T(!new)>(leq: (T, T) -> bool, before: (T, T) -> bool, s: seq<T>)
    requires TotalPreorder(leq) && forall j, k :: 0 <= j < k < |s| ==> before(s[j], s[k])
    ensures StablySorted(leq, before, SortBy(leq, s))
  {
    if |s| > 0 {
      var init, last := s[..|s| - 1], s[|s| - 1];
      SortByIsStable(leq, before, init);
      SortByPermutes(leq, init);
      forall y | y in SortBy(leq, init) ensures before(y, last) {
        assert y in multiset(SortBy(leq, init));
        assert y in init;
      }
      InsertByIsStable(leq, before, SortBy(leq, init), last);
    }
  }

  // ---- grouping by address ----

  ghost predicate OneAddress(group: seq<Utxo>) {
    |group| > 0 && forall k :: 0 <= k < |group| ==> group[k].address == group[0].address
  }

  function HeadAddress(group: seq<Utxo>): string {
    if |group| == 0 then "" else group[0].address
  }

  /** The outputs of an address, in their order. */
  function Of(utxos: seq<Utxo>, address: string): seq<Utxo> {
    if |utxos| == 0 then []
    else
      var init, last := Of(utxos[..|utxos| - 1], address), utxos[|utxos| - 1];
      if last.address == address then init + [last] else init
  }

  lemma {:induction false} OfNone(utxos: seq<Utxo>, address: string)
    requires forall k :: 0 <= k < |utxos| ==> utxos[k].address != address
    ensures Of(utxos, address) == []
  {
    if |utxos| > 0 {
      OfNone(utxos[..|utxos| - 1], address);
    }
  }

  lemma {:induction false} OfAll(utxos: seq<Utxo>, address: string)
    requires forall k :: 0 <= k < |utxos| ==> utxos[k].address == address
    ensures Of(utxos, address) == utxos
  {
    if |utxos| > 0 {
      OfAll(utxos[..|utxos| - 1], address);
    }
  }

  /** Groups of one address each, no two of the same. */
  ghost predicate Grouped(groups: seq<seq<Utxo>>) {
    && (forall i :: 0 <= i < |groups| ==> OneAddress(groups[i]))
    && forall i, j :: 0 <= i < j < |groups| ==> HeadAddress(groups[i]) != HeadAddress(groups[j])
  }

  ghost predicate NoGroupOf(groups: seq<seq<Utxo>>, address: string) {
    forall i :: 0 <= i < |groups| ==> HeadAddress(groups[i]) != address
  }

  function LargestFirst(): (seq<Utxo>, seq<Utxo>) -> bool {
    (a: seq<Utxo>, b: seq<Utxo>) => SumUtxos(a) >= SumUtxos(b)
  }

  lemma LargestFirstIsPreorder()
    ensures TotalPreorder(LargestFirst())
  {
    hide SumUtxos;
  }

  /** Adding `extra` to a group adds it to the whole. */
  lemma {:induction false} FlattenUpdate(groups: seq<seq<Utxo>>, i: nat, group: seq<Utxo>, extra: multiset<Utxo>)
    requires i < |groups| && multiset(group) == multiset(groups[i]) + extra
    ensures multiset(Flatten(groups[i := group])) == multiset(Flatten(groups)) + extra
  {
    var n := |groups| - 1;
    var front, last := groups[..n], groups[n];
    if i == n {
      assert groups[i := group][..n] == front;
      assert Flatten(groups[i := group]) == Flatten(front) + group;
    } else {
      assert groups[i := group][..n] == front[i := group];
      FlattenUpdate(front, i, group, extra);
      assert Flatten(groups[i := group]) == Flatten(front[i := group]) + last;
    }
    assert Flatten(groups) == Flatten(front) + last;
  }

  lemma FlattenSnoc(groups: seq<seq<Utxo>>, group: seq<Utxo>)
    ensures Flatten(groups + [group]) == Flatten(groups) + group
  {
    assert (groups + [group])[..|groups|] == groups;
  }

  lemma {:induction false} FlattenInsert(leq: (seq<Utxo>, seq<Utxo>) -> bool, groups: seq<seq<Utxo>>, group: seq<Utxo>)
    ensures multiset(Flatten(InsertBy(leq, groups, group))) == multiset(Flatten(groups)) + multiset(group)
  {
    if |groups| == 0 || leq(groups[|groups| - 1], group) {
      FlattenSnoc(groups, group);
    } else {
      var init, last := groups[..|groups| - 1], groups[|groups| - 1];
      FlattenInsert(leq, init, group);
      FlattenSnoc(InsertBy(leq, init, group), last);
    }
  }

  lemma {:induction false} FlattenSort(leq: (seq<Utxo>, seq<Utxo>) -> bool, groups: seq<seq<Utxo>>)
    ensures multiset(Flatten(SortBy(leq, groups))) == multiset(Flatten(groups))
  {
    if |groups| > 0 {
      FlattenSort(leq, groups[..|groups| - 1]);
      FlattenInsert(leq, SortBy(leq, groups[..|groups| - 1]), groups[|groups| - 1]);
    }
  }

  lemma {:induction false} InsertKeepsGrouped(leq: (seq<Utxo>, seq<Utxo>) -> bool, groups: seq<seq<Utxo>>,
    group: seq<Utxo>)
    requires Grouped(groups) && OneAddress(group) && NoGroupOf(groups, HeadAddress(group))
    ensures Grouped(InsertBy(leq, groups, group))
    ensures forall g :: g in InsertBy(leq, groups, group) <==> g in groups || g == group
  {
    hide OneAddress, HeadAddress;
    if !(|groups| == 0 || leq(groups[|groups| - 1], group)) {
      var init, last := groups[..|groups| - 1], groups[|groups| - 1];
      assert groups == init + [last];
      InsertKeepsGrouped(leq, init, group);
      var r: seq<seq<Utxo>> := InsertBy(leq, init, group);
      forall i | 0 <= i < |r| ensures HeadAddress(r[i]) != HeadAddress(last) {
        assert r[i] in r;
      }
    }
  }

  lemma {:induction false} SortKeepsGrouped(leq: (seq<Utxo>, seq<Utxo>) -> bool, groups: seq<seq<Utxo>>)
    requires Grouped(groups)
    ensures Grouped(SortBy(leq, groups))
    ensures forall g :: g in SortBy(leq, groups) <==> g in groups
  {
    hide OneAddress, HeadAddress, InsertBy;
    if |groups| > 0 {
      var init, last := groups[..|groups| - 1], groups[|groups| - 1];
      assert groups == init + [last];
      SortKeepsGrouped(leq, init);
      var sorted: seq<seq<Utxo>> := SortBy(leq, init);
      forall i | 0 <= i < |sorted| ensures HeadAddress(sorted[i]) != HeadAddress(last) {
        assert sorted[i] in init;
      }
      InsertKeepsGrouped(leq, sorted, last);
    }
  }

  lemma SortKeepsAddress(leq: (Utxo, Utxo) -> bool, group: seq<Utxo>)
    requires OneAddress(group)
    ensures OneAddress(SortBy(leq, group)) && HeadAddress(SortBy(leq, group)) == HeadAddress(group)
    ensures multiset(SortBy(leq, group)) == multiset(group)
  {
    SortByPermutes(leq, group);
    var sorted := SortBy(leq, group);
    assert |multiset(sorted)| == |sorted| && |multiset(group)| == |group|;
    forall k | 0 <= k < |sorted| ensures sorted[k].address == group[0].address {
      assert sorted[k] in multiset(sorted);
      assert sorted[k] in group;
    }
  }

  lemma GroupedUpdate(groups: seq<seq<Utxo>>, i: nat, group: seq<Utxo>)
    requires Grouped(groups) && i < |groups| && OneAddress(group) && HeadAddress(group) == HeadAddress(groups[i])
    ensures Grouped(groups[i := group])
  {
    hide OneAddress, HeadAddress;
  }

  lemma GroupedSnoc(groups: seq<seq<Utxo>>, group: seq<Utxo>)
    requires Grouped(groups) && OneAddress(group) && NoGroupOf(groups, HeadAddress(group))
    ensures Grouped(groups + [group])
  {
    hide OneAddress, HeadAddress;
  }

  lemma OneMoreInGroup(groups: seq<seq<Utxo>>, i: nat, utxo: Utxo)
    requires Grouped(groups) && i < |groups| && HeadAddress(groups[i]) == utxo.address
    ensures OneAddress(groups[i] + [utxo]) && HeadAddress(groups[i] + [utxo]) == utxo.address
    ensures multiset(groups[i] + [utxo]) == multiset(groups[i]) + multiset{utxo}
  {
    assert OneAddress(groups[i]);
  }

  /** The bucket of every address holds its outputs in their order. */
  ghost predicate BucketsOf(groups: seq<seq<Utxo>>, utxos: seq<Utxo>) {
    && (forall i :: 0 <= i < |groups| ==> groups[i] == Of(utxos, HeadAddress(groups[i])))
    && forall k :: 0 <= k < |utxos| ==> !NoGroupOf(groups, utxos[k].address)
  }

  /** Where an address occurs first. */
  function PlaceOf(utxos: seq<Utxo>, address: string): (i: nat)
    ensures i <= |utxos| && (i < |utxos| ==> utxos[i].address == address)
    ensures forall k :: 0 <= k < i ==> utxos[k].address != address
  {
    if |utxos| == 0 || utxos[0].address == address then 0 else 1 + PlaceOf(utxos[1..], address)
  }

  lemma PlaceOfSnoc(utxos: seq<Utxo>, utxo: Utxo, address: string)
    ensures PlaceOf(utxos, address) < |utxos| ==> PlaceOf(utxos + [utxo], address) == PlaceOf(utxos, address)
    ensures PlaceOf(utxos, address) == |utxos| && utxo.address == address ==>
      PlaceOf(utxos + [utxo], address) == |utxos|
  {
    var i, j, all := PlaceOf(utxos, address), PlaceOf(utxos + [utxo], address), utxos + [utxo];
    assert all[|utxos|] == utxo;
    assert forall k :: 0 <= k < i ==> all[k].address != address;
    assert i < |utxos| ==> all[i].address == address;
  }

  /** The groups are in the order in which their addresses occur. */
  ghost predicate FirstSeen(groups: seq<seq<Utxo>>, utxos: seq<Utxo>) {
    forall i, j :: 0 <= i < j < |groups| ==> SeenBefore(utxos, groups[i], groups[j])
  }

  predicate SeenBefore(utxos: seq<Utxo>, a: seq<Utxo>, b: seq<Utxo>) {
    PlaceOf(utxos, HeadAddress(a)) < PlaceOf(utxos, HeadAddress(b))
  }

  lemma HeadOccurs(groups: seq<seq<Utxo>>, utxos: seq<Utxo>, i: nat)
    requires Grouped(groups) && BucketsOf(groups, utxos) && i < |groups|
    ensures PlaceOf(utxos, HeadAddress(groups[i])) < |utxos|
  {
    hide PlaceOf, HeadAddress, Of, NoGroupOf;
    var address := HeadAddress(groups[i]);
    if PlaceOf(utxos, address) == |utxos| {
      OfNone(utxos, address);
    }
  }

  lemma SeenMore(groups: seq<seq<Utxo>>, utxos: seq<Utxo>, utxo: Utxo)
    requires Grouped(groups) && BucketsOf(groups, utxos) && FirstSeen(groups, utxos)
    ensures FirstSeen(groups, utxos + [utxo])
    ensures NoGroupOf(groups, utxo.address) ==> FirstSeen(groups + [[utxo]], utxos + [utxo])
  {
    hide PlaceOf, HeadAddress, Grouped, BucketsOf;
    forall i | 0 <= i < |groups|
      ensures PlaceOf(utxos + [utxo], HeadAddress(groups[i])) == PlaceOf(utxos, HeadAddress(groups[i])) < |utxos|
    {
      HeadOccurs(groups, utxos, i);
      PlaceOfSnoc(utxos, utxo, HeadAddress(groups[i]));
    }
    NewGroup(utxo);
    if NoGroupOf(groups, utxo.address) {
      NotSeen(groups, utxos, utxo.address);
      PlaceOfSnoc(utxos, utxo, utxo.address);
    }
  }

  lemma NotSeen(groups: seq<seq<Utxo>>, utxos: seq<Utxo>, address: string)
    requires BucketsOf(groups, utxos) && NoGroupOf(groups, address)
    ensures PlaceOf(utxos, address) == |utxos|
  {
    hide PlaceOf, HeadAddress, Of, NoGroupOf;
  }

  lemma SameHeadsSeen(groups: seq<seq<Utxo>>, other: seq<seq<Utxo>>, utxos: seq<Utxo>)
    requires FirstSeen(groups, utxos) && |groups| == |other|
    requires forall i :: 0 <= i < |groups| ==> HeadAddress(groups[i]) == HeadAddress(other[i])
    ensures FirstSeen(other, utxos)
  {
    hide PlaceOf, HeadAddress;
    forall i, j | 0 <= i < j < |other| ensures SeenBefore(utxos, other[i], other[j]) {
      assert SeenBefore(utxos, groups[i], groups[j]);
    }
  }

  lemma OfSnoc(utxos: seq<Utxo>, utxo: Utxo, address: string)
    ensures Of(utxos + [utxo], address)
      == if utxo.address == address then Of(utxos, address) + [utxo] else Of(utxos, address)
  {
    assert (utxos + [utxo])[..|utxos|] == utxos;
  }

  lemma StillGrouped(groups: seq<seq<Utxo>>, larger: seq<seq<Utxo>>, address: string)
    requires !NoGroupOf(groups, address) && |groups| <= |larger|
    requires forall i :: 0 <= i < |groups| ==> HeadAddress(larger[i]) == HeadAddress(groups[i])
    ensures !NoGroupOf(larger, address)
  {
    hide HeadAddress;
    var i :| 0 <= i < |groups| && HeadAddress(groups[i]) == address;
    assert HeadAddress(larger[i]) == address;
  }

  lemma BucketGrown(groups: seq<seq<Utxo>>, utxos: seq<Utxo>, i: nat, utxo: Utxo)
    requires Grouped(groups) && BucketsOf(groups, utxos) && i < |groups| && HeadAddress(groups[i]) == utxo.address
    ensures BucketsOf(groups[i := groups[i] + [utxo]], utxos + [utxo])
  {
    hide HeadAddress, NoGroupOf, OneAddress, Of;
    var larger := groups[i := groups[i] + [utxo]];
    OneMoreInGroup(groups, i, utxo);
    forall j | 0 <= j < |larger| ensures larger[j] == Of(utxos + [utxo], HeadAddress(larger[j])) {
      OfSnoc(utxos, utxo, HeadAddress(larger[j]));
      assert j < i ==> HeadAddress(groups[j]) != HeadAddress(groups[i]);
      assert j > i ==> HeadAddress(groups[i]) != HeadAddress(groups[j]);
    }
    forall k | 0 <= k < |utxos + [utxo]| ensures !NoGroupOf(larger, (utxos + [utxo])[k].address) {
      HasGroup(groups, i);
      StillGrouped(groups, larger, (utxos + [utxo])[k].address);
    }
  }

  lemma HasGroup(groups: seq<seq<Utxo>>, i: nat)
    requires i < |groups|
    ensures !NoGroupOf(groups, HeadAddress(groups[i]))
  {
    hide HeadAddress;
  }

  lemma BucketOpened(groups: seq<seq<Utxo>>, utxos: seq<Utxo>, utxo: Utxo)
    requires Grouped(groups) && BucketsOf(groups, utxos) && NoGroupOf(groups, utxo.address)
    ensures BucketsOf(groups + [[utxo]], utxos + [utxo])
  {
    hide HeadAddress, NoGroupOf, OneAddress, Of;
    var larger := groups + [[utxo]];
    NewGroup(utxo);
    assert forall k :: 0 <= k < |utxos| ==> utxos[k].address != utxo.address;
    OfNone(utxos, utxo.address);
    NotAmongHeads(groups, utxo.address);
    forall j | 0 <= j < |larger| ensures larger[j] == Of(utxos + [utxo], HeadAddress(larger[j])) {
      OfSnoc(utxos, utxo, HeadAddress(larger[j]));
    }
    HasGroup(larger, |groups|);
    forall k | 0 <= k < |utxos + [utxo]| ensures !NoGroupOf(larger, (utxos + [utxo])[k].address) {
      if k < |utxos| {
        StillGrouped(groups, larger, utxos[k].address);
      }
    }
  }

  lemma NotAmongHeads(groups: seq<seq<Utxo>>, address: string)
    requires NoGroupOf(groups, address)
    ensures forall j :: 0 <= j < |groups| ==> HeadAddress(groups[j]) != address
  {
    hide HeadAddress;
  }

  /** Appends an output to the bucket of its address, or opens one. */
  method AddToBucket(groups: seq<seq<Utxo>>, utxo: Utxo, ghost before: seq<Utxo>) returns (r: seq<seq<Utxo>>)
    requires Grouped(groups) && BucketsOf(groups, before) && FirstSeen(groups, before)
    ensures Grouped(r) && multiset(Flatten(r)) == multiset(Flatten(groups)) + multiset{utxo}
    ensures BucketsOf(r, before + [utxo]) && FirstSeen(r, before + [utxo])
  {
    hide Grouped, HeadAddress, Flatten, BucketsOf, FirstSeen;
    SeenMore(groups, before, utxo);
    for i := 0 to |groups|
      invariant NoGroupOf(groups[..i], utxo.address)
    {
      if HeadAddress(groups[i]) == utxo.address {
        OneMoreInGroup(groups, i, utxo);
        GroupedUpdate(groups, i, groups[i] + [utxo]);
        FlattenUpdate(groups, i, groups[i] + [utxo], multiset{utxo});
        BucketGrown(groups, before, i, utxo);
        SameHeadsSeen(groups, groups[i := groups[i] + [utxo]], before + [utxo]);
        return groups[i := groups[i] + [utxo]];
      }
    }
    assert groups[..|groups|] == groups;
    NewGroup(utxo);
    BucketOpened(groups, before, utxo);
    GroupedSnoc(groups, [utxo]);
    FlattenSnoc(groups, [utxo]);
    r := groups + [[utxo]];
  }

  lemma NewGroup(utxo: Utxo)
    ensures OneAddress([utxo]) && HeadAddress([utxo]) == utxo.address && multiset([utxo]) == multiset{utxo}
  {
  }

  /** Lower birth heights first; then smaller identifiers, as the locale orders them; then smaller indices. */
  ghost predicate OldestAhead(localeLeq: (string, string) -> bool, s: seq<Utxo>) {
    forall j, k :: 0 <= j < k < |s| ==>
      || s[j].birthHeight < s[k].birthHeight
      || (s[j].birthHeight == s[k].birthHeight && localeLeq(s[j].txid, s[k].txid)
          && (localeLeq(s[k].txid, s[j].txid) ==> s[j].index <= s[k].index))
  }

  /** The order in which `PlanSplitTransfer` spends. */
  lemma OldestFirstSorts(localeLeq: (string, string) -> bool, utxos: seq<Utxo>)
    requires TotalPreorder(localeLeq)
    ensures multiset(SortBy(OldestFirst(localeLeq), utxos)) == multiset(utxos)
    ensures OldestAhead(localeLeq, SortBy(OldestFirst(localeLeq), utxos))
  {
    hide SortBy;
    OldestFirstIsPreorder(localeLeq);
    SortBySorts(OldestFirst(localeLeq), utxos);
    SortByPermutes(OldestFirst(localeLeq), utxos);
  }

  /** Every group holds the outputs of its address, oldest first. */
  ghost predicate GroupsOf(groups: seq<seq<Utxo>>, utxos: seq<Utxo>, leq: (Utxo, Utxo) -> bool) {
    forall g :: g in groups ==> g == SortBy(leq, Of(utxos, HeadAddress(g)))
  }

  /**
   * Every output in exactly one group, one group per address, each oldest first, the richest group first.
   */
  method OrderUtxosByAddress(utxos: seq<Utxo>, localeLeq: (string, string) -> bool) returns (groups: seq<seq<Utxo>>)
    ensures multiset(Flatten(groups)) == multiset(utxos) && Grouped(groups)
    ensures GroupsOf(groups, utxos, OldestFirst(localeLeq))
    ensures TotalPreorder(localeLeq) ==> forall i :: 0 <= i < |groups| ==> OldestAhead(localeLeq, groups[i])
    ensures forall i, j :: 0 <= i < j < |groups| ==>
      && SumUtxos(groups[i]) >= SumUtxos(groups[j])
      && (SumUtxos(groups[i]) == SumUtxos(groups[j]) ==>
          PlaceOf(utxos, HeadAddress(groups[i])) < PlaceOf(utxos, HeadAddress(groups[j])))
  {
    hide Grouped, Flatten, SumUtxos, SortBy, BucketsOf, HeadAddress, Of, FirstSeen, PlaceOf, StablySorted;
    var buckets: seq<seq<Utxo>> := [];
    NoBuckets();
    for k := 0 to |utxos|
      invariant Grouped(buckets) && multiset(Flatten(buckets)) == multiset(utxos[..k])
      invariant BucketsOf(buckets, utxos[..k]) && FirstSeen(buckets, utxos[..k])
    {
      assert utxos[..k + 1] == utxos[..k] + [utxos[k]];
      buckets := AddToBucket(buckets, utxos[k], utxos[..k]);
    }
    assert utxos[..|utxos|] == utxos;
    ghost var unsorted := buckets;
    buckets := SortBuckets(buckets, localeLeq, utxos);
    SameHeadsSeen(unsorted, buckets, utxos);
    groups := SortBy(LargestFirst(), buckets);
    FlattenSort(LargestFirst(), buckets);
    SortKeepsGrouped(LargestFirst(), buckets);
    RichestFirst(buckets, utxos);
    if TotalPreorder(localeLeq) {
      GroupsAreSorted(groups, utxos, localeLeq);
    }
  }

  /** Groups of the same value stay in the order in which their addresses occur. */
  lemma RichestFirst(buckets: seq<seq<Utxo>>, utxos: seq<Utxo>)
    requires FirstSeen(buckets, utxos)
    ensures
      var groups := SortBy(LargestFirst(), buckets);
      forall i, j :: 0 <= i < j < |groups| ==>
        && SumUtxos(groups[i]) >= SumUtxos(groups[j])
        && (SumUtxos(groups[i]) == SumUtxos(groups[j]) ==> SeenBefore(utxos, groups[i], groups[j]))
  {
    hide SumUtxos, SortBy, SeenBefore;
    LargestFirstIsPreorder();
    var before := (a, b) => SeenBefore(utxos, a, b);
    SortByIsStable(LargestFirst(), before, buckets);
    var groups := SortBy(LargestFirst(), buckets);
    forall i, j | 0 <= i < j < |groups|
      ensures SumUtxos(groups[i]) >= SumUtxos(groups[j])
      ensures SumUtxos(groups[i]) == SumUtxos(groups[j]) ==> SeenBefore(utxos, groups[i], groups[j])
    {
      assert LargestFirst()(groups[i], groups[j]);
    }
  }

  lemma GroupsAreSorted(groups: seq<seq<Utxo>>, utxos: seq<Utxo>, localeLeq: (string, string) -> bool)
    requires GroupsOf(groups, utxos, OldestFirst(localeLeq)) && TotalPreorder(localeLeq)
    ensures forall i :: 0 <= i < |groups| ==> OldestAhead(localeLeq, groups[i])
  {
    hide SortBy, OldestFirst, TotalPreorder, OldestAhead, HeadAddress, Of;
    forall i | 0 <= i < |groups| ensures OldestAhead(localeLeq, groups[i]) {
      assert groups[i] in groups;
      OldestFirstSorts(localeLeq, Of(utxos, HeadAddress(groups[i])));
    }
  }

  lemma NoBuckets()
    ensures Grouped([]) && Flatten([]) == [] && BucketsOf([], []) && FirstSeen([], [])
  {
  }

  method SortBuckets(buckets: seq<seq<Utxo>>, localeLeq: (string, string) -> bool, ghost utxos: seq<Utxo>)
    returns (r: seq<seq<Utxo>>)
    requires Grouped(buckets) && BucketsOf(buckets, utxos)
    ensures Grouped(r) && multiset(Flatten(r)) == multiset(Flatten(buckets))
    ensures GroupsOf(r, utxos, OldestFirst(localeLeq))
    ensures |r| == |buckets| && forall i :: 0 <= i < |r| ==> HeadAddress(r[i]) == HeadAddress(buckets[i])
  {
    hide Flatten, SortBy, OldestFirst, HeadAddress, Of;
    r := buckets;
    for i := 0 to |buckets|
      invariant |r| == |buckets| && Grouped(r) && multiset(Flatten(r)) == multiset(Flatten(buckets))
      invariant forall j :: i <= j < |r| ==> r[j] == buckets[j]
      invariant forall j :: 0 <= j < |r| ==> HeadAddress(r[j]) == HeadAddress(buckets[j])
      invariant forall j :: 0 <= j < i ==> r[j] == SortBy(OldestFirst(localeLeq), Of(utxos, HeadAddress(r[j])))
    {
      var sorted := SortBy(OldestFirst(localeLeq), r[i]);
      SortKeepsAddress(OldestFirst(localeLeq), r[i]);
      GroupedUpdate(r, i, sorted);
      FlattenUpdate(r, i, sorted, multiset{});
      r := r[i := sorted];
    }
  }

  // ---- both planners on one address ----

  lemma OneGroup(groups: seq<seq<Utxo>>, utxos: seq<Utxo>, leq: (Utxo, Utxo) -> bool)
    requires OneAddress(utxos) && Grouped(groups) && GroupsOf(groups, utxos, leq)
    requires multiset(Flatten(groups)) == multiset(utxos)
    ensures groups == [SortBy(leq, utxos)]
  {
    hide Of;
    forall i | 0 <= i < |groups| ensures HeadAddress(groups[i]) == HeadAddress(utxos) {
      assert groups[i] in groups && OneAddress(groups[i]);
      if HeadAddress(groups[i]) != HeadAddress(utxos) {
        OfNone(utxos, HeadAddress(groups[i]));
      }
    }
    assert utxos[0] in multiset(Flatten(groups));
    assert |groups| == 1;
    OfAll(utxos, HeadAddress(utxos));
    assert groups[0] in groups;
  }

  /**
   * On outputs of a single address, in any order, the planner for several addresses and the planner for one return
   * the same: the same chunks, or the same error.
   */
  lemma OneAddressPlannersAgree(
    utxos: seq<Utxo>, groups: seq<seq<Utxo>>, payments: seq<Payment>, fee: int, maxInputs: int,
    localeLeq: (string, string) -> bool)
    requires OneAddress(utxos) && Grouped(groups) && GroupsOf(groups, utxos, OldestFirst(localeLeq))
    requires multiset(Flatten(groups)) == multiset(utxos)
    ensures
      PlanTransfer(Flatten(groups), payments, Limits(fee, maxInputs, true))
      == PlanTransfer(SortBy(OldestFirst(localeLeq), utxos), payments, Limits(fee, maxInputs, false))
  {
    hide Plan, SumUtxos, SumPayments, SortBy, OldestFirst, GroupsOf;
    var sorted := SortBy(OldestFirst(localeLeq), utxos);
    OneGroup(groups, utxos, OldestFirst(localeLeq));
    assert groups[..0] == [] && Flatten([]) + sorted == sorted;
    SortKeepsAddress(OldestFirst(localeLeq), utxos);
    if maxInputs >= 1 {
      OneAddressSamePlan(sorted, payments, SumPayments(payments), 0, fee, maxInputs);
    }
  }
}
