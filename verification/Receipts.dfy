/** What a receipt says an account's tokens did: read once by the writer
  * (worker/src/fills.ts) and once more, independently, by the verifier
  * (worker/src/audit.ts). */
module Receipts {
  import opened Text
  import Sorting

  /** One emitted log. `data` is what `BigInt(log.data)` yields, None when it throws. */
  datatype Log = Log(address: string, topics: seq<string>, data: Option<int>)

  datatype Receipt = Receipt(status: string, logs: seq<Log>)

  /** topic0 of Transfer(address,address,uint256). */
  const TRANSFER_TOPIC := "0xddf252ad1be2c89b69c2b068fc378daa952ba7f163c4a11628f55a4df523b3ef"

  /** cashUnits(0.000001) at 18 decimals. */
  const CASH_COMPARE_TOLERANCE := 1_000_000_000_000

  function AddressFromTopic(topic: string): string {
    Lower("0x" + Last(topic, 40))
  }

  // ── the meaning: a sum over the Transfer logs ──────────────────────────────

  predicate IsTransfer(log: Log) {
    |log.topics| >= 3 && Lower(log.topics[0]) == TRANSFER_TOPIC && log.data.Some?
  }

  function From(log: Log): string
    requires IsTransfer(log)
  {
    AddressFromTopic(log.topics[1])
  }

  function To(log: Log): string
    requires IsTransfer(log)
  {
    AddressFromTopic(log.topics[2])
  }

  predicate Touches(log: Log, me: string) {
    IsTransfer(log) && (From(log) == me || To(log) == me)
  }

  /** What one log adds to `me`'s balance of `token`. */
  function Effect(log: Log, me: string, token: string): int {
    if IsTransfer(log) && Lower(log.address) == token then
      (if To(log) == me then log.data.value else 0) - (if From(log) == me then log.data.value else 0)
    else 0
  }

  function Delta(logs: seq<Log>, me: string, token: string): int {
    if logs == [] then 0
    else Delta(logs[..|logs| - 1], me, token) + Effect(logs[|logs| - 1], me, token)
  }

  predicate Touched(logs: seq<Log>, me: string, token: string) {
    logs != [] &&
    (Touched(logs[..|logs| - 1], me, token) ||
     (Touches(logs[|logs| - 1], me) && Lower(logs[|logs| - 1].address) == token))
  }

  /** The account's own ledger of the transaction: one entry per token it touched. */
  ghost predicate IsDeltaMap(m: map<string, int>, logs: seq<Log>, me: string) {
    forall token ::
      && (token in m <==> Touched(logs, me, token))
      && Get(m, token) == Delta(logs, me, token)
  }

  function Get(deltas: map<string, int>, token: string): int {
    if token in deltas then deltas[token] else 0
  }

  /** The receipt determines its delta map. */
  lemma DeltaMapIsUnique(m: map<string, int>, n: map<string, int>, logs: seq<Log>, me: string)
    requires IsDeltaMap(m, logs, me) && IsDeltaMap(n, logs, me)
    ensures m == n
  {
    assert forall token :: token in m <==> token in n;
    forall token | token in m
      ensures m[token] == n[token]
    {
      assert Get(m, token) == Get(n, token);
    }
  }

  lemma SkipLog(m: map<string, int>, logs: seq<Log>, i: nat, me: string)
    requires i < |logs| && IsDeltaMap(m, logs[..i], me)
    requires !Touches(logs[i], me)
    ensures IsDeltaMap(m, logs[..i + 1], me)
  {
    assert logs[..i + 1][..i] == logs[..i];
  }

  lemma BookLog(m: map<string, int>, logs: seq<Log>, i: nat, me: string)
    requires i < |logs| && IsDeltaMap(m, logs[..i], me)
    requires Touches(logs[i], me)
    ensures var token := Lower(logs[i].address);
            IsDeltaMap(m[token := Get(m, token) + Effect(logs[i], me, token)], logs[..i + 1], me)
  {
    assert logs[..i + 1][..i] == logs[..i];
    var token := Lower(logs[i].address);
    var n := m[token := Get(m, token) + Effect(logs[i], me, token)];
    forall t
      ensures && (t in n <==> Touched(logs[..i + 1], me, t))
              && Get(n, t) == Delta(logs[..i + 1], me, t)
    {
      assert Get(m, t) == Delta(logs[..i], me, t);
    }
  }

  // ── the writer's parser ────────────────────────────────────────────────────

  method NetTokenDeltas(logs: seq<Log>, account: string) returns (deltas: map<string, int>)
    ensures IsDeltaMap(deltas, logs, Lower(account))
  {
    var me := Lower(account);
    deltas := map[];
    for i := 0 to |logs|
      invariant IsDeltaMap(deltas, logs[..i], me)
    {
      var log := logs[i];
      if Touches(log, me) { BookLog(deltas, logs, i, me); } else { SkipLog(deltas, logs, i, me); }
      if |log.topics| < 3 { continue; }
      if Lower(log.topics[0]) != TRANSFER_TOPIC { continue; }
      var sender := AddressFromTopic(log.topics[1]);
      var recipient := AddressFromTopic(log.topics[2]);
      if sender != me && recipient != me { continue; }
      if log.data.None? { continue; }
      var token := Lower(log.address);
      var delta := if token in deltas then deltas[token] else 0;
      if recipient == me { delta := delta + log.data.value; }
      if sender == me { delta := delta - log.data.value; }
      deltas := deltas[token := delta];
    }
    assert logs[..|logs|] == logs;
  }

  // ── the verifier's parser ──────────────────────────────────────────────────

  method ReceiptDeltas(receipt: Receipt, account: string) returns (out: map<string, int>)
    ensures IsDeltaMap(out, receipt.logs, Lower(account))
  {
    var me := Lower(account);
    var logs := receipt.logs;
    out := map[];
    for i := 0 to |logs|
      invariant IsDeltaMap(out, logs[..i], me)
    {
      var log := logs[i];
      if Touches(log, me) { BookLog(out, logs, i, me); } else { SkipLog(out, logs, i, me); }
      if |log.topics| < 3 || Lower(log.topics[0]) != TRANSFER_TOPIC { continue; }
      var from := Lower("0x" + Last(log.topics[1], 40));
      var to := Lower("0x" + Last(log.topics[2], 40));
      if from != me && to != me { continue; }
      if log.data.None? { continue; }
      var token := Lower(log.address);
      var d := if token in out then out[token] else 0;
      if to == me { d := d + log.data.value; }
      if from == me { d := d - log.data.value; }
      out := out[token := d];
    }
    assert logs[..|logs|] == logs;
  }

  /** Whoever reads the receipt, and whichever parser they use, the answer is one map. */
  method CrossCheck(logs: seq<Log>, status: string, account: string) returns (agree: bool)
    ensures agree
  {
    var written := NetTokenDeltas(logs, account);
    var verified := ReceiptDeltas(Receipt(status, logs), account);
    DeltaMapIsUnique(written, verified, logs, Lower(account));
    agree := written == verified;
  }

  // ── what a receipt is made of ──────────────────────────────────────────────

  /** A token movement (EIP-20, section "Events") between two 20-byte addresses in hex. */
  datatype Transfer = Transfer(token: string, from: string, to: string, amount: nat)

  predicate IsAddress(a: string) {
    |a| == 42 && a[..2] == "0x"
  }

  /** An indexed address is left-padded to 32 bytes. */
  function Topic(a: string): string
    requires IsAddress(a)
  {
    "0x" + "000000000000000000000000" + a[2..]
  }

  /** The log the token emits; `signature` is the hash of the event's own. */
  function Emitted(t: Transfer, signature: string): Log
    requires IsAddress(t.from) && IsAddress(t.to)
  {
    Log(t.token, [signature, Topic(t.from), Topic(t.to)], Some(t.amount))
  }

  lemma TopicNamesTheAddress(a: string)
    requires IsAddress(a)
    ensures AddressFromTopic(Topic(a)) == Lower(a)
  {
    assert Last(Topic(a), 40) == a[2..];
    assert "0x" + a[2..] == a;
  }

  /** What a transfer is to an account: what it receives of the token, less what it sends. */
  function Gain(t: Transfer, account: string, token: string): int {
    if !Same(t.token, token) then 0
    else (if Same(t.to, account) then t.amount else 0) - (if Same(t.from, account) then t.amount else 0)
  }

  function NetGain(ts: seq<Transfer>, account: string, token: string): int {
    if ts == [] then 0 else NetGain(ts[..|ts| - 1], account, token) + Gain(ts[|ts| - 1], account, token)
  }

  function LogsOf(ts: seq<Transfer>, signature: string): (logs: seq<Log>)
    requires forall t <- ts :: IsAddress(t.from) && IsAddress(t.to)
  {
    seq(|ts|, i requires 0 <= i < |ts| => assert ts[i] in ts; Emitted(ts[i], signature))
  }

  lemma EmittedCounts(t: Transfer, signature: string, account: string, token: string)
    requires IsAddress(t.from) && IsAddress(t.to) && Lower(signature) == TRANSFER_TOPIC
    ensures Effect(Emitted(t, signature), Lower(account), Lower(token)) == Gain(t, account, token)
  {
    TopicNamesTheAddress(t.from);
    TopicNamesTheAddress(t.to);
  }

  /** The deltas of a receipt are what its transfers moved, whatever letter case its topics
    * and addresses are written in. */
  lemma {:induction false} DeltaIsTheNetGain(ts: seq<Transfer>, signature: string, account: string, token: string)
    requires forall t <- ts :: IsAddress(t.from) && IsAddress(t.to)
    requires Lower(signature) == TRANSFER_TOPIC
    ensures Delta(LogsOf(ts, signature), Lower(account), Lower(token)) == NetGain(ts, account, token)
  {
    if ts != [] {
      var n := |ts| - 1;
      assert ts[n] in ts && forall t <- ts[..n] :: t in ts;
      var logs := LogsOf(ts, signature);
      assert logs[..n] == LogsOf(ts[..n], signature);
      DeltaIsTheNetGain(ts[..n], signature, account, token);
      EmittedCounts(ts[n], signature, account, token);
    }
  }

  /** Any other log moves nothing: another event, one with fewer topics, or one whose amount
    * cannot be read. */
  lemma OtherLogsMoveNothing(log: Log, me: string, token: string)
    requires |log.topics| < 3 || Lower(log.topics[0]) != TRANSFER_TOPIC || log.data.None?
    ensures Effect(log, me, token) == 0 && !Touches(log, me)
  {
  }

  // ── transfers neither create nor destroy tokens ────────────────────────────

  /** Every sender and recipient (mints and burns name the zero address) is listed. */
  predicate Covers(accounts: seq<string>, logs: seq<Log>) {
    forall log | log in logs && IsTransfer(log) :: From(log) in accounts && To(log) in accounts
  }

  function TotalDelta(accounts: seq<string>, logs: seq<Log>, token: string): int {
    if accounts == [] then 0 else Delta(logs, accounts[0], token) + TotalDelta(accounts[1..], logs, token)
  }

  function TotalEffect(accounts: seq<string>, log: Log, token: string): int {
    if accounts == [] then 0 else Effect(log, accounts[0], token) + TotalEffect(accounts[1..], log, token)
  }

  lemma {:induction false} OneLogBalances(accounts: seq<string>, log: Log, token: string)
    requires Sorting.Distinct(accounts)
    ensures TotalEffect(accounts, log, token) ==
            if IsTransfer(log) && Lower(log.address) == token
            then (if To(log) in accounts then log.data.value else 0) -
                 (if From(log) in accounts then log.data.value else 0)
            else 0
  {
    if accounts != [] {
      OneLogBalances(accounts[1..], log, token);
      assert forall a :: a in accounts <==> a == accounts[0] || a in accounts[1..];
    }
  }

  lemma {:induction false} TotalSplits(accounts: seq<string>, logs: seq<Log>, token: string)
    requires logs != []
    ensures TotalDelta(accounts, logs, token) ==
            TotalDelta(accounts, logs[..|logs| - 1], token) + TotalEffect(accounts, logs[|logs| - 1], token)
  {
    if accounts != [] {
      TotalSplits(accounts[1..], logs, token);
    }
  }

  lemma {:induction false} NobodyTouches(accounts: seq<string>, token: string)
    ensures TotalDelta(accounts, [], token) == 0
  {
    if accounts != [] { NobodyTouches(accounts[1..], token); }
  }

  /** Summed over all the accounts of a receipt, each token's deltas are zero. */
  lemma {:induction false} DeltasSumToZero(accounts: seq<string>, logs: seq<Log>, token: string)
    requires Sorting.Distinct(accounts) && Covers(accounts, logs)
    ensures TotalDelta(accounts, logs, token) == 0
  {
    if logs == [] {
      NobodyTouches(accounts, token);
    } else {
      DeltasSumToZero(accounts, logs[..|logs| - 1], token);
      TotalSplits(accounts, logs, token);
      OneLogBalances(accounts, logs[|logs| - 1], token);
      assert logs[|logs| - 1] in logs;
    }
  }

  // ── the fill the writer books ──────────────────────────────────────────────

  datatype Side = Buy | Sell

  /** `priceUsd`, a display ratio, is not carried. */
  datatype ReceiptFill = ReceiptFill(side: Side, symbol: string, qtyRaw: int, cashUsdg: int)

  function FillFromDeltas(deltas: map<string, int>, usdgToken: string, stockToken: string, symbol: string)
    : Option<ReceiptFill>
  {
    var usdgDelta := Get(deltas, Lower(usdgToken));
    var stockDelta := Get(deltas, Lower(stockToken));
    if usdgDelta == 0 || stockDelta == 0 then None
    else if usdgDelta < 0 && stockDelta > 0 then Some(ReceiptFill(Buy, symbol, stockDelta, -usdgDelta))
    else if usdgDelta > 0 && stockDelta < 0 then Some(ReceiptFill(Sell, symbol, -stockDelta, usdgDelta))
    else None
  }

  /** A receipt is read as a fill exactly when cash and stock moved in opposite directions,
    * and then with the very amounts: a buy when the cash went out. */
  lemma FillIffOppositeLegs(
    deltas: map<string, int>, logs: seq<Log>, account: string, usdgToken: string, stockToken: string, symbol: string)
    requires IsDeltaMap(deltas, logs, Lower(account))
    ensures var cash := Delta(logs, Lower(account), Lower(usdgToken));
            var stock := Delta(logs, Lower(account), Lower(stockToken));
            var fill := FillFromDeltas(deltas, usdgToken, stockToken, symbol);
            && (fill.Some? <==> (cash < 0 && stock > 0) || (cash > 0 && stock < 0))
            && (fill.Some? ==> fill.value.cashUsdg == AbsDiff(cash, 0) && fill.value.qtyRaw == AbsDiff(stock, 0))
            && (fill.Some? ==> (fill.value.side.Buy? <==> cash < 0))
  {
    assert Get(deltas, Lower(usdgToken)) == Delta(logs, Lower(account), Lower(usdgToken));
    assert Get(deltas, Lower(stockToken)) == Delta(logs, Lower(account), Lower(stockToken));
  }

  // ── the record the verifier checks ─────────────────────────────────────────

  datatype Quantity = Absent | Malformed | Units(units: int)

  /** The journal payload, reduced to what `compareRecord` reads. */
  datatype Payload = Payload(
    amountUsdg: int, direction: string,
    fillSide: string, fillCashUsdg: Option<int>, buyToken: string, sellToken: string, fillQtyRaw: Quantity)

  datatype OnchainFinding = NoSuchTransaction | TransactionFailed | FlowMismatch | CashMismatch | StockMismatch

  function AbsDiff(a: int, b: int): int {
    if a > b then a - b else b - a
  }

  /** Within a millionth of a USDG of each other. */
  predicate Close(a: int, b: int) {
    a - b <= 1_000_000_000_000 && b - a <= 1_000_000_000_000
  }

  function StockToken(p: Payload): string {
    Lower(if p.fillSide == "buy" then p.buyToken else p.sellToken)
  }

  predicate FlowHolds(p: Payload, usdgMoved: int) {
    AbsDiff(usdgMoved, if p.direction == "in" then p.amountUsdg else -p.amountUsdg) <= CASH_COMPARE_TOLERANCE
  }

  predicate CashLegHolds(p: Payload, usdgMoved: int) {
    p.fillCashUsdg.Some? ==>
      AbsDiff(usdgMoved, if p.fillSide == "buy" then -p.fillCashUsdg.value else p.fillCashUsdg.value)
        <= CASH_COMPARE_TOLERANCE
  }

  predicate StockLegHolds(p: Payload, logs: seq<Log>, me: string) {
    StockToken(p) != "" && p.fillQtyRaw.Units? ==>
      Delta(logs, me, StockToken(p)) == if p.fillSide == "buy" then p.fillQtyRaw.units else -p.fillQtyRaw.units
  }

  /** The chain bears the record out. */
  predicate Supported(kind: string, p: Payload, receipt: Option<Receipt>, account: string, usdgToken: string) {
    && receipt.Some?
    && receipt.value.status == "0x1"
    && var logs, me := receipt.value.logs, Lower(account);
    && var moved := Delta(logs, me, Lower(usdgToken));
    && (kind == "flow" ==> FlowHolds(p, moved))
    && (kind == "fill" ==> CashLegHolds(p, moved) && StockLegHolds(p, logs, me))
  }

  /** No finding exactly when the chain supports the record; otherwise every leg that
    * fails is named. */
  method CompareRecord(kind: string, p: Payload, receipt: Option<Receipt>, account: string, usdgToken: string)
    returns (findings: seq<OnchainFinding>)
    ensures findings == [] <==> Supported(kind, p, receipt, account, usdgToken)
    ensures receipt.None? ==> findings == [NoSuchTransaction]
    ensures receipt.Some? && receipt.value.status != "0x1" ==> findings == [TransactionFailed]
    ensures receipt.Some? && receipt.value.status == "0x1" ==>
              var moved := Delta(receipt.value.logs, Lower(account), Lower(usdgToken));
              && (FlowMismatch in findings <==>
                    kind == "flow" && !Close(moved, if p.direction == "in" then p.amountUsdg else -p.amountUsdg))
              && (CashMismatch in findings <==>
                    kind == "fill" && p.fillCashUsdg.Some?
                    && !Close(moved, if p.fillSide == "buy" then -p.fillCashUsdg.value else p.fillCashUsdg.value))
              && (StockMismatch in findings <==>
                    kind == "fill" && p.fillQtyRaw.Units?
                    && var stock := if p.fillSide == "buy" then p.buyToken else p.sellToken;
                       stock != "" && Delta(receipt.value.logs, Lower(account), Lower(stock)) !=
                                      if p.fillSide == "buy" then p.fillQtyRaw.units else -p.fillQtyRaw.units)
  {
    findings := [];
    if receipt.None? { return [NoSuchTransaction]; }
    if receipt.value.status != "0x1" { return [TransactionFailed]; }
    var deltas := ReceiptDeltas(receipt.value, account);
    var usdgDelta := Get(deltas, Lower(usdgToken));
    if kind == "flow" {
      var expected := if p.direction == "in" then p.amountUsdg else -p.amountUsdg;
      if AbsDiff(usdgDelta, expected) > CASH_COMPARE_TOLERANCE {
        findings := findings + [FlowMismatch];
      }
      return;
    }
    if kind == "fill" {
      if p.fillCashUsdg.Some? {
        var claimed := p.fillCashUsdg.value;
        var expected := if p.fillSide == "buy" then -claimed else claimed;
        if AbsDiff(usdgDelta, expected) > CASH_COMPARE_TOLERANCE {
          findings := findings + [CashMismatch];
        }
      }
      var stockToken := StockToken(p);
      if stockToken != "" && !p.fillQtyRaw.Absent? {
        if p.fillQtyRaw.Malformed? { return; }
        var stockDelta := Get(deltas, stockToken);
        var expected := if p.fillSide == "buy" then p.fillQtyRaw.units else -p.fillQtyRaw.units;
        if stockDelta != expected {
          findings := findings + [StockMismatch];
        }
      }
    }
  }

  /** The journal record of a fill: the stock token sits on the side the fill names. */
  function RecordOf(fill: ReceiptFill, usdgToken: string, stockToken: string): Payload {
    Payload(0, "", if fill.side.Buy? then "buy" else "sell", Some(fill.cashUsdg),
            if fill.side.Buy? then stockToken else usdgToken,
            if fill.side.Buy? then usdgToken else stockToken,
            Units(fill.qtyRaw))
  }

  /** A fill read off a successful receipt is positive on both legs, and its record
    * passes the verifier against that same receipt. */
  lemma FillPassesItsOwnAudit(
    deltas: map<string, int>, logs: seq<Log>, account: string, usdgToken: string, stockToken: string, symbol: string)
    requires IsDeltaMap(deltas, logs, Lower(account))
    ensures var fill := FillFromDeltas(deltas, usdgToken, stockToken, symbol);
            fill.Some? ==>
              && fill.value.qtyRaw > 0 && fill.value.cashUsdg > 0
              && Supported("fill", RecordOf(fill.value, usdgToken, stockToken),
                           Some(Receipt("0x1", logs)), account, usdgToken)
  {
    assert Get(deltas, Lower(usdgToken)) == Delta(logs, Lower(account), Lower(usdgToken));
    assert Get(deltas, Lower(stockToken)) == Delta(logs, Lower(account), Lower(stockToken));
  }

  /** And only that fill does: a record of a positive quantity of the same token that
    * the chain supports has the receipt's own side and quantity, and its cash to within
    * the tolerance. */
  lemma OnlyTheTrueFillPasses(
    deltas: map<string, int>, logs: seq<Log>, account: string, usdgToken: string, stockToken: string,
    symbol: string, claim: ReceiptFill)
    requires claim.qtyRaw > 0 && stockToken != ""
    requires IsDeltaMap(deltas, logs, Lower(account))
    requires FillFromDeltas(deltas, usdgToken, stockToken, symbol).Some?
    ensures var fill := FillFromDeltas(deltas, usdgToken, stockToken, symbol).value;
            Supported("fill", RecordOf(claim, usdgToken, stockToken),
                      Some(Receipt("0x1", logs)), account, usdgToken)
            <==>
            && claim.side == fill.side
            && claim.qtyRaw == fill.qtyRaw
            && AbsDiff(claim.cashUsdg, fill.cashUsdg) <= CASH_COMPARE_TOLERANCE
  {
    assert Get(deltas, Lower(usdgToken)) == Delta(logs, Lower(account), Lower(usdgToken));
    assert Get(deltas, Lower(stockToken)) == Delta(logs, Lower(account), Lower(stockToken));
    assert StockToken(RecordOf(claim, usdgToken, stockToken)) == Lower(stockToken) != "";
  }
}
