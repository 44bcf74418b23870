/** The last check on a batch of calls before it is signed (worker/src/final-fence.ts): the
  * calldata is read back and compared with the trade that was judged. */
module FinalFence {
  import opened Text

  /** Calldata as it decodes against the ABI the fence reads it with. `Opaque` is anything
    * that decodes against none of them. */
  datatype Data =
    | Approve(spender: string, amount: nat)
    | OtherErc20
    | ExactInputSingle(
        tokenIn: string, tokenOut: string, recipient: string,
        amountIn: nat, amountOutMinimum: nat, sqrtPriceLimitX96: nat)
    | ExactInput(path: string, recipient: string, amountIn: nat, amountOutMinimum: nat)
    | SwapExactTokensForTokens(amountIn: nat, amountOutMin: nat, tokens: seq<string>, recipient: string)
    | SwapTokensForExactTokens(amountOut: nat, amountInMax: nat, tokens: seq<string>, recipient: string)
    | Opaque

  datatype FenceCall = FenceCall(target: string, value: nat, data: Data)

  datatype FenceRule = BuildIntegrity | PriceFloor | WrongRecipient | Asset | Approval

  datatype FenceVerdict = Accepted | No(rule: FenceRule)

  datatype FenceExpect = FenceExpect(
    router: string, tokenIn: string, tokenOut: string, recipient: string, amountIn: nat, minOut: nat)

  datatype Unwind = Unwind(wbnb: string, cash: string, cashMinOut: nat)

  datatype Side =
    | Buy(exactOut: nat, amountInMax: nat)
    | Sell(amountIn: nat, minOut: nat, unwind: Option<Unwind>)

  datatype V2FenceExpect = V2FenceExpect(router: string, recipient: string, path: seq<string>, side: Side)

  // ── packed paths ───────────────────────────────────────────────────────────

  datatype Ends = Ends(first: string, last: string)

  /** First and last token of a packed path: 40 characters of token, then 46 for every
    * fee and token after it, at least once. */
  function PathEnds(path: string): Option<Ends> {
    if |path| < 2 then None
    else
      var body := path[2..];
      if |body| < 86 || (|body| - 40) % 46 != 0 then None
      else Some(Ends("0x" + body[..40], "0x" + body[|body| - 40..]))
  }

  datatype Hop = Hop(fee: string, token: string)

  /** A path as it is packed, tokens and fees in hex without their prefix. */
  function PackHops(hops: seq<Hop>): string {
    if hops == [] then "" else PackHops(hops[..|hops| - 1]) + hops[|hops| - 1].fee + hops[|hops| - 1].token
  }

  function PackPath(token: string, hops: seq<Hop>): string {
    "0x" + (token + PackHops(hops))
  }

  predicate WellFormedHops(hops: seq<Hop>) {
    forall h <- hops :: |h.fee| == 6 && |h.token| == 40
  }

  lemma {:induction false} PackedLength(hops: seq<Hop>)
    requires WellFormedHops(hops)
    ensures |PackHops(hops)| == 46 * |hops|
  {
    if hops != [] {
      assert hops == hops[..|hops| - 1] + [hops[|hops| - 1]];
      PackedLength(hops[..|hops| - 1]);
    }
  }

  /** Reading the ends undoes the packing, however many hops there are. */
  lemma EndsOfPackedPath(token: string, hops: seq<Hop>)
    requires |token| == 40 && hops != [] && WellFormedHops(hops)
    ensures PathEnds(PackPath(token, hops)) == Some(Ends("0x" + token, "0x" + hops[|hops| - 1].token))
  {
    PackedLength(hops);
    var n := |hops| - 1;
    assert hops[n] in hops;
    WholeHops(|hops|, 40 + |PackHops(hops)|);
    BodyEnds(token, PackHops(hops[..n]) + hops[n].fee, hops[n].token);
    PathEndsOfBody(token + PackHops(hops), token, hops[n].token);
  }

  lemma PathEndsOfBody(body: string, first: string, last: string)
    requires |body| >= 86 && (|body| - 40) % 46 == 0
    requires body[..40] == first && body[|body| - 40..] == last
    ensures PathEnds("0x" + body) == Some(Ends("0x" + first, "0x" + last))
  {
    assert ("0x" + body)[2..] == body;
  }

  lemma WholeHops(n: nat, length: nat)
    requires n >= 1 && length == 40 + 46 * n
    ensures length >= 86 && (length - 40) % 46 == 0
  {
  }

  lemma BodyEnds(first: string, middle: string, last: string)
    requires |first| == |last| == 40
    ensures var body := first + (middle + last); body[..40] == first && body[|body| - 40..] == last
    ensures first + (middle + last) == first + middle + last
  {
  }

  /** Only whole paths of at least one hop have ends. */
  lemma EndsIffWholeHops(path: string)
    requires |path| >= 2
    ensures PathEnds(path).Some? <==> exists n: nat :: n >= 1 && |path| == 2 + 40 + 46 * n
  {
    var over := |path| - 42;
    if PathEnds(path).Some? {
      var n := over / 46;
      assert over == 46 * n;
      assert n >= 1 && |path| == 2 + 40 + 46 * n;
    }
    if n: nat :| n >= 1 && |path| == 2 + 40 + 46 * n {
      assert over % 46 == 0;
    }
  }

  // ── the checks ─────────────────────────────────────────────────────────────

  function CheckV3SwapCalls(calls: seq<FenceCall>, want: FenceExpect): FenceVerdict {
    if |calls| != 2 then No(BuildIntegrity)
    else
      var approve, swap := calls[0], calls[1];
      if approve.value != 0 || swap.value != 0 then No(BuildIntegrity)
      else if !Same(approve.target, want.tokenIn) then No(Asset)
      else if !approve.data.Approve? then No(Approval)
      else if !Same(approve.data.spender, want.router) then No(Approval)
      else if approve.data.amount != want.amountIn then No(Approval)
      else if !Same(swap.target, want.router) then No(BuildIntegrity)
      else
        match swap.data
        case ExactInputSingle(tokenIn, tokenOut, recipient, amountIn, amountOutMinimum, _) =>
          if !Same(recipient, want.recipient) then No(WrongRecipient)
          else if amountIn != want.amountIn then No(BuildIntegrity)
          else if amountOutMinimum != want.minOut then No(PriceFloor)
          else if !Same(tokenIn, want.tokenIn) then No(Asset)
          else if !Same(tokenOut, want.tokenOut) then No(Asset)
          else Accepted
        case ExactInput(path, recipient, amountIn, amountOutMinimum) =>
          if !Same(recipient, want.recipient) then No(WrongRecipient)
          else if amountIn != want.amountIn then No(BuildIntegrity)
          else if amountOutMinimum != want.minOut then No(PriceFloor)
          else
            var ends := PathEnds(path);
            if ends.None? then No(Asset)
            else if !Same(ends.value.first, want.tokenIn) then No(Asset)
            else if !Same(ends.value.last, want.tokenOut) then No(Asset)
            else Accepted
        case _ => No(BuildIntegrity)
  }

  function CheckApprove(call: FenceCall, token: string, router: string, amount: nat): FenceVerdict {
    if call.value != 0 then No(BuildIntegrity)
    else if !Same(call.target, token) then No(Asset)
    else if !call.data.Approve? then No(Approval)
    else if !Same(call.data.spender, router) then No(Approval)
    else if call.data.amount != amount then No(Approval)
    else Accepted
  }

  predicate SamePath(a: seq<string>, b: seq<string>) {
    |a| == |b| && forall i | 0 <= i < |a| :: Same(a[i], b[i])
  }

  /** The swap leg of a v2 trade. */
  function CheckV2Swap(swap: FenceCall, want: V2FenceExpect): FenceVerdict {
    if swap.value != 0 then No(BuildIntegrity)
    else if !Same(swap.target, want.router) then No(BuildIntegrity)
    else
      match (swap.data, want.side)
      case (SwapTokensForExactTokens(amountOut, amountInMax, tokens, recipient), Buy(exactOut, max)) =>
        if !Same(recipient, want.recipient) then No(WrongRecipient)
        else if !SamePath(tokens, want.path) then No(Asset)
        else if amountOut != exactOut then No(PriceFloor)
        else if amountInMax != max then No(Approval)
        else Accepted
      case (SwapExactTokensForTokens(amountIn, amountOutMin, tokens, recipient), Sell(sold, minOut, _)) =>
        if !Same(recipient, want.recipient) then No(WrongRecipient)
        else if !SamePath(tokens, want.path) then No(Asset)
        else if amountIn != sold then No(BuildIntegrity)
        else if amountOutMin != minOut then No(PriceFloor)
        else Accepted
      case _ => No(BuildIntegrity)
  }

  function UnwindExpect(want: V2FenceExpect): FenceExpect
    requires want.side.Sell? && want.side.unwind.Some?
  {
    var u := want.side.unwind.value;
    FenceExpect(want.router, u.wbnb, u.cash, want.recipient, want.side.minOut, u.cashMinOut)
  }

  /** The quote's path has a first token; the caller never judges a trade without one. */
  function CheckV2TradeCalls(calls: seq<FenceCall>, want: V2FenceExpect): FenceVerdict
    requires want.path != []
  {
    var unwinds := want.side.Sell? && want.side.unwind.Some?;
    if |calls| != (if unwinds then 4 else 2) then No(BuildIntegrity)
    else
      var spent := if want.side.Buy? then want.side.amountInMax else want.side.amountIn;
      var a := CheckApprove(calls[0], want.path[0], want.router, spent);
      if a.No? then a
      else
        var s := CheckV2Swap(calls[1], want);
        if s.No? || !unwinds then s
        else
          var a2 := CheckApprove(calls[2], want.side.unwind.value.wbnb, want.router, want.side.minOut);
          if a2.No? then a2 else CheckV3SwapCalls(calls[2..], UnwindExpect(want))
  }

  // ── what the calls do on chain ─────────────────────────────────────────────

  /** ERC-20 balances and allowances (EIP-20, section "Methods"), keyed by lower-cased
    * addresses; a missing entry is zero. */
  datatype Chain = Chain(balances: map<(string, string), nat>, allowances: map<(string, string, string), nat>)

  function Balance(c: Chain, token: string, holder: string): nat {
    var k := (Lower(token), Lower(holder));
    if k in c.balances then c.balances[k] else 0
  }

  function Allowance(c: Chain, token: string, owner: string, spender: string): nat {
    var k := (Lower(token), Lower(owner), Lower(spender));
    if k in c.allowances then c.allowances[k] else 0
  }

  function SetBalance(c: Chain, token: string, holder: string, amount: nat): Chain {
    c.(balances := c.balances[(Lower(token), Lower(holder)) := amount])
  }

  function SetAllowance(c: Chain, token: string, owner: string, spender: string, amount: nat): Chain {
    c.(allowances := c.allowances[(Lower(token), Lower(owner), Lower(spender)) := amount])
  }

  /** What the market made of a swap: how much of the input it took and what it paid out. */
  datatype Fill = Fill(spent: nat, received: nat)

  /** A swap, whichever router function asked for it. */
  datatype Order = Order(tokenIn: string, tokenOut: string, recipient: string)

  function OrderOf(d: Data): Option<Order> {
    match d
    case ExactInputSingle(tokenIn, tokenOut, recipient, _, _, _) => Some(Order(tokenIn, tokenOut, recipient))
    case ExactInput(path, recipient, _, _) =>
      var ends := PathEnds(path);
      if ends.Some? then Some(Order(ends.value.first, ends.value.last, recipient)) else None
    case SwapExactTokensForTokens(_, _, tokens, recipient) =>
      if tokens != [] then Some(Order(tokens[0], tokens[|tokens| - 1], recipient)) else None
    case SwapTokensForExactTokens(_, _, tokens, recipient) =>
      if tokens != [] then Some(Order(tokens[0], tokens[|tokens| - 1], recipient)) else None
    case _ => None
  }

  /** The fills the router may settle a swap with instead of reverting. A single-hop v3 swap
    * given a price limit stops there and takes only part of its input. */
  predicate MaySettle(d: Data, f: Fill) {
    match d
    case ExactInputSingle(_, _, _, amountIn, floor, limit) =>
      (if limit == 0 then f.spent == amountIn else f.spent <= amountIn) && f.received >= floor
    case ExactInput(_, _, amountIn, floor) => f.spent == amountIn && f.received >= floor
    case SwapExactTokensForTokens(amountIn, floor, _, _) => f.spent == amountIn && f.received >= floor
    case SwapTokensForExactTokens(amountOut, max, _, _) => f.spent <= max && f.received == amountOut
    case _ => false
  }

  /** The router takes the input with `transferFrom` and pays the recipient. */
  function Settle(c: Chain, account: string, router: string, order: Order, f: Fill): Option<Chain> {
    var had, allowed := Balance(c, order.tokenIn, account), Allowance(c, order.tokenIn, account, router);
    if f.spent > had || f.spent > allowed then None
    else
      var taken := SetAllowance(SetBalance(c, order.tokenIn, account, had - f.spent), order.tokenIn, account, router, allowed - f.spent);
      Some(SetBalance(taken, order.tokenOut, order.recipient, Balance(taken, order.tokenOut, order.recipient) + f.received))
  }

  /** One call of the batch; None is a revert. An approval sets the allowance. */
  function Perform(c: Chain, account: string, call: FenceCall, f: Fill): Option<Chain> {
    if call.data.Approve? then Some(SetAllowance(c, call.target, account, call.data.spender, call.data.amount))
    else
      var order := OrderOf(call.data);
      if order.None? || !MaySettle(call.data, f) then None else Settle(c, account, call.target, order.value, f)
  }

  function PerformAll(c: Chain, account: string, calls: seq<FenceCall>, fills: seq<Fill>): Option<Chain>
    requires |calls| == |fills|
    decreases |calls|
  {
    if calls == [] then Some(c)
    else
      var next := Perform(c, account, calls[0], fills[0]);
      if next.None? then None else PerformAll(next.value, account, calls[1..], fills[1..])
  }

  /** A pair of calls, the second of which is a swap. */
  lemma PairInSteps(c: Chain, account: string, calls: seq<FenceCall>, fills: seq<Fill>)
    requires |calls| == |fills| == 2 && calls[0].data.Approve?
    ensures PerformAll(c, account, calls, fills) ==
            Perform(SetAllowance(c, calls[0].target, account, calls[0].data.spender, calls[0].data.amount), account, calls[1], fills[1])
  {
    var next := Perform(c, account, calls[0], fills[0]);
    assert calls[1..][0] == calls[1] && fills[1..][0] == fills[1];
    assert calls[1..][1..] == [] && fills[1..][1..] == [];
    var last := Perform(next.value, account, calls[1], fills[1]);
    assert PerformAll(next.value, account, calls[1..], fills[1..]) == last;
  }

  /** What a swap did: exactly `spent` of one token left the account, `received` of the other
    * arrived, what is left of the approval is the part not spent, and nothing else moved. */
  ghost predicate Traded(
    before: Chain, after: Chain, account: string, router: string,
    tokenIn: string, tokenOut: string, approved: nat, f: Fill)
  {
    && f.spent <= Balance(before, tokenIn, account)
    && Balance(after, tokenIn, account) == Balance(before, tokenIn, account) - f.spent
    && Balance(after, tokenOut, account) == Balance(before, tokenOut, account) + f.received
    && f.spent <= approved && Allowance(after, tokenIn, account, router) == approved - f.spent
    && (forall t: string, h: string | !(Same(h, account) && (Same(t, tokenIn) || Same(t, tokenOut))) ::
          Balance(after, t, h) == Balance(before, t, h))
    && (forall t: string, o: string, s: string | !(Same(t, tokenIn) && Same(o, account) && Same(s, router)) ::
          Allowance(after, t, o, s) == Allowance(before, t, o, s))
  }

  /** An approval followed by a swap of the same token through the same router. */
  lemma ApproveThenSwap(
    c: Chain, account: string, router: string, tokenIn: string, tokenOut: string,
    calls: seq<FenceCall>, fills: seq<Fill>)
    requires |calls| == |fills| == 2 && !Same(tokenIn, tokenOut)
    requires calls[0].data.Approve? && Same(calls[0].target, tokenIn) && Same(calls[0].data.spender, router)
    requires !calls[1].data.Approve? && Same(calls[1].target, router)
    requires OrderOf(calls[1].data).Some?
    requires var o := OrderOf(calls[1].data).value;
             Same(o.tokenIn, tokenIn) && Same(o.tokenOut, tokenOut) && Same(o.recipient, account)
    ensures PerformAll(c, account, calls, fills).Some? <==>
            && MaySettle(calls[1].data, fills[1])
            && fills[1].spent <= Balance(c, tokenIn, account) && fills[1].spent <= calls[0].data.amount
    ensures PerformAll(c, account, calls, fills).Some? ==>
              Traded(c, PerformAll(c, account, calls, fills).value, account, router, tokenIn, tokenOut, calls[0].data.amount, fills[1])
  {
    PairInSteps(c, account, calls, fills);
    var approved := SetAllowance(c, calls[0].target, account, calls[0].data.spender, calls[0].data.amount);
    assert Balance(approved, tokenIn, account) == Balance(c, tokenIn, account);
    assert Allowance(approved, tokenIn, account, router) == calls[0].data.amount;
    var o := OrderOf(calls[1].data).value;
    assert Balance(approved, o.tokenIn, account) == Balance(c, tokenIn, account);
    assert Allowance(approved, o.tokenIn, account, calls[1].target) == calls[0].data.amount;
  }

  // ── v3 ─────────────────────────────────────────────────────────────────────

  predicate IsV3Swap(d: Data) {
    d.ExactInputSingle? || d.ExactInput?
  }

  /** The call lets `spender` take exactly this much of the token, and moves no ETH. */
  predicate ApprovesExactly(call: FenceCall, token: string, spender: string, amount: nat) {
    && call.value == 0 && Same(call.target, token)
    && call.data.Approve? && Same(call.data.spender, spender) && call.data.amount == amount
  }

  /** The swap goes to the router, for the account, between these two tokens. */
  predicate Swaps(call: FenceCall, router: string, tokenIn: string, tokenOut: string, recipient: string) {
    && call.value == 0 && Same(call.target, router)
    && OrderOf(call.data).Some?
    && var o := OrderOf(call.data).value;
       Same(o.tokenIn, tokenIn) && Same(o.tokenOut, tokenOut) && Same(o.recipient, recipient)
  }

  /** The fence lets through exactly the trade that was judged: an approval of the amount and
    * a v3 swap of it, read by what the router would do with it, at the very floor. */
  lemma V3AcceptsExactlyTheTrade(calls: seq<FenceCall>, want: FenceExpect)
    ensures CheckV3SwapCalls(calls, want).Accepted? <==>
              && |calls| == 2
              && ApprovesExactly(calls[0], want.tokenIn, want.router, want.amountIn)
              && IsV3Swap(calls[1].data)
              && Swaps(calls[1], want.router, want.tokenIn, want.tokenOut, want.recipient)
              && calls[1].data.amountIn == want.amountIn && calls[1].data.amountOutMinimum == want.minOut
  {
  }

  /** The same swap with another floor, or for another recipient. */
  function Altered(d: Data, floor: nat, recipient: string): Data {
    match d
    case ExactInputSingle(tokenIn, tokenOut, _, amountIn, _, limit) =>
      ExactInputSingle(tokenIn, tokenOut, recipient, amountIn, floor, limit)
    case ExactInput(path, _, amountIn, _) => ExactInput(path, recipient, amountIn, floor)
    case _ => d
  }

  /** A recipient other than the account, or a floor off in either direction, is refused for
    * what it is, in a batch otherwise accepted. */
  lemma OneFieldOff(calls: seq<FenceCall>, want: FenceExpect, floor: nat, recipient: string)
    requires CheckV3SwapCalls(calls, want).Accepted?
    ensures CheckV3SwapCalls([calls[0], calls[1].(data := Altered(calls[1].data, floor, recipient))], want) ==
            if !Same(recipient, want.recipient) then No(WrongRecipient)
            else if floor != want.minOut then No(PriceFloor)
            else Accepted
  {
  }

  /** What any other call in the place of the approval is refused for: moving ETH, another
    * token, and whatever is not this very approval. */
  lemma AnyOtherApproval(calls: seq<FenceCall>, want: FenceExpect, call: FenceCall)
    requires CheckV3SwapCalls(calls, want).Accepted?
    ensures CheckV3SwapCalls([call, calls[1]], want) ==
            if call.value > 0 then No(BuildIntegrity)
            else if Lower(call.target) != Lower(want.tokenIn) then No(Asset)
            else if ApprovesExactly(call, want.tokenIn, want.router, want.amountIn) then Accepted
            else No(Approval)
  {
  }

  /** And any other call in the place of the swap: one that moves ETH, goes elsewhere or is no
    * v3 swap; one for somebody else; one of another amount; one at another floor, higher or
    * lower; one between other tokens. */
  lemma AnyOtherSwap(calls: seq<FenceCall>, want: FenceExpect, call: FenceCall)
    requires CheckV3SwapCalls(calls, want).Accepted?
    ensures CheckV3SwapCalls([calls[0], call], want) ==
            if call.value > 0 || Lower(call.target) != Lower(want.router) || !IsV3Swap(call.data) then No(BuildIntegrity)
            else if Lower(call.data.recipient) != Lower(want.recipient) then No(WrongRecipient)
            else if call.data.amountIn != want.amountIn then No(BuildIntegrity)
            else if call.data.amountOutMinimum != want.minOut then No(PriceFloor)
            else if Swaps(call, want.router, want.tokenIn, want.tokenOut, want.recipient) then Accepted
            else No(Asset)
    ensures forall others: seq<FenceCall> | |others| != 2 :: CheckV3SwapCalls(others, want) == No(BuildIntegrity)
  {
  }

  /** The swap leaves no room for a partial fill. */
  predicate SellsInFull(d: Data) {
    !d.ExactInputSingle? || d.sqrtPriceLimitX96 == 0 || d.amountIn == 0
  }

  /** Every accepted v3 batch that does not revert moves the two quoted tokens of the account
    * and nothing else: at most the amount to be sold leaves, at least the approved floor
    * arrives at the account, and the allowance left is what was not spent. */
  lemma AcceptedV3Trades(c: Chain, calls: seq<FenceCall>, want: FenceExpect, fills: seq<Fill>)
    requires CheckV3SwapCalls(calls, want).Accepted? && |fills| == 2 && !Same(want.tokenIn, want.tokenOut)
    requires PerformAll(c, want.recipient, calls, fills).Some?
    ensures var after := PerformAll(c, want.recipient, calls, fills).value;
            && Traded(c, after, want.recipient, want.router, want.tokenIn, want.tokenOut, want.amountIn, fills[1])
            && fills[1].received >= want.minOut
            && (SellsInFull(calls[1].data) ==>
                  fills[1].spent == want.amountIn && Allowance(after, want.tokenIn, want.recipient, want.router) == 0)
  {
    ApproveThenSwap(c, want.recipient, want.router, want.tokenIn, want.tokenOut, calls, fills);
  }

  /** Exactly the amount to be sold leaves the account and no allowance stays behind. */
  ghost predicate SoldExactly(before: Chain, after: Chain, want: FenceExpect) {
    && Balance(after, want.tokenIn, want.recipient) == Balance(before, want.tokenIn, want.recipient) - want.amountIn
    && Allowance(after, want.tokenIn, want.recipient, want.router) == 0
  }

  ghost predicate AlwaysSellsExactly(calls: seq<FenceCall>, want: FenceExpect)
    requires |calls| == 2
  {
    forall c: Chain, fills: seq<Fill> | |fills| == 2 && PerformAll(c, want.recipient, calls, fills).Some? ::
      SoldExactly(c, PerformAll(c, want.recipient, calls, fills).value, want)
  }

  /** The fence never reads the price limit, so "exactly the amount, no allowance left" is
    * true of an accepted batch exactly when the swap it carries cannot fill in part: any
    * multi-hop swap, or a single-hop one with no price limit. */
  lemma SellsExactlyIff(calls: seq<FenceCall>, want: FenceExpect)
    requires CheckV3SwapCalls(calls, want).Accepted? && !Same(want.tokenIn, want.tokenOut)
    ensures AlwaysSellsExactly(calls, want) <==> SellsInFull(calls[1].data)
  {
    if SellsInFull(calls[1].data) {
      forall c: Chain, fills: seq<Fill> | |fills| == 2 && PerformAll(c, want.recipient, calls, fills).Some?
        ensures SoldExactly(c, PerformAll(c, want.recipient, calls, fills).value, want)
      {
        AcceptedV3Trades(c, calls, want, fills);
      }
    } else {
      var c := Chain(map[], map[]);
      var fills := [Fill(0, 0), Fill(0, want.minOut)];
      ApproveThenSwap(c, want.recipient, want.router, want.tokenIn, want.tokenOut, calls, fills);
      assert !SoldExactly(c, PerformAll(c, want.recipient, calls, fills).value, want);
    }
  }

  /** Whatever is judged, a batch with any price limit is let through, and one that has a
    * limit need not sell the amount. */
  lemma PartialFillIsAccepted(want: FenceExpect, limit: nat)
    requires !Same(want.tokenIn, want.tokenOut)
    ensures var calls := [
              FenceCall(want.tokenIn, 0, Approve(want.router, want.amountIn)),
              FenceCall(want.router, 0, ExactInputSingle(
                want.tokenIn, want.tokenOut, want.recipient, want.amountIn, want.minOut, limit))];
            && CheckV3SwapCalls(calls, want).Accepted?
            && (AlwaysSellsExactly(calls, want) <==> limit == 0 || want.amountIn == 0)
  {
    var calls := [
      FenceCall(want.tokenIn, 0, Approve(want.router, want.amountIn)),
      FenceCall(want.router, 0, ExactInputSingle(
        want.tokenIn, want.tokenOut, want.recipient, want.amountIn, want.minOut, limit))];
    SellsExactlyIff(calls, want);
  }

  // ── v2 ─────────────────────────────────────────────────────────────────────

  function First(want: V2FenceExpect): string
    requires want.path != []
  {
    want.path[0]
  }

  function Last(want: V2FenceExpect): string
    requires want.path != []
  {
    want.path[|want.path| - 1]
  }

  /** The swap leg a v2 trade is approved with. */
  predicate IsTheV2Swap(d: Data, want: V2FenceExpect) {
    match want.side
    case Buy(exactOut, amountInMax) =>
      d.SwapTokensForExactTokens? && SamePath(d.tokens, want.path) && d.amountOut == exactOut && d.amountInMax == amountInMax
    case Sell(amountIn, minOut, _) =>
      d.SwapExactTokensForTokens? && SamePath(d.tokens, want.path) && d.amountIn == amountIn && d.amountOutMin == minOut
  }

  /** The v2 fence lets through exactly the trade that was judged, with the unwind a v3 trade
    * of the very floor the sale guarantees. */
  lemma V2AcceptsExactlyTheTrade(calls: seq<FenceCall>, want: V2FenceExpect)
    requires want.path != []
    ensures CheckV2TradeCalls(calls, want).Accepted? <==>
              && |calls| == (if want.side.Sell? && want.side.unwind.Some? then 4 else 2)
              && ApprovesExactly(calls[0], First(want), want.router,
                                 if want.side.Buy? then want.side.amountInMax else want.side.amountIn)
              && IsTheV2Swap(calls[1].data, want)
              && Swaps(calls[1], want.router, First(want), Last(want), want.recipient)
              && (want.side.Sell? && want.side.unwind.Some? ==>
                    CheckV3SwapCalls(calls[2..], UnwindExpect(want)).Accepted?)
  {
    if want.side.Sell? && want.side.unwind.Some? && |calls| == 4 {
      V3AcceptsExactlyTheTrade(calls[2..], UnwindExpect(want));
    }
  }

  /** What any other call in the place of a v2 trade's approval or swap is refused for; an
    * unwind is judged as the v3 pair it is; and so is a batch of another length. */
  lemma AnyOtherV2Call(calls: seq<FenceCall>, want: V2FenceExpect, call: FenceCall)
    requires want.path != [] && CheckV2TradeCalls(calls, want).Accepted?
    ensures CheckV2TradeCalls(calls[0 := call], want) ==
            if call.value > 0 then No(BuildIntegrity)
            else if Lower(call.target) != Lower(First(want)) then No(Asset)
            else if ApprovesExactly(call, First(want), want.router,
                                    if want.side.Buy? then want.side.amountInMax else want.side.amountIn) then Accepted
            else No(Approval)
    ensures CheckV2TradeCalls(calls[1 := call], want) == V2SwapVerdict(call, want)
    ensures forall others: seq<FenceCall> | |others| != |calls| :: CheckV2TradeCalls(others, want) == No(BuildIntegrity)
  {
    assert calls[0 := call][2..] == calls[2..] && calls[1 := call][2..] == calls[2..];
  }

  lemma AnyOtherUnwind(calls: seq<FenceCall>, want: V2FenceExpect, call: FenceCall)
    requires want.path != [] && CheckV2TradeCalls(calls, want).Accepted? && |calls| == 4
    ensures CheckV2TradeCalls(calls[2 := call], want) == CheckV3SwapCalls([call, calls[3]], UnwindExpect(want))
    ensures CheckV2TradeCalls(calls[3 := call], want) == CheckV3SwapCalls([calls[2], call], UnwindExpect(want))
  {
    assert calls[2 := call][2..] == [call, calls[3]] && calls[3 := call][2..] == [calls[2], call];
    assert calls[2..] == [calls[2], calls[3]];
  }

  /** Elsewhere, with ETH or of another kind; for somebody else; along another path; then for a
    * buy another quantity and another ceiling, for a sale another amount and another floor. */
  ghost function V2SwapVerdict(call: FenceCall, want: V2FenceExpect): FenceVerdict {
    if call.value > 0 || Lower(call.target) != Lower(want.router)
       || !(if want.side.Buy? then call.data.SwapTokensForExactTokens? else call.data.SwapExactTokensForTokens?)
    then No(BuildIntegrity)
    else if Lower(call.data.recipient) != Lower(want.recipient) then No(WrongRecipient)
    else if !SamePath(call.data.tokens, want.path) then No(Asset)
    else if want.side.Buy? && call.data.amountOut != want.side.exactOut then No(PriceFloor)
    else if want.side.Buy? && call.data.amountInMax != want.side.amountInMax then No(Approval)
    else if want.side.Sell? && call.data.amountIn != want.side.amountIn then No(BuildIntegrity)
    else if want.side.Sell? && call.data.amountOutMin != want.side.minOut then No(PriceFloor)
    else Accepted
  }

  lemma V2Legs(calls: seq<FenceCall>, want: V2FenceExpect)
    requires want.path != [] && CheckV2TradeCalls(calls, want).Accepted?
    ensures |calls| >= 2 && calls[0].data.Approve? && OrderOf(calls[1].data).Some?
    ensures Same(calls[0].target, First(want)) && Same(calls[0].data.spender, want.router) && Same(calls[1].target, want.router)
    ensures calls[0].data.amount == if want.side.Buy? then want.side.amountInMax else want.side.amountIn
    ensures var o := OrderOf(calls[1].data).value;
            Same(o.tokenIn, First(want)) && Same(o.tokenOut, Last(want)) && Same(o.recipient, want.recipient)
    ensures forall f :: MaySettle(calls[1].data, f) <==>
              if want.side.Buy? then f.spent <= want.side.amountInMax && f.received == want.side.exactOut
              else f.spent == want.side.amountIn && f.received >= want.side.minOut
  {
  }

  /** An accepted buy brings exactly what was asked for, spends no more than its ceiling, and
    * leaves standing exactly the part of the ceiling it did not spend. */
  lemma AcceptedBuyTrades(c: Chain, calls: seq<FenceCall>, want: V2FenceExpect, fills: seq<Fill>)
    requires want.path != [] && !Same(First(want), Last(want)) && want.side.Buy?
    requires CheckV2TradeCalls(calls, want).Accepted? && |fills| == 2
    requires PerformAll(c, want.recipient, calls, fills).Some?
    ensures var after := PerformAll(c, want.recipient, calls, fills).value;
            && Traded(c, after, want.recipient, want.router, First(want), Last(want), want.side.amountInMax, fills[1])
            && fills[1].received == want.side.exactOut && fills[1].spent <= want.side.amountInMax
  {
    V2Legs(calls, want);
    ApproveThenSwap(c, want.recipient, want.router, First(want), Last(want), calls, fills);
  }

  /** The sale of an accepted batch: exactly the amount leaves, at least the floor arrives,
    * no allowance stays. */
  lemma AcceptedSaleTrades(c: Chain, calls: seq<FenceCall>, want: V2FenceExpect, fills: seq<Fill>)
    requires want.path != [] && !Same(First(want), Last(want)) && want.side.Sell?
    requires CheckV2TradeCalls(calls, want).Accepted? && |fills| == 2
    requires PerformAll(c, want.recipient, calls[..2], fills).Some?
    ensures var after := PerformAll(c, want.recipient, calls[..2], fills).value;
            && Traded(c, after, want.recipient, want.router, First(want), Last(want), want.side.amountIn, fills[1])
            && fills[1].spent == want.side.amountIn && fills[1].received >= want.side.minOut
            && Allowance(after, First(want), want.recipient, want.router) == 0
  {
    V2Legs(calls, want);
    ApproveThenSwap(c, want.recipient, want.router, First(want), Last(want), calls[..2], fills);
  }

  /** Whatever the sale brought, the unwind after it never fails for want of input: every
    * fill its swap may settle with goes through. */
  ghost predicate UnwindAlwaysFunded(calls: seq<FenceCall>, want: V2FenceExpect)
    requires |calls| == 4
  {
    forall c: Chain, sale: seq<Fill>, unwind: seq<Fill>
      | |sale| == 2 && |unwind| == 2 && PerformAll(c, want.recipient, calls[..2], sale).Some? && MaySettle(calls[3].data, unwind[1]) ::
        PerformAll(PerformAll(c, want.recipient, calls[..2], sale).value, want.recipient, calls[2..], unwind).Some?
  }

  lemma UnwindLegs(calls: seq<FenceCall>, want: V2FenceExpect)
    requires want.path != [] && want.side.Sell? && want.side.unwind.Some?
    requires CheckV2TradeCalls(calls, want).Accepted?
    ensures |calls| == 4 && CheckV3SwapCalls(calls[2..], UnwindExpect(want)).Accepted?
    ensures calls[2..][1] == calls[3]
  {
  }

  /** The fence does not compare the unwind's token with the end of the path, and the unwind
    * is always funded exactly when they are the same token, or there is nothing to unwind. */
  lemma UnwindIsFundedIff(calls: seq<FenceCall>, want: V2FenceExpect)
    requires want.path != [] && want.side.Sell? && want.side.unwind.Some? && !Same(First(want), Last(want))
    requires CheckV2TradeCalls(calls, want).Accepted?
    requires var u := want.side.unwind.value; !Same(u.wbnb, u.cash)
    ensures |calls| == 4
    ensures UnwindAlwaysFunded(calls, want) <==> Same(Last(want), want.side.unwind.value.wbnb) || want.side.minOut == 0
  {
    UnwindLegs(calls, want);
    var u := want.side.unwind.value;
    if Same(Last(want), u.wbnb) || want.side.minOut == 0 {
      forall c: Chain, sale: seq<Fill>, unwind: seq<Fill>
        | |sale| == 2 && |unwind| == 2 && PerformAll(c, want.recipient, calls[..2], sale).Some? && MaySettle(calls[3].data, unwind[1])
        ensures PerformAll(PerformAll(c, want.recipient, calls[..2], sale).value, want.recipient, calls[2..], unwind).Some?
      {
        AcceptedSaleTrades(c, calls, want, sale);
        var mid := PerformAll(c, want.recipient, calls[..2], sale).value;
        assert Same(Last(want), u.wbnb) ==> Balance(mid, u.wbnb, want.recipient) == Balance(mid, Last(want), want.recipient);
        ApproveThenSwap(mid, want.recipient, want.router, u.wbnb, u.cash, calls[2..], unwind);
      }
    } else {
      UnwindCanStarve(calls, want);
    }
  }

  /** The legs of a sale with its unwind, as they are built from what was judged. */
  function SaleCalls(want: V2FenceExpect): seq<FenceCall>
    requires want.path != [] && want.side.Sell? && want.side.unwind.Some?
  {
    var s, u := want.side, want.side.unwind.value;
    [FenceCall(want.path[0], 0, Approve(want.router, s.amountIn)),
     FenceCall(want.router, 0, SwapExactTokensForTokens(s.amountIn, s.minOut, want.path, want.recipient)),
     FenceCall(u.wbnb, 0, Approve(want.router, s.minOut)),
     FenceCall(want.router, 0, ExactInputSingle(u.wbnb, u.cash, want.recipient, s.minOut, u.cashMinOut, 0))]
  }

  /** Whatever is judged, its own legs are let through, whether or not the path ends in the
    * token to be unwound. */
  lemma AnyUnwindIsAccepted(want: V2FenceExpect)
    requires want.path != [] && want.side.Sell? && want.side.unwind.Some? && !Same(First(want), Last(want))
    requires var u := want.side.unwind.value; !Same(u.wbnb, u.cash)
    ensures CheckV2TradeCalls(SaleCalls(want), want).Accepted?
    ensures UnwindAlwaysFunded(SaleCalls(want), want) <==>
              Same(Last(want), want.side.unwind.value.wbnb) || want.side.minOut == 0
  {
    var calls := SaleCalls(want);
    assert calls[2..][0] == calls[2] && calls[2..][1] == calls[3];
    UnwindIsFundedIff(calls, want);
  }

  /** A sale into another token leaves an empty account nothing to unwind. */
  lemma UnwindCanStarve(calls: seq<FenceCall>, want: V2FenceExpect)
    requires want.path != [] && want.side.Sell? && want.side.unwind.Some? && !Same(First(want), Last(want))
    requires CheckV2TradeCalls(calls, want).Accepted? && |calls| == 4
    requires var u := want.side.unwind.value; !Same(u.wbnb, u.cash) && !Same(Last(want), u.wbnb)
    requires want.side.minOut > 0
    ensures !UnwindAlwaysFunded(calls, want)
  {
    UnwindLegs(calls, want);
    V2Legs(calls, want);
    var u := want.side.unwind.value;
    var c := SetBalance(Chain(map[], map[]), First(want), want.recipient, want.side.amountIn);
    var sale := [Fill(0, 0), Fill(want.side.amountIn, want.side.minOut)];
    ApproveThenSwap(c, want.recipient, want.router, First(want), Last(want), calls[..2], sale);
    var mid := PerformAll(c, want.recipient, calls[..2], sale).value;
    assert Balance(mid, u.wbnb, want.recipient) == 0;
    var unwind := [Fill(0, 0), Fill(want.side.minOut, u.cashMinOut)];
    ApproveThenSwap(mid, want.recipient, want.router, u.wbnb, u.cash, calls[2..], unwind);
    assert MaySettle(calls[3].data, unwind[1]);
  }

  /** A whole accepted sale with its unwind, when the path ends in the unwind's token: the
    * account ends up with at least the cash floor, the sold token is gone by exactly the
    * amount, and the unwind's allowance is spent unless its swap may fill in part. */
  lemma AcceptedUnwindPays(c: Chain, calls: seq<FenceCall>, want: V2FenceExpect, sale: seq<Fill>, unwind: seq<Fill>)
    requires want.path != [] && want.side.Sell? && want.side.unwind.Some? && !Same(First(want), Last(want))
    requires CheckV2TradeCalls(calls, want).Accepted? && |calls| == 4 && |sale| == 2 && |unwind| == 2
    requires var u := want.side.unwind.value;
             !Same(u.wbnb, u.cash) && !Same(u.cash, First(want)) && Same(Last(want), u.wbnb)
    requires PerformAll(c, want.recipient, calls[..2], sale).Some?
    requires PerformAll(PerformAll(c, want.recipient, calls[..2], sale).value, want.recipient, calls[2..], unwind).Some?
    ensures var u := want.side.unwind.value;
            var mid := PerformAll(c, want.recipient, calls[..2], sale).value;
            var after := PerformAll(mid, want.recipient, calls[2..], unwind).value;
            && Balance(after, u.cash, want.recipient) >= Balance(c, u.cash, want.recipient) + u.cashMinOut
            && Balance(after, First(want), want.recipient) == Balance(c, First(want), want.recipient) - want.side.amountIn
            && Balance(after, u.wbnb, want.recipient) >= Balance(c, u.wbnb, want.recipient)
            && (SellsInFull(calls[3].data) ==> Allowance(after, u.wbnb, want.recipient, want.router) == 0)
  {
    UnwindLegs(calls, want);
    AcceptedSaleTrades(c, calls, want, sale);
    var u := want.side.unwind.value;
    var mid := PerformAll(c, want.recipient, calls[..2], sale).value;
    AcceptedV3Trades(mid, calls[2..], UnwindExpect(want), unwind);
    var after := PerformAll(mid, want.recipient, calls[2..], unwind).value;
    assert Balance(mid, u.wbnb, want.recipient) == Balance(mid, Last(want), want.recipient);
    assert Balance(c, u.wbnb, want.recipient) == Balance(c, Last(want), want.recipient);
    assert Balance(mid, u.cash, want.recipient) == Balance(c, u.cash, want.recipient);
    assert Balance(after, First(want), want.recipient) == Balance(mid, First(want), want.recipient);
  }
}
