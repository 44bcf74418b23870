/** Rebuilding a book from its journal and judging the published equity against it
  * (worker/src/audit.ts, `reconstruct` and `reconcile`; worker/src/equity.ts).
  * Cash figures are exact base units where the ledger stores REAL columns. */
module BookAudit {
  import opened Text

  /** The parsed payload fields the fold reads; None where the field is not of its type. */
  datatype Payload = Payload(
    amountUsdg: Option<int>, direction: string, txHash: string, status: string,
    realizedPnlUsdg: Option<int>, fillSide: string, fillCashUsdg: Option<int>,
    gasWei: Option<int>, gasUsdg: Option<int>,
    equityUsdg: Option<int>, cashUsdg: Option<int>, positionsUsdg: Option<int>,
    vaultUsdg: Option<int>, quarantinedCostUsdg: Option<int>)

  /** A journal row; `payload` is None when its JSON does not parse. */
  datatype Entry = Entry(num: int, kind: string, payload: Option<Payload>)

  /** The components published in the same breath as an equity figure. */
  datatype Mark = Mark(
    equityUsdg: int, cashUsdg: Option<int>, positionsUsdg: Option<int>,
    vaultUsdg: Option<int>, quarantinedCostUsdg: Option<int>)

  datatype Ref = Ref(kind: string, num: int)

  datatype Book = Book(
    netContributionsUsdg: int, realizedPnlUsdg: int, gasWei: int, gasUsdg: int, gasUnpricedFills: int,
    published: Option<Mark>, flowCount: int, markCount: int, grossBuyNotionalUsdg: int,
    chainRefs: seq<Ref>, unanchored: seq<Ref>)

  /** 0.0001 USDG at 18 decimals. */
  const ARITHMETIC_TOLERANCE := 100_000_000_000_000

  // ── what each journal row contributes ──────────────────────────────────────

  predicate Is(e: Entry, kind: string) {
    e.kind == kind && e.payload.Some?
  }

  function Or(v: Option<int>, otherwise: int): int {
    if v.Some? then v.value else otherwise
  }

  function FlowAmount(e: Entry): int {
    if !Is(e, "flow") then 0
    else if e.payload.value.direction == "in" then Or(e.payload.value.amountUsdg, 0)
    else -Or(e.payload.value.amountUsdg, 0)
  }

  function RealizedAmount(e: Entry): int {
    if Is(e, "fill") then Or(e.payload.value.realizedPnlUsdg, 0) else 0
  }

  function BuyNotional(e: Entry): int {
    if Is(e, "fill") && e.payload.value.fillSide == "buy" && e.payload.value.status != "rejected"
    then Or(e.payload.value.fillCashUsdg, Or(e.payload.value.amountUsdg, 0)) else 0
  }

  function GasPaid(e: Entry): int {
    if Is(e, "fill") then Or(e.payload.value.gasWei, 0) else 0
  }

  function GasPriced(e: Entry): int {
    if Is(e, "fill") && e.payload.value.gasWei.Some? then Or(e.payload.value.gasUsdg, 0) else 0
  }

  function GasUnpriced(e: Entry): int {
    if Is(e, "fill") && e.payload.value.gasWei.Some? && e.payload.value.gasUsdg.None?
       && e.payload.value.status == "landed" then 1 else 0
  }

  function FlowSeen(e: Entry): int {
    if Is(e, "flow") then 1 else 0
  }

  predicate IsMark(e: Entry) {
    Is(e, "mark") && e.payload.value.equityUsdg.Some?
  }

  function MarkSeen(e: Entry): int {
    if IsMark(e) then 1 else 0
  }

  function MarkOf(e: Entry): Mark
    requires IsMark(e)
  {
    var p := e.payload.value;
    Mark(p.equityUsdg.value, p.cashUsdg, p.positionsUsdg, p.vaultUsdg, p.quarantinedCostUsdg)
  }

  predicate MovesMoney(e: Entry) {
    Is(e, "flow") || Is(e, "fill")
  }

  function Sum(entries: seq<Entry>, f: Entry -> int): int {
    if entries == [] then 0 else Sum(entries[..|entries| - 1], f) + f(entries[|entries| - 1])
  }

  function LastMark(entries: seq<Entry>): Option<Mark> {
    if entries == [] then None
    else if IsMark(entries[|entries| - 1]) then Some(MarkOf(entries[|entries| - 1]))
    else LastMark(entries[..|entries| - 1])
  }

  /** The money-moving rows that do (or do not) name a transaction, in order. */
  function Refs(entries: seq<Entry>, anchored: bool): seq<Ref> {
    if entries == [] then [] else
      var e := entries[|entries| - 1];
      Refs(entries[..|entries| - 1], anchored) +
      if MovesMoney(e) && (e.payload.value.txHash != "") == anchored then [Ref(e.kind, e.num)] else []
  }

  /** Rebuild the book: every figure is the sum of what each row contributes, and the
    * published components are those of the last mark. */
  method Reconstruct(entries: seq<Entry>) returns (book: Book)
    ensures book == BookOf(entries)
  {
    book := Book(0, 0, 0, 0, 0, None, 0, 0, 0, [], []);
    for i := 0 to |entries|
      invariant book == BookOf(entries[..i])
    {
      var e := entries[i];
      BookOneMore(entries, i);
      if e.payload.None? { continue; }
      var p := e.payload.value;
      if e.kind == "flow" {
        var amount := Or(p.amountUsdg, 0);
        book := book.(
          flowCount := book.flowCount + 1,
          netContributionsUsdg := book.netContributionsUsdg + (if p.direction == "in" then amount else -amount));
        if p.txHash != "" {
          book := book.(chainRefs := book.chainRefs + [Ref("flow", e.num)]);
        } else {
          book := book.(unanchored := book.unanchored + [Ref("flow", e.num)]);
        }
      }
      if e.kind == "fill" {
        if p.realizedPnlUsdg.Some? {
          book := book.(realizedPnlUsdg := book.realizedPnlUsdg + p.realizedPnlUsdg.value);
        }
        if p.fillSide == "buy" && p.status != "rejected" {
          var paid := Or(p.fillCashUsdg, Or(p.amountUsdg, 0));
          book := book.(grossBuyNotionalUsdg := book.grossBuyNotionalUsdg + paid);
        }
        if p.gasWei.Some? {
          book := book.(gasWei := book.gasWei + p.gasWei.value);
          if p.gasUsdg.Some? {
            book := book.(gasUsdg := book.gasUsdg + p.gasUsdg.value);
          } else if p.status == "landed" {
            book := book.(gasUnpricedFills := book.gasUnpricedFills + 1);
          }
        }
        if p.txHash != "" {
          book := book.(chainRefs := book.chainRefs + [Ref("fill", e.num)]);
        } else {
          book := book.(unanchored := book.unanchored + [Ref("fill", e.num)]);
        }
      }
      if e.kind == "mark" && p.equityUsdg.Some? {
        book := book.(
          markCount := book.markCount + 1,
          published := Some(Mark(p.equityUsdg.value, p.cashUsdg, p.positionsUsdg, p.vaultUsdg,
                                 p.quarantinedCostUsdg)));
      }
    }
    assert entries[..|entries|] == entries;
  }

  ghost function BookOf(entries: seq<Entry>): Book {
    Book(Sum(entries, FlowAmount), Sum(entries, RealizedAmount), Sum(entries, GasPaid), Sum(entries, GasPriced),
         Sum(entries, GasUnpriced), LastMark(entries), Sum(entries, FlowSeen), Sum(entries, MarkSeen),
         Sum(entries, BuyNotional), Refs(entries, true), Refs(entries, false))
  }

  /** A book with one more row read. */
  ghost function Entered(b: Book, e: Entry): Book {
    Book(b.netContributionsUsdg + FlowAmount(e), b.realizedPnlUsdg + RealizedAmount(e),
         b.gasWei + GasPaid(e), b.gasUsdg + GasPriced(e), b.gasUnpricedFills + GasUnpriced(e),
         if IsMark(e) then Some(MarkOf(e)) else b.published,
         b.flowCount + FlowSeen(e), b.markCount + MarkSeen(e), b.grossBuyNotionalUsdg + BuyNotional(e),
         b.chainRefs + (if MovesMoney(e) && e.payload.value.txHash != "" then [Ref(e.kind, e.num)] else []),
         b.unanchored + (if MovesMoney(e) && e.payload.value.txHash == "" then [Ref(e.kind, e.num)] else []))
  }

  lemma BookOneMore(entries: seq<Entry>, i: nat)
    requires i < |entries|
    ensures BookOf(entries[..i + 1]) == Entered(BookOf(entries[..i]), entries[i])
  {
    assert entries[..i + 1][..i] == entries[..i];
  }

  // ── equity and the verdict ─────────────────────────────────────────────────

  datatype BookParts = BookParts(cashUsdg: int, vaultUsdg: int, positionsUsdg: int, quarantinedCostUsdg: int)

  function ComposeEquityUsdg(parts: BookParts): int {
    parts.cashUsdg + parts.vaultUsdg + parts.positionsUsdg + parts.quarantinedCostUsdg
  }

  datatype ArithmeticFinding = DoesNotAddUp | MoneyFromNowhere | ContributionsUnsupported

  datatype Verdict = Verdict(residualUsdg: Option<int>, checked: bool, findings: seq<ArithmeticFinding>)

  function Abs(x: int): int {
    if x < 0 then -x else x
  }

  predicate BasisVisible(book: Book, m: Mark) {
    book.grossBuyNotionalUsdg > 0 || Or(m.positionsUsdg, 0) <= ARITHMETIC_TOLERANCE
  }

  function Reconcile(book: Book): Verdict {
    if book.published.None? then Verdict(None, false, [])
    else
      var m := book.published.value;
      var residual := m.equityUsdg - (book.netContributionsUsdg + book.realizedPnlUsdg);
      var quarantineKnown := m.quarantinedCostUsdg.Some?;
      var contributionsRecorded := book.flowCount > 0;
      var complete := quarantineKnown && m.cashUsdg.Some? && m.positionsUsdg.Some? && m.vaultUsdg.Some?;
      var composition :=
        if complete &&
           Abs(m.equityUsdg - ComposeEquityUsdg(BookParts(m.cashUsdg.value, m.vaultUsdg.value,
                                                          m.positionsUsdg.value, m.quarantinedCostUsdg.value)))
             > ARITHMETIC_TOLERANCE
        then [DoesNotAddUp] else [];
      var envelope :=
        if m.positionsUsdg.Some? && quarantineKnown && contributionsRecorded && BasisVisible(book, m) then
          if residual > m.positionsUsdg.value + m.quarantinedCostUsdg.value + ARITHMETIC_TOLERANCE
          then [MoneyFromNowhere]
          else if residual < -book.grossBuyNotionalUsdg - ARITHMETIC_TOLERANCE
          then [ContributionsUnsupported]
          else []
        else [];
      Verdict(Some(residual), complete && contributionsRecorded && BasisVisible(book, m), composition + envelope)
  }

  /** The four parts were all published with the equity. */
  predicate PartsPublished(m: Mark) {
    m.cashUsdg.Some? && m.positionsUsdg.Some? && m.vaultUsdg.Some? && m.quarantinedCostUsdg.Some?
  }

  /** The envelope can be judged: what is held is published, some capital is on record, and
    * what was paid is, or there is next to nothing it was paid for. */
  predicate EnvelopeUsable(book: Book, m: Mark) {
    && m.positionsUsdg.Some? && m.quarantinedCostUsdg.Some? && book.flowCount > 0
    && (book.grossBuyNotionalUsdg > 0 || m.positionsUsdg.value <= 100_000_000_000_000)
  }

  /** What each finding accuses a book of, whatever it holds, within 0.0001 USDG: parts that
    * do not make the whole; more equity than contributions, profit and holdings explain;
    * less than a loss of everything ever paid would leave. A term that was not published
    * accuses nobody, and the verdict then says it checked less. */
  lemma EachFindingIff(book: Book)
    requires book.published.Some?
    ensures var v, m := Reconcile(book), book.published.value; var tolerance := 100_000_000_000_000;
            var explained := book.netContributionsUsdg + book.realizedPnlUsdg;
            && v.residualUsdg == Some(m.equityUsdg - explained)
            && (DoesNotAddUp in v.findings <==>
                  PartsPublished(m) &&
                  var sum := m.cashUsdg.value + m.vaultUsdg.value + m.positionsUsdg.value + m.quarantinedCostUsdg.value;
                  m.equityUsdg > sum + tolerance || m.equityUsdg < sum - tolerance)
            && (MoneyFromNowhere in v.findings <==>
                  EnvelopeUsable(book, m) &&
                  m.equityUsdg > explained + m.positionsUsdg.value + m.quarantinedCostUsdg.value + tolerance)
            && (ContributionsUnsupported in v.findings <==>
                  && EnvelopeUsable(book, m) && MoneyFromNowhere !in v.findings
                  && m.equityUsdg < explained - book.grossBuyNotionalUsdg - tolerance)
            && (v.checked <==> PartsPublished(m) && EnvelopeUsable(book, m))
            && |v.findings| <= 2
  {
  }

  // ── sums do not care where a row sits ──────────────────────────────────────

  lemma {:induction false} SumOfConcat(a: seq<Entry>, b: seq<Entry>, f: Entry -> int)
    ensures Sum(a + b, f) == Sum(a, f) + Sum(b, f)
  {
    if b == [] {
      assert a + b == a;
    } else {
      var n := |b| - 1;
      SumOfConcat(a, b[..n], f);
      assert (a + b)[..|a + b| - 1] == a + b[..n];
    }
  }

  lemma SumOfInserted(a: seq<Entry>, p: nat, x: Entry, f: Entry -> int)
    requires p <= |a|
    ensures Sum(a[..p] + [x] + a[p..], f) == Sum(a, f) + f(x)
  {
    SumOfConcat(a[..p] + [x], a[p..], f);
    SumOfConcat(a[..p], [x], f);
    SumOfConcat(a[..p], a[p..], f);
    assert a[..p] + a[p..] == a;
    assert Sum([x], f) == Sum([], f) + f(x) by { assert [x][..0] == []; }
  }

  // ── rows that say nothing ──────────────────────────────────────────────────

  /** A row that does not parse, or is none of the three kinds, or is a mark with no figure. */
  predicate Mute(e: Entry) {
    e.payload.None? || (e.kind != "flow" && e.kind != "fill" && (e.kind != "mark" || e.payload.value.equityUsdg.None?))
  }

  lemma {:induction false} LastMarkOfConcat(a: seq<Entry>, b: seq<Entry>)
    ensures LastMark(a + b) == if LastMark(b).Some? then LastMark(b) else LastMark(a)
  {
    if b == [] {
      assert a + b == a;
    } else {
      var n := |b| - 1;
      LastMarkOfConcat(a, b[..n]);
      assert (a + b)[..|a + b| - 1] == a + b[..n];
    }
  }

  lemma LastMarkAround(a: seq<Entry>, x: Entry, b: seq<Entry>)
    requires !IsMark(x)
    ensures LastMark(a + [x] + b) == LastMark(a + b)
  {
    LastMarkOfConcat(a + [x], b);
    LastMarkOfConcat(a, b);
    assert (a + [x])[..|a|] == a;
  }

  lemma LastMarkOfInserted(a: seq<Entry>, p: nat, x: Entry)
    requires p <= |a| && !IsMark(x)
    ensures LastMark(a[..p] + [x] + a[p..]) == LastMark(a)
  {
    LastMarkAround(a[..p], x, a[p..]);
    assert a[..p] + a[p..] == a;
  }

  /** What is published is the last mark there is, its own parts with it, whatever was
    * marked before and whatever else came after. */
  lemma PublishedIsTheLastMark(entries: seq<Entry>, k: nat)
    requires k < |entries| && entries[k].kind == "mark" && entries[k].payload.Some?
    requires entries[k].payload.value.equityUsdg.Some?
    requires forall i | k < i < |entries| :: entries[i].kind != "mark" || Mute(entries[i])
    ensures var p := entries[k].payload.value;
            BookOf(entries).published ==
            Some(Mark(p.equityUsdg.value, p.cashUsdg, p.positionsUsdg, p.vaultUsdg, p.quarantinedCostUsdg))
  {
    var before, after := entries[..k + 1], entries[k + 1..];
    NoMarkAmong(after);
    LastMarkOfConcat(before, after);
    assert before + after == entries;
    assert before[..|before| - 1] == entries[..k];
  }

  lemma {:induction false} NoMarkAmong(entries: seq<Entry>)
    requires forall i | 0 <= i < |entries| :: entries[i].kind != "mark" || Mute(entries[i])
    ensures LastMark(entries) == None
  {
    if entries != [] { NoMarkAmong(entries[..|entries| - 1]); }
  }

  /** A refused order, of either side and any amount, wherever it stands in any journal, is no
    * purchase and no profit: the verdict on the book is what it was without it. So is that
    * of a row that says nothing. */
  lemma RefusedOrdersChangeNoVerdict(entries: seq<Entry>, at: nat, x: Entry)
    requires at <= |entries|
    requires Mute(x) || (x.kind == "fill" && x.payload.value.status == "rejected" && x.payload.value.realizedPnlUsdg.None?)
    ensures Reconcile(BookOf(entries[..at] + [x] + entries[at..])) == Reconcile(BookOf(entries))
  {
    SumOfInserted(entries, at, x, FlowAmount);
    SumOfInserted(entries, at, x, RealizedAmount);
    SumOfInserted(entries, at, x, BuyNotional);
    SumOfInserted(entries, at, x, FlowSeen);
    LastMarkOfInserted(entries, at, x);
  }

  // ── gas ────────────────────────────────────────────────────────────────────

  /** It landed, it burned gas, and nothing says what that cost. */
  predicate LandedUnpriced(e: Entry) {
    && e.kind == "fill" && e.payload.Some? && e.payload.value.status == "landed"
    && e.payload.value.gasWei.Some? && e.payload.value.gasUsdg.None?
  }

  /** "Net of gas" can be claimed exactly when every landed fill that burned gas has it priced. */
  lemma {:induction false} GasIsPricedIff(entries: seq<Entry>)
    ensures BookOf(entries).gasUnpricedFills >= 0
    ensures BookOf(entries).gasUnpricedFills == 0 <==>
              forall e <- entries :: !LandedUnpriced(e)
  {
    if entries != [] {
      var n := |entries| - 1;
      GasIsPricedIff(entries[..n]);
      assert entries == entries[..n] + [entries[n]];
      assert entries[n] in entries && forall e <- entries[..n] :: e in entries;
    }
  }
}
