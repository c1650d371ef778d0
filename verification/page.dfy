/**
 One run of the calculator page: the sidebar's rate handling, the sale and
 purchase columns, and the net balance. Widgets are given as values, and the
 requests the sidebar may send as Requests; the result is what the page
 shows and the session slot it leaves behind.
 */
module Page {
  import opened Options
  import opened RateProvider
  import Valuation
  import BrFormat

  /** The sale column's inputs; a number input not yet filled is None. */
  datatype SaleForm = SaleForm(valueMillions: Option<real>, repassePercent: Option<real>,
                               intermediationPercent: Option<real>, abroad: bool)

  /** The purchase column's inputs. */
  datatype PurchaseForm = PurchaseForm(valueMillions: Option<real>, intermediationPercent: Option<real>,
                                       abroad: bool)

  /** Every widget the page reads in one run. `fixedRate` is read only in
      fixed mode and `refreshClicked` only in live mode, where the button is. */
  datatype Widgets = Widgets(mode: RateMode, fixedRate: real, refreshClicked: bool,
                             sale: SaleForm, purchase: PurchaseForm)

  /** What each request the sidebar may send in one run would return. */
  datatype Requests = Requests(onFirstPass: FetchOutcome, onRefresh: FetchOutcome)

  /** What one run leaves: the session slot and what the page shows. */
  datatype PassView = PassView(
    slot: Slot,                  // cotacao_atual after the run
    rate: Option<real>,          // cotacao_usada
    rateShown: bool,             // the live-rate metric in the sidebar
    rateNotice: bool,            // the "rate unavailable" message in each column
    sale: Option<real>,          // valor_liquido, when computed
    purchase: Option<real>,      // custo_total, when computed
    saleText: Option<string>,
    purchaseText: Option<string>,
    balance: int,                // int(saldo_liquido)
    balanceText: string)

  predicate SaleFormFilled(form: SaleForm) {
    form.valueMillions.Some? && form.repassePercent.Some? && form.intermediationPercent.Some?
  }

  predicate PurchaseFormFilled(form: PurchaseForm) {
    form.valueMillions.Some? && form.intermediationPercent.Some?
  }

  /** Python's `int()` on a float: truncation toward zero. */
  function TruncateToInt(x: real): (n: int)
    ensures x >= 0.0 ==> 0 <= n && n as real <= x < n as real + 1.0
    ensures x < 0.0 ==> n <= 0 && n as real - 1.0 < x <= n as real
  {
    if x >= 0.0 then x.Floor else -((-x).Floor)
  }

  /** How the page writes an amount: truncated, then in Brazilian format.
      The text reads back as the truncated amount. */
  function AmountText(x: real): (s: string)
    ensures BrFormat.ParseBr(s) == Some(TruncateToInt(x))
  {
    BrFormat.FormatBrRoundTrip(TruncateToInt(x));
    BrFormat.FormatBr(TruncateToInt(x))
  }

  /** The sale column: computed exactly when every input is filled and a rate
      is in use. */
  function SaleValuation(form: SaleForm, rate: Option<real>): (r: Option<real>)
    ensures r.Some? <==> SaleFormFilled(form) && rate.Some?
    ensures r.Some? ==> r.value == Valuation.NetSaleProceeds(form.valueMillions.value, form.repassePercent.value,
                                                            form.intermediationPercent.value, form.abroad, rate.value)
  {
    if SaleFormFilled(form) && rate.Some? then
      Some(Valuation.NetSaleProceeds(form.valueMillions.value, form.repassePercent.value,
                                     form.intermediationPercent.value, form.abroad, rate.value))
    else None
  }

  /** The purchase column: computed exactly when every input is filled and a
      rate is in use. */
  function PurchaseValuation(form: PurchaseForm, rate: Option<real>): (r: Option<real>)
    ensures r.Some? <==> PurchaseFormFilled(form) && rate.Some?
    ensures r.Some? ==> r.value == Valuation.TotalPurchaseCost(form.valueMillions.value,
                                                              form.intermediationPercent.value, form.abroad, rate.value)
  {
    if PurchaseFormFilled(form) && rate.Some? then
      Some(Valuation.TotalPurchaseCost(form.valueMillions.value, form.intermediationPercent.value,
                                       form.abroad, rate.value))
    else None
  }

  /** `saldo_liquido`: start at 0, add the sale if computed, subtract the
      purchase if computed, truncate. A side not computed counts as 0. */
  function NetBalance(sale: Option<real>, purchase: Option<real>): (b: int)
    ensures b == TruncateToInt(sale.GetOr(0.0) - purchase.GetOr(0.0))
    ensures sale.None? && purchase.None? ==> b == 0
  {
    var saldo := 0.0;
    var afterSale := if sale.Some? then saldo + sale.value else saldo;
    var afterPurchase := if purchase.Some? then afterSale - purchase.value else afterSale;
    TruncateToInt(afterPurchase)
  }

  /** Everything below the sidebar's requests, for the slot they left. */
  function Render(slot: Slot, w: Widgets): (v: PassView)
    ensures v.slot == slot
    ensures v.rate == RateInUse(w.mode, slot, w.fixedRate)
    ensures v.sale.Some? <==> SaleFormFilled(w.sale) && v.rate.Some?
    ensures v.purchase.Some? <==> PurchaseFormFilled(w.purchase) && v.rate.Some?
    ensures v.rateShown <==> w.mode.LiveQuote? && v.rate.Some? && v.rate.value != 0.0
    ensures v.rateNotice <==> w.mode.LiveQuote? && v.rate.None?
    ensures v.sale == SaleValuation(w.sale, v.rate) && v.purchase == PurchaseValuation(w.purchase, v.rate)
    ensures v.saleText == (if v.sale.Some? then Some(AmountText(v.sale.value)) else None)
    ensures v.purchaseText == (if v.purchase.Some? then Some(AmountText(v.purchase.value)) else None)
    ensures v.balance == TruncateToInt(v.sale.GetOr(0.0) - v.purchase.GetOr(0.0))
    ensures v.balanceText == BrFormat.FormatBr(v.balance)
  {
    var rate := RateInUse(w.mode, slot, w.fixedRate);
    var sale := SaleValuation(w.sale, rate);
    var purchase := PurchaseValuation(w.purchase, rate);
    var balance := NetBalance(sale, purchase);
    PassView(
      slot := slot,
      rate := rate,
      rateShown := w.mode.LiveQuote? && slot.Present? && slot.cached.Some? && slot.cached.value != 0.0,
      rateNotice := w.mode.LiveQuote? && rate.None?,
      sale := sale,
      purchase := purchase,
      saleText := if sale.Some? then Some(AmountText(sale.value)) else None,
      purchaseText := if purchase.Some? then Some(AmountText(purchase.value)) else None,
      balance := balance,
      balanceText := BrFormat.FormatBr(balance))
  }

  /** The sidebar's requests in one run. In live mode it fetches when the
      slot is absent, then, if the button was clicked, refreshes; a
      successful refresh stops the run and starts the page again with the
      button released (`st.rerun`). Fixed mode sends no request. */
  function SidebarSlot(slot: Slot, w: Widgets, req: Requests): (s: Slot)
    decreases if w.refreshClicked then 1 else 0
    ensures w.mode.FixedValue? ==> s == slot
    ensures w.mode.LiveQuote? ==> s.Present?
    ensures w.mode.LiveQuote? && slot.Present? && !w.refreshClicked ==> s == slot
    ensures w.mode.LiveQuote? && w.refreshClicked && req.onRefresh.Fetched?
            ==> s == Present(Some(req.onRefresh.bid))
    ensures w.mode.LiveQuote? && slot.Present? && req.onRefresh.FetchFailed? ==> s == slot
    ensures w.mode.LiveQuote? && slot.Absent? && !(w.refreshClicked && req.onRefresh.Fetched?)
            ==> s == Present(StoredRate(req.onFirstPass))
  {
    if w.mode.LiveQuote? then
      var fetched := FetchIfAbsent(slot, req.onFirstPass);
      if w.refreshClicked && req.onRefresh.Fetched? then
        SidebarSlot(Refresh(fetched, req.onRefresh), w.(refreshClicked := false), req)
      else
        fetched
    else
      slot
  }

  /** One run of the page: the sidebar's requests, then the page for the
      slot they leave. The run that a successful refresh stops renders
      nothing; the page shown is the one of the run it starts. */
  function RunPass(slot: Slot, w: Widgets, req: Requests): (v: PassView)
    ensures w.mode.FixedValue? ==> v.slot == slot && v.rate == Some(w.fixedRate)
    ensures w.mode.LiveQuote? ==> v.slot.Present? && v.rate == v.slot.cached
    ensures w.mode.LiveQuote? && slot.Present? && !w.refreshClicked ==> v.slot == slot
    ensures w.mode.LiveQuote? && w.refreshClicked && req.onRefresh.Fetched?
            ==> v.slot == Present(Some(req.onRefresh.bid))
    ensures w.mode.LiveQuote? && slot.Present? && req.onRefresh.FetchFailed? ==> v.slot == slot
    ensures w.mode.LiveQuote? && slot.Absent? && !(w.refreshClicked && req.onRefresh.Fetched?)
            ==> v.slot == Present(StoredRate(req.onFirstPass))
    ensures v.rateShown <==> w.mode.LiveQuote? && v.rate.Some? && v.rate.value != 0.0
    ensures v.rateNotice <==> w.mode.LiveQuote? && v.rate.None?
    ensures v.sale.Some? <==> SaleFormFilled(w.sale) && v.rate.Some?
    ensures v.purchase.Some? <==> PurchaseFormFilled(w.purchase) && v.rate.Some?
    ensures v.balance == TruncateToInt(v.sale.GetOr(0.0) - v.purchase.GetOr(0.0))
    ensures v == Render(v.slot, w)
  {
    Render(SidebarSlot(slot, w, req), w)
  }

  /** With the inputs filled, each valuation is computed exactly when a rate
      is in use. */
  lemma ComputedIffRateInUse(slot: Slot, w: Widgets, req: Requests)
    requires SaleFormFilled(w.sale) && PurchaseFormFilled(w.purchase)
    ensures var v := RunPass(slot, w, req);
            && (v.sale.Some? <==> v.rate.Some?)
            && (v.purchase.Some? <==> v.rate.Some?)
  {
  }

  /** Without a rate nothing is computed, the page shows a zero balance and,
      in live mode, the "rate unavailable" notice. */
  lemma NoRateMeansZeroBalance(slot: Slot, w: Widgets, req: Requests)
    requires RunPass(slot, w, req).rate.None?
    ensures var v := RunPass(slot, w, req);
            && v.sale.None? && v.purchase.None?
            && v.balance == 0 && v.balanceText == "0"
            && (w.mode.LiveQuote? ==> v.rateNotice)
  {
  }

  /** A failed first fetch stores None: the run has no rate, and neither has
      any later live run without a successful refresh, whatever its requests
      would return. */
  lemma FailedFirstFetchIsSticky(w: Widgets, req: Requests, later: Widgets, laterReq: Requests)
    requires w.mode.LiveQuote? && req.onFirstPass.FetchFailed?
    requires !(w.refreshClicked && req.onRefresh.Fetched?)
    requires later.mode.LiveQuote? && !(later.refreshClicked && laterReq.onRefresh.Fetched?)
    ensures RunPass(Absent, w, req).slot == Present(None)
    ensures RunPass(Absent, w, req).rate.None?
    ensures RunPass(RunPass(Absent, w, req).slot, later, laterReq).slot == Present(None)
    ensures RunPass(RunPass(Absent, w, req).slot, later, laterReq).rate.None?
  {
  }

  /** A successful refresh puts its bid in the slot and computes with it. */
  lemma RefreshUsesNewBid(slot: Slot, w: Widgets, req: Requests)
    requires w.mode.LiveQuote? && w.refreshClicked && req.onRefresh.Fetched?
    ensures RunPass(slot, w, req).slot == Present(Some(req.onRefresh.bid))
    ensures RunPass(slot, w, req).rate == Some(req.onRefresh.bid)
  {
  }

  /** A failed refresh leaves a cached rate, and the rate in use, as they
      were. */
  lemma FailedRefreshKeepsRate(slot: Slot, w: Widgets, req: Requests)
    requires w.mode.LiveQuote? && slot.Present? && req.onRefresh.FetchFailed?
    ensures RunPass(slot, w, req).slot == slot
    ensures RunPass(slot, w, req).rate == slot.cached
  {
  }

  /** Fixed mode sends no request and leaves the slot alone. */
  lemma FixedModeSendsNoRequest(slot: Slot, w: Widgets, req1: Requests, req2: Requests)
    requires w.mode.FixedValue?
    ensures RunPass(slot, w, req1) == RunPass(slot, w, req2)
    ensures RunPass(slot, w, req1).slot == slot
  {
  }

  /** Running the page again with the button released shows the same page:
      the slot a run leaves is never fetched again automatically. */
  lemma RerunShowsSamePage(slot: Slot, w: Widgets, req: Requests, laterReq: Requests)
    ensures var v := RunPass(slot, w, req);
            RunPass(v.slot, w.(refreshClicked := false), laterReq) == v
  {
  }

  /** A sale of 10 M EUR with 5% repasse and 10% intermediation, and a
      purchase abroad of 5 M EUR with 8% intermediation, at a fixed rate of
      6.00. The balance is truncated from the exact amounts, not from the
      truncated texts. */
  lemma WorkedExample(slot: Slot, req: Requests)
    ensures var w := Widgets(FixedValue, 6.0, false,
                             SaleForm(Some(10.0), Some(5.0), Some(10.0), false),
                             PurchaseForm(Some(5.0), Some(8.0), true));
            var v := RunPass(slot, w, req);
            && v.sale == Some(51000000.0)
            && v.saleText == Some("51.000.000")
            && v.purchaseText == Some("37.808.117")
            && v.balance == 13191882
            && v.balanceText == "13.191.882"
  {
    var sale := Valuation.NetSaleProceeds(10.0, 5.0, 10.0, false, 6.0);
    var cost := Valuation.TotalPurchaseCost(5.0, 8.0, true, 6.0);
    Valuation.WorkedAmounts();
    assert TruncateToInt(sale) == 51000000;
    assert TruncateToInt(cost) == 37808117;
    assert TruncateToInt(sale - cost) == 13191882;
    BrFormat.FormatsFiftyOneMillion();
    BrFormat.FormatsWorkedPurchase();
    BrFormat.FormatsWorkedBalance();
  }
}
