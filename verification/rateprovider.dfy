/**
 The EUR/BRL rate provider: the per-session slot `cotacao_atual`, the two
 transitions that write it (the fetch on a pass that finds it missing, and
 the explicit "Atualizar Cotação" refresh) and the choice of the rate a pass
 computes with. The HTTP request and the parsing of its JSON body are given
 as a FetchOutcome.
 */
module RateProvider {
  import opened Options

  /** Where the rate comes from: "Câmbio atual" or "Valor fixo". */
  datatype RateMode = LiveQuote | FixedValue

  /** What one request to the quote service produced: the parsed `bid`, or a
      failure (connection, HTTP status, missing field or non-numeric bid). */
  datatype FetchOutcome = Fetched(bid: real) | FetchFailed

  /** The session slot: absent until the first live pass, then present and
      holding either a rate or None after a failed first fetch. */
  datatype Slot = Absent | Present(cached: Option<real>)

  /** What a fetch stores in the slot: the bid, or None on failure. */
  function StoredRate(outcome: FetchOutcome): (r: Option<real>)
    ensures r.Some? <==> outcome.Fetched?
    ensures r.Some? ==> r.value == outcome.bid
  {
    match outcome
    case Fetched(bid) => Some(bid)
    case FetchFailed => None
  }

  /** The fetch of a live pass. It writes only a slot that is absent, and
      always leaves it present: a failure stores None, which is present, so
      no later pass fetches again on its own. */
  function FetchIfAbsent(slot: Slot, outcome: FetchOutcome): (s: Slot)
    ensures s.Present?
    ensures slot.Present? ==> s == slot
    ensures slot.Absent? ==> (s.cached.Some? <==> outcome.Fetched?)
    ensures slot.Absent? && outcome.Fetched? ==> s.cached == Some(outcome.bid)
  {
    if slot.Absent? then Present(StoredRate(outcome)) else slot
  }

  /** The "Atualizar Cotação" button: a successful fetch overwrites whatever
      the slot held; a failed one leaves the slot as it was. */
  function Refresh(slot: Slot, outcome: FetchOutcome): (s: Slot)
    ensures outcome.Fetched? ==> s == Present(Some(outcome.bid))
    ensures outcome.FetchFailed? ==> s == slot
  {
    match outcome
    case Fetched(bid) => Present(Some(bid))
    case FetchFailed => slot
  }

  /** `cotacao_usada`: in live mode the cached rate when the slot is present
      and not None, otherwise none; in fixed mode the user's fixed value. */
  function RateInUse(mode: RateMode, slot: Slot, fixedRate: real): (r: Option<real>)
    ensures r.Some? <==> mode.FixedValue? || (slot.Present? && slot.cached.Some?)
    ensures mode.FixedValue? ==> r == Some(fixedRate)
    ensures mode.LiveQuote? && r.Some? ==> r == slot.cached
  {
    match mode
    case LiveQuote => if slot.Present? && slot.cached.Some? then slot.cached else None
    case FixedValue => Some(fixedRate)
  }

  /** The first-pass fetch happens at most once: a second first-pass fetch
      never changes the slot the first one left, whatever its request
      returns. */
  lemma FetchHappensOnce(slot: Slot, first: FetchOutcome, second: FetchOutcome)
    ensures FetchIfAbsent(FetchIfAbsent(slot, first), second) == FetchIfAbsent(slot, first)
  {
  }

  /** After a failed first fetch the live rate stays unavailable until a
      refresh succeeds. */
  lemma FailedFetchLeavesNoRate(outcome: FetchOutcome, fixedRate: real)
    requires outcome.FetchFailed?
    ensures FetchIfAbsent(Absent, outcome) == Present(None)
    ensures RateInUse(LiveQuote, FetchIfAbsent(Absent, outcome), fixedRate).None?
  {
  }

  /** A successful refresh makes its bid the live rate in use; a failed one
      keeps the rate in use. */
  lemma RefreshDecidesLiveRate(slot: Slot, outcome: FetchOutcome, fixedRate: real)
    ensures outcome.Fetched? ==> RateInUse(LiveQuote, Refresh(slot, outcome), fixedRate) == Some(outcome.bid)
    ensures outcome.FetchFailed? ==> RateInUse(LiveQuote, Refresh(slot, outcome), fixedRate)
                                     == RateInUse(LiveQuote, slot, fixedRate)
  {
  }

  /** The fixed mode never reads the slot. */
  lemma FixedRateIgnoresSlot(slot1: Slot, slot2: Slot, fixedRate: real)
    ensures RateInUse(FixedValue, slot1, fixedRate) == RateInUse(FixedValue, slot2, fixedRate)
  {
  }
}
