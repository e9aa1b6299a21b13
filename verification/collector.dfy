/**
  `fetch_currency_rates`: the day-count check, the walk over day offsets,
  the stop at the first HTTP failure and the closing of the client.
  The network is replaced by `respond`, the answer to the request for day
  offset `i`, and the clock by `dateOf`, the date string of offset `i`.
 */
module Collector {
  import opened Rates
  import opened Filter

  /** What one `get_rates` call yields. */
  datatype Response =
    | Ok(payload: Payload)          // status 200, decoded JSON body
    | HttpFailure(status: int)      // any other status: `HttpError` is raised
    | OtherFailure                  // any other exception (connection, decoding)

  /** The observable client activity of one collection run. */
  datatype Event = Opened | Requested(date: string) | Closed

  datatype Outcome =
    | Collected(entries: seq<DayEntry>)   // the returned list
    | Rejected(message: string)           // `ValueError` raised before any client exists
    | Propagated                          // a non-HTTP exception left the function

  datatype Run = Run(outcome: Outcome, events: seq<Event>)

  /** What the loop body leaves behind from offset `i` onwards. */
  datatype Walked = Walked(entries: seq<DayEntry>, requests: seq<Event>, raised: bool)

  const MinDays := 1
  const MaxDays := 10
  const RangeMessage := "You can only request rates for the last 1\U{2013}10 days."

  /** The day entry appended for offset `i` when its payload arrives. */
  function DayAt(i: nat, p: Payload, currencies: seq<string>, dateOf: nat -> string): DayEntry
  {
    DayEntry(dateOf(i), DayRates(p, currencies))
  }

  /**
    The `for i in range(days)` loop from offset `i`: request the date,
    append the filtered day on success, leave the loop on `HttpError`
    (caught) or on any other exception (propagated).
   */
  function Walk(i: nat, days: nat, currencies: seq<string>, respond: nat -> Response, dateOf: nat -> string): (w: Walked)
    requires i <= days
    ensures forall e :: e in w.requests ==> e.Requested?
    ensures |w.entries| <= |w.requests| <= days - i
    decreases days - i
  {
    if i == days then Walked([], [], false)
    else
      var date := dateOf(i);
      match respond(i)
      case HttpFailure(_) => Walked([], [Requested(date)], false)
      case OtherFailure => Walked([], [Requested(date)], true)
      case Ok(p) =>
        var rest := Walk(i + 1, days, currencies, respond, dateOf);
        Walked([DayAt(i, p, currencies, dateOf)] + rest.entries, [Requested(date)] + rest.requests, rest.raised)
  }

  /**
    The whole call: an out-of-range day count is rejected before a client
    is opened; otherwise the client is opened, the days are walked, and the
    client is closed on every exit path.
   */
  function Collect(days: int, currencies: seq<string>, respond: nat -> Response, dateOf: nat -> string): (run: Run)
    ensures run.outcome.Rejected? <==> days < MinDays || days > MaxDays
    ensures run.outcome.Rejected? ==> run.outcome.message == RangeMessage && run.events == []
    ensures !run.outcome.Rejected? ==>
      && |run.events| >= 2
      && run.events[0] == Opened
      && run.events[|run.events| - 1] == Closed
      && multiset(run.events)[Opened] == 1
      && multiset(run.events)[Closed] == 1
    ensures run.outcome.Collected? ==> |run.outcome.entries| <= days
  {
    if days < MinDays || days > MaxDays then Run(Rejected(RangeMessage), [])
    else
      var w := Walk(0, days, currencies, respond, dateOf);
      assert Opened !in w.requests && Closed !in w.requests;
      var events := [Opened] + w.requests + [Closed];
      assert multiset(events) == multiset([Opened]) + multiset(w.requests) + multiset([Closed]);
      Run(if w.raised then Propagated else Collected(w.entries), events)
  }

  /** Every request for offsets `from .. to-1` returns a payload. */
  predicate AllOk(respond: nat -> Response, from: nat, to: nat)
  {
    forall i :: from <= i < to ==> respond(i).Ok?
  }

  /** The day entries for offsets `from .. to-1`, in increasing offset. */
  function DaysBetween(from: nat, to: nat, currencies: seq<string>, respond: nat -> Response, dateOf: nat -> string): seq<DayEntry>
    requires from <= to && AllOk(respond, from, to)
  {
    seq(to - from, t requires 0 <= t < to - from => DayAt(from + t, respond(from + t).payload, currencies, dateOf))
  }

  /** The requests for offsets `from .. to-1`, in increasing offset. */
  function RequestsBetween(from: nat, to: nat, dateOf: nat -> string): seq<Event>
    requires from <= to
  {
    seq(to - from, t requires 0 <= t < to - from => Requested(dateOf(from + t)))
  }

  /** The days from `from` are the day at `from` followed by the days after it. */
  lemma DaysBetweenCons(from: nat, to: nat, currencies: seq<string>, respond: nat -> Response, dateOf: nat -> string)
    requires from < to && AllOk(respond, from, to)
    ensures DaysBetween(from, to, currencies, respond, dateOf)
      == [DayAt(from, respond(from).payload, currencies, dateOf)] + DaysBetween(from + 1, to, currencies, respond, dateOf)
  {
    var all := DaysBetween(from, to, currencies, respond, dateOf);
    var rest := DaysBetween(from + 1, to, currencies, respond, dateOf);
    assert forall t :: 0 <= t < |rest| ==> rest[t] == all[t + 1];
  }

  /** The requests from `from` are the one for `from` followed by the ones after it. */
  lemma RequestsBetweenCons(from: nat, to: nat, dateOf: nat -> string)
    requires from < to
    ensures RequestsBetween(from, to, dateOf) == [Requested(dateOf(from))] + RequestsBetween(from + 1, to, dateOf)
  {
    var all := RequestsBetween(from, to, dateOf);
    var rest := RequestsBetween(from + 1, to, dateOf);
    assert forall t :: 0 <= t < |rest| ==> rest[t] == all[t + 1];
  }

  /**
    The walk from offset `i` when offset `k` is the first one that does not
    return a payload (`k == days`: none fails): it keeps the days before `k`,
    requests up to and including `k`, and raises only for a non-HTTP failure.
   */
  lemma {:induction false} WalkStopsAtFirstFailure(i: nat, k: nat, days: nat, currencies: seq<string>, respond: nat -> Response, dateOf: nat -> string)
    requires i <= k <= days
    requires AllOk(respond, i, k)
    requires k < days ==> !respond(k).Ok?
    ensures Walk(i, days, currencies, respond, dateOf).entries == DaysBetween(i, k, currencies, respond, dateOf)
    ensures Walk(i, days, currencies, respond, dateOf).requests
      == RequestsBetween(i, if k < days then k + 1 else k, dateOf)
    ensures Walk(i, days, currencies, respond, dateOf).raised == (k < days && respond(k).OtherFailure?)
    decreases days - i
  {
    var last := if k < days then k + 1 else k;
    if i < k {
      WalkStopsAtFirstFailure(i + 1, k, days, currencies, respond, dateOf);
      DaysBetweenCons(i, k, currencies, respond, dateOf);
      RequestsBetweenCons(i, last, dateOf);
    } else if i < days {
      RequestsBetweenCons(i, last, dateOf);
      assert RequestsBetween(i + 1, last, dateOf) == [];
    }
  }

  /** Without any failure, the run returns one entry per day, keyed by the date of its offset. */
  lemma CollectWithoutFailure(days: int, currencies: seq<string>, respond: nat -> Response, dateOf: nat -> string)
    requires MinDays <= days <= MaxDays
    requires AllOk(respond, 0, days)
    ensures Collect(days, currencies, respond, dateOf).outcome == Collected(DaysBetween(0, days, currencies, respond, dateOf))
    ensures Collect(days, currencies, respond, dateOf).events
      == [Opened] + RequestsBetween(0, days, dateOf) + [Closed]
    ensures |Collect(days, currencies, respond, dateOf).outcome.entries| == days
    ensures forall i :: 0 <= i < days ==> Collect(days, currencies, respond, dateOf).outcome.entries[i].date == dateOf(i)
  {
    WalkStopsAtFirstFailure(0, days, days, currencies, respond, dateOf);
  }

  /**
    An `HttpError` at offset `k` ends the loop: the run returns exactly the
    `k` entries gathered before it, the same ones a `k`-day run returns,
    and the client is still closed once.
   */
  lemma CollectStopsAtHttpFailure(days: int, k: nat, currencies: seq<string>, respond: nat -> Response, dateOf: nat -> string)
    requires MinDays <= days <= MaxDays
    requires k < days && AllOk(respond, 0, k) && respond(k).HttpFailure?
    ensures Collect(days, currencies, respond, dateOf).outcome == Collected(DaysBetween(0, k, currencies, respond, dateOf))
    ensures Collect(days, currencies, respond, dateOf).events
      == [Opened] + RequestsBetween(0, k + 1, dateOf) + [Closed]
    ensures k >= MinDays ==>
      Collect(days, currencies, respond, dateOf).outcome == Collect(k, currencies, respond, dateOf).outcome
  {
    WalkStopsAtFirstFailure(0, k, days, currencies, respond, dateOf);
    if k >= MinDays {
      WalkStopsAtFirstFailure(0, k, k, currencies, respond, dateOf);
    }
  }

  /**
    Any other exception at offset `k` leaves the function: nothing is
    returned, yet the client is closed once.
   */
  lemma CollectPropagatesOtherFailure(days: int, k: nat, currencies: seq<string>, respond: nat -> Response, dateOf: nat -> string)
    requires MinDays <= days <= MaxDays
    requires k < days && AllOk(respond, 0, k) && respond(k).OtherFailure?
    ensures Collect(days, currencies, respond, dateOf).outcome == Propagated
    ensures Collect(days, currencies, respond, dateOf).events
      == [Opened] + RequestsBetween(0, k + 1, dateOf) + [Closed]
  {
    WalkStopsAtFirstFailure(0, k, days, currencies, respond, dateOf);
  }

  /**
    A payload without `exchangeRate` still produces its day entry, with an
    empty dictionary, in its place.
   */
  lemma MissingExchangeRateStillAppended(days: int, i: nat, currencies: seq<string>, respond: nat -> Response, dateOf: nat -> string)
    requires MinDays <= days <= MaxDays
    requires AllOk(respond, 0, days)
    requires i < days && respond(i).payload.exchangeRate.None?
    ensures
      var out := Collect(days, currencies, respond, dateOf).outcome;
      out.Collected? && i < |out.entries| && out.entries[i] == DayEntry(dateOf(i), [])
  {
    CollectWithoutFailure(days, currencies, respond, dateOf);
    var entries := DaysBetween(0, days, currencies, respond, dateOf);
    assert entries[i] == DayAt(i, respond(i).payload, currencies, dateOf);
    assert DayRates(respond(i).payload, currencies) == [];
  }
}
