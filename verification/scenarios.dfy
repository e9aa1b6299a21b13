/** Concrete runs of the model: the situations the program's behaviour is described by. */
module Scenarios {
  import opened Optional
  import opened Rates
  import opened Filter
  import opened Collector
  import opened LogBody
  import opened Arguments

  const UsdRecord := RateRecord(Some("USD"), Some(Amount("27.5")), Some(Amount("27.0")))

  /** A payload offering USD only, asked for USD and EUR, yields USD and no EUR key. */
  lemma UsdKeptEurAbsent()
    ensures FilterRates([UsdRecord], ["USD", "EUR"]) == [Entry("USD", Quote(Some(Amount("27.5")), Some(Amount("27.0"))))]
    ensures Lookup(FilterRates([UsdRecord], ["USD", "EUR"]), "EUR") == None
  {
    var rs := [UsdRecord];
    assert rs[..0] == [];
  }

  /** A record without a currency field and a record for an unrequested code are both skipped. */
  lemma UnnamedAndUnrequestedSkipped()
    ensures FilterRates([RateRecord(None, Some(Amount("1")), None), RateRecord(Some("PLN"), None, None)], ["USD"]) == []
  {
    var rs := [RateRecord(None, Some(Amount("1")), None), RateRecord(Some("PLN"), None, None)];
    assert rs[..1][..0] == [];
  }

  /** Day counts 0, 11 and -1 are refused before any client activity. */
  lemma OutOfRangeDaysRefused(currencies: seq<string>, respond: nat -> Response, dateOf: nat -> string)
    ensures Collect(0, currencies, respond, dateOf) == Run(Rejected(RangeMessage), [])
    ensures Collect(11, currencies, respond, dateOf) == Run(Rejected(RangeMessage), [])
    ensures Collect(-1, currencies, respond, dateOf) == Run(Rejected(RangeMessage), [])
  {
  }

  /**
    HTTP 404 on the second of three days: the first day is returned, two
    requests are made and the client is closed once.
   */
  lemma NotFoundOnSecondOfThree(p: Payload, currencies: seq<string>, respond: nat -> Response, dateOf: nat -> string)
    requires respond(0) == Ok(p) && respond(1) == HttpFailure(404)
    ensures Collect(3, currencies, respond, dateOf).outcome == Collected([DayEntry(dateOf(0), DayRates(p, currencies))])
    ensures Collect(3, currencies, respond, dateOf).events == [Opened, Requested(dateOf(0)), Requested(dateOf(1)), Closed]
  {
    assert Walk(1, 3, currencies, respond, dateOf) == Walked([], [Requested(dateOf(1))], false);
    assert Walk(0, 3, currencies, respond, dateOf)
      == Walked([DayAt(0, p, currencies, dateOf)], [Requested(dateOf(0)), Requested(dateOf(1))], false);
  }

  /** The argument "usd" requests the payload code "USD". */
  lemma LowerCaseArgumentMatches(parseInt: string -> Option<int>)
    requires parseInt("2") == Some(2)
    ensures ParseArgs(["rates", "2", "usd"], parseInt) == Query(2, ["USD"])
    ensures Wanted(UsdRecord, ParseArgs(["rates", "2", "usd"], parseInt).currencies)
  {
    var argv := ["rates", "2", "usd"];
    assert argv[2..] == ["usd"];
    assert Upper("usd") == "USD";
  }

  /** A day without matching currencies logs its date, "No data." and a blank line. */
  lemma EmptyDayLogged(date: string)
    ensures Body([DayEntry(date, [])]) == date + ":\n  No data.\n\n"
  {
  }

  /** A day with one currency logs one line for it; a missing sale rate prints as None. */
  lemma MissingRatePrintsNone(date: string, code: string, purchase: string)
    ensures Body([DayEntry(date, [Entry(code, Quote(None, Some(Amount(purchase))))])])
      == date + ":\n" + ("  " + code + ": Purchase = " + purchase + ", Sale = " + "None" + "\n") + "\n"
  {
    var e := Entry(code, Quote(None, Some(Amount(purchase))));
    assert RateLines([e]) == RateLine(e) + RateLines([]);
  }
}
