/**
  Per-day filtering: the records of one payload reduced to the requested
  currencies, as the dictionary `day_rates` of privatbank_rates.py.
 */
module Filter {
  import opened Optional
  import opened Rates

  /** `rate.get("currency") in currencies`: a record without a currency never matches. */
  predicate Wanted(r: RateRecord, currencies: seq<string>)
  {
    r.currency.Some? && r.currency.value in currencies
  }

  /** The pair stored for a record: both fields copied as they are, missing ones as `None`. */
  function QuoteOf(r: RateRecord): Quote
  {
    Quote(r.saleRate, r.purchaseRate)
  }

  /** Some record of the payload carries currency code `k`. */
  predicate Offered(records: seq<RateRecord>, k: string)
  {
    exists j :: 0 <= j < |records| && records[j].currency == Some(k)
  }

  /** Record `j` is the last one carrying currency code `k`. */
  predicate LastOffer(records: seq<RateRecord>, k: string, j: int)
  {
    && 0 <= j < |records|
    && records[j].currency == Some(k)
    && forall j' :: j < j' < |records| ==> records[j'].currency != Some(k)
  }

  /** Index of the first record carrying code `k`, or `|records|` when there is none. */
  function FirstOffer(records: seq<RateRecord>, k: string): (n: nat)
    ensures n <= |records|
    ensures n < |records| <==> Offered(records, k)
    ensures n < |records| ==> records[n].currency == Some(k)
    ensures forall j :: 0 <= j < n ==> records[j].currency != Some(k)
  {
    if |records| == 0 then 0
    else if records[0].currency == Some(k) then 0
    else
      var n := 1 + FirstOffer(records[1..], k);
      assert forall j :: 1 <= j < |records| ==> records[j] == records[1..][j - 1];
      n
  }

  /** A code is offered by a payload exactly when its prefix or its last record offers it. */
  lemma OfferedExtend(records: seq<RateRecord>, k: string)
    requires |records| > 0
    ensures Offered(records, k) <==>
      Offered(records[..|records| - 1], k) || records[|records| - 1].currency == Some(k)
  {
    var prefix := records[..|records| - 1];
    assert forall j :: 0 <= j < |prefix| ==> prefix[j] == records[j];
    if Offered(records, k) && records[|records| - 1].currency != Some(k) {
      var j :| 0 <= j < |records| && records[j].currency == Some(k);
      assert prefix[j].currency == Some(k);
    }
  }

  /**
    The loop over the payload's records: each wanted record assigns
    `day_rates[currency] = {sale, purchase}`, in payload order.
   */
  function FilterRates(records: seq<RateRecord>, currencies: seq<string>): (m: RateMap)
    ensures DistinctKeys(m)
    ensures forall k :: k in Keys(m) <==> k in currencies && Offered(records, k)
  {
    if |records| == 0 then []
    else
      var prefix := records[..|records| - 1];
      var r := records[|records| - 1];
      var m := FilterRates(prefix, currencies);
      assert forall k :: Offered(records, k) <==> Offered(prefix, k) || r.currency == Some(k) by {
        forall k { OfferedExtend(records, k); }
      }
      if Wanted(r, currencies) then
        PutKeepsKeysDistinct(m, r.currency.value, QuoteOf(r));
        Put(m, r.currency.value, QuoteOf(r))
      else m
  }

  /** The dictionary of one day: `data.get("exchangeRate", [])` filtered. */
  function DayRates(p: Payload, currencies: seq<string>): RateMap
  {
    match p.exchangeRate
    case None => []
    case Some(records) => FilterRates(records, currencies)
  }

  /** The value kept for a requested code is the quote of the last record carrying it. */
  lemma {:induction false} FilterTakesLastOffer(records: seq<RateRecord>, currencies: seq<string>, k: string, j: int)
    requires LastOffer(records, k, j) && k in currencies
    ensures Lookup(FilterRates(records, currencies), k) == Some(QuoteOf(records[j]))
    decreases |records|
  {
    var n := |records| - 1;
    var prefix := records[..n];
    var r := records[n];
    var m := FilterRates(prefix, currencies);
    assert FilterRates(records, currencies) == if Wanted(r, currencies) then Put(m, r.currency.value, QuoteOf(r)) else m;
    if j == n {
      assert Wanted(r, currencies);
      PutLookup(m, k, QuoteOf(r), k);
    } else {
      assert r.currency != Some(k);
      assert LastOffer(prefix, k, j) by {
        assert forall j' :: 0 <= j' < n ==> prefix[j'] == records[j'];
      }
      FilterTakesLastOffer(prefix, currencies, k, j);
      assert prefix[j] == records[j];
      if Wanted(r, currencies) {
        PutLookup(m, r.currency.value, QuoteOf(r), k);
      }
    }
  }

  /**
    Every dictionary value comes from the LAST payload record with that
    code (a later record overwrites an earlier one), and a key is present
    exactly when its code is requested and offered.
   */
  lemma FilterKeepsLastQuote(records: seq<RateRecord>, currencies: seq<string>)
    ensures forall k :: Lookup(FilterRates(records, currencies), k).Some? <==> k in currencies && Offered(records, k)
    ensures forall k, j :: LastOffer(records, k, j) && k in currencies ==>
      Lookup(FilterRates(records, currencies), k) == Some(QuoteOf(records[j]))
  {
    forall k, j | LastOffer(records, k, j) && k in currencies
      ensures Lookup(FilterRates(records, currencies), k) == Some(QuoteOf(records[j]))
    {
      FilterTakesLastOffer(records, currencies, k, j);
    }
  }

  /** Appending one record does not move the first offer of a code already offered. */
  lemma FirstOfferExtend(records: seq<RateRecord>, k: string)
    requires |records| > 0
    ensures Offered(records[..|records| - 1], k) ==>
      FirstOffer(records, k) == FirstOffer(records[..|records| - 1], k)
    ensures !Offered(records[..|records| - 1], k) && records[|records| - 1].currency == Some(k) ==>
      FirstOffer(records, k) == |records| - 1
  {
    var n := |records| - 1;
    var prefix := records[..n];
    assert forall j :: 0 <= j < n ==> records[j] == prefix[j];
    var b := FirstOffer(records, k);
    if Offered(prefix, k) {
      var a := FirstOffer(prefix, k);
      assert records[a].currency == Some(k);
      assert a <= b;
    } else if records[n].currency == Some(k) {
      assert b <= n;
      assert forall j :: 0 <= j < n ==> records[j].currency != Some(k);
    }
  }

  /** Dictionary keys appear in the order in which the payload first offers them. */
  lemma {:induction false} FilterOrdersByFirstOffer(records: seq<RateRecord>, currencies: seq<string>)
    ensures forall i, j :: 0 <= i < j < |FilterRates(records, currencies)| ==>
      FirstOffer(records, FilterRates(records, currencies)[i].currency)
        < FirstOffer(records, FilterRates(records, currencies)[j].currency)
    decreases |records|
  {
    if |records| > 0 {
      var n := |records| - 1;
      var prefix := records[..n];
      var r := records[n];
      var m := FilterRates(prefix, currencies);
      var m' := FilterRates(records, currencies);
      FilterOrdersByFirstOffer(prefix, currencies);
      forall i, j | 0 <= i < j < |m'|
        ensures FirstOffer(records, m'[i].currency) < FirstOffer(records, m'[j].currency)
      {
        assert Keys(m')[i] == m'[i].currency && Keys(m')[j] == m'[j].currency;
        assert Keys(m')[..|m|] == Keys(m);
        assert Keys(m)[i] == m[i].currency;
        assert m[i].currency in Keys(m);
        FirstOfferExtend(records, m'[i].currency);
        FirstOfferExtend(records, m'[j].currency);
        if j < |m| {
          assert Keys(m)[j] == m[j].currency;
          assert m[j].currency in Keys(m);
        } else {
          assert m'[j].currency !in Keys(m);
        }
      }
    }
  }
}
