/**
  The data the rate collector works on: the records of one exchange-rate
  payload and the per-day, insertion-ordered dictionary built from them.
 */
module Rates {
  import opened Optional

  /** A rate value, carried as the text the program prints for it. */
  datatype Amount = Amount(shown: string)

  /** One object of the payload's `exchangeRate` array; every field may be missing. */
  datatype RateRecord = RateRecord(
    currency: Option<string>,
    saleRate: Option<Amount>,
    purchaseRate: Option<Amount>)

  /** The decoded JSON body of one successful response; only `exchangeRate` is read. */
  datatype Payload = Payload(exchangeRate: Option<seq<RateRecord>>)

  /** The `{"sale": …, "purchase": …}` pair kept for one currency. */
  datatype Quote = Quote(sale: Option<Amount>, purchase: Option<Amount>)

  datatype Entry = Entry(currency: string, quote: Quote)

  /** A Python dictionary from currency code to quote, in insertion order. */
  type RateMap = seq<Entry>

  /** One element of the collected list: `{date_str: day_rates}`. */
  datatype DayEntry = DayEntry(date: string, rates: RateMap)

  /** The keys of a dictionary, in insertion order. */
  function Keys(m: RateMap): seq<string>
  {
    seq(|m|, i requires 0 <= i < |m| => m[i].currency)
  }

  /** A dictionary never holds the same key twice. */
  predicate DistinctKeys(m: RateMap)
  {
    forall i, j :: 0 <= i < j < |m| ==> m[i].currency != m[j].currency
  }

  /** `m.get(k)`. */
  function Lookup(m: RateMap, k: string): (r: Option<Quote>)
    ensures r.Some? <==> k in Keys(m)
    ensures DistinctKeys(m) ==>
      forall i :: 0 <= i < |m| && m[i].currency == k ==> r == Some(m[i].quote)
  {
    if |m| == 0 then None
    else if m[0].currency == k then
      assert Keys(m)[0] == k;
      Some(m[0].quote)
    else
      assert Keys(m) == [m[0].currency] + Keys(m[1..]);
      Lookup(m[1..], k)
  }

  /**
    The assignment `m[k] = v`: an existing key keeps its position, a new key
    is placed last.
   */
  function Put(m: RateMap, k: string, v: Quote): (r: RateMap)
    ensures Keys(r) == if k in Keys(m) then Keys(m) else Keys(m) + [k]
  {
    if |m| == 0 then [Entry(k, v)]
    else if m[0].currency == k then
      var r := [Entry(k, v)] + m[1..];
      assert Keys(m)[0] == k && Keys(r) == Keys(m);
      r
    else
      var rest := Put(m[1..], k, v);
      var r := [m[0]] + rest;
      assert Keys(m) == [m[0].currency] + Keys(m[1..]);
      assert Keys(r) == [m[0].currency] + Keys(rest);
      assert k in Keys(m) <==> k in Keys(m[1..]);
      r
  }

  /** Assignment keeps the keys distinct. */
  lemma PutKeepsKeysDistinct(m: RateMap, k: string, v: Quote)
    requires DistinctKeys(m)
    ensures DistinctKeys(Put(m, k, v))
  {
    var r := Put(m, k, v);
    forall i, j | 0 <= i < j < |r|
      ensures r[i].currency != r[j].currency
    {
      assert Keys(r)[i] == r[i].currency && Keys(r)[j] == r[j].currency;
    }
  }

  /** After `m[k] = v`, `k` maps to `v` and every other key keeps its value. */
  lemma {:induction false} PutLookup(m: RateMap, k: string, v: Quote, k': string)
    ensures Lookup(Put(m, k, v), k') == if k' == k then Some(v) else Lookup(m, k')
    decreases |m|
  {
    if |m| == 0 {
    } else if m[0].currency == k {
      assert Put(m, k, v)[1..] == m[1..];
    } else {
      PutLookup(m[1..], k, v, k');
      assert Put(m, k, v)[1..] == Put(m[1..], k, v);
    }
  }
}
