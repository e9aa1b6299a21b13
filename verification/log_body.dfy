/**
  The body of a `log_command` entry: for each collected day, a date line,
  then a "No data." line or one line per currency, then a blank line.
 */
module LogBody {
  import opened Optional
  import opened Rates

  const NoDataLine := "  No data.\n"

  /** `f"{value}"` of an optional rate: a missing one prints as `None`. */
  function Show(a: Option<Amount>): string
  {
    match a
    case None => "None"
    case Some(x) => x.shown
  }

  /** `"  <CUR>: Purchase = <p>, Sale = <s>\n"`. */
  function RateLine(e: Entry): string
  {
    "  " + e.currency + ": Purchase = " + Show(e.quote.purchase) + ", Sale = " + Show(e.quote.sale) + "\n"
  }

  /** The currency lines of one day, in insertion order. */
  function RateLines(m: RateMap): string
  {
    if |m| == 0 then "" else RateLine(m[0]) + RateLines(m[1..])
  }

  /** Everything written for one day. */
  function DayBlock(d: DayEntry): string
  {
    d.date + ":\n" + (if |d.rates| == 0 then NoDataLine else RateLines(d.rates)) + "\n"
  }

  /** The body for the whole collected list, day by day. */
  function Body(data: seq<DayEntry>): string
  {
    if |data| == 0 then "" else DayBlock(data[0]) + Body(data[1..])
  }

  /** A value that prints without a line break. */
  predicate OneLine(s: string)
  {
    '\n' !in s
  }

  /** The printed fields of the map hold no line breaks. */
  predicate OneLineRates(m: RateMap)
  {
    forall i :: 0 <= i < |m| ==>
      OneLine(m[i].currency) && OneLine(Show(m[i].quote.purchase)) && OneLine(Show(m[i].quote.sale))
  }

  /** Lines a day takes in the log: its date, one line per currency or "No data.", and a blank line. */
  function LinesOfDay(d: DayEntry): nat
  {
    2 + (if |d.rates| == 0 then 1 else |d.rates|)
  }

  function LinesOf(data: seq<DayEntry>): nat
  {
    if |data| == 0 then 0 else LinesOfDay(data[0]) + LinesOf(data[1..])
  }

  /** Six one-line pieces and a final line break make exactly one line. */
  lemma OneBreak(a: string, b: string, c: string, d: string, e: string, f: string)
    requires OneLine(a) && OneLine(b) && OneLine(c) && OneLine(d) && OneLine(e) && OneLine(f)
    ensures multiset(a + b + c + d + e + f + "\n")['\n'] == 1
  {
    assert multiset(a)['\n'] == 0 && multiset(b)['\n'] == 0 && multiset(c)['\n'] == 0;
    assert multiset(d)['\n'] == 0 && multiset(e)['\n'] == 0 && multiset(f)['\n'] == 0;
    assert multiset("\n") == multiset{'\n'};
  }

  /** A currency line of a one-line entry holds one line break. */
  lemma RateLineCount(e: Entry)
    requires OneLine(e.currency) && OneLine(Show(e.quote.purchase)) && OneLine(Show(e.quote.sale))
    ensures multiset(RateLine(e))['\n'] == 1
  {
    OneBreak("  ", e.currency, ": Purchase = ", Show(e.quote.purchase), ", Sale = ", Show(e.quote.sale));
  }

  /** Each currency contributes exactly one line. */
  lemma {:induction false} RateLinesCount(m: RateMap)
    requires OneLineRates(m)
    ensures multiset(RateLines(m))['\n'] == |m|
    decreases |m|
  {
    if |m| > 0 {
      var rest := m[1..];
      assert forall i :: 0 <= i < |rest| ==> rest[i] == m[i + 1];
      RateLinesCount(rest);
      RateLineCount(m[0]);
      assert multiset(RateLines(m)) == multiset(RateLine(m[0])) + multiset(RateLines(rest));
    }
  }

  /** A date line and a closing blank line around `lines` add two line breaks. */
  lemma FramedCount(date: string, lines: string)
    requires OneLine(date)
    ensures multiset(date + ":\n" + lines + "\n")['\n'] == multiset(lines)['\n'] + 2
  {
    assert multiset(date)['\n'] == 0;
    assert ":\n" == [':', '\n'] && "\n" == ['\n'];
  }

  /** A day block takes the lines counted for it. */
  lemma DayBlockCount(day: DayEntry)
    requires OneLine(day.date) && OneLineRates(day.rates)
    ensures multiset(DayBlock(day))['\n'] == LinesOfDay(day)
  {
    if |day.rates| == 0 {
      OneBreak("  No data.", "", "", "", "", "");
      FramedCount(day.date, NoDataLine);
    } else {
      RateLinesCount(day.rates);
      FramedCount(day.date, RateLines(day.rates));
    }
  }

  /**
    When no date, code or printed value contains a line break, the body has
    exactly one line per date, per currency (or "No data."), and per blank
    separator.
   */
  lemma {:induction false} BodyLineCount(data: seq<DayEntry>)
    requires forall d :: 0 <= d < |data| ==> OneLine(data[d].date) && OneLineRates(data[d].rates)
    ensures multiset(Body(data))['\n'] == LinesOf(data)
    decreases |data|
  {
    if |data| > 0 {
      var rest := data[1..];
      assert forall d :: 0 <= d < |rest| ==> rest[d] == data[d + 1];
      BodyLineCount(rest);
      DayBlockCount(data[0]);
      assert multiset(Body(data)) == multiset(DayBlock(data[0])) + multiset(Body(rest));
    }
  }

  /** Rendering a longer map appends its last line. */
  lemma {:induction false} RateLinesSnoc(m: RateMap, e: Entry)
    ensures RateLines(m + [e]) == RateLines(m) + RateLine(e)
    decreases |m|
  {
    if |m| == 0 {
      assert m + [e] == [e];
    } else {
      assert (m + [e])[1..] == m[1..] + [e];
      RateLinesSnoc(m[1..], e);
    }
  }

  /** The body of two consecutive runs of days is the two bodies one after the other. */
  lemma {:induction false} BodyAppend(a: seq<DayEntry>, b: seq<DayEntry>)
    ensures Body(a + b) == Body(a) + Body(b)
    decreases |a|
  {
    if |a| == 0 {
      assert a + b == b;
    } else {
      assert (a + b)[1..] == a[1..] + b;
      BodyAppend(a[1..], b);
    }
  }

  /** The inner part of the loop of `log_command` for one day. */
  method BuildDayBlock(day: DayEntry) returns (block: string)
    ensures block == DayBlock(day)
  {
    var header := day.date + ":\n";
    var lines := "";
    if |day.rates| == 0 {
      lines := NoDataLine;
    } else {
      var c := 0;
      while c < |day.rates|
        invariant c <= |day.rates|
        invariant lines == RateLines(day.rates[..c])
      {
        RateLinesSnoc(day.rates[..c], day.rates[c]);
        assert day.rates[..c + 1] == day.rates[..c] + [day.rates[c]];
        lines := lines + RateLine(day.rates[c]);
        c := c + 1;
      }
      assert day.rates[..c] == day.rates;
    }
    block := header + lines + "\n";
  }

  /** The loop of `log_command` that grows `body` one day at a time. */
  method BuildBody(data: seq<DayEntry>) returns (body: string)
    ensures body == Body(data)
  {
    body := "";
    var d := 0;
    while d < |data|
      invariant d <= |data|
      invariant body == Body(data[..d])
    {
      var block := BuildDayBlock(data[d]);
      BodyAppend(data[..d], [data[d]]);
      assert data[..d + 1] == data[..d] + [data[d]];
      assert Body([data[d]]) == DayBlock(data[d]);
      body := body + block;
      d := d + 1;
    }
    assert data[..d] == data;
  }
}
