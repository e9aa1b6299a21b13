/**
  The command line of `main`: `<program> <days> [currency ...]`. The
  currency codes are upper-cased in order; without any the request is for
  USD and EUR. Converting the day count with `int()` is library code and
  is given as `parseInt`.
 */
module Arguments {
  import opened Optional

  const DefaultCurrencies: seq<string> := ["USD", "EUR"]

  predicate IsLower(c: char)
  {
    'a' <= c <= 'z'
  }

  predicate IsUpper(c: char)
  {
    'A' <= c <= 'Z'
  }

  function UpperChar(c: char): char
  {
    if IsLower(c) then (c as int - 32) as char else c
  }

  function LowerChar(c: char): char
  {
    if IsUpper(c) then (c as int + 32) as char else c
  }

  /** No letter of `s` is lower-case. */
  predicate NoLower(s: string)
  {
    forall i :: 0 <= i < |s| ==> !IsLower(s[i])
  }

  /** `a` and `b` spell the same code up to letter case. */
  predicate SameIgnoringCase(a: string, b: string)
  {
    |a| == |b| && forall i :: 0 <= i < |a| ==> LowerChar(a[i]) == LowerChar(b[i])
  }

  /** `s.upper()` on ASCII letters. */
  function Upper(s: string): (r: string)
    ensures |r| == |s|
    ensures forall i :: 0 <= i < |s| ==> r[i] == UpperChar(s[i])
  {
    if |s| == 0 then "" else [UpperChar(s[0])] + Upper(s[1..])
  }

  /** Upper-casing leaves no lower-case letter and changes nothing a second time. */
  lemma UpperIsCanonical(s: string)
    ensures NoLower(Upper(s))
    ensures Upper(Upper(s)) == Upper(s)
  {
    assert forall i :: 0 <= i < |s| ==> !IsLower(UpperChar(s[i]));
  }

  /** One character: upper-casing hits a code letter exactly when the two agree up to case. */
  lemma UpperCharMatches(x: char, y: char)
    requires !IsLower(y)
    ensures UpperChar(x) == y <==> LowerChar(x) == LowerChar(y)
  {
  }

  /** An argument names an upper-case code after upper-casing exactly when it spells it in any case. */
  lemma UpperMatchesIgnoringCase(s: string, code: string)
    requires NoLower(code)
    ensures Upper(s) == code <==> SameIgnoringCase(s, code)
  {
    if |s| == |code| {
      forall i | 0 <= i < |s|
        ensures UpperChar(s[i]) == code[i] <==> LowerChar(s[i]) == LowerChar(code[i])
      {
        UpperCharMatches(s[i], code[i]);
      }
      if SameIgnoringCase(s, code) {
        assert Upper(s) == code;
      }
    }
  }

  /** The currency list built from the arguments after the day count. */
  function NormaliseCurrencies(extra: seq<string>): (cs: seq<string>)
    ensures |extra| == 0 ==> cs == DefaultCurrencies
    ensures |extra| > 0 ==> |cs| == |extra| && forall i :: 0 <= i < |extra| ==> cs[i] == Upper(extra[i])
    ensures forall i :: 0 <= i < |cs| ==> NoLower(cs[i])
  {
    if |extra| > 0 then
      var cs := seq(|extra|, i requires 0 <= i < |extra| => Upper(extra[i]));
      assert forall i :: 0 <= i < |extra| ==> NoLower(cs[i]) by {
        forall i | 0 <= i < |extra| { UpperIsCanonical(extra[i]); }
      }
      cs
    else
      assert NoLower(DefaultCurrencies[0]) && NoLower(DefaultCurrencies[1]);
      DefaultCurrencies
  }

  /** What `main` does with its arguments before collecting. */
  datatype Command =
    | Usage                                        // fewer than one argument
    | DaysNotANumber                               // `int()` of the day count failed
    | Query(days: int, currencies: seq<string>)

  function ParseArgs(argv: seq<string>, parseInt: string -> Option<int>): (c: Command)
    ensures c.Usage? <==> |argv| < 2
    ensures c.DaysNotANumber? <==> |argv| >= 2 && parseInt(argv[1]).None?
    ensures c.Query? ==> c.days == parseInt(argv[1]).value
  {
    if |argv| < 2 then Usage
    else match parseInt(argv[1])
      case None => DaysNotANumber
      case Some(days) => Query(days, NormaliseCurrencies(argv[2..]))
  }

  /**
    A request names an upper-case payload code exactly when one of the
    currency arguments spells it in any letter case; with no currency
    arguments it names USD and EUR.
   */
  lemma QueryNamesCodeIgnoringCase(argv: seq<string>, parseInt: string -> Option<int>, code: string)
    requires |argv| >= 2 && parseInt(argv[1]).Some?
    requires NoLower(code)
    ensures |argv| == 2 ==> ParseArgs(argv, parseInt).currencies == ["USD", "EUR"]
    ensures |argv| > 2 ==>
      (code in ParseArgs(argv, parseInt).currencies <==>
        exists i :: 2 <= i < |argv| && SameIgnoringCase(argv[i], code))
  {
    if |argv| > 2 {
      var extra := argv[2..];
      var cs := ParseArgs(argv, parseInt).currencies;
      forall i | 2 <= i < |argv|
        ensures Upper(argv[i]) == code <==> SameIgnoringCase(argv[i], code)
      {
        UpperMatchesIgnoringCase(argv[i], code);
      }
      if code in cs {
        var j :| 0 <= j < |cs| && cs[j] == code;
        assert extra[j] == argv[j + 2];
      }
      if exists i :: 2 <= i < |argv| && SameIgnoringCase(argv[i], code) {
        var i :| 2 <= i < |argv| && SameIgnoringCase(argv[i], code);
        assert cs[i - 2] == Upper(argv[i]);
      }
    }
  }
}
