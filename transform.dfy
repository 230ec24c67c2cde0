/** The transformer: thousands-separator stripping, the rate table built from
    the rate file's (Currency, Rate) rows, and the three converted columns
    MC_GBP_Billion, MC_EUR_Billion and MC_INR_Billion appended in that order.

    Numbers are abstract: `Num` stands for the floating-point values, `parse`
    for float() on the stripped text (None where float() raises) and `scale`
    for rounding the product of an amount and a rate to two decimals. */
module Transformer {
  import opened Banks

  /** The currencies converted to, in the order their columns are appended. */
  const Currencies: seq<string> := ["GBP", "EUR", "INR"]

  /** Column names after the transformation, in order. */
  const EnrichedColumns: seq<string> := BankColumns + ["MC_GBP_Billion", "MC_EUR_Billion", "MC_INR_Billion"]

  /** A bank record with its market cap converted to GBP, EUR and INR. */
  datatype EnrichedRecord<Num> = EnrichedRecord(bank: BankRecord, mcGbp: Num, mcEur: Num, mcInr: Num)

  /** The converted values of a record in column order. */
  function Converted<Num>(e: EnrichedRecord<Num>): seq<Num>
  {
    [e.mcGbp, e.mcEur, e.mcInr]
  }

  /** The name of the column holding the conversion to `code`. */
  function ColumnName(code: string): string
  {
    "MC_" + code + "_Billion"
  }

  /** The appended columns are the original three followed by one per
      currency, in the order GBP, EUR, INR. */
  lemma EnrichedColumnsOrder()
    ensures |EnrichedColumns| == |BankColumns| + |Currencies|
    ensures EnrichedColumns[..|BankColumns|] == BankColumns
    ensures forall c :: 0 <= c < |Currencies| ==>
              EnrichedColumns[|BankColumns| + c] == ColumnName(Currencies[c])
  {
  }

  /** A value of the output table: the scraped texts or a converted amount. */
  datatype Cell<Num> = Text(text: string) | Number(number: Num)

  /** The cells of an enriched record in the order of EnrichedColumns. */
  function RowCells<Num>(e: EnrichedRecord<Num>): seq<Cell<Num>>
  {
    [Text(e.bank.rank), Text(e.bank.bankName), Text(e.bank.marketCapUsd),
     Number(e.mcGbp), Number(e.mcEur), Number(e.mcInr)]
  }

  // ---------------------------------------------------------------------
  // Thousands-separator stripping: x.replace(',', '')

  /** The text with every ',' removed. */
  function StripCommas(s: string): (r: string)
    ensures ',' !in r
    ensures multiset(r) == multiset(s)[',' := 0]
  {
    if s == [] then []
    else
      assert s == [s[0]] + s[1..];
      (if s[0] == ',' then [] else [s[0]]) + StripCommas(s[1..])
  }

  /** Stripping works piecewise, so the remaining characters keep their order. */
  lemma {:induction false} StripCommasAppend(a: string, b: string)
    ensures StripCommas(a + b) == StripCommas(a) + StripCommas(b)
  {
    if a == [] {
      assert a + b == b;
    } else {
      assert (a + b)[0] == a[0];
      assert (a + b)[1..] == a[1..] + b;
      StripCommasAppend(a[1..], b);
    }
  }

  /** Text without commas is left as it is. */
  lemma {:induction false} StripCommasKeepsCommaFree(s: string)
    requires ',' !in s
    ensures StripCommas(s) == s
  {
    if s != [] {
      assert s == [s[0]] + s[1..];
      StripCommasKeepsCommaFree(s[1..]);
    }
  }

  /** Stripping twice is stripping once. */
  lemma StripCommasIdempotent(s: string)
    ensures StripCommas(StripCommas(s)) == StripCommas(s)
  {
    StripCommasKeepsCommaFree(StripCommas(s));
  }

  // ---------------------------------------------------------------------
  // The rate table: set_index('Currency')['Rate'].to_dict()

  /** The currency-to-rate map of the rate file's rows; a later row for the
      same currency replaces an earlier one. */
  function RatesOf<Num>(rows: seq<(string, Num)>): (rates: map<string, Num>)
    ensures forall code :: code in rates <==> exists i :: 0 <= i < |rows| && rows[i].0 == code
    ensures forall code :: code in rates ==>
              exists i :: 0 <= i < |rows| && rows[i] == (code, rates[code])
                          && forall j :: i < j < |rows| ==> rows[j].0 != code
  {
    if rows == [] then map[]
    else
      var n := |rows| - 1;
      assert forall i :: 0 <= i < n ==> rows[..n][i] == rows[i];
      RatesOf(rows[..n])[rows[n].0 := rows[n].1]
  }

  // ---------------------------------------------------------------------
  // One converted column: df['Market_Cap(USD)'].apply(lambda x: ...)

  /** True when `parse` accepts the stripped market cap of every record. */
  ghost predicate AllNumeric<Num>(records: seq<BankRecord>, parse: string -> Option<Num>)
  {
    forall i :: 0 <= i < |records| ==> parse(StripCommas(records[i].marketCapUsd)).Some?
  }

  /** The market cap of a record as a number. */
  function Usd<Num>(b: BankRecord, parse: string -> Option<Num>): Num
    requires parse(StripCommas(b.marketCapUsd)).Some?
  {
    parse(StripCommas(b.marketCapUsd)).value
  }

  /** The column for currency `code`, computed row by row in order. On each
      row the text is parsed before the rate is looked up, so the first
      unparseable row before any lookup fails as NotNumeric and a missing rate
      fails at the first row that parses; with no rows nothing is looked up. */
  function ConvertColumn<Num>(records: seq<BankRecord>, code: string, rates: map<string, Num>,
                              parse: string -> Option<Num>, scale: (Num, Num) -> Num): (r: Result<seq<Num>>)
    ensures r.Ok? <==> (records == [] || code in rates) && AllNumeric(records, parse)
    ensures r.Ok? ==> |r.value| == |records|
    ensures r.Ok? ==> forall i :: 0 <= i < |records| ==> r.value[i] == scale(Usd(records[i], parse), rates[code])
    ensures r == Err(MissingRate(code)) <==>
              records != [] && parse(StripCommas(records[0].marketCapUsd)).Some? && code !in rates
  {
    if records == [] then Ok([])
    else
      var text := StripCommas(records[0].marketCapUsd);
      match parse(text)
      case None => Err(NotNumeric(text))
      case Some(usd) =>
        if code !in rates then Err(MissingRate(code))
        else
          var rest := ConvertColumn(records[1..], code, rates, parse, scale);
          assert forall i :: 1 <= i < |records| ==> records[1..][i - 1] == records[i];
          match rest
          case Err(e) =>
            assert !AllNumeric(records[1..], parse);
            Err(e)
          case Ok(tail) => Ok([scale(usd, rates[code])] + tail)
  }

  /** With the rate present, a failing column reports the first record whose
      stripped market cap does not parse. */
  lemma {:induction false} ConvertColumnFirstUnparseable<Num>(records: seq<BankRecord>, code: string, rates: map<string, Num>,
                                                              parse: string -> Option<Num>, scale: (Num, Num) -> Num, k: nat)
    requires code in rates
    requires k < |records| && parse(StripCommas(records[k].marketCapUsd)).None?
    requires AllNumeric(records[..k], parse)
    ensures ConvertColumn(records, code, rates, parse, scale) == Err(NotNumeric(StripCommas(records[k].marketCapUsd)))
  {
    if k > 0 {
      assert records[..k][0] == records[0];
      var tail := records[1..];
      var before := tail[..k - 1];
      forall i | 0 <= i < |before|
        ensures parse(StripCommas(before[i].marketCapUsd)).Some?
      {
        assert before[i] == records[..k][i + 1];
      }
      assert tail[k - 1] == records[k];
      ConvertColumnFirstUnparseable(tail, code, rates, parse, scale, k - 1);
    }
  }

  // ---------------------------------------------------------------------
  // The whole transformation

  /** The GBP, EUR and INR columns computed in that order (the first failure
      wins) and appended to every record. */
  function Transform<Num>(records: seq<BankRecord>, rates: map<string, Num>,
                          parse: string -> Option<Num>, scale: (Num, Num) -> Num): Result<seq<EnrichedRecord<Num>>>
  {
    match ConvertColumn(records, "GBP", rates, parse, scale)
    case Err(e) => Err(e)
    case Ok(gbp) =>
      match ConvertColumn(records, "EUR", rates, parse, scale)
      case Err(e) => Err(e)
      case Ok(eur) =>
        match ConvertColumn(records, "INR", rates, parse, scale)
        case Err(e) => Err(e)
        case Ok(inr) =>
          Ok(seq(|records|, i requires 0 <= i < |records| => EnrichedRecord(records[i], gbp[i], eur[i], inr[i])))
  }

  /** True when the rate map has a rate for each of GBP, EUR and INR. */
  predicate HasAllRates<Num>(rates: map<string, Num>)
  {
    forall c :: 0 <= c < |Currencies| ==> Currencies[c] in rates
  }

  lemma HasAllRatesIff<Num>(rates: map<string, Num>)
    ensures HasAllRates(rates) <==> "GBP" in rates && "EUR" in rates && "INR" in rates
  {
    assert Currencies[0] == "GBP" && Currencies[1] == "EUR" && Currencies[2] == "INR";
  }

  /** The transformation succeeds exactly when every market cap parses and,
      unless there are no records to convert, GBP, EUR and INR all have rates. */
  lemma TransformSucceedsIff<Num>(records: seq<BankRecord>, rates: map<string, Num>,
                                  parse: string -> Option<Num>, scale: (Num, Num) -> Num)
    ensures Transform(records, rates, parse, scale).Ok? <==>
              (records == [] || HasAllRates(rates)) && AllNumeric(records, parse)
  {
    HasAllRatesIff(rates);
  }

  /** On success every record keeps its three original fields and gains
      exactly three values, in the order GBP, EUR, INR, each its market cap
      scaled by that currency's rate. */
  lemma TransformShape<Num>(records: seq<BankRecord>, rates: map<string, Num>,
                            parse: string -> Option<Num>, scale: (Num, Num) -> Num)
    requires Transform(records, rates, parse, scale).Ok?
    ensures var out := Transform(records, rates, parse, scale).value;
            |out| == |records| && AllNumeric(records, parse) &&
            (records != [] ==> HasAllRates(rates)) &&
            forall i :: 0 <= i < |records| ==>
              out[i].bank == records[i] && |Converted(out[i])| == |Currencies| &&
              forall c :: 0 <= c < |Currencies| ==>
                Converted(out[i])[c] == scale(Usd(records[i], parse), rates[Currencies[c]])
  {
  }

  /** With no records nothing is looked up, so no rate is needed. */
  lemma TransformEmpty<Num>(rates: map<string, Num>, parse: string -> Option<Num>, scale: (Num, Num) -> Num)
    ensures Transform([], rates, parse, scale) == Ok([])
  {
    var r := Transform([], rates, parse, scale);
    assert r.Ok? && |r.value| == 0;
  }

  /** When every market cap parses but a rate is missing, the step fails on
      the first missing currency in the order GBP, EUR, INR. */
  lemma TransformMissingRate<Num>(records: seq<BankRecord>, rates: map<string, Num>,
                                  parse: string -> Option<Num>, scale: (Num, Num) -> Num)
    requires records != [] && AllNumeric(records, parse) && !HasAllRates(rates)
    ensures Transform(records, rates, parse, scale) ==
              Err(MissingRate(if "GBP" !in rates then "GBP" else if "EUR" !in rates then "EUR" else "INR"))
  {
  }

  /** When all three rates exist, the step fails on the first record whose
      stripped market cap does not parse, reporting that text. */
  lemma TransformFirstUnparseable<Num>(records: seq<BankRecord>, rates: map<string, Num>,
                                       parse: string -> Option<Num>, scale: (Num, Num) -> Num, k: nat)
    requires HasAllRates(rates)
    requires k < |records| && parse(StripCommas(records[k].marketCapUsd)).None?
    requires AllNumeric(records[..k], parse)
    ensures Transform(records, rates, parse, scale) == Err(NotNumeric(StripCommas(records[k].marketCapUsd)))
  {
    HasAllRatesIff(rates);
    ConvertColumnFirstUnparseable(records, "GBP", rates, parse, scale, k);
  }

  /** On success each output row lines up with EnrichedColumns: the first
      three cells are the record's scraped texts under Rank, Bank_name and
      Market_Cap(USD), and the cell under MC_<code>_Billion, for code GBP,
      EUR and INR in that order, is the market cap scaled by that rate. */
  lemma TransformColumns<Num>(records: seq<BankRecord>, rates: map<string, Num>,
                              parse: string -> Option<Num>, scale: (Num, Num) -> Num, i: nat)
    requires Transform(records, rates, parse, scale).Ok? && i < |records|
    ensures var row := RowCells(Transform(records, rates, parse, scale).value[i]);
            |row| == |EnrichedColumns| &&
            row[..|BankColumns|] == [Text(records[i].rank), Text(records[i].bankName), Text(records[i].marketCapUsd)] &&
            forall c :: 0 <= c < |Currencies| ==>
              EnrichedColumns[|BankColumns| + c] == ColumnName(Currencies[c]) &&
              row[|BankColumns| + c] == Number(scale(Usd(records[i], parse), rates[Currencies[c]]))
  {
    EnrichedColumnsOrder();
    TransformShape(records, rates, parse, scale);
    var e := Transform(records, rates, parse, scale).value[i];
    assert Converted(e)[0] == e.mcGbp && Converted(e)[1] == e.mcEur && Converted(e)[2] == e.mcInr;
  }
}
