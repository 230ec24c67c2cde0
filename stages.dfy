/** The `extract` and `transform` steps with their progress-log side effect:
    each appends its catalog message once, after it has succeeded. A step
    that fails aborts the run and logs nothing. */
module Stages {
  import opened Banks
  import opened Extractor
  import opened Transformer
  import opened Logging

  /** extract: pick the first candidate table, select its rows, then log. */
  method ExtractStage(log: ProgressLog, now: DateTime, tables: seq<HtmlTable>)
    returns (r: Result<seq<BankRecord>>)
    requires ValidDateTime(now)
    modifies log
    ensures r == Extraction(tables)
    ensures r.Err? <==> tables == [] || tables[0].body.None? || Selection(tables[0].body.value).Err?
    ensures log.lines == old(log.lines) +
              if r.Ok? then [Entry(FormatTimestamp(now), LogMessages["Call extract() function"])] else []
  {
    if |tables| == 0 {
      return Err(NoTable);
    }
    match tables[0].body {
      case None =>
        return Err(NoTableBody);
      case Some(rows) =>
        r := SelectRecords(rows);
    }
    if r.Ok? {
      log.Log(now, LogMessages["Call extract() function"]);
    }
  }

  /** transform: build the rate map from the rate file's rows, add the
      GBP, EUR and INR columns, then log. */
  method TransformStage<Num>(log: ProgressLog, now: DateTime, records: seq<BankRecord>,
                             rateRows: seq<(string, Num)>,
                             parse: string -> Option<Num>, scale: (Num, Num) -> Num)
    returns (r: Result<seq<EnrichedRecord<Num>>>)
    requires ValidDateTime(now)
    modifies log
    ensures r == Transform(records, RatesOf(rateRows), parse, scale)
    ensures log.lines == old(log.lines) +
              if r.Ok? then [Entry(FormatTimestamp(now), LogMessages["Call transform() function "])] else []
  {
    var rates := RatesOf(rateRows);
    r := Transform(records, rates, parse, scale);
    if r.Ok? {
      log.Log(now, LogMessages["Call transform() function "]);
    }
  }
}
