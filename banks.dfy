/** Shared data model of the bank-list ETL run: the parsed HTML input, the
    records the extractor produces, and the failures a run can end in. */
module Banks {

  datatype Option<+T> = None | Some(value: T)

  /** Why a stage of the run aborts. */
  datatype EtlError =
    | NoTable                       // the page has no matching table (index 0 of an empty list)
    | NoTableBody                   // the first table has no tbody element
    | RowTooShort                   // an accepted row has fewer than three td cells
    | NotNumeric(text: string)      // float() rejects a market cap once commas are removed
    | MissingRate(currency: string) // the rate table has no entry for a currency it is asked for

  datatype Result<+T> = Ok(value: T) | Err(error: EtlError)

  /** The stripped text of the td cells of one tr element, in document order. */
  type Row = seq<string>

  /** One table of the parsed page: the rows of its tbody, or None without a tbody. */
  datatype HtmlTable = HtmlTable(body: Option<seq<Row>>)

  /** One extracted bank: the Rank, Bank_name and Market_Cap(USD) columns. */
  datatype BankRecord = BankRecord(rank: string, bankName: string, marketCapUsd: string)

  /** Column names of the extracted table, in order. */
  const BankColumns: seq<string> := ["Rank", "Bank_name", "Market_Cap(USD)"]
}
