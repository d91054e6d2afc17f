# generate_8949 lot-matching engine, modelled in Dafny

generate_8949 reads a ledger of securities trades and writes the rows of IRS
Form 8949. Each ledger line is `security,yyyy-MM-dd,quantity,unitPrice`. A
negative quantity is a sale and any other quantity is a purchase. The heart of
the program is `ProcessDataset`, which works in five phases:

1. It parses the lines into two lists of `LedgerEntry`, the buys and the sells.
   A sale's quantity is stored with its sign flipped.
2. It sorts both lists by `Day`.
3. It matches every sale, in order, against the whole buy list. Each time a
   sale meets a buy of its security with quantity left, the smaller side is
   used up, the other side is reduced by the same amount, and a
   `CapGainEntry` is recorded. A sale that still has quantity when it meets a
   buy of its security dated after it raises `BadDataException`.
4. It splits the entries that drew a positive quantity into a long-term list
   and a short-term list by the holding-period test.
5. It writes one CSV file per non-empty list, ending in a totals row that
   `GetTotalsRow` checks. It also writes a remainder file listing the buys
   that still hold quantity.

The model follows those phases, one module each:

| module | models |
|---|---|
| `Wrappers` | `Option` and `Result` |
| `Text` | `string.Split(',')` and its inverse `Join`, decimal digits, zero padding |
| `Decimals` | `System.Decimal` as a mantissa and a scale, with its sums, products, comparisons, `Round(x, 2, AwayFromZero)`, `ToString` and `TryParse` |
| `Dates` | `DateTime` dates, `TryParseExact(…, "yyyy-MM-dd")`, `DateToText`, and the long-term test |
| `Ledger` | the records `LedgerEntry` (a class: matching changes `UnitQty` in place) and `CapGainEntry` (a value), plus the exceptions as `Error` |
| `Parsing` | the first `foreach` over the data set |
| `Sorting` | the two `List.Sort` calls |
| `Matching` | the nested `foreach` over sells and buys. `Settle`/`SettleAll` define on values what the loops compute. The methods `MatchSale`/`MatchSells` are those loops over the entries, proved equal to these definitions. |
| `MatchingFacts` | what the matching guarantees: conservation, non-negativity, exact entries, chronology, when BadData is raised, FIFO |
| `Classify` | the long-term / short-term `foreach` |
| `Report` | `CapGainRow`, `LedgerRow`, `GetTotalsRow` and the three files |
| `Engine` | `ProcessDataset` from end to end |
| `EngineFacts` | what one whole run guarantees, stated against the ledger lines |

A run returns the lines of its files instead of saving them. `ProcessDataset`
is proved to satisfy `IsRun`: either the ledger has a short line and the run
ends in `IndexOutOfRange`, or the run is the matching of some ordering by
`Day` of the two parsed lists. The lemmas in `EngineFacts` hold for every
such ordering.

Where the code and the design description of the program disagree, the model
follows the code:

- **Short lines abort the run.** A line with fewer than four fields does not
  get skipped. `cells[1]`, `cells[2]` and `cells[3]` are read before
  `MinimumLength` is tested, so the run ends with an index-out-of-range
  exception.
- **Amounts are stored unrounded.** Cost basis, proceeds and gain are exact
  products and differences. Rounding happens only when a row is printed.
- **A sale larger than the holdings passes silently.** When no later buy of
  its security follows, the sale simply keeps its leftover quantity and no
  error is raised (`SettleRemaining`, `SettleLeftover`, `RunCompletes`).
- **BadData is about dates, not quantities.** It is raised only when a sale
  that still has quantity meets a later buy of its security. This happens
  even when that buy is already used up (`SettleBadData`).
- **Zero-quantity entries are recorded, then dropped.** A sale that has
  already been filled still records an entry of quantity 0 against each
  further buy of its security that has quantity. Classification then drops
  these entries (`ClassifyPartition`).
- **The sort is not stable.** `List.Sort` may put entries of the same day in
  any order, so the model allows every ordering by day.
- **The total gain keeps its sign.** The totals row prints the rounded total
  gain with a minus sign, not in parentheses.
- **The long-term test compares month and day separately.** So it can call a
  sale made after the anniversary short-term (`LateSaleShortTerm`).
- **GetTotalsRow's exception is unreachable in a run.** `GetTotalsRow` does
  throw when its totals disagree. Inside a run they always agree
  (`TotalsAgree`, `RunErrors`).

## Model

| member | source | states |
|---|---|---|
| Ledger.LedgerEntry.constructor | generate_8949/MainForm.cs:11-17 | a new entry holds exactly the security, day, quantity and price it is given |
| Text.Split | generate_8949/MainForm.cs:99 | splitting yields at least one field, no field holds the separator, and joining the fields with it gives back the line |
| Text.SplitJoin | generate_8949/MainForm.cs:99 | splitting a joined list of separator-free fields gives back those fields |
| Decimals.AddVal | generate_8949/MainForm.cs:310-312 | decimal addition is exact: the value of a sum is the sum of the values |
| Decimals.SubVal | generate_8949/MainForm.cs:180 | decimal subtraction is exact |
| Decimals.MulVal | generate_8949/MainForm.cs:178-179 | decimal multiplication is exact |
| Decimals.CompareVal | generate_8949/MainForm.cs:165 | `<` and `==` on decimals compare values, whatever the scales |
| Decimals.SignVal | generate_8949/MainForm.cs:113 | the sign tests `< 0` and `> 0` compare the value with zero |
| Decimals.TimesMinusOne | generate_8949/MainForm.cs:115 | multiplying by -1 negates the quantity and keeps its scale |
| Decimals.RoundNearest | generate_8949/MainForm.cs:283 | rounding to 2 places gives the nearest multiple of 0.01, a tie goes away from zero, the sign is kept, and a value with at most 2 places is unchanged |
| Decimals.RoundNeg | generate_8949/MainForm.cs:285 | rounding away from zero is symmetric: rounding −x gives −(rounding x) |
| Decimals.RoundNonNegative | generate_8949/MainForm.cs:285 | a non-negative value does not round to a negative one |
| Decimals.Round | generate_8949/MainForm.cs:283-285 | rounding to 2 places never adds digits: the scale becomes the smaller of the old scale and 2; `RoundNearest` states its value |
| Decimals.ToText | generate_8949/MainForm.cs:280-294 | no contract of its own: the mantissa's digits with a '.' before the last scale digits, and '-' in front of a negative value; `ParseToText` and `ToTextHasNoComma` state its properties |
| Decimals.ParseDecimal | generate_8949/MainForm.cs:105-106 | no contract of its own: an optional sign, digits with an optional fraction, and an optional exponent, giving the mantissa and scale the digits spell; `ParseToText` is its round trip with `ToText` |
| Decimals.ParseToText | generate_8949/MainForm.cs:105-106 | every decimal's text parses back to the same decimal, scale included |
| Dates.DateToText | generate_8949/MainForm.cs:297-300 | the text is ten characters: a four-digit year, '-', a two-digit month, '-', a two-digit day, each zero-padded and equal to that part of the date |
| Dates.ParseDate | generate_8949/MainForm.cs:104 | a text accepted as a date has ten characters with '-' at positions 4 and 7; `DateTextCanonical` and `ParseDateToText` make it the inverse of `DateToText` |
| Dates.ParseDateToText | generate_8949/MainForm.cs:297-300 | the text of every date parses back to that date under the yyyy-MM-dd format |
| Dates.DateTextCanonical | generate_8949/MainForm.cs:104 | a text the yyyy-MM-dd format accepts is exactly the text of the date it reads |
| Dates.LongTermAfterAnniversary | generate_8949/MainForm.cs:194-197 | a sale the test calls long-term is on or after the first anniversary of the acquisition |
| Dates.ShortTermBeforeAnniversary | generate_8949/MainForm.cs:194-197 | a sale before the first anniversary is short-term |
| Dates.AnniversaryIsLongTerm | generate_8949/MainForm.cs:194-197 | a sale on the anniversary itself is long-term |
| Dates.LateSaleShortTerm | generate_8949/MainForm.cs:194-197 | a sale on 2021-02-01 of a lot bought 2020-01-31 is after the anniversary but short-term, because month and day are compared separately |
| Parsing.ParseRow | generate_8949/MainForm.cs:99-121 | a line is refused as too short exactly when it has fewer than four fields; an accepted buy has a non-negative quantity, an accepted sell a positive one, and neither security holds a comma |
| Parsing.ParseFields | generate_8949/MainForm.cs:103-121 | a line is accepted exactly when its date, quantity and price all parse; it is a sell exactly when the quantity is negative; the lot keeps the security, date and price read and the magnitude of the quantity |
| Parsing.BuyLots | generate_8949/MainForm.cs:118-121 | the Buys list holds only accepted buys and no more entries than lines |
| Parsing.SellLots | generate_8949/MainForm.cs:113-117 | the Sells list holds only accepted sells and no more entries than lines |
| Parsing.EveryRowRouted | generate_8949/MainForm.cs:109-122 | every accepted line lands in exactly one of the two lists, and each as often as it occurs |
| Parsing.ParseDataset | generate_8949/MainForm.cs:93-123 | the loop fails with IndexOutOfRange exactly when some line is too short; otherwise it returns fresh, distinct entries whose contents are the buy and sell lots of the lines, in line order |
| Sorting.SortEntries | generate_8949/MainForm.cs:125-127 | the result is ordered by Day and is a permutation of the list |
| Sorting.InsertByDay | generate_8949/MainForm.cs:125-127 | inserting an entry into a list ordered by Day keeps it ordered and adds exactly that entry |
| Matching.Meet | generate_8949/MainForm.cs:144-183 | no contract of its own: one pass of the inner loop on values, which raises BadData for a sale with quantity left at a later buy of its security, passes over a buy of another security or with nothing left, and otherwise uses up the smaller side; `MeetFacts`, `MeetBounds` and `MeetChronology` state its properties |
| Matching.Settle | generate_8949/MainForm.cs:133-184 | one sale against the whole buy list on values; the buy list keeps its length, and the sale and every buy keep their security, day and price, so only quantities change; the `MatchingFacts` lemmas state what it computes |
| Matching.SettleAll | generate_8949/MainForm.cs:131-185 | every sale in turn against the buys the sales before it left; both lists keep their lengths and every lot keeps its security, day and price |
| Matching.MeetEntries | generate_8949/MainForm.cs:144-183 | one pass of the inner loop changes the two entries and returns the error or entry exactly as `Meet` defines |
| Matching.MatchSale | generate_8949/MainForm.cs:133-184 | the inner loop over the buy list leaves the sale, the buys and the entries exactly as `Settle` defines, and fails with the same BadData when `Settle` does |
| Matching.MatchSells | generate_8949/MainForm.cs:131-185 | the nested loops leave both lists and the CapitalGains list exactly as `SettleAll` defines, and fail with the same error when it does |
| MatchingFacts.MeetFacts | generate_8949/MainForm.cs:150-182 | a meeting changes only quantities, takes the same quantity from sale and buy, and records an exact entry between the two only when the buy had quantity |
| MatchingFacts.MeetBounds | generate_8949/MainForm.cs:165-176 | on non-negative quantities a meeting takes min(sale, buy), leaves neither side negative, and uses up at least one side |
| MatchingFacts.MeetChronology | generate_8949/MainForm.cs:144-147 | a meeting that takes a positive quantity draws on a buy dated on or before the sale |
| MatchingFacts.SettleConserves | generate_8949/MainForm.cs:133-184 | for each security, the sale's quantity is what is left of it plus what its entries drew, and the buys' holdings are what they hold afterwards plus the same amount |
| MatchingFacts.SettleAllConserves | generate_8949/MainForm.cs:131-185 | over the whole matching, per security, sells and buys each lose exactly the quantity the entries drew |
| MatchingFacts.SettleNonNeg | generate_8949/MainForm.cs:165-176 | one sale leaves no negative quantity, only lowers quantities, and records no negative entry |
| MatchingFacts.SettleAllNonNeg | generate_8949/MainForm.cs:131-185 | the same over the whole matching, for both lists |
| MatchingFacts.SettleEntries | generate_8949/MainForm.cs:156-182 | every entry of a sale is exact and pairs that sale with a buy of the list |
| MatchingFacts.SettleAllEntries | generate_8949/MainForm.cs:131-185 | every entry pairs a sale and a buy of the original lists, of one security, with exact amounts, and one that draws anything is dated on or after its acquisition |
| MatchingFacts.SettleChronology | generate_8949/MainForm.cs:144-147 | every entry that draws anything is sold on or after it was acquired |
| MatchingFacts.SettleBadData | generate_8949/MainForm.cs:144-147 | a sale fails exactly when it reaches a buy of its security dated after it while the buys before it do not cover it; the error names that sale's security and day, and its quantity is what the sale has left at the first such buy: its own quantity less what the buys before that one held of its security |
| MatchingFacts.SettleAllBadData | generate_8949/MainForm.cs:131-147 | a failed matching is BadData naming a sale of the list that has a later buy of its security, with a positive quantity no larger than that sale's; exactly, it is the error that sale raises, as `SettleBadData` states, against a buy list of the same lots that earlier sales may have lowered but not made negative |
| MatchingFacts.SettleIdle | generate_8949/MainForm.cs:144-176 | a sale with nothing left never fails, changes no buy, and records only zero-quantity entries |
| MatchingFacts.SettleRemaining | generate_8949/MainForm.cs:133-184 | what is left of a sale is its quantity minus its security's holdings, or zero when the holdings cover it |
| MatchingFacts.SettleLeftover | generate_8949/MainForm.cs:149-176 | a sale that keeps quantity has emptied every buy of its security |
| MatchingFacts.SettleFifo | generate_8949/MainForm.cs:133-176 | first in, first out: a sale draws on a buy only once every earlier buy of its security is empty |
| MatchingFacts.SettleAllFifo | generate_8949/MainForm.cs:131-185 | first in, first out over the whole matching: a buy that anything drew on has every earlier buy of its security empty at the end |
| MatchingFacts.SettleAcqOrder | generate_8949/MainForm.cs:126-184 | with the buys sorted by day, a sale's entries come in order of acquisition date |
| MatchingFacts.SettleOwnSecurity | generate_8949/MainForm.cs:150-153 | a sale changes only buys of its own security |
| Classify.ClassifyGains | generate_8949/MainForm.cs:187-206 | the loop builds exactly the long-term and short-term lists `LongTermGains` and `ShortTermGains` define |
| Classify.ClassifyMembership | generate_8949/MainForm.cs:190-206 | an entry is long-term exactly when it is an entry of positive quantity that passes the test, short-term exactly when it is one that fails it; so none is in both, and none of quantity zero is in either |
| Classify.ClassifyPartition | generate_8949/MainForm.cs:190-206 | the two lists together hold every entry of positive quantity as often as it occurs, and the entries dropped are exactly those of quantity zero |
| Classify.ClassifyAppend | generate_8949/MainForm.cs:190-206 | the lists keep the order of the entries: classifying two runs one after the other gives the two results one after the other |
| Classify.LongTermHeldAYear | generate_8949/MainForm.cs:194-199 | every long-term entry was sold on or after the first anniversary of its acquisition |
| Report.CentsReadBack | generate_8949/MainForm.cs:283-284 | an amount column holds no comma and reads back as the amount rounded to cents |
| Report.GainTextReadBack | generate_8949/MainForm.cs:285 | a gain is printed as its rounded value and a loss as its rounded magnitude in parentheses, and either reads back as that rounded amount |
| Report.CapGainRow | generate_8949/MainForm.cs:277-286 | no contract of its own: the eight gain fields joined with ','; `CapGainRowFields` states that the row splits back into them |
| Report.LedgerRow | generate_8949/MainForm.cs:288-295 | no contract of its own: security, date, quantity and price joined with ','; `LedgerRowReadBack` states that the row parses back to the lot |
| Report.TotalsRow | generate_8949/MainForm.cs:320 | no contract of its own: TOTALS and the three rounded totals joined with ','; `TotalsRowFields` states that the row splits back into those fields |
| Report.CapGainRowFields | generate_8949/MainForm.cs:277-286 | a gain row splits back into its eight fields: "quantity security", the acquisition date, the sale date, proceeds, cost basis, two empty columns and the gain |
| Report.LedgerRowReadBack | generate_8949/MainForm.cs:288-295 | a remainder row of a lot with positive quantity is a ledger line that parses back to that very lot, as a buy |
| Report.TotalsRowFields | generate_8949/MainForm.cs:320 | the totals row splits back into TOTALS, two empty columns, total proceeds, total basis, two empty columns and the total gain |
| Report.TotalsExact | generate_8949/MainForm.cs:304-313 | the running totals are the exact sums of the entries' amounts |
| Report.SumsAgree | generate_8949/MainForm.cs:178-180 | over exact entries, the summed gain is summed proceeds minus summed basis |
| Report.TotalsAgree | generate_8949/MainForm.cs:315-318 | for entries whose amounts were computed as the matching computes them, the totals check passes |
| Report.GetTotalsRow | generate_8949/MainForm.cs:302-321 | it throws exactly when proceeds minus basis differs from the total gain; otherwise it returns the row of the three totals |
| Report.CapGainRows | generate_8949/MainForm.cs:215-218 | the loop writes one row per entry, in order |
| Report.RowsInOrder | generate_8949/MainForm.cs:215-218 | row k of a file body is the rendering of item k |
| Report.GainFile | generate_8949/MainForm.cs:211-221 | a gain file is the header, one row per entry, the blank row and the totals row; it fails exactly when GetTotalsRow throws |
| Report.RemainderMembership | generate_8949/MainForm.cs:249-255 | a lot is listed in the remainder exactly when it is a buy with positive quantity |
| Report.RemainderFile | generate_8949/MainForm.cs:245-255 | the remainder file is its header and one row per buy left with positive quantity, in list order |
| Report.RemainderReadBack | generate_8949/MainForm.cs:249-255 | every remainder row parses back to the lot it lists, as a buy |
| Engine.WriteGainFile | generate_8949/MainForm.cs:209-242 | no file for an empty list; otherwise the gain file, or a failure exactly when the totals disagree |
| Engine.GainsWellFormed | generate_8949/MainForm.cs:178-180 | every entry the matching records has exact amounts |
| Engine.MatchAndWrite | generate_8949/MainForm.cs:129-256 | on distinct, disjoint entry lists, the result is the matching and the three files, or the matching's error, of what the lists held before the call |
| Engine.WriteReports | generate_8949/MainForm.cs:187-256 | the files are those of the entries and the buys: a gain file for each non-empty class and always the remainder file |
| Engine.ProcessDataset | generate_8949/MainForm.cs:91-257 | the run ends in IndexOutOfRange exactly when a line is too short; otherwise it is the matching and reports of some ordering by day of the parsed lists |
| EngineFacts.RunErrors | generate_8949/MainForm.cs:91-257 | a run fails with IndexOutOfRange exactly when a line is too short; any other failure is BadData naming a sale of the ledger that has a later buy of its security, with a positive quantity no larger than the sale's, and it is the error that sale raises in the matching of the sorted lists, with what it has left at its first uncovered buy; the totals check never fails |
| EngineFacts.RunCompletes | generate_8949/MainForm.cs:91-257 | without a short line and without a sale that has a later buy of its security, the run writes its files |
| EngineFacts.RunRemainder | generate_8949/MainForm.cs:244-256 | the remainder file lists only leftovers of the ledger's buys, each with positive quantity, and each row reads back as a ledger line for that lot |
| EngineFacts.RunGainFiles | generate_8949/MainForm.cs:208-242 | each gain file written holds, between header and totals, rows of entries of positive quantity of its own term, each between a sale and a buy of the ledger; every row splits back into its entry's fields and the totals balance exactly |

## Left out

- The window, the file dialogs and `StartCalc_Click`: the data set is a parameter and the files are returned as lines; `SaveTextFile` and the file names derived from the input name are not part of this model.
- The `test` loop inside the inner `foreach` (lines 135-142) sums into a variable that nothing reads, so it has no effect and is not modelled.
- The message of `BadDataException`: the error carries the security, day and remaining quantity the message is built from (`SettleBadData` states which quantity); `ToShortDateString` and the concatenation of the message are not modelled.
- Decimals: the 96-bit mantissa and 28-digit scale limit of `System.Decimal`, and the overflow exceptions they raise, are not modelled; arithmetic is exact and unbounded.
- Decimals.ParseDecimal: accepts `[+|-]digits[.digits][(e|E)[+|-]digits]` only; the leading and trailing whitespace, thousands separators and trailing signs that `NumberStyles.Number` also allows are not modelled.
- Dates.ParseDate: culture-invariant `yyyy-MM-dd` with four, two and two digits; the time of day that `DateTime` carries is not modelled, since the ledger dates have none.
- Sorting.SortEntries: states any ordering by day that permutes the list, rather than the particular order of `List.Sort` among entries of the same day, which .NET does not specify; its body sorts by insertion.
- Decimals.ToText: output is modelled in the invariant culture, with '.' and '-'. The program writes amounts with a plain `Decimal.ToString()`, which uses the current culture, while it parses with the invariant culture. So `ParseToText`, `CentsReadBack`, `LedgerRowReadBack` and `RemainderReadBack` hold only where the current culture writes numbers as the invariant culture does. Under a culture with a ',' decimal separator the CSV columns shift and the remainder file does not read back.
