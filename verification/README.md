# HMRC Data Retrieval, modelled in Dafny

The repository gathers leads: UK companies in the cleaning and waste
management trades that are active, have at least one active director aged 50
or over, and report a turnover of at least one million pounds.

`main.py` is a Companies House client. For each SIC code of two categories it
does four things:

- it pages through four keyword searches;
- it keeps the companies whose stored SIC codes start with that code;
- it de-duplicates them by company number;
- it runs every company through a chain of checks (details present, status
  active, directors over 50, turnover) and writes a CSV row for each company
  that passes.

Three spreadsheet scripts filter exported sheets:

- `filtering_2nd_sheet.py`, `filtering_3rd_sheet.py` and
  `filtering_5th_sheet.py` convert a turnover column, annotate each row with
  its directors aged 50 or over, and keep the rows whose converted turnover is
  present;
- the company number is read from a `(dddddddd)` in the company name.

`file.py` quotes each line of a list of company names.

The model has one module per concern:

| module | file | models |
|---|---|---|
| `Wrappers` | `wrappers.dfy` | `Option` and `Result` |
| `Text` | `text.dfy` | Python's `strip`, `startswith`, `replace`, `split` and `join` |
| `Decimal` | `decimal.dfy` | the part of `float()` the scripts depend on |
| `Accounts` | `accounts.dfy` | the turnover scan over the filing history |
| `Officers` | `officers.dfy` | `calculate_age` and the count of directors aged 50 or over |
| `Address` | `address.dfy` | `_format_address` |
| `Upstream` | `upstream.dfy` | the records the web services answer with, and `Api`, the services themselves as functions |
| `Search` | `search.dfy` | `search_companies`: SIC filter, pagination and de-duplication |
| `Pipeline` | `pipeline.dfy` | `process_companies` |
| `Sheets` | `sheets.dfy` | what the spreadsheet scripts share |
| `ThirdSheet`, `FifthSheet`, `SecondSheet` | `third_sheet.dfy`, `fifth_sheet.dfy`, `second_sheet.dfy` | the three converters and their scripts |
| `LineQuoting` | `line_quoting.dfy` | `file.py` |

Where the source loops, the model does too. Each such method is proved equal
to a specification function, and the properties are proved about that
function:

- the page loop (`Search.PageThrough`);
- the item filter (`Search.FilterPage`);
- the query loop and de-duplication (`Search.SearchCompanies`);
- the officer loop (`Officers.CountActiveQualifyingDirectors`);
- the filing scan (`Accounts.GetCompanyAccounts`);
- the nested loops of `process_companies` (`Pipeline.ProcessCode`,
  `ProcessCategory`, `ProcessTable`, `ProcessCompanies`);
- the directors column, written in place into an array
  (`Sheets.FillDirectors`).

## Model

| member | source | states |
|---|---|---|
| Text.StripCharacterised | main.py:138 | whitespace around a string with no edge whitespace is exactly what `strip()` removes |
| Text.StripHasNoEdgeSpace | main.py:138 | a stripped string neither starts nor ends with whitespace |
| Text.StripSplits | main.py:138 | `strip()` returns a slice of its input with only whitespace before and after it |
| Text.StripPadding | file.py:15 | extra whitespace around a string never changes what `strip()` returns |
| Text.StripIdempotent | filtering_3rd_sheet.py:54 | stripping twice is stripping once |
| Text.RemoveCharKeeps | main.py:206 | `replace(c, '')` keeps every character other than `c` and removes every `c` |
| Text.RemoveCharAppend | main.py:206 | removing a character distributes over concatenation |
| Text.Split | main.py:209 | `split(d)` gives one more part than there are separators |
| Text.SplitJoin | main.py:209 | joining the parts of `split(d)` with `d` gives the original string back |
| Text.SplitNone | main.py:209 | a string without the separator splits into itself alone |
| Text.SplitAtOnly | main.py:209 | a string with exactly one separator splits into the text before it and the text after it |
| Decimal.ParseFloat | main.py:211 | `float()` of a string yields a non-negative value whenever it parses |
| Decimal.ParseDigits | main.py:211 | `float()` of a non-empty digit string is the number the digits denote |
| Decimal.ParseShowNat | main.py:211 | `float(str(n)) == n` for every natural number |
| Decimal.ParseDecimal | main.py:211 | `float(w + "." + f)` for digit strings, not both empty, is the number all the digits denote divided by ten once per digit of `f` |
| Decimal.DigitsValueAppend | main.py:211 | the digits of `w + f` denote `w`'s number shifted left by the length of `f`, plus `f`'s number |
| Accounts.CleanAmount | main.py:206 | after removing '£' and ',', neither character remains, and a value without them is unchanged |
| Accounts.CleanAmountAppend | main.py:206 | cleaning distributes over concatenation |
| Accounts.CleanAmountHyphen | main.py:206-208 | the cleaned value has a hyphen exactly when the raw value has one |
| Accounts.ParseTurnover | main.py:204-214 | a parsed turnover is never negative, and a non-text field value (the AttributeError) parses to nothing |
| Accounts.RangeTakesLower | main.py:208-210 | a value with one hyphen is read as its stripped lower bound |
| Accounts.RangeUpperIrrelevant | main.py:208-210 | the upper bound of a range never affects the result |
| Accounts.ManyHyphensFail | main.py:209 | two or more hyphens make the two-name unpacking fail, so the field is skipped |
| Accounts.PoundsAndCommasIgnored | main.py:206 | currency signs and thousands separators never influence the parsed turnover |
| Accounts.PlainAmount | main.py:211 | a plain whole amount parses to itself |
| Accounts.RangeOfAmounts | main.py:208-210 | a range such as "1000000-5000000" parses to its lower bound |
| Accounts.FirstSomePicksFirst | main.py:197-214 | a scan with early return gives the first attempt that succeeds |
| Accounts.FirstSomeNoneIff | main.py:197-214 | the scan finds nothing exactly when every attempt fails |
| Accounts.NotAccountsYieldsNothing | main.py:198 | a filing whose category is not one of the three accounts categories yields no turnover |
| Accounts.FromFieldsPicksFirst | main.py:201-214 | within a filing, the turnover comes from the first field, in priority order, that is present and parses |
| Accounts.FromFieldsNoneIff | main.py:201-214 | a filing yields nothing exactly when every field attempt fails |
| Accounts.FirstTurnoverPicksFirst | main.py:197-214 | over the history, the result is the first successful field of the first filing that has one |
| Accounts.FirstTurnoverNoneIff | main.py:197-217 | the history yields None exactly when no attempt on any filing succeeds |
| Accounts.GetCompanyAccounts | main.py:187-217 | a missing history gives None; otherwise the loop returns the first successful attempt over filings and fields |
| Officers.CalculateAge | main.py:219-242 | an age exists exactly when `datetime(year, month, 1)` can be built; it is the number of whole years since the birth month, so the year difference or one less |
| Officers.FiftiethBirthday | main.py:233-237 | someone born in the current month fifty years ago is aged exactly 50 |
| Officers.QualifyingDirectors | main.py:328-333 | the counted officers are exactly the active directors whose age is known, non-zero and at least 50 |
| Officers.CountIsNumberOfQualifying | main.py:325-333 | the counter equals the number of qualifying officers |
| Officers.CountIsNumberOfPositions | main.py:325-333 | the counter equals the number of positions in the officers list whose officer is an active director of known, non-zero age of at least 50 |
| Officers.CountZeroIff | main.py:335 | the count is zero exactly when no officer qualifies |
| Officers.CountActiveQualifyingDirectors | main.py:324-333 | a missing officers response counts zero; otherwise the loop's counter is the specified count |
| Address.PresentParts | main.py:393-401 | the kept parts are non-empty, and each comes from an address key; every non-empty part is kept |
| Address.PresentPartsAppend | main.py:401 | the parts keep the order of their keys |
| Address.JoinEmptyIff | main.py:401 | joining non-empty parts gives the empty string exactly when there are no parts |
| Address.JoinLength | main.py:401 | the joined text is as long as the parts plus one separator between neighbours |
| Address.JoinAppend | main.py:401 | joining one more part appends the separator and that part, so neighbours are separated by exactly one separator |
| Address.FormatAddress | main.py:388-401 | the address is empty exactly when the dictionary is missing or every part is empty; otherwise it is the non-empty parts joined by ", " |
| Address.NoPartsOfEmpty | main.py:390-391 | an empty dictionary has no parts |
| Search.SicMatchesAny | main.py:138-140 | a company matches exactly when some stripped SIC code starts with the searched code |
| Search.SicPrefixWeakening | main.py:140 | a match on a longer code prefix implies a match on every shorter prefix of it |
| Search.SicIgnoresPadding | main.py:138 | whitespace around a stored code never matters |
| Search.AnyStrippedMatches | main.py:138-140 | the generator over the stripped list agrees with the code-by-code match |
| Search.KeepItem | main.py:134-140 | an item is kept exactly when its number is truthy and its details carry a matching SIC code |
| Search.PageCompaniesMatch | main.py:132-151 | every company a page contributes has a truthy number and a matching SIC code |
| Search.FilterPage | main.py:132-151 | the item loop builds exactly the kept companies of the page, in item order |
| Search.QueryPagesBounded | main.py:107-158 | every company a query collects comes from one of its first five pages |
| Search.QueryFromMatches | main.py:107-158 | every company a query collects matches the SIC code |
| Search.QueryAccFrom | main.py:107-158 | running the page loop from any index appends exactly what the query contributes from that index on |
| Search.SearchAllMatches | main.py:103-158 | every company the four queries collect matches the SIC code |
| Search.PageThrough | main.py:105-158 | the page loop of one query returns exactly the query's contribution from index 0 |
| Search.Dedup | main.py:163-165 | one record per number, the set of numbers is unchanged, the last record for a number wins, records come in the order their numbers first appear |
| Search.UpsertStep | main.py:164 | one dictionary assignment keeps all four de-duplication properties |
| Search.SearchCompanies | main.py:88-168 | the search returns the de-duplicated collection of the four queries, in order |
| Search.SearchResultsMatch | main.py:88-168 | every company the search returns has a truthy number and a matching SIC code |
| Pipeline.MeetsTurnover | main.py:353-356 | accepted exactly when either turnover is present and at least 1,000,000 |
| Pipeline.ActiveStatusIff | main.py:319 | the status check accepts exactly the six letters of "active" in any mix of case; a missing status fails |
| Pipeline.AcceptedIff | main.py:301-360 | a company is saved exactly when it has a number and details, is active, has a qualifying director and meets the turnover |
| Pipeline.SavedRow | main.py:363-379 | a saved row carries the company's number, name and category, its status (the details' status or "", which lowers to "active"), its SIC codes joined by ", ", the count of qualifying directors (at least one), its formatted address, the Companies House and HMRC turnovers as fetched when truthy, the VAT number, and a turnover of at least one million |
| Pipeline.DirectorsCheckedFirst | main.py:323-337 | with no qualifying director the company is skipped whatever the accounts and HMRC services answer |
| Pipeline.ProcessCompany | main.py:302-382 | the loop body, with its officer loop and its filing scan, decides as the specification does |
| Pipeline.RowsAppend | main.py:301-382 | the rows of consecutive candidate lists are concatenated in order |
| Pipeline.RowsFromCandidates | main.py:290-382 | every row comes from a saved candidate, and there are no more rows than candidates |
| Pipeline.SavedRowWritten | main.py:290-382 | every saved candidate's row is among the rows written |
| Pipeline.SavedRowsCount | main.py:290-382 | there are exactly as many rows as saved candidates |
| Pipeline.ProcessCode | main.py:293-382 | the loop for one SIC code writes the specified rows and processes every candidate |
| Pipeline.ProcessCategory | main.py:290-382 | the loop over a category's codes writes the rows of all its candidates, code by code |
| Pipeline.ProcessTable | main.py:290-382 | the loop over categories writes the rows of every candidate; the saved counter is the number of rows |
| Pipeline.ProcessCompanies | main.py:244-386 | over the two categories and eight SIC codes: the specified rows, processed and saved counters |
| Pipeline.CandidatesHaveNumbers | main.py:303-308 | every candidate has a truthy number, so the "no number" skip never fires |
| Sheets.FindFromSound | filtering_3rd_sheet.py:27 | the scan finds the leftmost `(dddddddd)` at or after an index, or reports that there is none |
| Sheets.ExtractCompanyNumber | filtering_3rd_sheet.py:26-28 | an extracted number is eight digits |
| Sheets.ExtractLeftmost | filtering_3rd_sheet.py:27-28 | None exactly when there is no match; otherwise the digits of the leftmost match |
| Sheets.ExtractFromSuffix | filtering_3rd_sheet.py:26-28 | a name ending in " (dddddddd)", with no earlier match, yields that number |
| Sheets.DirectorsOver50Spec | filtering_3rd_sheet.py:77 | the age filter fails exactly on an age that cannot be compared with 50, and otherwise keeps exactly the directors aged 50 or over |
| Sheets.DirectorsOver50Append | filtering_3rd_sheet.py:77 | the filter keeps the input order |
| Sheets.DirectorsOver50Idempotent | filtering_3rd_sheet.py:77 | filtering a filtered list changes nothing |
| Sheets.NoteForSpec | filtering_3rd_sheet.py:72-83 | a listed note holds exactly the fetched directors aged 50 or over; "No company number found" exactly when the name has no match |
| Sheets.FirstNonText | filtering_3rd_sheet.py:70-72 | the loop reaches row `p` only over text names; the name at `p`, if any, is not text |
| Sheets.FirstNonTextAll | filtering_3rd_sheet.py:70-72 | the loop runs to the end exactly when every name is text |
| Sheets.FillDirectors | filtering_3rd_sheet.py:70-83 | the loop raises exactly when some name is not text (`re.search` at line 27 raises TypeError outside the `try`); every row before the first such name holds its note, and the rows from there on are untouched |
| Sheets.ApplyColumnSpec | filtering_5th_sheet.py:54 | `apply` succeeds exactly when every cell converts, and then converts cell by cell |
| Sheets.KeepNotNa | filtering_3rd_sheet.py:86 | the filter never adds rows |
| Sheets.KeepNotNaMembers | filtering_3rd_sheet.py:86 | the kept rows are exactly the rows with a band |
| Sheets.KeepNotNaAppend | filtering_3rd_sheet.py:86 | the filter keeps the row order |
| Sheets.KeptRowsAnnotated | filtering_3rd_sheet.py:70-86 | a kept row is an input row whose band converted, with that row's own note |
| Sheets.AnnotateSpec | filtering_3rd_sheet.py:70-96 | the rows are annotated exactly when every name is text; otherwise the script stops with TypeError |
| Sheets.AnnotatedRows | filtering_3rd_sheet.py:70-86 | a kept row is the row of a text name whose band converted, with that row's own note |
| Sheets.Assemble | filtering_3rd_sheet.py:70-86 | the row loop and filter produce the kept, annotated rows, or the TypeError of a name that is not text |
| ThirdSheet.MillionBandsSpec | filtering_3rd_sheet.py:58 | the thirteen prefixes are exactly a letter from J to V followed by ':' |
| ThirdSheet.ConvertTurnoverSpec | filtering_3rd_sheet.py:49-60 | a text is kept exactly when its stripped text is a J-to-V band, and it is kept stripped |
| ThirdSheet.ConvertTurnoverIdempotent | filtering_3rd_sheet.py:54-59 | converting a converted band again gives it back unchanged |
| ThirdSheet.ConvertIgnoresPadding | filtering_3rd_sheet.py:54 | whitespace around the band text does not change the result |
| ThirdSheet.OutputFails | filtering_3rd_sheet.py:63-96 | the script stops, with TypeError, exactly when some company name is not text; the band column never raises |
| ThirdSheet.OutputBands | filtering_3rd_sheet.py:63-86 | every row written has a stripped J-to-V band from its own input row, that row's text name and its note |
| ThirdSheet.Run | filtering_3rd_sheet.py:63-96 | the script produces the specified rows, or stops with TypeError on a name that is not text |
| FifthSheet.MillionBandsSpec | filtering_5th_sheet.py:49 | the four prefixes are exactly a letter from F to I followed by ':' |
| FifthSheet.ConvertTurnover | filtering_5th_sheet.py:45-51 | the converter raises exactly on a numeric cell |
| FifthSheet.ConvertTurnoverSpec | filtering_5th_sheet.py:45-51 | a text is kept, unchanged, exactly when it is an F-to-I band as written; leading whitespace makes it fail |
| FifthSheet.ConvertTurnoverIdempotent | filtering_5th_sheet.py:49-50 | converting a converted band again gives it back unchanged |
| FifthSheet.ConvertColumnSpec | filtering_5th_sheet.py:54 | the column converts exactly when no cell is a number |
| FifthSheet.OutputFails | filtering_5th_sheet.py:54-85 | the script stops exactly when the band column raises or some company name is not text; with the column converted, the exception is TypeError |
| FifthSheet.OutputBands | filtering_5th_sheet.py:54-79 | every row written has an F-to-I band from its own input row, that row's text name and its note |
| FifthSheet.Run | filtering_5th_sheet.py:54-85 | the script produces the specified rows, or stops on the band column's exception or on a name that is not text |
| SecondSheet.DigitRunSpec | filtering_2nd_sheet.py:39 | the greedy `\d+` run is all digits and is followed by a non-digit or the end |
| SecondSheet.FindPoundSound | filtering_2nd_sheet.py:39 | the search finds nothing exactly when no '£' is directly followed by a digit, and otherwise it finds the leftmost one |
| SecondSheet.ConvertTurnover | filtering_2nd_sheet.py:38-42 | the converter raises exactly on a cell that is not text |
| SecondSheet.ConvertTurnoverSpec | filtering_2nd_sheet.py:38-42 | a text gives None exactly when no '£' is followed by a digit, and otherwise a non-negative whole number |
| SecondSheet.PrefixIgnored | filtering_2nd_sheet.py:39-42 | text before the amount in which no '£' is directly followed by a digit does not change what is read: the search passes over it |
| SecondSheet.PoundFreePrefix | filtering_2nd_sheet.py:39 | a prefix without any '£' holds no match |
| SecondSheet.AmountAfterPrefix | filtering_2nd_sheet.py:39-42 | after any text holding no match, "£a,b…" reads as the digits a and b run together |
| SecondSheet.OneGroupOnly | filtering_2nd_sheet.py:39-42 | "£a" followed by text that starts with neither a digit nor a comma and a digit reads as a, so "£500 to £1000" reads as 500 |
| SecondSheet.StrayPoundSkipped | filtering_2nd_sheet.py:39-42 | a '£' that no digit follows is passed over: "£ n/a £1,000" reads as 1000 |
| SecondSheet.BandReadsFirstGroup | filtering_2nd_sheet.py:39-42 | the band "J: £1,000,000 to £5,000,000" reads as 1000: the first amount, with one comma group only |
| SecondSheet.FindPoundShift | filtering_2nd_sheet.py:39 | the leftmost match in `p + s` from `|p| + i` is the match in `s` from `i`, shifted by `|p|` |
| SecondSheet.AmountShift | filtering_2nd_sheet.py:39 | the group read at `i` in `s` is the group read at `|p| + i` in `p + s` |
| SecondSheet.PlainAmount | filtering_2nd_sheet.py:39-41 | "£" followed by a number's digits reads as that number |
| SecondSheet.OneCommaGroupOnly | filtering_2nd_sheet.py:39-41 | "£a,b…" reads as the digits a and b run together, whatever follows b |
| SecondSheet.AmountWithComma | filtering_2nd_sheet.py:39 | the match of "£a,b" starts at the pound sign and its group is "a,b" |
| SecondSheet.DropComma | filtering_2nd_sheet.py:41 | removing the comma from "a,b" gives the two digit groups run together |
| SecondSheet.ConvertColumnSpec | filtering_2nd_sheet.py:45 | the column converts exactly when every cell is text |
| SecondSheet.OutputFails | filtering_2nd_sheet.py:45-77 | the script stops exactly when the band column raises or some company name is not text; with the column converted, the exception is TypeError |
| SecondSheet.OutputAmounts | filtering_2nd_sheet.py:45-71 | every row written carries the non-negative amount read from its own input row, that row's text name and its note |
| SecondSheet.Run | filtering_2nd_sheet.py:45-77 | the script produces the specified rows, or stops on the band column's exception or on a name that is not text |
| LineQuoting.QuoteLine | file.py:15 | the quoted line is the stripped line plus four characters |
| LineQuoting.UnquoteQuoteLine | file.py:15 | a quoted line reads back as its stripped input, which has no edge whitespace |
| LineQuoting.BlankLineQuoted | file.py:15 | a blank or all-whitespace line becomes `"",` and a newline |
| LineQuoting.QuoteLineIgnoresPadding | file.py:15 | whitespace around a name does not reach the output |
| LineQuoting.QuoteLineStable | file.py:15 | quoting the text read back from a quoted line gives the same line |
| LineQuoting.QuoteLinesSpec | file.py:15 | one output line per input line, in order, each reading back as its stripped input |
| LineQuoting.QuoteLinesAppend | file.py:15 | quoting distributes over concatenation of the input |

## Left out

- HTTP, authentication, retries on rate limiting and the request delays
  (main.py:30-86 and main.py:161). The web services are the functions of
  `Upstream.Api`; a failed request or an empty reply is `None`.
- `hmrc_client.py` is not part of this model. The VAT number and the HMRC
  turnover it supplies are functions of `Upstream.Api`.
- The clock. `datetime.now()` is the `Today` parameter, and the timestamp in
  the output file name is not modelled.
- The file and spreadsheet I/O: CSV writing, Excel reading, sheet names,
  `readlines`/`writelines`, logging, printing and `.env` loading.
- The CSV row leaves out `incorporation_date`, `company_type` and
  `last_accounts_date`. The search record keeps only a company's number and
  title, because nothing downstream reads the rest.
- Pipeline.SavedRow: a turnover column is `None` or the amount itself. The
  `£{x:,.2f}` text and 'Not available' are not rendered.
- `float()` is modelled on decimal literals (digits with an optional fraction,
  with surrounding whitespace). Signs, exponents, underscores, `inf` and `nan`
  are not modelled. Values are exact reals, not binary floating point.
- Only ASCII digits count as digits, for `float()` and for `\d`. Lower-casing
  is ASCII only, which decides the comparison with "active" exactly.
- A JSON `null` where the program expects text, a list or a dictionary is
  treated as a missing key. The program instead stops with an uncaught
  exception on these: a null `sic_codes` (main.py:137), a null
  `last_accounts` (main.py:148), a null filing `data` (main.py:198-202) and
  a null `company_status` (main.py:319).
- `Upstream.Api` answers every request the same way. So the search
  (main.py:135) and the processing loop (main.py:315) see the same company
  details, where the program makes two requests whose answers may differ.
- An empty JSON object in a reply is treated like a missing one. A missing
  search `title` is the empty string.
- The general regular-expression engine. The two patterns (`\((\d{8})\)` and
  `£(\d+(?:,\d+)?)`) are written out as scans.
- `str(filtered_directors)`: the directors column holds the list itself, not
  its printed form. A director's other keys are an opaque record.
- The running `processed_count` and `saved_count` increments. The methods
  return the final totals instead.
- A cell that is not text (NaN or a number) in the second sheet's band
  column, or in any sheet's company name column, makes `re.search` raise
  TypeError. The model stops the script with a `Failure` and does not model
  the traceback.
- A date of birth's `year` and `month` are integers or missing. `int()` of a
  numeric string or a float (main.py:226-227), and the TypeError of a null
  value, are not modelled.
