# PostulaPro bidding bots — a Dafny model

PostulaPro automates tender bids. Its components:

- A wherEX mass-posting script (`wherex_mass_postulate.py`). It loads a CSV or JSON price list into products. It matches the items a tender requests against those products. It decides, tender by tender, whether to create an offer.
- Four portal bots: Wherex, Senegocia, Mercado Público and Facebook Marketplace.
  - Each bot reads a price list with the columns `Codigo`, `Descripcion` and `Precio`.
  - The Wherex, Senegocia and Mercado Público bots go through the portal's opportunities. For each one, they select the first price-list row whose description occurs in the opportunity's text, ignoring case.
  - The Facebook bot does no matching. It submits a placeholder for every price-list row, in order.
  - Every submitted product gets a row `[timestamp, Codigo, Descripcion, Precio, status]` appended to a Google sheet.
  - The Senegocia, Mercado Público and Facebook bots read their settings with `load_config`. This takes the environment first and `config.toml` second.
- A Streamlit page (`app.py`). It parses `item: price` lines into a dictionary and assembles a seven-section tender proposal with `generar_propuesta`.

The model has one module per source file, plus four shared modules:

- `Wrappers`: `Option` and `Result`.
- `Text`: ASCII lower-casing, substrings, Python's `strip`, `split`, `join` and `splitlines`.
- `Portal`: what the Wherex, Senegocia and Mercado Público bots share.
  - The first-match rule.
  - A `Session` class whose `trace` records every submission, console message and sheet append, in order.
  - The opportunity loop, parameterised by a `Policy`. The `Policy` records where the bots differ: whether a submission error is caught, whether a missing `Precio` falls back to `""`, whether a missing datasheet is reported, the datasheet directory and the status text.
- `BotConfig`: `load_config` for the three bots that have one.

The loops of the source are methods with loop invariants. Each is proved equal to a recursive specification function: `FindMatchingProducts`, `BuildProducts`, `OfferTenders`, `FindFirst`, `Portal.ProcessOpportunities`, `FacebookBot.ProcessOpportunities` and `ParsePrices`. `BotConfig.LoadConfig` has no loop. It fills `cfg` key by key, in source order, and is proved equal to the non-recursive function `BotConfig.Merged`. Lemmas then state what the source promises about those functions.

The site, the file system and the clock are oracles carried in `Portal.Site`:
- `submitFails(k)`: whether submitting for the opportunity at position `k` raises.
- `fileExists(path)`: whether a file exists.
- `clock(k)`: the timestamp written when the opportunity at position `k` is logged.

What a CSV or JSON reader yields from a file is a parameter of the operation that reads it.

## Model

| member | source | states |
|---|---|---|
| Text.Strip | app.py:62 | the result is the argument with its leading and trailing whitespace removed: a slice with only whitespace outside it and non-whitespace at both ends |
| Text.StripKeepsOut | app.py:62 | stripping adds no character, so a line without a newline yields an item and a price without one |
| Text.SplitCount | app.py:61 | `split` yields one part more than there are separators, and no part contains the separator |
| Text.SplitOnce | app.py:61 | a line with exactly one `:` splits into the text before it and the text after it |
| Text.JoinSplit | app.py:15 | joining the parts of a split with the separator gives back the original text |
| Text.SplitJoin | app.py:15 | splitting a join of separator-free parts gives back the parts |
| Text.SplitLines | app.py:59 | no resulting line holds a line break, and there are no lines exactly when the text is empty |
| Text.SplitLinesJoin | app.py:59 | the lines are the text between the boundaries: when every boundary is `\n` and the text does not end in one, joining the lines with `\n` gives the text back |
| Text.SplitLinesStep | app.py:59 | such a text with a boundary is its first line, a `\n`, then more such text, whose lines follow the first |
| Text.SplitLinesAtNewline | app.py:59 | a `\n` boundary ends the first line, and splitting resumes right after it |
| Text.JoinOneLine | app.py:59 | a text without a boundary joins back to itself |
| Text.SingleLine | app.py:59 | a non-empty text without line breaks is one line |
| MassPostulate.RFind | wherex_mass_postulate.py:65 | -1 exactly when the character is absent, otherwise the position of its last occurrence |
| MassPostulate.FileName | wherex_mass_postulate.py:65 | the name holds no `/` and is never `.` |
| MassPostulate.FileNameOfName | wherex_mass_postulate.py:65 | a single component other than `.` is its own name |
| MassPostulate.FileNameTrailingSlash | wherex_mass_postulate.py:65 | a trailing `/` does not change the name |
| MassPostulate.FileNameDotComponent | wherex_mass_postulate.py:65 | a trailing `/.` component does not change the name |
| MassPostulate.FileNameLastComponent | wherex_mass_postulate.py:65 | the name of `<dir>/<s>` is `s`, the text after the last `/`, for any component `s` other than `.` |
| MassPostulate.Suffix | wherex_mass_postulate.py:65 | the suffix is empty, or a single dot followed by text with no dot and no `/`; it is non-empty exactly when the name's last dot is neither its first nor its last character, and it is then the name's tail from that dot |
| MassPostulate.SuffixIgnoresDotComponent | wherex_mass_postulate.py:65 | a trailing `/.` changes neither the suffix nor whether the format is supported |
| MassPostulate.OptionalPath | wherex_mass_postulate.py:70-71 | the optional image or datasheet path is absent exactly when the key is missing or its value is empty, and is otherwise the raw value |
| MassPostulate.ToProduct | wherex_mass_postulate.py:72-81 | a record gives a product exactly when it has code, description, brand, category and price; the fields are copied; otherwise the KeyError names the first missing key in that order |
| MassPostulate.LoadRecords | wherex_mass_postulate.py:69-82 | definition: the products of the records, in order, or the KeyError of the first record lacking a required key |
| MassPostulate.Load | wherex_mass_postulate.py:64-102 | definition: the records' products for a `.csv` or `.json` suffix, in any letter case, and the unsupported-format error otherwise |
| MassPostulate.LoadedInOrder | wherex_mass_postulate.py:69-82 | a successful load gives one product per record, the i-th being the i-th record's product |
| MassPostulate.LoadFailsIff | wherex_mass_postulate.py:69-82 | the load fails exactly when some record lacks a required key |
| MassPostulate.LoadFailsAtFirstBad | wherex_mass_postulate.py:69-82 | the error is that of the first record lacking a required key |
| MassPostulate.LoadsWhenAllGood | wherex_mass_postulate.py:69-82 | when every record has the required keys, the load succeeds |
| MassPostulate.LoadErrorPersists | wherex_mass_postulate.py:69-82 | once the records read so far fail, the whole load fails with that error |
| MassPostulate.LoadNeverUnsupported | wherex_mass_postulate.py:86-99 | reading the records can only fail with a missing key |
| MassPostulate.UnsupportedIff | wherex_mass_postulate.py:65-101 | the load raises the unsupported-format error exactly when the lower-cased suffix is neither `.csv` nor `.json`, and the error carries the suffix |
| MassPostulate.UpperCaseSuffixAccepted | wherex_mass_postulate.py:65-66 | the suffix is compared after lower-casing, so any `<stem>.CSV` whose stem is non-empty and has no `/` is accepted |
| MassPostulate.DotFileName | wherex_mass_postulate.py:65 | `.<ext>`, with no further dot or `/`, is its own name, and its last dot is its first character |
| MassPostulate.DotFileRefused | wherex_mass_postulate.py:65 | a file named `.<ext>`, with no further dot or `/`, has no suffix (like `.csv`) and is refused |
| MassPostulate.BuildProducts | wherex_mass_postulate.py:69-82 | the loop over the records builds the specified product list or stops at the first error |
| MassPostulate.LoadPriceList | wherex_mass_postulate.py:53-102 | `load_price_list` dispatches on the suffix and returns the specified result |
| MassPostulate.ProductMatches | wherex_mass_postulate.py:152-154 | definition: the lower-cased code or the lower-cased description occurs in the lower-cased request |
| MassPostulate.MatchesFor | wherex_mass_postulate.py:153-155 | definition: the products matching one request, in price-list order |
| MassPostulate.AllMatches | wherex_mass_postulate.py:150-156 | definition: the matches of each request, one request after the other |
| MassPostulate.MatchesForInOrder | wherex_mass_postulate.py:153-155 | the matches of one request are exactly the matching products, in price-list order, at increasing positions |
| MassPostulate.MatchesForCount | wherex_mass_postulate.py:153-155 | a product occurs among one request's matches as often as in the price list when it matches, and never otherwise |
| MassPostulate.MatchesForBound | wherex_mass_postulate.py:153-155 | one request yields at most one match per product |
| MassPostulate.AllMatchesCount | wherex_mass_postulate.py:150-156 | a product occurs in the result once for every request it matches, times its multiplicity in the price list |
| MassPostulate.AllMatchesMembership | wherex_mass_postulate.py:150-156 | a product is in the result exactly when it is in the price list and matches some request |
| MassPostulate.RequestsMatchedPositive | wherex_mass_postulate.py:150-156 | the number of requests a product matches is positive exactly when some request matches it |
| MassPostulate.AllMatchesBound | wherex_mass_postulate.py:150-156 | there are at most requests × products matches |
| MassPostulate.AllMatchesGrouped | wherex_mass_postulate.py:151-155 | the result is grouped by request: request i's matches sit, contiguously, after those of the earlier requests |
| MassPostulate.AllMatchesPrefix | wherex_mass_postulate.py:150-156 | the matches of the first n requests are a prefix of the result |
| MassPostulate.MatchingIgnoresCase | wherex_mass_postulate.py:152-154 | requests that differ only in letter case give the same matches |
| MassPostulate.MatchesForIgnoresCase | wherex_mass_postulate.py:152-154 | one request's matches do not depend on its letter case |
| MassPostulate.EmptyCodeMatchesEverything | wherex_mass_postulate.py:154 | a product with an empty code matches every request |
| MassPostulate.FindMatchingProducts | wherex_mass_postulate.py:140-156 | the nested loops return the specified matches |
| MassPostulate.NoItemsNoOffers | wherex_mass_postulate.py:212-215 | with `requested_items` always empty, as written, no offer is ever created |
| MassPostulate.OffersAreMatchedTenders | wherex_mass_postulate.py:210-215 | every offer is for a listed tender and carries all its matches, and every tender with a match gets an offer |
| MassPostulate.OfferTenders | wherex_mass_postulate.py:210-215 | the tender loop makes the specified offers |
| MassPostulate.Start | wherex_mass_postulate.py:195-215 | missing or empty credentials raise before anything else; otherwise the result is the load error or the offers for the loaded products |
| Portal.DescriptionMatches | agents/wherex/wherex_bot.py:133 | definition: the lower-cased `Descripcion` occurs in the lower-cased opportunity text |
| Portal.FirstMatchFrom | agents/wherex/wherex_bot.py:132-141 | the result is the first row from position j on whose description occurs in the text, ignoring case; None when there is none |
| Portal.FirstMatch | agents/wherex/wherex_bot.py:132-141 | the selected row matches, and no earlier row does; None when no row matches |
| Portal.FindFirst | agents/wherex/wherex_bot.py:132-141 | the inner loop, ending at the first hit (`break`), returns the first match |
| Portal.JoinPath | agents/wherex/wherex_bot.py:91 | an empty directory gives the name alone; a directory ending in `/` is followed directly by the name; any other directory gets one `/` before the name |
| Portal.JoinPathEndsInName | agents/wherex/wherex_bot.py:91 | the joined path ends in the name |
| Portal.RowFor | agents/wherex/wherex_bot.py:109-115 | the row is `[timestamp, Codigo, Descripcion, price cell, status]` |
| Portal.LogRow | agents/senegocia/senegocia_bot.py:97 | no row can be registered exactly when `Precio` is missing and the bot reads it with `[]`, which raises KeyError |
| Portal.Outcome | agents/wherex/wherex_bot.py:136-137 | definition: the submission, then either an escaping exception, or after any error report the registered row, or the KeyError of a missing price |
| Portal.Step | agents/wherex/wherex_bot.py:132-141 | definition: nothing for an opportunity without a match; otherwise the datasheet warning, if any, then the outcome for its first match |
| Portal.RunFrom | agents/wherex/wherex_bot.py:129-141 | definition: the steps of the opportunities from a position on, in order, up to the first that raises |
| Portal.StepFacts | agents/wherex/wherex_bot.py:132-141 | an opportunity without a match does nothing; one with a match submits its first match once and, unless the run aborts, logs that row |
| Portal.OutcomeViews | agents/wherex/wherex_bot.py:136-137 | after any warnings, submitting a product records exactly one submission, and logs its row exactly when no exception escapes |
| Portal.StepAborts | agents/wherex/wherex_bot.py:132-141 | handling one opportunity raises exactly when it has a match, and either the uncaught submission fails or the row has no price and there is no fallback |
| Portal.RunFacts | agents/wherex/wherex_bot.py:129-141 | a completed run logs exactly the expected rows and makes exactly the expected submissions; an aborted one has made a prefix of them; the log is never ahead of the submissions |
| Portal.ExpectedCounts | agents/wherex/wherex_bot.py:129-141 | one row and one submission are expected for each opportunity with a match |
| Portal.ExpectedAttemptsAreFirstMatches | agents/wherex/wherex_bot.py:129-141 | every expected submission is for a matched opportunity and is its first match's code, and each opportunity is submitted at most once, in order |
| Portal.RowsMatchAttempts | agents/wherex/wherex_bot.py:129-141 | the i-th expected row is the row of the product of the i-th expected submission |
| Portal.RowMatchesAttempt | agents/wherex/wherex_bot.py:129-141 | the expected row at a given position is the row of the product of the expected submission at that position |
| Portal.AbortsIffSubmissionFails | agents/wherex/wherex_bot.py:80-141 | when submission errors are not caught and a missing price falls back, the run stops exactly when a matched opportunity's submission fails |
| Portal.AbortsIffUnpriced | agents/senegocia/senegocia_bot.py:70-100 | when submission errors are caught and a missing price raises, the run stops exactly when a matched opportunity selects a row without a price |
| Portal.LogIgnoresFailures | agents/senegocia/senegocia_bot.py:70-100 | when errors are caught, the sheet and the outcome do not depend on which submissions fail |
| Portal.LoggedRowsAreSelectedRows | agents/wherex/wherex_bot.py:129-141 | in any run, every submission is a matched opportunity's first match, opportunities come in order, and the i-th logged row is that of the i-th submission |
| Portal.RunCompletes | agents/wherex/wherex_bot.py:129-141 | a run completes when no submission error can escape and every selected row can be logged |
| Portal.Session.Submit | agents/wherex/wherex_bot.py:88-103 | the submission is recorded with its attachment, and it succeeds as the site decides |
| Portal.Session.SubmitPlaceholder | agents/facebook/facebook_bot.py:86-94 | the placeholder submission is recorded and always succeeds |
| Portal.Session.Print | agents/wherex/wherex_bot.py:95 | the console message is recorded |
| Portal.Session.AppendRow | agents/wherex/wherex_bot.py:109 | the sheet gains exactly the appended row at its end |
| Portal.ProcessOne | agents/wherex/wherex_bot.py:132-141 | handling one opportunity records exactly the events of the specified step |
| Portal.CheckDatasheet | agents/wherex/wherex_bot.py:91-95 | the datasheet `<dir>/<Codigo>.pdf` is attached exactly when it exists; otherwise a bot that warns records the missing-datasheet warning, and nothing else is recorded |
| Portal.SubmitAndRegister | agents/wherex/wherex_bot.py:136-137 | submitting the product and registering its row records exactly the specified outcome, and reports whether an exception escaped |
| Portal.ProcessOpportunities | agents/wherex/wherex_bot.py:118-141 | the opportunity loop records exactly the events of the specified run, and reports whether an exception escaped |
| BotConfig.Merged | agents/senegocia/senegocia_bot.py:20-47 | definition: the environment's values and defaults, then, when the file is read, each present table backs up a credential or the sheet id, or overrides a path |
| BotConfig.Precedence | agents/senegocia/senegocia_bot.py:20-47 | `cfg` has exactly the five keys; a non-empty environment credential or sheet id wins; otherwise the file's table supplies it when the file is read and has the table, and the environment value stands as is when it does not; a path the file sets overrides, and a path it does not set is the environment's value or its default; both paths always have a value; without the file, or without `tomllib`, only the environment counts |
| BotConfig.MergedEntries | agents/senegocia/senegocia_bot.py:31-46 | once the file is read, each of the five keys holds the value of its own rule |
| BotConfig.PriceListPath | agents/senegocia/senegocia_bot.py:26-43 | `cfg['PRICE_LIST_PATH']` always holds a path |
| BotConfig.TechSheetDir | agents/senegocia/senegocia_bot.py:27-46 | `cfg['TECH_SHEET_DIR']` always holds a path |
| BotConfig.PathDefaults | agents/senegocia/senegocia_bot.py:26-27 | the price-list path is `data/lista_precios.csv` and the datasheet directory `fichas_tecnicas` when neither the environment nor the file read sets them |
| BotConfig.EmptyValueKept | agents/mercado_publico/mp_bot.py:22-35 | an empty environment credential stays `""` when the file has no table for the bot |
| BotConfig.LoadConfig | agents/facebook/facebook_bot.py:30-55 | filling `cfg` in source order gives the specified configuration |
| BotConfig.ReadToml | agents/senegocia/senegocia_bot.py:31-46 | the block that runs once the file is read updates each key whose table is present, as specified |
| BotConfig.ReadCredentials | agents/senegocia/senegocia_bot.py:34-37 | when the bot's table is present, an empty or missing user or password is replaced by the table's value |
| BotConfig.ReadSheets | agents/senegocia/senegocia_bot.py:38-40 | when `[sheets]` is present, an empty or missing sheet id is replaced by its `sheet_id` |
| BotConfig.ReadPath | agents/senegocia/senegocia_bot.py:41-46 | a path is replaced by the table's field when the table has that field, and is otherwise unchanged |
| WherexBot.RunBot | agents/wherex/wherex_bot.py:51-161 | a missing price-list file raises FileNotFoundError before anything is done; otherwise the run is the specified Wherex run |
| WherexBot.DatasheetRule | agents/wherex/wherex_bot.py:88-101 | the datasheet is `fichas_tecnicas/<Codigo>.pdf`; when it exists it is attached; when it does not, the warning comes first and the offer is sent without it |
| WherexBot.RunOutcome | agents/wherex/wherex_bot.py:106-141 | the run stops exactly when a matched opportunity's submission fails; every row is `[timestamp, Codigo, Descripcion, Precio or "", "Postulado en Wherex"]` for the product submitted at the same position |
| WherexBot.CompleteRun | agents/wherex/wherex_bot.py:129-141 | when no submission fails, one row is logged per matched opportunity, in order |
| SenegociaBot.RunBot | agents/senegocia/senegocia_bot.py:102-111 | the configured price list and datasheet directory drive the specified run |
| SenegociaBot.FailedSubmissionStillLogged | agents/senegocia/senegocia_bot.py:70-100 | with every row priced, the run completes whatever the site does; there is one row and one submission per matched opportunity; the i-th row has the i-th submission's code and the Senegocia status |
| SenegociaBot.StopsAtUnpricedRow | agents/senegocia/senegocia_bot.py:85-100 | the run stops exactly when a matched opportunity selects a row without `Precio` |
| MercadoPublicoBot.RunBot | agents/mercado_publico/mp_bot.py:95-103 | the configured price list and datasheet directory drive the specified run |
| MercadoPublicoBot.OpportunityHandled | agents/mercado_publico/mp_bot.py:66-93 | for a priced match, the datasheet from the configured directory is attached if it exists; a failed submission is reported and its row is still registered; a successful one is followed by its row |
| MercadoPublicoBot.TechSheetDirFromFile | agents/mercado_publico/mp_bot.py:41-42 | a `[files].tech_sheet_dir` in the file is where the datasheets are looked for |
| FacebookBot.CatalogRun | agents/facebook/facebook_bot.py:97-103 | definition: for each price-list row from a position on, its placeholder submission, then its row, stopping at the first row without a price |
| FacebookBot.ProcessOpportunities | agents/facebook/facebook_bot.py:97-103 | the loop over the price list records exactly the specified events |
| FacebookBot.PostulateRow | agents/facebook/facebook_bot.py:100-102 | one price-list row: the placeholder submission, then the row; a missing price stops the run after the submission |
| FacebookBot.RunBot | agents/facebook/facebook_bot.py:106-114 | the configured price list drives the specified run |
| FacebookBot.EveryRowLogged | agents/facebook/facebook_bot.py:97-103 | with every row priced, every price-list row is submitted and then logged, in order, with the Facebook status |
| FacebookBot.RowsFrom | agents/facebook/facebook_bot.py:100-102 | from any position on, with every row priced, the run completes and logs and submits each later row once, in order |
| FacebookBot.NeverWarns | agents/facebook/facebook_bot.py:86-103 | the run stops exactly when some row has no `Precio`, and nothing is ever printed |
| ProposalApp.Lookup | app.py:58-62 | a key has a value exactly when it has been stored, and that value is stored under it |
| ProposalApp.Put | app.py:62 | a new key goes at the end; an existing key keeps its position |
| ProposalApp.PutLookup | app.py:62 | after storing, the key maps to the new price, and every other key is unaffected |
| ProposalApp.PutEntries | app.py:62 | storing keeps keys unique and adds no entry other than the stored one |
| ProposalApp.ParseLine | app.py:60-62 | definition: a line without `:` leaves the dictionary as it is; one that splits into two parts stores its stripped item and price; any other raises ValueError |
| ProposalApp.Parse | app.py:58-62 | definition: the dictionary after the lines, in order, or the error of the first line that raises |
| ProposalApp.ParseErrorPersists | app.py:59-62 | once a line raises, the whole parse fails with that error |
| ProposalApp.ParseLineByColons | app.py:60-62 | a line without `:` is skipped; one with a single `:` stores its stripped item and price; one with more raises ValueError |
| ProposalApp.ParseFailsIff | app.py:59-62 | parsing fails exactly when some line has two or more `:`, and the error names the first such line |
| ProposalApp.ParseLastWins | app.py:58-62 | the dictionary has unique keys, and each item maps to the price of its last line |
| ProposalApp.ParsedSingleLine | app.py:59-62 | no parsed item or price contains a newline |
| ProposalApp.ParsePrices | app.py:57-62 | the loop over `splitlines()` gives the specified dictionary or error |
| ProposalApp.Economica | app.py:15 | definition: one `item: $price` line per dictionary entry, in insertion order, joined by newlines |
| ProposalApp.EconomicaLines | app.py:15 | the economic offer splits back, at its newlines, into one `item: $price` line per parsed entry, in dictionary order |
| ProposalApp.GenerarPropuesta | app.py:8-45 | the seven sections in order, each with its fixed passages, the supplier's data, the economic offer, the checklist and the given documents |
| ProposalApp.ProposalNamesSupplier | app.py:9-21 | the summary, the technical offer and the cover letter all name the supplier; the technical offer also states its experience and capabilities |
| ProposalApp.TecnicaNames | app.py:10-14 | the technical offer contains the supplier, its experience and its capabilities |
| ProposalApp.BasesIgnored | app.py:8-45 | the proposal does not depend on `bases` |
| ProposalApp.TitlesDistinct | app.py:37-45 | the seven section titles are distinct, so the returned dict has seven entries |

## Left out

- Browsers and pages (Playwright), login forms, Google Sheets and its OAuth setup, and the Streamlit widgets are left out. Their effects are the `Site` oracles and the `Session` trace.
- `login` and `list_new_tenders` in `wherex_mass_postulate.py` raise NotImplementedError, so the script as written never reaches its tender loop. The model takes the tender URLs as given and models the loop as written after those calls.
- `create_offer_for_tender` raises NotImplementedError. Its call is modelled as the `Offer` it would receive.
- MassPostulate.Product: the price is kept as the record's text. `float(...)` and the ValueError it raises on a malformed price are not modelled.
- Text.SplitLines: the round trip to the text, Text.SplitLinesJoin, is proved only for text whose every boundary is `\n` and that does not end in a boundary. For `\r\n`, the other boundaries, or a final boundary, the joined lines would not restore the text, so the model states no round trip for them. Their only contract is that no line holds a boundary.
- Portal.JoinPath: a name starting with `/` replaces the directory in `Path(dir) / name`; names here are `<Codigo>.pdf`, and that case is not modelled. `Path` also drops `.` components and repeated `/` in the directory; the model keeps the directory text as given.
- MassPostulate.OptionalPath: `Path(...).resolve()` is not modelled; the path is the raw value.
- CSV and JSON decoding are left out. A record is what `csv.DictReader` or `json.load` yields, with string values. A JSON value that is not a string, or a top-level value that is not a list, is not modelled.
- MassPostulate.ProductMatches and Portal.DescriptionMatches lower-case ASCII letters only. Python's `str.lower` also folds non-ASCII letters.
- Portal.PriceRow: a `Codigo` or `Descripcion` that pandas reads as NaN is not modelled. The AttributeError its `.lower()` raises is not modelled either. A missing `Precio` column is `precio == None`.
- `pd.read_csv` becomes the price-list rows passed in (`priceLists` for the configured bots). Its errors are not modelled, including a missing file for the bots that do not check existence first.
- Portal.ErrorReport: the printed message omits the `: {e}` exception text.
- WherexBot.DatasheetRule: the failure of a submission is one event after the datasheet check. An exception raised by the first click, before that check, would come before the warning rather than after it.
- The Senegocia and Mercado Público bots call `load_config()` again inside each submission. It is deterministic for a fixed environment and file, so the model computes the directory once.
- `Path.exists` of a price list or datasheet (Senegocia, Mercado Público) and `Path.is_file` (Wherex) are both the `Site.fileExists` oracle. Whether `config.toml` exists is not that oracle. It is the separate `fileExists: bool` parameter of BotConfig.LoadConfig and BotConfig.Merged, next to `hasTomllib`.
- BotConfig.Merged: the value `tomllib.load` returns is given as string tables. Non-string TOML values and parse errors are not modelled. A failed `tomllib` import is the `hasTomllib` flag.
- The hard-coded Wherex credentials and sheet id defaults, `GOOGLE_CREDENTIALS_FILE`, and the credentials and sheet id in each `cfg` are read but not used by the model.
- `datetime.now()` is the `clock` oracle. The wait timeouts are left out.
- The KeyboardInterrupt handler, `argparse`, and the `vendedor360` orchestrator are left out.
- The display loop at `app.py:75-81` is left out. It tests an undefined name `content`, so it would raise NameError.
- `generar_propuesta` returns a dict; the model returns its entries in insertion order. The `documentos` list is taken as given, not split from the text area.
