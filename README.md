# Dashboard de Indicadores COP — a verified model of its data pipeline

This project models the data pipeline of a Streamlit dashboard that follows a fixed team of
analysts against monthly performance goals. It does not model the Streamlit interface itself.

- **Loaders** read operational spreadsheets: productivity, ETIT events, residential indicators and TOA indicators.
  - Each loader picks a worksheet and keeps only the team's rows.
  - Each loader normalises the login keys, derives a compliance flag (`ADERENTE`) and merges in the roster.
- **Summaries** aggregate the loaded rows:
  - per-indicator KPIs;
  - per-analyst totals, day counts and daily means;
  - composition of the volume by activity;
  - aging buckets in a configured order.
- **The DPA occupancy extractor** scans raw pivot-table rows. It finds the most recent month and a ranked list of the analysts' official occupancy.
- **Three indicator parsers** each build one result, with one line per team login:
  - Chat TOA;
  - ETIT Outage Sem Sinal (GPON);
  - Log Outage Reprog. GPON.
- **The button handler of the app** joins the results onto the roster into a wide table. It then:
  - adds a status column per goal;
  - selects the alert rows, meaning rows where any goal was missed;
  - ranks the analysts in the goal's direction.

Cells are `Num(real) | Text(string) | Empty`, where `Empty` is pandas' NaN. A row maps column names to cells, and a frame is a column list plus its rows. All arithmetic is exact (`real`).

Where the source has loops, the model uses methods with loops proved against a specification function:
- worksheet selection;
- the pattern mask;
- the login-column fallback;
- the row scans of the DPA sheets;
- the indicator loop of `toa_resumo_por_indicador`;
- the activity dictionary of `composicao_volume`;
- the merge loop, the status loop and the alert-column loop of the app.

The properties are then proved about those functions.

Modules, one per file:
- `wrappers`: Option and Result.
- `text`: strip, upper, substring, split, number text.
- `seqs`: filter, subsequence, dedup, sort by key.
- `frames`: cells, rows, frames and coercions.
- `workbook`: sheet choice.
- `config`: the constants of `src/config.py`.
- `filters`: the loaders' row and column rules.
- `groups`: generic group-sum and count-per-key.
- `loaders`, `summaries` and `dpa`: the `src/processors.py` core.
- `parsers`: `src/parsers.py`.
- `app`: `app.py`.

The roster (`EQUIPE`) and the goals (`METAS`) are constants. The many constants that `src/processors.py` imports are parameters of the model: sheet-name candidates, column names, indicator filters, inverted-indicator sets, the aging order, month names and activity columns.

## Model

Some specification functions carry no contract of their own. Their rows are the lemmas and methods stated about them:
- Workbook.SheetChoice (src/processors.py:53-59) by Workbook.SelectSheet;
- Summaries.ResumoOf and Summaries.ResumoTable (src/processors.py:658-678) by Summaries.ToaResumoPorIndicador, ResumoIndicators, ResumoOncePerIndicator, ResumoEntries and ResumoBounds;
- Summaries.PrimeiroNome (src/processors.py:560-568) by Summaries.PrimeiroNomeWords, ShortNameOfTwoWords and PrimeiroNomeIdempotent;
- Summaries.GroupResumo and Summaries.ResumoFrame (src/processors.py:495-535) by Summaries.ResumoGeral, ResumoMensal, ResumoErrors, ResumoKeysDistinct, ResumoCoversRows, ResumoEntriesOf, GroupDailyMean and GroupDpaMean.

| member | source | states |
|---|---|---|
| Workbook.SelectSheet | src/processors.py:53-59 | The sheet read is the first candidate, in candidate order, that the workbook has; with no such candidate it is the first sheet; there is no sheet (IndexError) exactly when the workbook is empty, and any sheet chosen is one of the workbook's. |
| Text.TrimIdempotent | src/processors.py:68 | Stripping a stripped string changes nothing. |
| Text.TrimUpperCommute | src/parsers.py:21 | Upper-casing then stripping (the parsers) equals stripping then upper-casing (the TOA loader). |
| Text.ContainsIff | src/parsers.py:40 | A name contains a pattern iff the pattern occurs at some position of it. |
| Frames.TeamIds | app.py:16 | The team-ID set holds exactly the matriculas of the roster. |
| Frames.ToFloat | src/processors.py:379 | float() of a cell: a number stays itself, NaN is NaN, a missing position fails (TypeError). |
| Frames.ToNumeric | src/processors.py:76 | Numeric coercion yields a number or NaN and leaves numbers unchanged. |
| Frames.ToNumericIdempotent | src/processors.py:76 | Coercing an already coerced cell changes nothing. |
| Frames.CoerceNumeric | src/processors.py:74-76 | Exactly the listed columns that the frame has are coerced; every other cell, the column list and the row count are unchanged. |
| Filters.DropUnnamed | src/processors.py:64-65 | The kept columns are exactly those whose header does not start with "Unnamed"; no row is lost and no other cell changes. |
| Filters.NormText | src/processors.py:68 | A normalised login has no whitespace at either end. |
| Filters.NormTextIdempotent | src/processors.py:593 | Normalising a normalised login (stripped, or stripped and upper-cased) changes nothing. |
| Filters.NormalizeColumn | src/processors.py:68 | Every row's login cell is replaced by its normalised text and nothing else changes. |
| Filters.RosterFilter | src/processors.py:68-69 | The kept rows are exactly the normalised rows whose login is in the team set, in their original relative order. |
| Filters.RosterFilterIdempotent | src/processors.py:120-121 | Applying the roster filter twice gives the same frame as applying it once. |
| Filters.RosterFilterKeeps | src/processors.py:602 | A property of any other column that held on every row still holds after the roster filter. |
| Filters.IsinFilter | src/processors.py:245 | The kept rows are exactly those whose name is in the filter set, in order. |
| Filters.MaxNum | src/processors.py:598 | The maximum of a numeric column is the largest number in it, and is absent iff no cell is a number. |
| Filters.KeepLatest | src/processors.py:599 | The kept rows are exactly those holding the column maximum, in order; none are kept iff the column has no number. |
| Filters.Trunc | src/processors.py:655 | int() truncates toward zero. |
| Filters.AnomesRecente | src/processors.py:650-655 | The most recent ANOMES exists iff the frame is non-empty, has the column and some ANOMES reads as a number. |
| Filters.AnomesRecenteOfLatest | src/processors.py:650-655 | On rows that all hold month m, the most recent ANOMES is m truncated to an integer. |
| Filters.MergeRow | src/processors.py:83-86 | The left merge of one row with the roster keeps the row at least once, leaves its own cells alone, fills the roster columns from a matching employee or NaN, and a team login becomes its Matricula. |
| Filters.MergeBase | src/processors.py:124-127 | The merge keeps every row at least once, and every output row carries the roster fields of an employee or NaN. |
| Filters.MergeKeeps | src/processors.py:607-610 | Any property of a column the merge does not add holds after the merge if it held before. |
| Filters.MergeMatches | src/processors.py:83-86 | When every login is a team ID, every merged row's Matricula equals its login and is present. |
| Filters.Aderente | src/processors.py:261-268 | The compliance flag is always 0 or 1. |
| Filters.AderentePolarity | src/processors.py:634-641 | For a raw INDICADOR of 0 or 1, an inverted indicator's flag is the opposite of a plain indicator's flag. |
| Filters.AderenteOther | src/processors.py:261-268 | Any INDICADOR other than 0 or 1, missing included, gives flag 0. |
| Filters.AddAderente | src/processors.py:261-268 | Every row gets ADERENTE = 1 iff (INDICADOR == 0 for an inverted name, INDICADOR == 1 otherwise), and nothing else changes. |
| Filters.AddAderenteKeeps | src/processors.py:634-641 | Adding ADERENTE preserves any property of every other column. |
| Filters.SetColumnKeeps | src/processors.py:76 | Setting one column preserves any property of the others. |
| Filters.CoerceKeeps | src/processors.py:130-132 | Coercing some columns preserves any property of an unlisted column. |
| Filters.CoerceNumericCells | src/processors.py:74-76 | After coercion every cell of a listed, present column is a number or NaN. |
| Filters.SetColumnKeepsRoster | src/processors.py:261-268 | Setting a column the roster merge did not add keeps the merged roster fields. |
| Filters.CoerceKeepsRoster | src/processors.py:129-132 | Coercing columns the roster merge did not add keeps the merged roster fields. |
| Groups.GroupKeys | src/processors.py:304 | The group keys are the distinct non-missing key cells, each taken from some row, and every non-missing key cell is among them. |
| Groups.Pct | src/processors.py:307 | The percentage is undefined iff the whole is 0, and lies in [0,100] when the part is between 0 and a positive whole. |
| Groups.PctBounds | src/processors.py:307 | part / whole * 100 lies in [0,100] when 0 <= part <= whole and whole > 0. |
| Groups.GroupTotals | src/processors.py:304-306 | One total per group key, in key order; each total is that key's summed volume and compliance. |
| Groups.GroupSumDesc | src/processors.py:298-308 | Group totals sorted by volume descending, each key once, each row the exact totals of its key, and every keyed row's key present. |
| Groups.SortedTotals | src/processors.py:304-308 | Sorting the group totals keeps distinct keys, the exact totals and the coverage of every keyed row. |
| Groups.GroupVolumesTotal | src/processors.py:304-305 | The volumes of all groups add up to the volume of all keyed rows. |
| Groups.CountPer | src/processors.py:704 | One entry per distinct non-missing key, in key order, with that key's row count (at least 1). |
| Groups.CountPerDesc | src/processors.py:699-706 | A count-per-key table sorted by count, descending, that is a permutation of the per-key counts. |
| Groups.LastIndex | src/processors.py:717 | A bucket's position in the order is its last occurrence there. |
| Groups.AgingBreakdown | src/processors.py:709-719 | A KeyError iff the frame has no indicator-name column; otherwise empty when no cancelled task exists or the AGING column is missing; otherwise a permutation of the per-bucket counts of the cancelled tasks, sorted by configured position. |
| Groups.AgingOrder | src/processors.py:716-719 | A configured bucket comes before every unknown bucket and before every bucket that is later in the order. |
| Loaders.CoerceColumns | src/processors.py:74-76 | The coercion loop yields the column-wise coerced frame. |
| Loaders.MergedColumns | src/processors.py:83-86 | The merged frame's columns are the frame's plus the roster columns. |
| Loaders.LoadProdutividade | src/processors.py:49-88 | Fails iff the workbook has no sheet or the chosen sheet lacks the login column. Otherwise the result is exactly the chosen sheet without Unnamed columns, roster-filtered, coerced and merged (Loaders.ProdutividadeOf), so Filters.RosterFilter's exactness applies to it: only team logins are kept, every listed numeric column is numeric, the roster columns are merged, and for a team that is part of the roster each row's Matricula equals its login. |
| Loaders.LoadEtit | src/processors.py:94-141 | Fails iff the workbook has no sheet, or the sheet has ETIT rows but no login column. Otherwise the result is exactly the filtered, roster-filtered, merged, coerced and ANOMES-stripped sheet (Loaders.EtitOf), an empty frame when the indicator column is missing, and every row is an ETIT POR EVENTO row of a team login with numeric measures and the roster merged in. |
| Loaders.LoadResidencial | src/processors.py:227-273 | Fails iff the workbook has no sheet, or the sheet has filtered rows but no INDICADOR column. Otherwise the result is exactly the indicator-filtered, coerced, ANOMES-stripped sheet with ADERENTE added (Loaders.ResidencialOf), an empty frame when the name column is missing, and every row's indicator is in the filter, ADERENTE follows the polarity rule, and a non-empty result has the ADERENTE column. |
| Loaders.LatestOfRows | src/processors.py:597-599 | A maximum of the coerced ANOMES column is the largest numeric ANOMES of the rows. |
| Loaders.ToaLatestMonth | src/processors.py:593-599 | The result is the login-normalised frame cut to its largest coerced ANOMES (Loaders.LatestMonthOf). After login normalisation and the ANOMES step, every remaining row holds the most recent ANOMES of the indicator-filtered input; without an ANOMES column only the login is normalised. |
| Loaders.ToaTailKeeps | src/processors.py:606-641 | The merge, the INDICADOR coercion and the ADERENTE step keep any property of the other columns. |
| Loaders.ToaTailRoster | src/processors.py:606-610 | After the TOA tail every row carries the merged roster fields. |
| Loaders.LoadToa | src/processors.py:571-647 | No indicator column, or no filtered row, gives an empty frame; filtered rows without a login column fail. Otherwise the result is exactly the filtered rows of the latest month of team logins through the merge, INDICADOR coercion and ADERENTE (Loaders.ToaOf), and every row is a filtered indicator of a team login, with ADERENTE by polarity, the roster merged in and the most recent ANOMES. |
| Summaries.ToaResumoPorIndicador | src/processors.py:658-678 | Empty input (no rows or no columns) gives an empty table; otherwise it fails iff the indicator list is non-empty and the frame lacks the name column, or the frame lacks ADERENTE while some indicator has rows. Otherwise it is the per-indicator table in filter order. |
| Summaries.ResumoIndicators | src/processors.py:663-666 | The table's indicators are exactly the configured indicators that have rows, in configured order. |
| Summaries.ResumoOncePerIndicator | src/processors.py:663-666 | With a duplicate-free filter list, no indicator appears twice. |
| Summaries.ResumoEntries | src/processors.py:667-675 | Each row is a configured indicator's summary, with Total equal to its row count, at least 1. |
| Summaries.ResumoBounds | src/processors.py:667-669 | For 0/1 ADERENTE values, 0 <= Aderentes <= Total and Aderencia_Pct lies in [0,100], being 0 when Total is 0. |
| Summaries.PrimeiroNomeWords | src/processors.py:560-564 | A name of more than two words is shortened to its first and last word. |
| Summaries.ShortNameOfTwoWords | src/processors.py:562-563 | A two-word name is returned unchanged. |
| Summaries.PrimeiroNomeIdempotent | src/processors.py:560-564 | Shortening an already shortened name changes nothing. |
| Summaries.GroupKeysOf | src/processors.py:523 | The group keys are distinct, complete (no NaN part), taken from rows, and cover every row whose key is complete. |
| Summaries.PresentColumns | src/processors.py:518-520 | The activity columns summed are exactly the configured ones the frame has, in configured order. |
| Summaries.ResumoGeral | src/processors.py:516-534 | resumo_geral is the summary grouped by login, name and sector, over the activity columns present. |
| Summaries.ResumoMensal | src/processors.py:495-513 | resumo_mensal is the same summary grouped also by month and ANOMES. |
| Summaries.ResumoErrors | src/processors.py:521-523 | The summary fails iff no group column is present, or the date, volume or occupancy column is missing. |
| Summaries.ResumoKeysDistinct | src/processors.py:523 | No two summary rows have the same group key. |
| Summaries.ResumoCoversRows | src/processors.py:523 | Every row with a complete group key has its summary row. |
| Summaries.ResumoEntriesOf | src/processors.py:523-525 | Each summary row is the aggregate of exactly the rows of its group, which is non-empty. |
| Summaries.GroupDailyMean | src/processors.py:524-525 | Dias_Trabalhados counts the non-missing date entries; Media_Diaria exists iff that count is positive, and times the count gives the total volume. |
| Summaries.GroupDpaMean | src/processors.py:526-533 | DPA_Media is absent iff no occupancy value lies in [0,120], and otherwise lies in [0,120]. |
| Summaries.DictSet | src/processors.py:554 | Setting a key keeps insertion order: an existing key keeps its place, a new key goes last. |
| Summaries.Items | src/processors.py:555 | The items are the keys in insertion order with their values. |
| Summaries.VolData | src/processors.py:549-554 | Every activity in the dictionary is a configured one with a positive total. |
| Summaries.VolDataEntries | src/processors.py:550-554 | With distinct labels, an activity is present iff its column exists with a positive total, and its value is that total. |
| Summaries.ComposicaoVolume | src/processors.py:548-557 | The output is the activity dictionary's items, permuted and sorted by volume descending. |
| Dpa.Lines | src/processors.py:375-376 | Each raw row is read as its column-26 label and its float() value of the given column. |
| Dpa.FirstIndex | src/processors.py:383 | list.index: the first position of the month name. |
| Dpa.DetectMesRecente | src/processors.py:368-388 | The month scan returns the last qualifying row's month (a configured month name with a value > 0), or nothing. |
| Dpa.LastMesNone | src/processors.py:374-388 | No month is found iff no row qualifies. |
| Dpa.LastMesSome | src/processors.py:375-387 | A found month comes from a qualifying row after which no row qualifies. |
| Dpa.MesNumero | src/processors.py:381-385 | mes_num is the month name's index + 1 in the configured list, and the percentage is positive. |
| Dpa.HeaderIndex | src/processors.py:397-401 | A header found is a row labelled "Rótulos de Linha". |
| Dpa.HeaderNone | src/processors.py:402-403 | No header is found iff no row has that label. |
| Dpa.HeaderSome | src/processors.py:398-401 | No row before the found header has the label. |
| Dpa.HeaderAt | src/processors.py:397-401 | The first labelled row is the header. |
| Dpa.FindHeader | src/processors.py:397-401 | The header search loop returns the first labelled row, if any. |
| Dpa.ParseEntry | src/processors.py:409-416 | A row is kept iff its login is non-empty, not a skip token and its column-28 value reads as a float; a number becomes pct * 100, NaN stays missing. |
| Dpa.CollectEntries | src/processors.py:405-416 | The row loop collects the entries of the kept rows from the given row on, in order. |
| Dpa.JoinRosterMember | src/processors.py:423-426 | Every joined row is an entry whose login is a roster member, with that member's name and sector. |
| Dpa.JoinRosterComplete | src/processors.py:423-426 | Every entry of a roster member appears in the join. |
| Dpa.Rank | src/processors.py:428-429 | Ranks are 1..n in output order. |
| Dpa.ExtractAnalistas | src/processors.py:391-430 | The extractor computes the ranked join of the entries below the header. |
| Dpa.AnalistasWithoutHeader | src/processors.py:402-403 | Without a header row the result is empty. |
| Dpa.AnalistasInRoster | src/processors.py:423-426 | Every output analyst is a roster member with that member's name and sector. |
| Dpa.AnalistasFromLines | src/processors.py:405-416 | Every output analyst comes from a kept row strictly below the header. |
| Dpa.AnalistasComplete | src/processors.py:405-426 | Every kept row below the header whose login is a roster member appears in the output. |
| Dpa.AnalistaOfEntry | src/processors.py:423-429 | An entry below the header of a roster member is output with the member's name and sector. |
| Dpa.AnalistasOrder | src/processors.py:427-429 | Output ranks are 1..n and the percentages are in descending order, missing values last. |
| Parsers.SafeUpper | src/parsers.py:20-21 | The upper-cased string form has no whitespace at either end. |
| Parsers.SafeUpperAsLoader | src/parsers.py:20-21 | _safe_upper equals the TOA loader's strip-then-upper normalisation. |
| Parsers.SafeUpperIdempotent | src/parsers.py:20-21 | _safe_upper is idempotent. |
| Parsers.CalcPctComplement | src/parsers.py:125-127 | For a non-zero total, the non-compliant percentage is 100 minus the compliant one. |
| Parsers.AnyContainsIff | src/parsers.py:38-40 | A name matches iff it contains at least one of the patterns. |
| Parsers.ChatMask | src/parsers.py:37-40 | The mask loop marks exactly the names that contain at least one pattern. |
| Parsers.MaskedFilter | src/parsers.py:42 | Selecting by the mask is filtering by the mask's predicate, in order. |
| Parsers.FirstPresentSpec | src/parsers.py:67-71 | The fallback is the first alternative present, or none iff no alternative is present. |
| Parsers.RenameColumn | src/parsers.py:70 | Renaming changes the one column's name in place and moves its cells; every other column is unchanged. |
| Parsers.FallbackLogin | src/parsers.py:67-71 | The rename loop yields the fallback-renamed frame. |
| Parsers.FallbackRenamesOne | src/parsers.py:104-108 | With LOGIN_ACIONAMENTO present, or no alternative present, the frame is unchanged; otherwise only RESPONSAVEL, or failing that LOGIN, is renamed. |
| Parsers.FallbackHasLogin | src/parsers.py:67-75 | After the fallback LOGIN_ACIONAMENTO exists iff it, RESPONSAVEL or LOGIN existed. |
| Parsers.FinishNone | src/parsers.py:84-86 | There is no result iff no selected row's raw, untrimmed login is a team ID. |
| Parsers.FinishRows | src/parsers.py:88-91 | Each result line is a team login with total = its row count (> 0), aderente = the sum of its INDICADOR and pct = aderente / total * 100; for Log Reprog, pct = (total - aderente) / total * 100. |
| Parsers.FinishLogins | src/parsers.py:88 | The result has one line per distinct team login of the selected rows. |
| Parsers.AggregateAtValues | src/parsers.py:50-51 | A login's line has its row count, its INDICADOR sum and the percentage of the two. |
| Parsers.AggregateLine | src/parsers.py:50 | Every aggregated line is the aggregate of a login that occurs in the rows. |
| Parsers.TeamLoginRows | src/parsers.py:46 | After the roster filter, a login's rows are all of its rows. |
| Parsers.NaoAderenteComplement | src/parsers.py:125-130 | A login's Log Reprog line has the same aderente and total as its plain line, and a pct of 100 minus the plain pct. |
| Parsers.ParseChatToa | src/parsers.py:32-53 | The Chat TOA parser computes the Chat TOA result. |
| Parsers.ChatSelection | src/parsers.py:37-42 | A row is selected iff its normalised name contains a configured pattern. |
| Parsers.ChatToaNone | src/parsers.py:33-48 | No result iff a required column is missing, or no selected row has a team login. |
| Parsers.ParseResidencial | src/parsers.py:63-91 | The residential parser computes the result: fallback login, required columns, exact name and INTERRUPCAO selection, roster check and aggregation. |
| Parsers.ParseEtitGpon | src/parsers.py:55-91 | ETIT GPON is the residential parser for "ETIT GPON" with the compliant percentage. |
| Parsers.ParseLogReprog | src/parsers.py:93-130 | Log Reprog is the residential parser for "LOG REPROGRAMAÇÃO GPON" with the non-compliant percentage. |
| Parsers.ResidencialNone | src/parsers.py:73-86 | No result iff a required column is missing after the fallback, or no selected row has a team login. |
| App.StatusPorMeta | app.py:18-23 | "—" iff there is no value; for "up", "✅ Dentro" iff value >= goal; for any other direction iff value <= goal; otherwise "❌ Fora". |
| App.StatusLabels | app.py:18-23 | The status is one of the three labels. |
| App.StatusAtGoal | app.py:21-23 | A value exactly at the goal is "Dentro" in every direction. |
| App.StatusMirror | app.py:21-23 | "down" against a goal is "up" on the negated value and goal. |
| App.ForaMeansMissed | app.py:18-23 | A line's status is "Fora" iff its value is a number on the wrong side of the goal. |
| App.CellValue | app.py:19-20 | A cell has a value iff it is a number; NaN has none. |
| App.BaseFrame | app.py:15 | The roster table has the columns Matricula, Nome, Setor and one line per member, in roster order. |
| App.MatchAtMostOne | app.py:52 | With one line per login, a Matricula matches at most one result line. |
| App.MergeOneUnique | app.py:51-52 | With unique logins, the left join yields exactly the line with the member's pct, or NaN. |
| App.MergeLeftUnique | app.py:52 | With unique logins, the left join keeps every line once, in order, adding the pct column. |
| App.Indicadores | app.py:50 | The indicator columns are the results' names, in result order. |
| App.WideStep | app.py:49-52 | One more merge extends a roster line with that indicator's pct. |
| App.WideTable | app.py:48-52 | Columns are Matricula, Nome, Setor and then the indicators; there is one line per roster member, in order, holding the member's fields and each indicator's pct, NaN when the member has no data. |
| App.BuildWide | app.py:47-52 | The merge loop yields the wide table. |
| App.FinishCarries | src/parsers.py:50-53 | A parser result carries its indicator name and one line per login. |
| App.ToaCarries | app.py:37-39 | The Chat TOA result, when present, is named Chat TOA. |
| App.ResCarries | app.py:41-45 | A residential result, when present, is named after its indicator. |
| App.ResultadosMergeable | app.py:35-45 | The collected results have distinct names, none a roster column, each one of the three indicators. |
| App.MergeableOf | app.py:35-45 | Three optional results with their own names can be merged. |
| App.ToaResults | app.py:37-39 | The TOA step appends the Chat TOA result when there is one. |
| App.ResResults | app.py:41-45 | The residential step appends ETIT GPON and then Log Reprog, each when present. |
| App.StatusName | app.py:57 | The status column name is the indicator's name followed by " - Status". |
| App.StatusNameDistinct | app.py:57 | Two indicators share a status column name iff they are the same indicator. |
| App.StatusNames | app.py:55-59 | The status columns added are exactly those of the goals whose indicator is a column. |
| App.StatusStep | app.py:56-59 | One status step sets the goal's status and keeps every earlier cell. |
| App.StatusColumnsSpec | app.py:55-59 | The status loop appends one status column per goal present in the table, keeps every line and old cell, and sets each status from that line's value. |
| App.AddStatusColumns | app.py:55-59 | The status loop yields the table with its status columns. |
| App.AlertColumns | app.py:66-70 | The alert-column loop collects the status columns, in goal order, that the table has. |
| App.AlertColsMatch | app.py:66-70 | The alert columns are the status names of the present goals. |
| App.AlertColsAreStatus | app.py:66-70 | After the status loop, the alert columns are exactly the added status columns. |
| App.AnyForaIff | app.py:73 | A line is an alert iff one of its alert cells is "❌ Fora". |
| App.Alertas | app.py:72-76 | No alert table iff there are no alert columns; otherwise the projected columns, at most as many lines as the table. |
| App.AlertasMember | app.py:73-74 | Every line with a "Fora" alert cell is shown, projected. |
| App.AlertasSound | app.py:73-74 | Every shown line is the projection of a line with a "Fora" alert cell. |
| App.AlertaIff | app.py:66-73 | After the status loop a line is an alert iff it missed some present goal. "—" never triggers an alert. |
| App.MetaOf | app.py:83 | A goal is found iff the indicator has one, and it is that indicator's. |
| App.RankingChoices | app.py:80 | The choices are exactly the table's columns that are goal indicators. |
| App.Ranking | app.py:81-85 | The ranking shows Matricula, Nome, Setor, the indicator and its status, as a permutation of the table's lines, sorted ascending iff the goal's direction is "down". |
| App.RankingBestFirst | app.py:83 | Better values come first in the goal's direction, and lines without a value come last. |
| App.ProcessarDados | app.py:34-70 | The button handler's table is the status-annotated wide table of the collected results, and its alert columns are those of that table. |
| App.StatusNameEnd | app.py:74 | Every status column name ends with "Status", so the projection of the alert table selects it, and hence in 's'. |
| App.MetasDistinct | src/config.py:32-39 | The goal indicators are distinct. |
| App.MetasNotStatusLike | src/config.py:32-39 | No goal indicator looks like a status column name. |
| App.MetasStatusFree | app.py:55-59 | A table made of roster and indicator columns has no status column yet and no goal twice. |
| App.TabelaSpec | app.py:47-70 | The final table holds one line per roster member with the member's fields, each indicator's pct, and a status per present goal derived from that pct; its alert columns are exactly the added status columns. |
| Seqs.SortByKey | src/processors.py:427 | A sort is a permutation that is ordered by the key in the requested direction. |
| Seqs.MissingLast | app.py:83 | After a sort, missing (NaN) keys come after every number, in both directions. |

## Left out

- Reading files: openpyxl, read_excel, list_sheets and the seek calls. A workbook is its sheet names plus a reader from sheet name to frame. The DPA sheets are given as raw rows.
- The Streamlit interface: page setup, uploaders, the button, dataframe display and the info message. The user's choice in the ranking select box is a parameter of `App.Ranking`. Its requires asks that the choice be one of the offered options.
- Dates and durations: to_datetime, to_timedelta, dt.normalize, the TMR-to-minutes conversion and the TMR means. The model keeps only whether a date is present.
- Rounding: every .round() and round(..., 2). Values are the exact reals before rounding.
- Floating point: NaN arithmetic other than "missing"; a division x/0 with x ≠ 0, which pandas makes ±inf (Aderencia_Pct in Groups.Pct, Media_Diaria in Summaries.GroupResumo), is undefined in the model like 0/0; and float() beyond decimal text with an optional sign and "nan" (no exponents, "inf" or underscores).
- Text.NumText: every numeric cell is a float64, since `Cell` has no integer variant. An integral value is written with a trailing ".0" ("202601.0"), as pandas writes a float64 column. An int64 column, which pandas writes without it ("202601"), is not distinguished; so the stripped ANOMES text of Loaders.LoadEtit and Loaders.LoadResidencial always ends in ".0". Only a bounded number of fractional digits is written.
- Text.UpperChar: upper-cases ASCII and Latin-1 letters one character at a time. ß is left unchanged, where Python's upper() gives the two characters "SS". No other Unicode case mapping is modelled.
- Parsers.ChatMask: str.contains is modelled as a plain substring test. The configured patterns contain no regular-expression metacharacters.
- Groups.GroupKeys: lists groups in order of first appearance. pandas groupby lists them in sorted key order. Properties are stated per key, not per position.
- Seqs.SortByKey: modelled as an insertion sort. pandas' sort_values may order equal keys differently. The contract states only order and permutation, which any admissible result satisfies.
- Summaries.GroupResumo: a text value in a summed column counts as 0. pandas would fail or concatenate instead.
- Parsers.AggregateAt: a text INDICADOR counts as 0 in the aderent sum; pandas' groupby sum would fail or concatenate strings instead. The same holds for Parsers.FinishRows and Parsers.AggregateAtValues, which are stated over it.
- Loaders.LoadToa: the error for a missing INDICADOR column is stated only as a necessary condition. Whether it fires also depends on the roster-filtered rows being non-empty.
- Filters.MergeBase: a sheet column already named Matricula, Nome or Setor is overwritten by the roster's field. pandas would keep both, with _x/_y suffixes. The loaders' requires exclude this only for their login, indicator and ANOMES columns.
- App.MergeResult: a result column whose name is already a column is appended again. pandas would add _x/_y suffixes instead. Results never collide, as App.ResultadosMergeable proves.
- App.Alertas: the display projection lists every column ending in "Status". The alert predicate's own columns are proved separately (App.AlertaIff).
- Category breakdowns: etit_por_*, res_por_*, toa_canceladas_por_* (other than toa_canceladas_por_aging, which is Groups.AgingBreakdown) and toa_validacao_por_*, plus etit_evolucao_diaria, res_evolucao_diaria, toa_canceladas_evolucao and toa_validacao_evolucao, are not written out one by one. They share the group-by-key shape of Groups.GroupTotals and Groups.CountPer, and relate to the modelled functions as follows:
  - Groups.GroupSumDesc covers the breakdowns sorted descending by their summed volume, which are res_por_* and etit_por_tipo, _causa, _regional and _turno;
  - Groups.CountPerDesc covers the ones sorted descending by their row count, which are toa_canceladas_por_tipo, _rede and _regional.
  - etit_por_demanda is unsorted, a Groups.GroupTotals.
  - toa_canceladas_por_analista counts non-missing INDICADOR cells per group rather than rows.
  - Not modelled:
    - the date-ascending sorts of the evolução functions;
    - the percentage sort of toa_validacao_por_analista;
    - the row-count totals with summed aderents of toa_validacao_por_tipo, _rede and _regional;
    - the head(top_n) cut of res_por_solucao.
- Other processors: etit_resumo_analista, res_kpis_por_indicador, dpa_ranking, dpa_comparativo, evolucao_diaria and load_dpa_ocupacao. These are outside the modelled core. Only their shared pieces are modelled: group totals, primeiro_nome and the two DPA scans.
- Day count: Dias_Trabalhados counts a group's non-missing date entries, not its distinct calendar dates. Several records on one day each count once. The model follows the code.
