# Bobo Validades — a verified model of the product-expiry core

Bobo Validades is a small web application with which a supermarket team
tracks the expiry dates of the products on its shelves. Each product
belongs to a session (a department), has a stored status (`normal`,
`primeira_rebaixa` or `segunda_rebaixa`, the two markdown stages) and an
expiry date. The application derives everything it shows from that list
and the number of days left before each expiry date.

This project models the logic that does the deriving and proves what it
promises:

- the product pipeline: grouping by session, expiry statistics, status
  labels and colours, the search/status/session filters and the three
  stable sorts, and the validation report of a product record;
- expiry descriptions ('Vence hoje', 'Vencido há 3 dias', …) and the
  priority classification and sections of the enhanced PDF report;
- the CSV export and the rows of the per-session PDF export;
- the new-product form: the Levenshtein matrix, the nearest dictionary
  word, the keyword-count session suggester, the submit guard and the
  quantity field;
- the dashboard as a state machine (a class whose fields are the page
  state and whose methods are the handlers): filtering and sorting,
  pagination and the five-button page window, the selection, and the
  local list updates after a delete or a status change;
- the insight panel, the session chart, the smart search box and its
  quick filters;
- the filter hook and the product-cache updaters;
- the form schemas and the e-mail and barcode validators;
- date extraction from scanned text, the Open Food Facts response
  extractors, and the status and session lookup tables.

The wall clock is replaced by an explicit day number `today`: every day
count is `DaysUntilExpiry(p, today)`, the difference of two day numbers.
String collation (`localeCompare`) is a parameter `collate`, assumed to
be a total preorder where a result depends on it. JavaScript's
`Array.prototype.sort` is modelled as the stable sort `Sorting.SortBy`
(ES2019 requires stability), and plain objects used as dictionaries are
modelled by their entries in insertion order.

Shared modules: `Wrappers` (Option), `Text` (trim, case mapping,
`includes`, `split`/`join`, number printing), `Seqs` (`filter`, `map`,
`flatMap` and their laws), `Sorting`, `Counting` (counting into an
object), `ProductTypes` (the product record), `Ranking` (sorting count
entries, the largest first).

## Model

| member | source | states |
|---|---|---|
| ProductUtils.GroupProductsBySession | src/shared/utils/product.utils.ts:12-24 | the keys are the sessions in order of first appearance, an empty session grouped under 'Sem Sessão'; each group holds exactly that session's products in list order |
| ProductUtils.GroupSizesPartition | src/shared/utils/product.utils.ts:12-24 | every group is non-empty and the group sizes add up to the number of products |
| ProductUtils.GroupMembership | src/shared/utils/product.utils.ts:15-20 | a product is in group `k` exactly when its session key is `k`, and a group keeps the list order |
| ProductUtils.CalculateProductStats | src/shared/utils/product.utils.ts:29-47 | `total` is the length, `vencidos` counts the products with a negative day count, `vencendo` those with 0..7 days |
| ProductUtils.StatsBound | src/shared/utils/product.utils.ts:36-44 | the two counts are disjoint: together they count the products with at most 7 days left, never more than the total |
| ProductUtils.StatusLabel | src/shared/utils/product.utils.ts:63-69 | each of the five labels is returned exactly under its condition: expired, within a week, then R1/R2 by status, else OK |
| ProductUtils.LabelAndColorAgree | src/shared/utils/product.utils.ts:52-69 | the colour is the one that goes with the label; within a week neither depends on the status, and the optional status can be left out |
| ProductUtils.StatusColor | src/shared/utils/product.utils.ts:52-58 | `getStatusColor`; stated by `LabelAndColorAgree`: red once expired, orange within a week whatever the status, then by markdown status, and always the colour of the label `StatusLabel` gives |
| ProductUtils.FilterProductsBySearch | src/shared/utils/product.utils.ts:74-83 | a blank term keeps the list; otherwise exactly the products whose lower-cased name, barcode or session holds the lower-cased term, in list order |
| ProductUtils.FilterProductsByStatus | src/shared/utils/product.utils.ts:88-103 | 'all' keeps the list; 'vencido' keeps negative day counts, 'vencendo' 0..7 days, any other value the equal status; always a subsequence |
| ProductUtils.FilterProductsBySession | src/shared/utils/product.utils.ts:108-111 | 'all' keeps the list, otherwise exactly the products of that session, in list order |
| ProductUtils.SortProductsByExpiry | src/shared/utils/product.utils.ts:116-122 | a permutation of the input, earliest expiry first, with products of the same expiry day in input order |
| ProductUtils.FieldLeIsTotalPreorder | src/shared/utils/product.utils.ts:127-140 | comparing a product field with a consistent collation is itself a consistent comparator |
| ProductUtils.SortProductsByName | src/shared/utils/product.utils.ts:127-131 | a permutation; with a consistent collation, ordered by name and stable among equal names |
| ProductUtils.SortProductsBySession | src/shared/utils/product.utils.ts:136-140 | a permutation; with a consistent collation, ordered by session and stable among equal sessions |
| ProductUtils.ValidateProductData | src/shared/utils/product.utils.ts:145-165 | the messages of the failed checks, in the order the checks run |
| ProductUtils.FailsOnChecks | src/shared/utils/product.utils.ts:148-162 | each check fails exactly on its condition: missing or blank name or session, missing date, missing, zero or sub-1 quantity |
| ProductUtils.FailedChecksMembership | src/shared/utils/product.utils.ts:145-165 | a check is reported exactly when it fails |
| ProductUtils.FailedChecksOrdered | src/shared/utils/product.utils.ts:145-165 | reported checks come in running order, none twice |
| ProductUtils.MessageInjective | src/shared/utils/product.utils.ts:148-162 | different checks report different messages |
| ProductUtils.ReportNamesFailures | src/shared/utils/product.utils.ts:145-165 | a check's message is in the report exactly when that check fails |
| ProductUtils.ValidationReportEmpty | src/shared/utils/product.utils.ts:145-165 | the report is empty exactly when every field is valid |
| DateUtils.DescriptionShape | src/shared/utils/date.utils.ts:68-85 | the form of the description is decided by the day count alone ('Vencido há', 'Vence hoje', 'Vence amanhã', 'restante'), and a past count is plural exactly when it is not one day |
| DateUtils.ExpiryDescription | src/shared/utils/date.utils.ts:68-85 | `getExpiryDescription`; its meaning is stated by `DescriptionShape`, `DescriptionRoundTrip` and `DescriptionInjective`: one of four forms chosen by the day count, and the count can be read back |
| DateUtils.DescriptionRoundTrip | src/shared/utils/date.utils.ts:68-85 | reading a description back gives its day count, so every count has a text of its own |
| DateUtils.DescriptionInjective | src/shared/utils/date.utils.ts:68-85 | two day counts share a description only when they are equal |
| DateUtils.ExpiringSoonDescription | src/shared/utils/date.utils.ts:36-39 | within the default 7-day window the description never says expired, and it says today or tomorrow exactly on the window's first two days |
| DateUtils.IsExpiringSoon | src/shared/utils/date.utils.ts:36-39 | `isExpiringSoon` with its default window of 7; stated by `ExpiringSoonDescription`: an expiring-soon product is never described as expired, from 2 days on it reads 'N dias restantes', and below 2 days it is expiring soon exactly when described as 'Vence hoje' or 'Vence amanhã' |
| EnhancedReport.ClassificationBands | src/features/products/services/enhanced-report.service.ts:25-37 | expired and 0..7 days are critical (with their own labels), 8..15 warning, beyond 15 ok, each an if-and-only-if |
| EnhancedReport.PriorityMonotone | src/features/products/services/enhanced-report.service.ts:28-37 | fewer days left never gives a less urgent priority |
| EnhancedReport.ClassifyProducts | src/features/products/services/enhanced-report.service.ts:22-41 | one entry per product in order, holding the product unchanged with its day count, priority and label |
| EnhancedReport.Classify | src/features/products/services/enhanced-report.service.ts:23-39 | the per-product step of `classifyProducts`; stated by `ClassifyProducts` and `ClassificationBands`: the product kept, its day count, and the priority and label of that count |
| EnhancedReport.Bucket | src/features/products/services/enhanced-report.service.ts:45-47 | exactly the items of one priority, sorted by days left, stable on equal days |
| EnhancedReport.GroupByPriorityPartition | src/features/products/services/enhanced-report.service.ts:43-49 | every item is in the bucket of its priority and no other, and the bucket sizes add up to the input |
| EnhancedReport.GroupByPriority | src/features/products/services/enhanced-report.service.ts:43-49 | `groupByPriority`; stated by `Bucket` and `GroupByPriorityPartition`: three buckets, each the items of its priority sorted by days left, together holding every item once |
| EnhancedReport.Headers | src/features/products/services/enhanced-report.service.ts:96-97 | six columns, eight for the critical section with its action columns |
| EnhancedReport.Row | src/features/products/services/enhanced-report.service.ts:99-110 | one cell per header: barcode or '—', name, session, `dd/MM` date of the expiry, days cell, quantity, and the action blanks when asked |
| EnhancedReport.DaysCellNeverNegative | src/features/products/services/enhanced-report.service.ts:105 | the days cell is 'X' exactly for expired products and digits otherwise |
| EnhancedReport.MakeSection | src/features/products/services/enhanced-report.service.ts:91-130 | a section has the title, the headers and one row per bucket item, in order |
| EnhancedReport.SectionsShape | src/features/products/services/enhanced-report.service.ts:132-140 | only non-empty buckets get a section, always in the order critical, warning, ok: each present bucket's section sits after those of the more urgent present buckets and is `MakeSection` of its own title, headers (8 columns for critical, 6 otherwise) and items; no section is empty and the rows add up to the bucket sizes |
| EnhancedReport.ReportCoversProducts | src/features/products/services/enhanced-report.service.ts:51-140 | the report's sections hold one row per product |
| EnhancedReport.EnhancedReport | src/features/products/services/enhanced-report.service.ts:51-140 | the content of `exportEnhancedPDF`: the summary, then the sections; stated by `SectionsShape` and `ReportCoversProducts`: one section per non-empty bucket in urgency order, one row per product |
| EnhancedReport.CriticalCountIncludesExpired | src/features/products/services/enhanced-report.service.ts:79 | the critical count, captioned 0-7 days, counts every product with at most 7 days left, expired ones included |
| EnhancedReport.Summary | src/features/products/services/enhanced-report.service.ts:76-87 | the four summary lines; their counts are stated by `GroupByPriorityPartition` (the three add up to the total) and `CriticalCountIncludesExpired` (the critical count includes expired products) |
| Export.CsvRow | src/features/products/services/export.service.ts:15-23 | seven cells in header order: session, name, barcode or '-', dd/MM/yyyy date, day count, quantity, status display name |
| Export.StatusDisplayMatchesTable | src/features/products/services/export.service.ts:118-125 | the service's own label table gives the same names as the shared status table, and a status is printed as stored exactly when it is not one of the three |
| Export.CsvLines | src/features/products/services/export.service.ts:25-28 | the unquoted comma-joined header comes first, then one line per product in list order, each its cells wrapped in double quotes as written, inner quotes not doubled |
| Export.ProductLineReadsBack | src/features/products/services/export.service.ts:15-27 | a product line of the file reads back as the product's seven cells whenever its text fields hold no double quote |
| Export.CsvLineQuoteFree | src/features/products/services/export.service.ts:27 | when no cell holds a double quote the printed line equals the quote-doubled line and reads back as exactly its row |
| Export.CsvLine | src/features/products/services/export.service.ts:27 | `row.map(cell => `"${cell}"`).join(',')`; stated by `CsvLineQuoteFree` (reads back as its row when no cell holds a quote) and `CsvLineAmbiguous` (does not in general) |
| Export.CsvContentLines | src/features/products/services/export.service.ts:25-28 | for the file as written: when no field holds a line break, splitting the content at '\n' gives back exactly the header and the product lines, so n products make n + 1 lines |
| Export.CsvContent | src/features/products/services/export.service.ts:25-28 | `csvContent`, the lines joined by line breaks; stated by `CsvContentLines`: split at line breaks it gives back the header and one line per product |
| Export.CsvDownload | src/features/products/services/export.service.ts:30 | the file text is U+FEFF followed by the content as written, nothing else |
| Export.CsvLineAmbiguous | src/features/products/services/export.service.ts:27 | as written, two different rows print the same line, so no reader of the file can recover the cells |
| Export.CsvLineEscapedRoundTrip | src/features/products/services/export.service.ts:27 | with quotes doubled as section 2 rule 7 of RFC 4180 requires, reading a printed line gives back every cell of the row |
| Export.CsvLineEscapedInjective | src/features/products/services/export.service.ts:27 | with quotes doubled, different rows always print different lines |
| Export.PdfRow | src/features/products/services/export.service.ts:64-76 | eight cells: barcode or '—', name, dd/MM date, 'X' for an expired product and the day count otherwise, quantity, three blanks to fill in by hand |
| Export.PdfTables | src/features/products/services/export.service.ts:53-98 | one table per session, as many as there are distinct sessions |
| Export.PdfTablesCoverProducts | src/features/products/services/export.service.ts:53-76 | the tables together hold exactly one row per product |
| NewProduct.LevenshteinDistance | src/pages/NewProduct.tsx:90-116 | the last cell of the filled matrix is the unit-cost edit distance (insert, delete, substitute) between the two strings |
| NewProduct.TableStep | src/pages/NewProduct.tsx:101-113 | each inner cell follows from its three neighbours: the diagonal on equal characters, one plus the least of the three otherwise |
| NewProduct.TableRecurrence | src/pages/NewProduct.tsx:103-111 | the edit distance obeys the matrix's recurrence, so filling the table computes it |
| NewProduct.DistanceToSelfAndEmpty | src/pages/NewProduct.tsx:93-99 | a string is at distance 0 from itself and at its own length from the empty string, as the first row and column say |
| NewProduct.EditDistanceSymmetric | src/pages/NewProduct.tsx:90-116 | swapping the two strings leaves the distance unchanged |
| NewProduct.EditDistanceZeroIff | src/pages/NewProduct.tsx:90-116 | the distance is zero exactly when the strings are equal |
| NewProduct.Distances | src/pages/NewProduct.tsx:123-124 | one distance per dictionary entry, from the lower-cased word to the lower-cased entry |
| NewProduct.FirstClosest | src/pages/NewProduct.tsx:121-131 | nothing when every distance exceeds 2; otherwise the first position of the least distance |
| NewProduct.ClosestMatch | src/pages/NewProduct.tsx:118-132 | null exactly when no entry is within distance 2; otherwise an entry of least distance, the earliest on ties |
| NewProduct.FindClosestMatch | src/pages/NewProduct.tsx:118-132 | the running-minimum loop returns the closest match defined above |
| NewProduct.CorrectWord | src/pages/NewProduct.tsx:223-230 | a word of at most two characters or starting with a digit is kept; any other word is replaced by its closest dictionary entry (the first of least distance, at most 2) when that entry is not empty, and kept when no entry is within 2 or the entry is empty |
| NewProduct.CorrectWordsPerWord | src/pages/NewProduct.tsx:222-232 | with space-free dictionary entries, the corrected text has as many words as the original and word k is the correction of word k |
| NewProduct.CommonProductsPerWord | src/pages/NewProduct.tsx:211-232 | with the app's own dictionary, which holds no space, the corrected text has as many words as the original and word k is the correction of word k |
| NewProduct.CorrectWords | src/pages/NewProduct.tsx:222-232 | the per-word step of `correctSpelling`; stated by `CorrectWordsPerWord` and `CommonProductsPerWord`: same number of words, each corrected in its place |
| NewProduct.KeywordMatches | src/pages/NewProduct.tsx:295 | the count is zero exactly when no keyword occurs in the name |
| NewProduct.MatchCounts | src/pages/NewProduct.tsx:294-295 | one keyword count per rule, in rule order |
| NewProduct.FirstMost | src/pages/NewProduct.tsx:291-300 | nothing when every count is zero; otherwise the first position of the greatest count |
| NewProduct.SuggestedRule | src/pages/NewProduct.tsx:276-303 | nothing when no rule matches; otherwise the rule with the strictly greatest count, the earliest on ties |
| NewProduct.SuggestedSession | src/pages/NewProduct.tsx:276-303 | the value `suggestSessionLocal` returns; stated by `SuggestedRule`, `SuggestSessionLocal` and `SuggestionEmptyIff`: the category of the rule with most keyword hits, the earliest on ties, '' when none matches |
| NewProduct.SuggestSessionLocal | src/pages/NewProduct.tsx:276-303 | the running-maximum loop returns the suggested rule's category, or '' |
| NewProduct.SuggestionEmptyIff | src/pages/NewProduct.tsx:291-302 | with non-empty categories, the suggestion is '' exactly when no keyword of any rule occurs in the lower-cased name |
| NewProduct.SessionRulesSuggestionEmptyIff | src/pages/NewProduct.tsx:276-302 | with the app's own rules, the suggestion is '' exactly when the lower-cased name holds none of their keywords |
| NewProduct.HandleSubmit | src/pages/NewProduct.tsx:48-88 | a row is inserted exactly when a user is signed in, name, date and session are filled and the quantity is positive; the row carries the form's fields, an empty barcode stored as null |
| NewProduct.DigitPrefix | src/pages/NewProduct.tsx:649 | the longest run of leading digits, the part `parseInt` reads |
| NewProduct.ParseInt | src/pages/NewProduct.tsx:649 | `parseInt` of decimal text; stated by `DigitPrefix` and `ParseIntOfNatToString`: the digits read are the leading run of digits, and a printed natural parses back to itself |
| NewProduct.ParseIntOfNatToString | src/pages/NewProduct.tsx:649 | parsing a printed natural number gives the number back |
| NewProduct.QuantityOnChange | src/pages/NewProduct.tsx:648-653 | an empty field stores 1, a positive parse stores that number, anything else leaves the quantity unchanged |
| NewProduct.TypedQuantityStored | src/pages/NewProduct.tsx:649-651 | typing any positive number stores exactly that number |
| NewProduct.QuantityStaysPositive | src/pages/NewProduct.tsx:648-653 | from the initial 1, any sequence of edits leaves a quantity of at least 1 |
| NewProduct.SubmitNeverRejectsEditedQuantity | src/pages/NewProduct.tsx:61-64 | a quantity reached by editing the field never trips the submit guard on quantity |
| ProductCache.MergeNothing | src/features/products/hooks/useProducts.ts:34 | merging an update with no fields set leaves a product unchanged |
| ProductCache.UpdateEntries | src/features/products/hooks/useProducts.ts:31-36 | same length; every entry with the id gets the update merged in, every other entry stays as it was |
| ProductCache.RemoveEntries | src/features/products/hooks/useProducts.ts:41-46 | an order-preserving subsequence holding exactly the entries whose id differs |
| ProductCache.RemoveAbsentId | src/features/products/hooks/useProducts.ts:44 | removing an id no entry has leaves the list unchanged |
| ProductCache.RemoveAfterUpdate | src/features/products/hooks/useProducts.ts:31-46 | an update that keeps the id followed by a removal of that id equals the removal alone |
| ProductCache.Cache.constructor | src/features/products/hooks/useProducts.ts:13-18 | the cache starts with the data it is given, absent or present |
| ProductCache.Cache.UpdateProductInCache | src/features/products/hooks/useProducts.ts:31-36 | an absent cache stays absent; a present list is replaced by its updated entries |
| ProductCache.Cache.RemoveProductFromCache | src/features/products/hooks/useProducts.ts:41-46 | an absent cache stays absent; a present list loses exactly the entries with the id |
| ProductCache.Cache.AddProductToCache | src/features/products/hooks/useProducts.ts:51-56 | the product is appended at the end; an absent cache becomes the one-product list |
| ProductFilterState.SearchStepIsFilter | src/features/products/hooks/useProductFilters.ts:28-30 | the search step, skipped for an empty search, is one filter over the list |
| ProductFilterState.StatusStepIsFilter | src/features/products/hooks/useProductFilters.ts:33-35 | the status step, skipped for 'all', is one filter over the list |
| ProductFilterState.SessionStepIsFilter | src/features/products/hooks/useProductFilters.ts:38-40 | the session step, skipped for 'all', is one filter over the list |
| ProductFilterState.FilteredProducts | src/features/products/hooks/useProductFilters.ts:24-43 | exactly the products passing all three active filters, an order-preserving subsequence |
| ProductFilterState.ThreeFilters | src/features/products/hooks/useProductFilters.ts:24-43 | search, then status, then session equals one filter by the conjunction of the three |
| ProductFilterState.FilterOrderIrrelevant | src/features/products/hooks/useProductFilters.ts:24-43 | applying the three steps in the reverse order gives the same list |
| ProductFilterState.HasActiveFilters | src/features/products/hooks/useProductFilters.ts:69-73 | true exactly when the filters differ from the defaults |
| ProductFilterState.DefaultFiltersKeepEverything | src/features/products/hooks/useProductFilters.ts:15-19 | the default filters keep every product, in order, and are not active |
| ProductFilterState.FilterHook.constructor | src/features/products/hooks/useProductFilters.ts:15-19 | the hook starts with search '', status 'all', session 'all' |
| ProductFilterState.FilterHook.UpdateFilter | src/features/products/hooks/useProductFilters.ts:48-53 | only the named field changes, to the given value |
| ProductFilterState.FilterHook.ClearFilters | src/features/products/hooks/useProductFilters.ts:58-64 | the defaults come back, no filter is active and the filtered list is the whole list |
| StatusConstants.GetStatusLabel | src/shared/constants/product-status.ts:53-55 | the recorded name of each of the three statuses; any other status is returned as it is |
| StatusConstants.StatusLabelRoundTrip | src/shared/constants/product-status.ts:8-12 | a label read back through the table gives its status |
| StatusConstants.StatusLabelsDistinct | src/shared/constants/product-status.ts:8-12 | the three labels are pairwise distinct |
| StatusConstants.GetStatusVariant | src/shared/constants/product-status.ts:57-59 | danger exactly for the second markdown, warning exactly for the first, success for every other status |
| StatusConstants.GetStatusColor | src/shared/constants/product-status.ts:61-63 | an unknown key falls back to the normal entry for the requested element; a known key gives its own non-empty class |
| StatusConstants.ColorEntriesComplete | src/shared/constants/product-status.ts:20-51 | every entry of the colour table has a class for every element, so a known key is never sent to the fall-back |
| Sessions.GetSessionIcon | src/shared/constants/sessions.ts:22-35 | the table's icon for a listed session, the package icon for any other string |
| Sessions.SessionsDistinct | src/shared/constants/sessions.ts:6-15 | eight pairwise distinct sessions |
| Sessions.IconKeysAreSessions | src/shared/constants/sessions.ts:23-32 | the icon table has an entry exactly for the listed sessions |
| Sessions.EverySessionHasIcon | src/shared/constants/sessions.ts:22-35 | no listed session falls back to the default icon |
| Dashboard.DashboardSessionIcons | src/pages/Dashboard.tsx:76-87 | of the dashboard's ten sessions, exactly 'Ilha', 'Congelados', 'Bebidas' and 'Frente de Caixa' show the default icon |
| Ranking.ByCountDescIsTotalPreorder | src/components/SessionChart.tsx:19-20 | ordering by count, largest first, is a consistent comparator |
| Ranking.SortByCount | src/components/SessionChart.tsx:19-20 | a permutation of the entries, counts never increasing, equal counts kept in insertion order |
| Ranking.MaxCount | src/components/SessionChart.tsx:23 | nothing for no entries; otherwise an upper bound of every count |
| Ranking.FirstMaxIndex | src/components/ProductInsights.tsx:66-69 | the first entry whose count is the greatest |
| Ranking.SortByCountHead | src/components/SessionChart.tsx:19-23 | the first entry after sorting is the first entry of greatest count |
| Ranking.MaxCountIsHead | src/components/SessionChart.tsx:19-23 | the greatest count is the first sorted entry's count |
| Ranking.MaxCountAttained | src/components/SessionChart.tsx:23 | the greatest count is the count of an actual entry |
| SessionChart.SessionCountsExact | src/components/SessionChart.tsx:13-17 | the keys are distinct and are exactly the sessions present ('Sem Sessão' for an empty one); each count is that session's number of products, at least 1; the counts sum to the length |
| SessionChart.SessionCounts | src/components/SessionChart.tsx:13-17 | the `reduce` into a count per session; stated by `SessionCountsExact`: distinct keys, each with the exact positive number of its products, summing to the length |
| SessionChart.SortedSessionsOrdered | src/components/SessionChart.tsx:19-20 | the bars are a permutation of the counts in non-increasing order, stable among equal counts |
| SessionChart.SortedSessions | src/components/SessionChart.tsx:19-20 | the entries sorted by count; stated by `SortedSessionsOrdered` and `Ranking.SortByCount`: a permutation, counts never increasing, ties in insertion order |
| SessionChart.ChartMaxCountIsFirstBar | src/components/SessionChart.tsx:19-23 | no products give no bars and no maximum; otherwise the maximum is the first bar's count and that bar is the first session of greatest count |
| SessionChart.ChartMaxCount | src/components/SessionChart.tsx:23 | `Math.max` of the counts; stated by `ChartMaxCountIsFirstBar`: the count of the first bar |
| ProductInsights.ByStatusPartition | src/components/ProductInsights.tsx:33-37 | the three status counts sum to at most the length, and to the length exactly when every status is one of the three |
| ProductInsights.ByStatus | src/components/ProductInsights.tsx:33-37 | `byStatus`; stated by `ByStatusPartition`: the three exact status counts, adding up to at most the length |
| ProductInsights.ByExpiryDisjoint | src/components/ProductInsights.tsx:39-50 | expired, today and this week together count the products due within 7 days, with this month those due within 30; the four never exceed the length |
| ProductInsights.ByExpiry | src/components/ProductInsights.tsx:39-50 | `byExpiry`; stated by `ByExpiryDisjoint`: four disjoint day bands, together at most the length |
| ProductInsights.CriticalCountsExact | src/components/ProductInsights.tsx:58-64 | the keys are the distinct sessions of the products due within 7 days, expired ones included, each with its exact count |
| ProductInsights.CriticalCounts | src/components/ProductInsights.tsx:58-64 | the per-session counts of products with at most 7 days left; stated by `CriticalCountsExact` |
| ProductInsights.CriticalSessionNoneIff | src/components/ProductInsights.tsx:57-70 | there is no critical session exactly when every product has more than 7 days left |
| ProductInsights.CriticalSessionIsFirstMost | src/components/ProductInsights.tsx:66-69 | the critical session is the first-inserted session with the greatest count, shown with that count |
| ProductInsights.CriticalSession | src/components/ProductInsights.tsx:57-70 | `criticalSession`; stated by `CriticalSessionNoneIff` and `CriticalSessionIsFirstMost`: null exactly when nothing is critical, otherwise the first-inserted session of most critical products |
| ProductInsights.RoundedPercent | src/components/ProductInsights.tsx:72 | the percentage rounded half up: within half a unit of the exact ratio, 0 for an empty whole, at most 100 for a part of the whole |
| ProductInsights.Efficiency | src/components/ProductInsights.tsx:72 | between 0 and 100, and 0 for an empty list |
| ProductInsights.EfficiencyAllNormal | src/components/ProductInsights.tsx:72 | a non-empty list with only normal products scores 100 |
| ProductInsights.EfficiencyNoneNormal | src/components/ProductInsights.tsx:72 | a list without normal products scores 0 |
| ProductInsights.EfficiencyColorsAgree | src/components/ProductInsights.tsx:74-84 | text and background colours follow the same three bands (at least 80, at least 60, below), and a higher score never falls to a worse band |
| ProductInsights.HealthyNoticeIff | src/components/ProductInsights.tsx:206 | the healthy-stock notice shows exactly when every product has more than 7 days left, which is exactly when there is no critical session |
| SmartSearch.GenerateSuggestions | src/components/SmartSearch.tsx:55-73 | the set-filling loop yields the first five distinct hits, in order of first appearance |
| SmartSearch.ProductHitsMembership | src/components/SmartSearch.tsx:60-69 | a product offers its name or brand when it contains the term case-insensitively, its barcode when it contains the term as typed |
| SmartSearch.HitsMembership | src/components/SmartSearch.tsx:60-70 | a string is a hit exactly when some product offers it |
| SmartSearch.SuggestionListProperties | src/components/SmartSearch.tsx:55-73 | at most five suggestions, pairwise distinct, each offered by a product, a prefix of the distinct hits in first-appearance order; fewer than five means every hit is shown |
| SmartSearch.SuggestionList | src/components/SmartSearch.tsx:55-73 | the list `generateSuggestions` sets; stated by `SuggestionListProperties` and `HitsMembership`: at most five distinct hits, in first-appearance order |
| SmartSearch.RecentSearchesUpdate | src/components/SmartSearch.tsx:78-82 | a new non-empty term goes to the front and the list keeps its first entries up to five; an empty or known term changes nothing; the list gains no duplicate |
| SmartSearch.UpdatedRecent | src/components/SmartSearch.tsx:78-82 | the recent-search update; stated by `RecentSearchesUpdate`: a new non-empty term goes in front of the first four, anything else leaves the list |
| SmartSearch.SearchBox.constructor | src/components/SmartSearch.tsx:34-45 | no suggestions, the list closed, and the recent searches as saved |
| SmartSearch.SearchBox.Refresh | src/components/SmartSearch.tsx:47-53 | a term of more than one character gets its suggestion list; a shorter one clears it |
| SmartSearch.SearchBox.HandleSearch | src/components/SmartSearch.tsx:75-85 | the term is searched, the recent list updated as above and the suggestion list closed |
| SmartSearch.SearchBox.Focus | src/components/SmartSearch.tsx:158 | focusing the input opens the suggestion list and changes nothing else |
| SmartSearch.SearchBox.HandleKeyDown | src/components/SmartSearch.tsx:87-94 | Enter searches the current term; Escape closes the list; any other key changes nothing |
| SmartSearch.CeilDiv | src/components/SmartSearch.tsx:108 | the least integer not below the exact quotient |
| SmartSearch.MarkdownChipsExact | src/components/SmartSearch.tsx:113-124 | the two markdown chips count exactly the products with that status, together never more than the list |
| SmartSearch.StatusFilters | src/components/SmartSearch.tsx:97-125 | the four status chips; stated by `MarkdownChipsExact`, `ExpiredAndExpiringOverlap` and `ChipsAtMidnight` |
| SmartSearch.ExpiredAndExpiringOverlap | src/components/SmartSearch.tsx:97-112 | a product is counted by both the expired and the expiring chip exactly when it expired less than a day ago |
| SmartSearch.ChipsAtMidnight | src/components/SmartSearch.tsx:101-109 | at midnight the chips' rounded-up day count is the calendar day count, and expired means a negative count |
| SmartSearch.SessionFiltersExact | src/components/SmartSearch.tsx:141-146 | in the fixed session order, exactly the sessions with at least one product, each with its exact count |
| SmartSearch.SessionFilters | src/components/SmartSearch.tsx:141-146 | the session chips; stated by `SessionFiltersExact` and `SessionChipsInOrder`: the fixed order, only sessions with products, exact counts |
| SmartSearch.SessionChipsInOrder | src/components/SmartSearch.tsx:141-146 | the chips' labels are the sessions filtered by having a product |
| SmartSearch.SessionHasProducts | src/components/SmartSearch.tsx:144-146 | a session's count is positive exactly when some product belongs to it |
| Validation.LoginAccepts | src/shared/utils/validation.utils.ts:11-19 | a login passes exactly with a non-empty well-formed email and a password of at least 6 characters |
| Validation.LoginIssues | src/shared/utils/validation.utils.ts:11-19 | the issues of `loginFormSchema`; stated by `LoginAccepts` and `EmptyEmailShowsInvalid` |
| Validation.SignUpAccepts | src/shared/utils/validation.utils.ts:26-41 | a sign-up passes exactly when the login rules hold, the password has an upper-case letter, a lower-case letter and a digit, and the confirmation matches; a mismatch is reported last, on 'confirmPassword' |
| Validation.SignUpIssues | src/shared/utils/validation.utils.ts:26-41 | the issues of `signUpFormSchema`; stated by `SignUpAccepts`, `SignUpStricterThanLogin` and `MismatchShownOnConfirm` |
| Validation.SignUpStricterThanLogin | src/shared/utils/validation.utils.ts:11-41 | whatever passes sign-up passes login |
| Validation.QuantityAccepts | src/shared/utils/validation.utils.ts:67-71 | a quantity passes exactly when it is an integer from 1 to 9999 |
| Validation.ProductAccepts | src/shared/utils/validation.utils.ts:48-73 | a product passes exactly with a name of 1 to 200 characters, a session, a parseable date, a valid quantity and one of the three statuses |
| Validation.ProductIssues | src/shared/utils/validation.utils.ts:48-73 | the issues of `productFormSchema`; stated by `ProductAccepts` and `QuantityAccepts` |
| Validation.QuickModeRelaxesName | src/shared/utils/validation.utils.ts:80-82 | quick mode never reports the name and checks the rest as the full schema does; a missing name becomes 'Produto sem nome' |
| Validation.QuickIssues | src/shared/utils/validation.utils.ts:80-82 | the issues of `quickProductFormSchema`; stated by `QuickModeRelaxesName`: those of the full schema for the same input with any name it accepts, so never about the name |
| Validation.FormatZodError | src/shared/utils/validation.utils.ts:89-96 | the dictionary-filling loop builds the formatted error map |
| Validation.LastIssueFor | src/shared/utils/validation.utils.ts:91-94 | nothing when no issue has the path; otherwise the last issue with it |
| Validation.FormattedLastWins | src/shared/utils/validation.utils.ts:89-96 | a dot-joined path has an entry exactly when some issue has it, and the entry is the last such issue's message |
| Validation.Formatted | src/shared/utils/validation.utils.ts:89-96 | the dictionary `formatZodError` builds; stated by `FormatZodError` and `FormattedLastWins`: one entry per dot-joined path, holding the last message for it |
| Validation.MismatchShownOnConfirm | src/shared/utils/validation.utils.ts:38-41 | a password mismatch shows its message on 'confirmPassword' |
| Validation.EmptyEmailShowsInvalid | src/shared/utils/validation.utils.ts:12-15 | an empty email shows 'Email inválido', the later message overwriting 'Email é obrigatório' |
| Validation.EmailValidIff | src/shared/utils/validation.utils.ts:101-104 | valid exactly when there is no white space, one '@' after a non-empty local part, and a '.' in the domain with text on both sides |
| Validation.IsValidEmail | src/shared/utils/validation.utils.ts:101-104 | `isValidEmail`; stated by `EmailValidIff`: one '@' between a non-empty local part and a domain holding a dot with text on both sides, no white space |
| Validation.BarcodeIgnoresSurroundingSpace | src/shared/utils/validation.utils.ts:109-113 | after trimming, valid exactly when all digits and 8, 12, 13 or 14 of them |
| Validation.IsValidBarcode | src/shared/utils/validation.utils.ts:109-113 | `isValidBarcode`; stated by `BarcodeIgnoresSurroundingSpace`: the trimmed text is all digits, 8, 12, 13 or 14 of them |
| ExpiryScanner.FirstMatch | src/components/ExpiryScanner.tsx:25-33 | the leftmost position where a date of the given year width starts, or nothing when there is none |
| ExpiryScanner.LongDateHasShortDate | src/components/ExpiryScanner.tsx:20-23 | wherever a four-digit-year date starts, a two-digit-year date starts too |
| ExpiryScanner.ExtractDateNoneIff | src/components/ExpiryScanner.tsx:18-36 | null exactly when no two-digit-year date occurs in the text |
| ExpiryScanner.ExtractDate | src/components/ExpiryScanner.tsx:18-36 | `extractDate`; stated by `ExtractDateNoneIff`, `ExtractDateShape`, `FourDigitYearWins` and `ShortYearPrefixed` |
| ExpiryScanner.ExtractDateShape | src/components/ExpiryScanner.tsx:28-31 | a result has ten characters, digits with '-' at positions 4 and 7 |
| ExpiryScanner.FourDigitYearWins | src/components/ExpiryScanner.tsx:20-33 | when a four-digit-year date occurs, the result is the leftmost one, even after an earlier two-digit-year date |
| ExpiryScanner.NoRangeCheck | src/components/ExpiryScanner.tsx:28-31 | day and month are copied unchecked: '99/99/2024' gives '2024-99-99' |
| ExpiryScanner.ShortYearPrefixed | src/components/ExpiryScanner.tsx:28-31 | a two-digit year gets '20' in front: '31.12.24' gives '2024-12-31' |
| OpenFoodFacts.GetProductName | src/features/products/services/openfoodfacts.service.ts:33-46 | '' when the product is not found; otherwise a name with no white space at either end |
| OpenFoodFacts.ProductNameJoinsQuantity | src/features/products/services/openfoodfacts.service.ts:38-45 | a trimmed name and a trimmed quantity come out as name, space, quantity; no quantity leaves the name alone |
| OpenFoodFacts.GetProductBrand | src/features/products/services/openfoodfacts.service.ts:51-57 | '' when not found; otherwise the brands field or '' |
| OpenFoodFacts.GetProductInfo | src/features/products/services/openfoodfacts.service.ts:69-91 | found exactly when the lookup found a product; then the name and brand of the two extractors and the image; otherwise empty fields and no image |
| OpenFoodFacts.NotFoundIsEmpty | src/features/products/services/openfoodfacts.service.ts:62-64 | a status other than 1 or a missing product gives the same result as a failed request |
| OpenFoodFacts.IsProductFound | src/features/products/services/openfoodfacts.service.ts:34 | `status === 1` with a product present; stated by `NotFoundIsEmpty` and `GetProductInfo`: not found gives the empty name and brand |
| Dashboard.FilterView | src/pages/Dashboard.tsx:260-296 | exactly the products passing the active search (name or barcode), session and days filters, an order-preserving subsequence |
| Dashboard.ComparatorIsTotalPreorder | src/pages/Dashboard.tsx:299-311 | each field and direction gives a consistent comparator, given a consistent collation for names |
| Dashboard.VisibleProducts | src/pages/Dashboard.tsx:260-314 | a permutation of the filtered list; with a consistent collation ordered by the chosen field and direction, stable among equal keys |
| Dashboard.SortOrderedWhenConsistent | src/pages/Dashboard.tsx:299-311 | the sorted view is ordered and stable whenever the comparator is consistent |
| Dashboard.TotalPages | src/pages/Dashboard.tsx:393 | the rounded-up page count: zero exactly for an empty list, and the pages hold the list with less than one page to spare |
| Dashboard.Page | src/pages/Dashboard.tsx:393-396 | at most one page of items, taken in order from the page's start; non-empty exactly for pages 1 to the page count |
| Dashboard.PagesCoverList | src/pages/Dashboard.tsx:393-396 | every item is on exactly the page its position says, within the page count |
| Dashboard.PageWindow | src/pages/Dashboard.tsx:1341-1351 | min(5, pages) consecutive page numbers within 1 to the page count, holding the current page when it is in range |
| Dashboard.PageWindowCentred | src/pages/Dashboard.tsx:1341-1351 | away from both ends the window is centred on the current page |
| Dashboard.WithoutIds | src/pages/Dashboard.tsx:333 | an order-preserving subsequence holding exactly the products whose id is not targeted |
| Dashboard.WithStatus | src/pages/Dashboard.tsx:439-442 | same length; only the status changes, to the new one exactly for the selected ids |
| Dashboard.DashboardView.constructor | src/pages/Dashboard.tsx:51-69 | no products or selection, no filters, sorted by date ascending, page 1 of 10 per page |
| Dashboard.DashboardView.LoadProducts | src/pages/Dashboard.tsx:229-243 | on success the loaded list becomes both the products and the filtered list; on an error neither changes |
| Dashboard.DashboardView.ApplyFilters | src/pages/Dashboard.tsx:260-314 | the filtered list becomes the visible products of the current state |
| Dashboard.DashboardView.SetSearchTerm | src/pages/Dashboard.tsx:399-401 | the term is set, and the page goes back to 1 exactly when it changed |
| Dashboard.DashboardView.SetSessionFilter | src/pages/Dashboard.tsx:399-401 | the session filter is set, and the page goes back to 1 exactly when it changed |
| Dashboard.DashboardView.SetDaysFilter | src/pages/Dashboard.tsx:399-401 | the days filter is set, and the page goes back to 1 exactly when it changed |
| Dashboard.DashboardView.PressEscape | src/pages/Dashboard.tsx:114-118 | all filters are cleared, and the page goes back to 1 exactly when some filter was active |
| Dashboard.DashboardView.HandleSort | src/pages/Dashboard.tsx:344-351 | the current field flips the direction; a new field is set ascending |
| Dashboard.DashboardView.SetItemsPerPage | src/pages/Dashboard.tsx:1312-1315 | the page size is set and the page goes back to 1 |
| Dashboard.DashboardView.PreviousPage | src/pages/Dashboard.tsx:1333 | one page back, never below 1; an in-range page stays inside the window |
| Dashboard.DashboardView.NextPage | src/pages/Dashboard.tsx:1370 | one page on, never past the last page, and inside the window |
| Dashboard.DashboardView.GoToPage | src/pages/Dashboard.tsx:1358 | a page of the window becomes the current page, and it is within the page count |
| Dashboard.DashboardView.SelectProduct | src/pages/Dashboard.tsx:374-382 | the id is added when checked and removed otherwise |
| Dashboard.DashboardView.SelectAll | src/pages/Dashboard.tsx:384-390 | checked selects exactly the ids of the current page; unchecked clears the selection |
| Dashboard.DashboardView.Delete | src/pages/Dashboard.tsx:322-340 | on success the product leaves the list and the selection, the rest in order; on failure nothing changes |
| Dashboard.DashboardView.BulkDelete | src/pages/Dashboard.tsx:403-423 | on success every selected product leaves the list and the selection is emptied; on failure nothing changes |
| Dashboard.DashboardView.BulkStatusChange | src/pages/Dashboard.tsx:425-447 | on success the selected products take the new status, nothing else changes and the selection is emptied; on failure nothing changes |

## Left out

- Supabase and all network I/O: loading, deleting and updating products on the server, the session check, the admin lookups and the remote session suggester with its timer. A handler's remote outcome is a parameter `ok`; the loaded list and the load's outcome are parameters of `LoadProducts`.
- The Open Food Facts `fetch`: the lookup's outcome is the `Option<OffResponse>` passed to `GetProductInfo`, `None` for a failed request.
- `localStorage`: the saved recent searches are the constructor's parameter, and writing them back is not modelled, nor is a corrupt saved value.
- The wall clock and the date library: `new Date()`, `differenceInDays`, `isBefore`, `parseISO`, `format` with a time, `isValidDate`, `calculateExpiryDate` and `addedThisWeek`. Day counts are differences of day numbers; `isExpired`'s timestamp comparison is not modelled.
- `SmartSearch`'s millisecond day count is modelled on explicit millisecond times, and the chips are related to the day counts only at midnight (`ChipsAtMidnight`).
- `localeCompare` is a parameter `collate`; the orderings of names and sessions are proved only for a collation that is a total preorder.
- `Dashboard.VisibleProducts`: the descending order sorts with the swapped comparator; this equals the source's `-comparison` only when `localeCompare(a, b)` and `localeCompare(b, a)` have opposite signs, which the model assumes.
- The regex phrase substitution and the `\w`-based title-casing of `correctSpelling`: they depend on JavaScript regular expression semantics and are not idempotent; only the per-word step (`CorrectWords`) is modelled.
- `parseInt` is modelled for decimal text (leading white space, an optional sign, the longest run of digits); the `0x` prefix is not modelled.
- Case mapping covers ASCII and Latin-1 only; string lengths count Unicode scalar values, not UTF-16 code units.
- JavaScript objects are modelled by their entries in insertion order; the engine's placing of integer-like keys first and inherited prototype keys are not modelled.
- `ProductInsights.RoundedPercent`: `Math.round` of a floating-point ratio is modelled as exact round-half-up on integers; floating-point error on exact halves is not modelled.
- Percentages and bar widths of the session chart, progress values, colours of individual widgets and all other floating-point display arithmetic.
- PDF layout: `jsPDF`/`autoTable` calls, the `y` cursor and page breaks, titles and footers, and every download mechanism (`Blob`, object URLs, anchors, `window.print`).
- `Export.PdfTables`: states the titles and the row count of each table; the cells of each row are stated by `PdfRow`.
- `Export.CsvRow`: the date cell is the stored calendar date. The source formats `new Date('YYYY-MM-DD')`, which is UTC midnight, in the browser's local time, so west of UTC (for example UTC-3) it prints the day before; the model assumes a time zone at or east of UTC.
- `Export.PdfRow`: the `dd/MM` date cell rests on the same time-zone assumption as `Export.CsvRow`.
- `EnhancedReport.Row`: the `dd/MM` date cell rests on the same time-zone assumption as `Export.CsvRow`.
- The admin view's `user_email` annotation of loaded products (the owner's e-mail from the user list, or 'Desconhecido'): `Product` has no such field, since the user list comes from the server and the e-mail is only displayed.
- Zod's `.email()` check and the `new Date(…)` validity test are parameters (`isEmail`, `parsesAsDate`) of the schema models.
- `Validation.QuantityAccepts`: the quantity is a real number standing for a JavaScript number; `NaN` and infinities are not modelled.
- `OpenFoodFacts.GetProductName`: states the not-found case and the trimmed ends; the exact text is stated by `ProductNameJoinsQuantity` for a name and quantity without surrounding white space.
- Camera, barcode scanning and OCR: the scanned text is the input of `ExtractDate`.
- React scheduling: each handler is one atomic state change. The effect that resets the page when a filter changes is folded into the three filter setters, and the filter-and-sort effect is the method `ApplyFilters`.
- The array sorts work on sequences: an in-place `sort` on a fresh copy is the sorted sequence.
- Presentation components, the service worker, the type-only files and the authentication forms hold no logic beyond what is modelled here.

## Findings

| source | as written | input that shows it | evidently intended | confidence | as-written member | corrected member |
|---|---|---|---|---|---|---|
| src/features/products/services/export.service.ts:27 | every cell is wrapped in double quotes, inner quotes left as they are | the rows `["a\",\"b"]` and `["a", "b"]` print the same line `"a","b"` | inner quotes doubled, as section 2 rule 7 of RFC 4180 requires, so that every line reads back as its row | not executed | Export.CsvLineAmbiguous | Export.CsvLineEscapedRoundTrip |
