# Points ledger and ads server — a Dafny model

This project models the core of a NestJS server for a points ledger and an ads catalogue.

- **Points ledger.** The ledger keeps one balance row per user and an append-only history of adjustments. `adjustPoints` reads the balance (an absent row counts as 0), stores `balanceAfter = balanceBefore + amount` and appends a history entry. `getBalance`, `getHistory`, `getUserPointSummary` and `findAllBalances` are the read paths. They run through the shared pagination helpers: option normalisation, `skip`, a filtered, newest-first, paginated query, and the page metadata.
- **Ads catalogue.** `createAd` rejects a title already in use. It then uploads the image and the video to object storage under cleaned, timestamped file names, and saves the ad. `deleteAd` deletes both stored files (logging failures without stopping) and removes the ad. `findAll` pages through every ad, newest first.
- **Storage adapter.** The model covers its configuration check, the URL an upload returns, and the recovery of a key from a public URL.
- **File names.** `generateCleanFilename` produces `<timestamp>-<clean name><extension>`.
- **HTTP envelopes.** The model covers the error body built by the global exception filter and the success envelope added by the response interceptor.
- **Uptime.** The model covers the text of `formatUptime`.

The model is stateful where the source is:

- `PointLedger.PointService` and `Ads.AdsService` are classes. Their collections are `map`/`seq` fields that the methods reassign.
- The storage backend is an oracle. The outcome of each upload or delete is a parameter, and every request sent is recorded in the `requests` field.
- The clock is an explicit value. The ledger has a logical `clock` field; ads take a `now` parameter.
- The logger is the `errorLog` field.
- Each class keeps an invariant (`Valid`) that every method preserves:
  - the ledger's invariant: every stored balance equals the sum of its user's history, and the balance collection's natural order (`rowIds`) lists each row once, in creation order, with each row's id its position there;
  - the catalogue's invariant: titles and ids are unique.

The rest of the model is functions and lemmas.

Three behaviours of the code are easy to misread. The model does what the code does:

- **Zero adjustments.** The request DTO has no rule against a zero `amount`, and the service applies such an adjustment. `PointDto.AnyAmountAccepted` shows a zero amount passing.
- **Over-large page sizes.** The normaliser clamps a `limit` above 100 to 100. The query DTO, however, rejects such a limit with "Limit must not exceed 100". `PaginationDto.OverLargeLimitRejectedNotClamped` shows both.
- **Non-atomic adjustments.** The balance update and the history append are two separate saves, not one transaction. The model runs each call as one sequential step (see Left out).

## Model

| member | source | states |
|---|---|---|
| Text.NatToString | src/common/utils/string.util.ts:21 | the decimal text of a number is non-empty, all digits, and has no leading zero except for 0 itself |
| Text.NatToStringRoundTrip | src/common/utils/string.util.ts:21 | reading the decimal text back gives the number: the rendering loses nothing |
| Text.ReplaceFirst | src/modules/storage/storage.service.ts:100-103 | `String.replace` with a string pattern: no occurrence leaves the text unchanged, otherwise exactly the first occurrence is replaced |
| Text.ReplaceLeadingOccurrence | src/modules/storage/storage.service.ts:100-103 | replacing a pattern that the text starts with removes exactly that prefix |
| Text.Join | src/common/http/http-exception.filter.ts:42 | `join` of no elements is "", of one element is that element |
| Text.JoinAppend | src/common/http/http-exception.filter.ts:42 | joining one more part adds exactly one separator and then that part to the joined text |
| Text.JoinLength | src/common/http/http-exception.filter.ts:42 | the joined text is as long as all the parts plus one separator between each two neighbouring parts |
| PointSchema.ParsePointType | src/modules/point/schema/point.schema.ts:31-40 | a type string is accepted exactly when it is one of the four enum values, and the accepted value has that string as its name |
| PointSchema.PointTypeNamesAgree | src/modules/point/schema/point.schema.ts:34-39 | the type alias and the schema's enum list name the same four distinct values |
| PointSchema.PointTypeNameRoundTrip | src/modules/point/schema/point.schema.ts:3 | parsing the name of a point type gives that type back |
| PointSchema.NewBalanceRow | src/modules/point/schema/point.schema.ts:14-16 | a row created with only its user has the default balance 0 and equal `createdAt`/`updatedAt` |
| PointEntities.ActionOf | src/modules/point/entities/point.entities.ts:53-56 | `action` is "plus" exactly when `amount >= 0` and "minus" exactly when it is negative |
| PointEntities.ExposedId | src/modules/point/entities/point.entities.ts:18-22 | `_id ?? id`: `_id` when present, `id` otherwise, absent exactly when both are |
| PointEntities.ToHistoryEntity | src/modules/point/entities/point.entities.ts:36-73 | an exposed history entry carries the stored id, user, amounts, description, type name and `createdAt` unchanged, with `action` from the sign |
| PointEntities.ToBalanceEntity | src/modules/point/entities/point.entities.ts:16-34 | an exposed balance carries the stored id, user, balance and `updatedAt` unchanged |
| PointEntities.ImplicitBalanceEntity | src/modules/point/point.service.ts:65-71 | a user without a row is shown with balance 0 and neither `_id` nor `updatedAt` |
| PointEntities.HistoryEntities | src/modules/point/point.service.ts:89-91 | converting a list of documents converts each element in place and keeps the length |
| PointEntities.BalanceEntities | src/modules/point/point.service.ts:132-134 | converting a list of rows converts each element in place and keeps the length |
| PointDto.ValidateAdjustPoint | src/modules/point/dto/update.point.dto.ts:5-26 | a body passes exactly when `userId` and `description` are non-empty strings, `amount` is a number and `type` is one of the four values; it then carries those values, otherwise at least one violation is reported |
| PointDto.AnyAmountAccepted | src/modules/point/dto/update.point.dto.ts:11-15 | any amount, zero and negative included, passes validation |
| PointDto.UnknownTypeRejected | src/modules/point/dto/update.point.dto.ts:22-25 | a `type` string outside the four values is rejected with the enum violation, whatever the other fields are |
| PaginationDto.ValidatePaginationQuery | src/common/dto/pagination.dto.ts:6-19 | a query passes exactly when each given field is a whole number of at least 1 and the limit is at most 100; absent fields default to 1 and 10; a too-large limit is reported exactly when the limit exceeds 100 |
| PaginationDto.NormalizerKeepsValidatedQuery | src/common/utils/pagination.util.ts:29-39 | the normaliser leaves a query that the validator accepted unchanged |
| PaginationDto.OverLargeLimitRejectedNotClamped | src/common/dto/pagination.dto.ts:17 | a whole limit above 100 is rejected with exactly the too-large violation, while the normaliser on its own clamps it to 100 |
| Pagination.CeilQuotientBounds | src/common/utils/pagination.util.ts:17 | `Math.ceil(a / b)` for a positive divisor is the least `c` with `a <= b * c`: `b * (c - 1) < a <= b * c` |
| Pagination.BuildPaginationMeta | src/common/utils/pagination.util.ts:12-27 | page, limit and total are copied; `totalPages` is 1 for no items; `hasPreviousPage` iff `page > 1`; `hasNextPage` iff `page < totalPages` |
| Pagination.TotalPagesCover | src/common/utils/pagination.util.ts:17 | with a positive limit `totalPages` is at least 1 and, for a non-zero total, the least number of pages of `limit` items that holds every item |
| Pagination.HasNextPageIffItemsRemain | src/common/utils/pagination.util.ts:17-25 | for a page of at least 1 and a positive limit, there is a next page exactly when `page * limit < totalItems` |
| Pagination.NormalizePaginationOptions | src/common/utils/pagination.util.ts:29-39 | the normalised page is at least 1 and the normalised limit lies in [1, 100] |
| Pagination.NormalizeCases | src/common/utils/pagination.util.ts:32-36 | a missing or zero page is 1, others are floored and raised to 1; a missing or zero limit is 10, others are floored and clamped into [1, 100] |
| Pagination.NormalizeIdempotent | src/common/utils/pagination.util.ts:29-39 | normalising normalised options changes nothing |
| Pagination.CalculateSkip | src/common/utils/pagination.util.ts:41-43 | the offset is never negative for a page of at least 1 and a non-negative limit |
| Pagination.SkipIsProduct | src/common/utils/pagination.util.ts:41-43 | the offset of a page is `(page - 1) * limit`, for every page and limit |
| Pagination.Filter | src/common/utils/pagination.util.ts:55 | the matches of a filter all satisfy it and are no more than the documents |
| Pagination.FilterMembers | src/common/utils/pagination.util.ts:55 | the matches are drawn from the documents and are exactly those that satisfy the filter |
| Pagination.FilterAppend | src/common/utils/pagination.util.ts:62-65 | appending a document extends the matches (and the count) by that document exactly when it matches |
| Pagination.FilterEverything | src/modules/point/point.service.ts:127 | the empty filter `{}` matches every document in order |
| Pagination.InsertDesc | src/common/utils/pagination.util.ts:55 | inserting into a newest-first sequence keeps it newest-first and adds exactly the inserted document |
| Pagination.SortDesc | src/common/utils/pagination.util.ts:55 | the `{ key: -1 }` sort yields a newest-first permutation of its input |
| Pagination.SortKeepsDistinct | src/common/utils/pagination.util.ts:55 | sorting a sequence without repeats gives one without repeats |
| Pagination.SliceKeepsDistinct | src/common/utils/pagination.util.ts:55 | a `skip`/`limit` window of a sequence without repeats has none |
| Pagination.SortIncreasingIsReverse | src/common/utils/pagination.util.ts:55 | sorting newest-first a sequence whose keys strictly increase reverses it |
| Pagination.Slice | src/common/utils/pagination.util.ts:55 | `skip`/`limit` give the window `[skip, skip + limit)` cut at the end |
| Pagination.NextPageOfSlice | src/common/utils/pagination.util.ts:52-70 | `hasNextPage` holds exactly when matches remain past the returned window |
| Pagination.SliceOfMatches | src/common/utils/pagination.util.ts:55 | a window of the sorted matches is newest-first and holds only matching documents of the collection |
| Pagination.PaginateQuery | src/common/utils/pagination.util.ts:45-71 | `totalItems` is the filter count; the meta is built from the normalised page and limit and that count; at most `limit` items, and `limit` at most 100 |
| Pagination.PageIsWindow | src/common/utils/pagination.util.ts:52-55 | a page's items are the `[skip, skip + limit)` window of the newest-first matches, with `skip` computed from the normalised options |
| Pagination.PageOfMatches | src/common/utils/pagination.util.ts:52-70 | a page holds only matching documents of the collection, newest first, and `hasNextPage` holds exactly when matches remain after this page |
| Pagination.WindowOfIncreasing | src/common/utils/pagination.util.ts:55 | for documents whose keys strictly increase, the `i`-th item of a window is the `(skip + i)`-th document from the end, and the window's keys strictly decrease |
| Pagination.PaginateIncreasing | src/common/utils/pagination.util.ts:45-71 | when the documents are stored in increasing key order, a page is the `[skip, skip + limit)` window of the reversed matches, keys strictly decreasing |
| Pagination.PageBeyondEnd | src/common/utils/pagination.util.ts:52-70 | a page that starts past the last match is empty and has no next page |
| Pagination.EmptyPaginatedData | src/common/utils/pagination.util.ts:73-81 | no items, `totalItems = 0`, `totalPages = 1`, page and limit defaulting to 1 and 10 |
| PointLedger.LastAfterIsSum | src/modules/point/point.service.ts:38-51 | when a user's entries form prefix sums, the last `balanceAfter` is the sum of all amounts |
| PointLedger.ChainedIffPrefixSums | src/modules/point/point.service.ts:38-51 | a history chains (first `balanceBefore` 0, each `balanceBefore` the previous `balanceAfter`, each `balanceAfter = balanceBefore + amount`) exactly when every entry starts from the sum of the amounts before it |
| PointLedger.PrefixSumsAppend | src/modules/point/point.service.ts:38-51 | appending an entry that starts from the current sum keeps the prefix sums and adds its amount to the total |
| PointLedger.UserHistoryChains | src/modules/point/point.service.ts:28-57 | under the ledger invariant, every user's history chains from 0; the stored balance equals the sum of the amounts and the last `balanceAfter`; a user has a row exactly when they have history |
| PointLedger.Rows | src/modules/point/point.service.ts:125-130 | the balance collection in its natural order holds the stored row of each listed user |
| PointLedger.UserEntriesAppend | src/modules/point/point.service.ts:44-52 | appending an entry extends its own user's history by it and leaves every other user's history unchanged |
| PointLedger.RowIdsListEachRowOnce | src/modules/point/point.service.ts:33-36 | under the row order every stored row's user is listed, and no user twice |
| PointLedger.AdjustKeepsHistory | src/modules/point/point.service.ts:44-52 | the appended entry keeps every user's history chained, ids positional, timestamps strictly increasing |
| PointLedger.AdjustedRowHoldsSum | src/modules/point/point.service.ts:33-42 | the adjusted row holds the old balance (0 for a new row) plus the amount, which is the new sum of the user's history |
| PointLedger.AdjustKeepsBalances | src/modules/point/point.service.ts:33-42 | after an adjustment every row still belongs to its key, holds its user's sum and exists exactly when its user has history |
| PointLedger.AdjustKeepsRowOrder | src/modules/point/point.service.ts:33-42 | an existing user's row keeps its place; a row created for a new user joins the natural order at the end, with its position as its id |
| PointLedger.AdjustKeepsInvariant | src/modules/point/point.service.ts:28-57 | `adjustPoints` preserves the whole ledger invariant |
| PointLedger.AdjustedRow | src/modules/point/point.service.ts:33-42 | no contract of its own: the row after an adjustment (a new row with balance 0 plus the amount, or the stored one with the amount added); specified by the PointLedger.AdjustedRowHoldsSum, PointLedger.AdjustKeepsBalances and PointLedger.ZeroAdjustmentKeepsUpdatedAt rows |
| PointLedger.AdjustEntry | src/modules/point/point.service.ts:38-52 | no contract of its own: the history entry an adjustment appends; specified by the PointLedger.AdjustKeepsHistory and PointLedger.PointService.AdjustPoints rows |
| PointLedger.HistoryPage | src/modules/point/point.service.ts:82-87 | a page of a user's history is the `[skip, skip + limit)` window of that user's entries read from the last recorded back: all the user's, `createdAt` strictly decreasing |
| PointLedger.UserHistoryPageIsNewestFirst | src/modules/point/point.service.ts:78-97 | a history page's meta is built from the user's entry count; its items are the converted window of the user's entries from the last recorded back, the user's only, `createdAt` strictly decreasing |
| PointLedger.NewestEntries | src/modules/point/point.service.ts:101-106 | sorting a user's entries newest-first lists them from the last recorded back |
| PointLedger.BalancePage | src/modules/point/point.service.ts:125-130 | a balance page counts every row; its items are the requested `[skip, skip + limit)` window of the rows sorted by `updatedAt` descending; it holds stored rows only, in that order |
| PointLedger.BalanceListingHoldsEachRowOnce | src/modules/point/point.service.ts:125-130 | the rows sorted by `updatedAt` descending hold every stored row exactly once and nothing else |
| PointLedger.WindowUsersDistinct | src/modules/point/point.service.ts:125-130 | no user appears twice in a window of the sorted balance listing |
| PointLedger.StoredRowsUsersDistinct | src/modules/point/point.service.ts:125-130 | different stored rows belong to different users |
| PointLedger.PointService.constructor | src/modules/point/point.service.ts:21-26 | a new service has empty collections and satisfies the invariant |
| PointLedger.PointService.SaveBalance | src/modules/point/point.service.ts:33-42 | saving upserts the user's row and leaves the other rows; a row saved for the first time joins the natural order at the end; history and clock are unchanged |
| PointLedger.PointService.SaveHistory | src/modules/point/point.service.ts:44-52 | saving appends the entry to the history and changes nothing else |
| PointLedger.PointService.AdjustPoints | src/modules/point/point.service.ts:28-57 | appends exactly one entry with `balanceBefore` the stored balance (0 without a row) and `balanceAfter = balanceBefore + amount`, returns its exposed form, stores `balanceAfter` as the user's balance, touches no other user's row and keeps the invariant |
| PointLedger.PointService.GetBalance | src/modules/point/point.service.ts:59-76 | the balance is the sum of the user's amounts and the last `balanceAfter`; with no row it is the zero projection, otherwise the exposed stored row |
| PointLedger.PointService.GetHistory | src/modules/point/point.service.ts:78-97 | the meta counts the user's entries; the items are the requested window of that user's entries from the last recorded back, in exposed form, all the user's, `createdAt` strictly decreasing |
| PointLedger.PointService.GetUserPointSummary | src/modules/point/point.service.ts:99-120 | the summary balance is `getBalance`'s; its history is the user's last ten recorded entries (or all, if fewer), from the last back, in exposed form |
| PointLedger.PointService.FindAllBalances | src/modules/point/point.service.ts:122-140 | the meta counts every row; the items are the exposed forms of the requested `[skip, skip + limit)` window of the rows sorted by `updatedAt` descending; every item is an exposed stored row, no user appears twice, and `updatedAt` does not increase |
| PointLedger.PointService.FirstPageListsEveryRow | src/modules/point/point.service.ts:122-140 | a first page whose limit is at least the number of rows lists every stored row |
| PointLedger.PointService.SummaryIsFirstPage | src/modules/point/point.service.ts:101-106 | the summary's history equals the items of the first history page of ten |
| PointLedger.EarnThenSpend | src/modules/point/point.service.ts:38-51 | earning 100 and then spending 30 leaves 70, and the spend records 100 → 70 with action "minus" |
| PointLedger.OverdraftAllowed | src/modules/point/point.service.ts:38-41 | a spend larger than the balance is applied: the balance goes below zero |
| PointLedger.ZeroAdjustmentKeepsUpdatedAt | src/modules/point/point.service.ts:41-42 | a zero adjustment appends an entry but leaves the row's `updatedAt` as it was |
| PointLedger.UnknownUserBalance | src/modules/point/point.service.ts:65-71 | a user who never had an adjustment reads the zero projection |
| Storage.Configure | src/modules/storage/storage.service.ts:16-45 | construction succeeds exactly when all five settings are present and non-empty, keeping them; otherwise it fails with "Missing R2 configuration" |
| Storage.PublicBaseShape | src/modules/storage/storage.service.ts:65 | the public base starts with the public URL, ends with "/", and adds a "/" only when the URL has none |
| Storage.UploadLocationShape | src/modules/storage/storage.service.ts:64-66 | a public upload's location is the public base followed by the key; a private one is the key |
| Storage.PublicBase | src/modules/storage/storage.service.ts:65 | no contract of its own: the public URL with a "/" added when missing; specified by the Storage.PublicBaseShape row |
| Storage.UploadLocation | src/modules/storage/storage.service.ts:64-66 | no contract of its own: the public base plus the key, or the key; specified by the Storage.UploadLocationShape and Storage.ExtractKeyRoundTrip rows |
| Storage.UploadFile | src/modules/storage/storage.service.ts:47-73 | a successful send returns the upload location; a failed one rethrows the failure after logging it |
| Storage.UploadFailureLog | src/modules/storage/storage.service.ts:67-71 | the upload failure line starts with "Error uploading file to R2: " |
| Storage.UploadFailureLogMessage | src/modules/storage/storage.service.ts:67-71 | after that prefix the upload failure line is exactly the failure's message |
| Storage.DeleteFailureLog | src/modules/storage/storage.service.ts:83-87 | the delete failure line starts with "Error deleting file from R2: " |
| Storage.DeleteFailureLogMessage | src/modules/storage/storage.service.ts:83-87 | after that prefix the delete failure line is exactly the failure's message |
| Storage.ExtractKeyFromUrl | src/modules/storage/storage.service.ts:96-104 | a URL outside the public URL is returned as it is; otherwise the first occurrence of the public base is removed; the key is never longer than the URL |
| Storage.ExtractStripsBase | src/modules/storage/storage.service.ts:100-103 | a URL that starts with the public base loses exactly that prefix |
| Storage.ExtractKeyRoundTrip | src/modules/storage/storage.service.ts:64-104 | the key is recovered from the location of its public upload, whether or not the public URL ends in "/" |
| Storage.BarePublicUrlUnchanged | src/modules/storage/storage.service.ts:97-103 | the public URL itself, without a trailing "/", is returned unchanged because the base with "/" does not occur in it |
| Storage.ExtractKeyExample | src/modules/storage/storage.service.ts:91-95 | the documented example URL yields "ads/images/xxx.png" |
| Filename.LastDot | src/common/utils/string.util.ts:9 | the index of the last '.', or -1 when there is none |
| Filename.Extname | src/common/utils/string.util.ts:9 | the extension is a suffix of the name; a non-empty one starts with a dot, holds no other dot and is shorter than the name; it is empty only when the last dot is missing or is the first character |
| Filename.BaseName | src/common/utils/string.util.ts:10 | the base name followed by the extension is the whole name |
| Filename.Lower | src/common/utils/string.util.ts:13 | ASCII capitals map to their lower case, 'Đ' to 'đ'; other characters are kept |
| Filename.LowerString | src/common/utils/string.util.ts:13 | lower-casing a string lower-cases each character in place |
| Filename.FoldDStroke | src/common/utils/string.util.ts:16 | every 'đ' and 'Đ' becomes 'd', the rest is kept |
| Filename.Hyphenate | src/common/utils/string.util.ts:17 | each character outside the class becomes '-', the others are kept |
| Filename.CollapseHyphens | src/common/utils/string.util.ts:18 | the result has no "--", keeps the first and last characters, and draws its characters from the input |
| Filename.CollapseKeepsText | src/common/utils/string.util.ts:18 | collapsing removes hyphens only: with the hyphens dropped, the result and the input are the same text |
| Filename.CollapseDoubleHyphen | src/common/utils/string.util.ts:18 | a doubled hyphen anywhere collapses exactly as a single one does; with `CollapseNoDouble` this fixes the result on every input: each run of hyphens leaves exactly one hyphen |
| Filename.TrimHyphen | src/common/utils/string.util.ts:19 | with no "--" in the input, the result neither starts nor ends with '-' |
| Filename.TrimKeepsText | src/common/utils/string.util.ts:19 | the result is the input with at most its first and its last character removed, and with the hyphens dropped it is the same text |
| Filename.HyphenateKeepsText | src/common/utils/string.util.ts:17 | with the hyphens dropped, the hyphenated text is exactly the kept characters of the input, in order |
| Filename.SlugKeepsText | src/common/utils/string.util.ts:17-19 | with the hyphens dropped, a clean name is exactly the kept characters of its input, in order: cleaning only replaces, collapses and trims separators |
| Filename.SlugIsSlug | src/common/utils/string.util.ts:17-19 | every clean name is a slug: kept characters and single inner hyphens |
| Filename.CollapseNoDouble | src/common/utils/string.util.ts:18 | collapsing a string without "--" changes nothing |
| Filename.SlugOfSlug | src/common/utils/string.util.ts:17-19 | cleaning a slug changes nothing |
| Filename.SlugOfHyphenated | src/common/utils/string.util.ts:17 | hyphenating first changes nothing in the clean name |
| Filename.SlugIdempotent | src/common/utils/string.util.ts:17-19 | cleaning a name twice is cleaning it once |
| Filename.FilenameParts | src/common/utils/string.util.ts:21 | a generated name is the timestamp and "-", then the clean base name, then the extension unchanged |
| Filename.GenerateCleanFilenameAsWritten | src/common/utils/string.util.ts:8-22 | no contract of its own: `generateCleanFilename` with the class as written (`0-z` included), the clock reading as `now`; specified by the Filename.FilenameParts and Filename.AsWrittenKeepsUnderscore rows |
| Filename.GenerateCleanFilename | src/common/utils/string.util.ts:8-22 | no contract of its own: `generateCleanFilename` with the intended class `[a-z0-9]`; specified by the Filename.FilenameParts, Filename.CleanNameIsUrlSafe, Filename.SlugKeepsText and Filename.DocumentedExample rows |
| Filename.CleanNameIsUrlSafe | src/common/utils/string.util.ts:12-19 | with the intended class the clean name holds only 'a'-'z', '0'-'9' and single inner hyphens |
| Filename.AsWrittenKeepsUnderscore | src/common/utils/string.util.ts:17 | the class as written keeps '_', '@', '[' and '^', and cleans "a_b" to "a_b" |
| Filename.IntendedReplacesUnderscore | src/common/utils/string.util.ts:17 | the intended class cleans "a_b" to "a-b" |
| Filename.DStrokeBecomesD | src/common/utils/string.util.ts:13-16 | "Đa" is lower-cased and folded to "da" |
| Filename.DocumentedExample | src/common/utils/string.util.ts:4-6 | "My Image.png" becomes `<timestamp>-my-image.png` |
| Filename.ExampleParts | src/common/utils/string.util.ts:9-10 | "My Image.png" splits into "My Image" and ".png" |
| Filename.ExampleCleanName | src/common/utils/string.util.ts:12-19 | "My Image" cleans to "my-image" |
| Ads.TitleInUseIff | src/modules/ads/ads.service.ts:30-33 | `countDocuments({ title }) > 0` holds exactly when some ad has the title |
| Ads.TitleCountAtMostOne | src/modules/ads/schemas/ads.schema.ts:5 | with unique titles no title is counted more than once |
| Ads.CountByTitle | src/modules/ads/ads.service.ts:31 | no contract of its own: `countDocuments({ title })`; specified by the Ads.TitleInUseIff and Ads.TitleCountAtMostOne rows |
| Ads.TitleInUse | src/modules/ads/ads.service.ts:30-33 | no contract of its own: a count above zero; specified by the Ads.TitleInUseIff row |
| Ads.SchemaAccepts | src/modules/ads/schemas/ads.schema.ts:5-10 | no contract of its own: the schema's `required` rules; specified by the Ads.AdsService.Insert and Ads.AdsService.CreateAd rows |
| Ads.ObjectKeyShape | src/modules/ads/ads.service.ts:52-53 | an upload key lies in its folder, keeps the file's extension, and after the folder is the generated clean file name |
| Ads.WithUploadedUrls | src/modules/ads/ads.service.ts:50-70 | each URL of the request is replaced by its upload's location when a file was uploaded and kept otherwise; the other fields are unchanged |
| Ads.NewAd | src/modules/ads/schemas/ads.schema.ts:5-12 | a saved ad carries the request's fields and both timestamps set to the current time |
| Ads.InsertKeepsWellFormed | src/modules/ads/ads.service.ts:72-73 | adding an ad with an unused title and the next id keeps titles and ids unique |
| Ads.FindAdIndex | src/modules/ads/ads.service.ts:81-84 | `findById` finds nothing exactly when no ad has the id, and otherwise the first ad that has it |
| Ads.RemoveAt | src/modules/ads/ads.service.ts:104 | removing one ad keeps every other ad, in order |
| Ads.RemoveKeepsWellFormed | src/modules/ads/ads.service.ts:104 | removing an ad keeps titles and ids unique |
| Ads.RemovedAdIsGone | src/modules/ads/ads.service.ts:104 | after the removal the id is not found, the title is free and every other ad remains |
| Ads.DeleteRequests | src/modules/ads/ads.service.ts:86-87 | a delete is sent for a stored URL exactly when it is non-empty, for the key recovered from it |
| Ads.DeleteLog | src/modules/ads/ads.service.ts:88-92 | a failed delete of a non-empty URL logs the storage line and then the ads line with the failure's message; nothing is logged otherwise |
| Ads.CleanupDeletesUploadedKeys | src/modules/ads/ads.service.ts:86-102 | deleting an ad whose URLs are public upload locations deletes exactly those two keys |
| Ads.CreatedAdCleanup | src/modules/ads/ads.service.ts:50-102 | an ad created from two uploads is cleaned up by deleting exactly the two keys that were uploaded |
| Ads.DuplicateTitleRejected | src/modules/ads/ads.service.ts:42-48 | creating an ad and then another with the same title: the first is saved, the second is refused with "Title already in use.", and the store holds the first ad only, with no storage request sent |
| Ads.DeleteAfterUpload | src/modules/ads/ads.service.ts:80-105 | deleting the one ad whose files were uploaded succeeds even when both deletes fail: the store is empty, deletes were sent for exactly the two uploaded keys, and each failure is logged twice |
| Ads.NotFoundMessage | src/modules/ads/ads.service.ts:83 | the message is "Ad with ID ", then text that is all digits and reads back as the id, then " not found" |
| Ads.NotFoundMessageInjective | src/modules/ads/ads.service.ts:83 | different ids give different not-found messages |
| Ads.AdsService.constructor | src/modules/ads/ads.service.ts:24-28 | a new service has no ads, no requests and no log lines, and uses the intended file-name cleaner |
| Ads.AdsService.ExistsAdsByTitle | src/modules/ads/ads.service.ts:30-33 | true exactly when some ad has the title |
| Ads.AdsService.CreateAd | src/modules/ads/ads.service.ts:35-78 | a used title is a conflict with nothing changed; otherwise the image and then the video are uploaded, and the first failed upload stops the request with that failure logged; the ad is saved exactly when there is no conflict, no failed upload and the schema accepts the request, and the ad saved carries the next id, the uploaded locations and `now` |
| Ads.AdsService.UploadFiles | src/modules/ads/ads.service.ts:50-70 | the files present are uploaded in order until one fails; the returned request carries the new locations |
| Ads.AdsService.Upload | src/modules/ads/ads.service.ts:50-59 | one upload sends one put request under the file's key, returning its location or logging its failure |
| Ads.AdsService.Insert | src/modules/ads/ads.service.ts:72-73 | a request the schema accepts is saved with the next id; any other is a validation error with nothing saved |
| Ads.AdsService.DeleteAd | src/modules/ads/ads.service.ts:80-105 | an unknown id is "Ad with ID … not found" with nothing changed; otherwise both stored files are deleted in order (failures logged, not raised) and exactly that ad is removed |
| Ads.AdsService.CleanupFiles | src/modules/ads/ads.service.ts:86-102 | the image and then the video of an ad are deleted, each failure logged |
| Ads.AdsService.DeleteObjectAt | src/modules/ads/ads.service.ts:86-93 | one stored file is deleted by its recovered key when its URL is non-empty; a failure is logged twice |
| Ads.AdsService.FindAll | src/modules/ads/ads.service.ts:107-122 | the meta counts every ad; the items are the requested `[skip, skip + limit)` window of all ads sorted by `createdAt` descending, at most `limit` of them, each a stored ad, `createdAt` non-increasing |
| HttpErrors.BodyEnvelope | src/common/http/http-exception.filter.ts:19-59 | the body is never successful and carries the request URL; the status is the exception's own or 500; the code is the status name, "HTTP_EXCEPTION" without one, or "INTERNAL_SERVER_ERROR" for non-HTTP errors |
| HttpErrors.InternalErrorsAgree | src/common/http/http-exception.filter.ts:19-26 | an HTTP 500 and a non-HTTP error get the same status and code |
| HttpErrors.StringPayloadVerbatim | src/common/http/http-exception.filter.ts:33-34 | a string payload is the message verbatim, even when empty, with no details |
| HttpErrors.ObjectPayloadRules | src/common/http/http-exception.filter.ts:35-44 | an object payload's string `message` is used, an array is joined with ", ", anything else leaves the default; the payload is the details |
| HttpErrors.ArrayMessageEdgeCases | src/common/http/http-exception.filter.ts:41-42 | an empty array gives "", a one-element array gives that element |
| HttpErrors.ErrorMessageUnlessEmpty | src/common/http/http-exception.filter.ts:45-46 | an `Error` without a string or object payload reports its own message exactly when that is non-empty, else the default; no details |
| HttpErrors.NonErrorIsInternal | src/common/http/http-exception.filter.ts:19-31 | a thrown non-Error gives 500, "INTERNAL_SERVER_ERROR", "Internal server error" and no details |
| HttpErrors.DetailsIffObjectPayload | src/common/http/http-exception.filter.ts:28-44 | details are present exactly for an `HttpException` with an object payload, and are that payload |
| HttpErrors.EmptyMessageOnlyFromPayload | src/common/http/http-exception.filter.ts:30-47 | the message is empty exactly when an `HttpException`'s payload supplies an empty one |
| HttpErrors.StatusOf | src/common/http/http-exception.filter.ts:19-22 | no contract of its own: the exception's status, or 500; specified by the HttpErrors.BodyEnvelope and HttpErrors.InternalErrorsAgree rows |
| HttpErrors.CodeOf | src/common/http/http-exception.filter.ts:24-26 | no contract of its own: the status name, "HTTP_EXCEPTION" without one, or "INTERNAL_SERVER_ERROR"; specified by the HttpErrors.BodyEnvelope and HttpErrors.InternalErrorsAgree rows |
| HttpErrors.MessageAndDetails | src/common/http/http-exception.filter.ts:28-47 | no contract of its own: the message and details chosen from the payload or the error; specified by the HttpErrors.StringPayloadVerbatim, HttpErrors.ObjectPayloadRules, HttpErrors.ErrorMessageUnlessEmpty, HttpErrors.NonErrorIsInternal, HttpErrors.DetailsIffObjectPayload and HttpErrors.EmptyMessageOnlyFromPayload rows |
| HttpErrors.BuildErrorBody | src/common/http/http-exception.filter.ts:14-59 | no contract of its own: the body the filter writes; specified by the HttpErrors.BodyEnvelope row and the payload rows above |
| ResponseEnvelope.GetDefaultMessage | src/common/http/response.interceptor.ts:72-82 | the default message is never empty |
| ResponseEnvelope.DefaultMessageTable | src/common/http/response.interceptor.ts:72-82 | GET, POST, PUT/PATCH and DELETE map to their fixed messages; every other method to "Request processed successfully" |
| ResponseEnvelope.DefaultMessageSharedOnlyByUpdates | src/common/http/response.interceptor.ts:73-79 | two different methods of the table share a message exactly when they are PUT and PATCH |
| ResponseEnvelope.EffectiveStatus | src/common/http/response.interceptor.ts:56 | the status sent is never 0, and a non-zero status is kept |
| ResponseEnvelope.EnvelopeMessage | src/common/http/response.interceptor.ts:60 | the envelope message is never empty |
| ResponseEnvelope.Intercept | src/common/http/response.interceptor.ts:35-64 | no contract of its own: the interceptor for one response, with the clock reading as a parameter; specified by the ResponseEnvelope.InterceptEnvelope, ResponseEnvelope.InterceptStatus and ResponseEnvelope.InterceptMessage rows |
| ResponseEnvelope.InterceptEnvelope | src/common/http/response.interceptor.ts:35-64 | skip-transform adds no envelope; otherwise the envelope is successful and carries the data and the timestamp unchanged |
| ResponseEnvelope.InterceptStatus | src/common/http/response.interceptor.ts:56 | a status of 0 becomes 200 and any other is kept |
| ResponseEnvelope.InterceptMessage | src/common/http/response.interceptor.ts:60 | a non-empty custom message overrides the method default; a missing or empty one does not |
| Uptime.SplitUptime | src/app.service.ts:27-30 | minutes and seconds lie in [0, 59] and `3600*h + 60*m + s` is the input |
| Uptime.RenderUptime | src/app.service.ts:31 | no contract of its own: the template `${hrs}h ${mins}m ${secs}s`; specified by the Uptime.RenderUptimeInjective row |
| Uptime.FormatUptime | src/app.service.ts:27-32 | no contract of its own: the split rendered as text; specified by the Uptime.SplitUptime, Uptime.FormatUptimeInjective and Uptime.HoursDoNotRollOver rows |
| Uptime.SplitUptimeUnique | src/app.service.ts:28-30 | any split with in-range minutes and seconds is the computed one |
| Uptime.RenderUptimeInjective | src/app.service.ts:31 | the "<h>h <m>m <s>s" text determines the three fields |
| Uptime.FormatUptimeInjective | src/app.service.ts:27-32 | different uptimes are never formatted alike |
| Uptime.HoursDoNotRollOver | src/app.service.ts:28-31 | 90061 seconds is "25h 1m 1s": hours are not folded into days |

## Left out

- Persistence is not modelled: Mongoose, MongoDB, indexes, `populate('userId')` joins, `lean()`, `toObject()` and the class-transformer serialisation. Collections are sequences and maps of plain values. The user of a balance or history entity is its id, not a populated user object.
- Concurrency is not modelled: interleaved adjustments, and the lost update between reading and writing a balance. Each call is one atomic step of the model. A failure between the balance save and the history save is not modelled either.
- Numbers are integers. Amounts, balances, ids, timestamps and uptime seconds are `int` or `nat`, so NaN, infinities and fractional amounts are absent. Pagination options keep fractions (`real`) so that flooring is modelled, but NaN is not.
- Timestamps come from a logical clock in the ledger and from a `now` parameter in the catalogue, where one reading serves both file names and `createdAt`. The ISO-8601 rendering of `new Date()` is a parameter in both envelopes.
- Ids are natural numbers: a history entry's id and a balance row's id are their positions in creation order. A malformed `ObjectId` in `deleteAd` (a cast error) is not modelled.
- User ids in the ledger are any values of `UserId`. In the source, a `userId` that is not a valid `ObjectId` makes Mongoose throw a cast error in `adjustPoints`, `getBalance`, `getHistory` and `getUserPointSummary`, and the request ends with status 500. The model has no such failure: every user id is accepted.
- Mongo's order among documents with equal sort keys is not modelled. The model's sort is stable.
- Net requests are not modelled: the S3 client, credentials, ACLs and the uploaded bytes. Each send's outcome is a parameter, and the stored requests record key and content type only.
- The logger is not modelled; every log line is appended to `errorLog`.
- Unicode is not modelled. NFD decomposition with removal of U+0300–U+036F is the parameter `unaccent`. `toLowerCase` covers ASCII and 'Đ' only.
- `path.extname` special cases are not modelled: directories in the name, and names made only of dots.
- Filename.GenerateCleanFilenameAsWritten: carries no contract of its own. The difference from the intended version is stated by Filename.AsWrittenKeepsUnderscore.
- Ads.AdsService.constructor: the catalogue is built with the corrected file-name cleaner `Filename.GenerateCleanFilename`. The source's `createAd` calls the cleaner as written, whose class keeps `_`, `@`, `[`, `^` and the other characters of `0-z`: for "a_b.png" the source stores `ads/images/<now>-a_b.png`, where the model stores `ads/images/<now>-a-b.png`. That difference is the finding below, and `Filename.GenerateCleanFilenameAsWritten` computes the source's names.
- Ads.AdsService.CreateAd: files already uploaded stay in storage when a later upload or the schema validation fails. The model records those requests and leaves them.
- Ads.AdsService.CreateAd: `createAdsDto` is mutated in place in the source. The model builds a new value, so aliasing with the caller's object is not captured.
- The other operations of the ads and storage modules are not modelled: `updateAd`, `findById` and the storage controller.
- `formatBytes` and the rest of the system-information endpoint (`getSystemInfo`, package versions, memory figures) are not modelled. They use floating-point logarithms and `toFixed`.
- The interceptor's `ClassSerializerInterceptor` pass (`serialize` with `excludeAll`) is not modelled. The data is carried unchanged, and skip-transform returns the data as it is.
- The decorator metadata lookups are not modelled; skip-transform and the custom message are parameters.
- Writing the error body to the response (`response.status().json()`) is not modelled.
- The status-name enumeration `HttpStatus[status]` is the parameter `statusName`. How `HttpException` builds its `message` from its response is not modelled; that message is a field of the thrown value.
- `messages[method]` on the plain object also finds inherited properties such as 'constructor'. The model's table holds only the five methods. HTTP request methods are upper-case tokens, so they never name such a property.

## Findings

| source | as written | input that shows it | evidently intended | confidence | as-written member | corrected member |
|---|---|---|---|---|---|---|
| src/common/utils/string.util.ts:17 | the class `[^a-z0-z0-9]` contains the range `0-z` (U+0030–U+007A), so `_`, `@`, `[`, `\`, `]`, `^`, `` ` ``, `:`–`?` survive in file names | "a_b.png" keeps "a_b" in its clean name | only `a-z` and `0-9` kept, as the comment "Replace non-alphanumeric with hyphens" says: "a_b" becomes "a-b" | high; not executed | Filename.AsWrittenKeepsUnderscore | Filename.CleanNameIsUrlSafe |

Filename.GenerateCleanFilenameAsWritten computes file names with the class as written. Filename.GenerateCleanFilename uses the intended class: the ads catalogue uses it, and Filename.IntendedReplacesUnderscore shows "a_b" becoming "a-b" with it.
