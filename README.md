# XPS Config Search, modelled in Dafny

The XPS Config Search component lets a user upload a device configuration
document (JSON groups of `var`/`idx`/`val`/`attr` parameter records). It
joins every parameter record against a reference dataset of variable
descriptors (`variable_id`, `name`, `value`), resolves each match into a
display row, filters the rows by a query, and shows them in a paginated table.
A query can be empty (all rows), numeric (match on `var`), or anything else
(case-insensitive substring of the descriptor's `name`).

The model covers the component's logic end to end:

- `Records`: the parsed JSON records and the display row.
- `JsText`, `JsNumber`: the JavaScript built-ins the logic depends on.
  - `toLowerCase` and `includes`.
  - The decimal rendering of numbers.
  - `isNaN` on a string: the StringNumericLiteral grammar of section 7.1.4.1 of ECMA-262 (ToNumber applied to the String type).
  - `parseInt` with no radix argument.
- `Resolve`: the value resolution of `formatIdx`, `capitalizeFirstLetter`,
  `formatParamValue` and `processConfigData`, as functions.
- `Search`: `handleSearch`.
  - `SearchRows` and `ScanRows` hold the outer and the inner loop.
  - It is proved equal to the recursive specification `Search`.
  - Lemmas cover order, membership, count, filtering and the three query kinds.
- `ConfigLoader`: the onload handler's flattening loop.
  - `FlattenConfig` is proved equal to `Load`.
  - Lemmas cover success and failure, length, and the position of every record.
- `Paging`: the table body's `slice` and row numbering.
- `Session`: the component's state hooks, as the class `SearchSession`.
  - Each handler is a method that changes exactly the fields it sets.
  - The two effects become the methods `FetchData` and `ConfigsChanged`.
  - The invariant `Valid` says that `results` and `noData` always come from one search.

Four behaviours of the code worth knowing:

- `"12abc"` is *not* numeric for `isNaN`. A query with trailing letters therefore
  takes the name-substring branch (`JsNumber.TrailingLettersAreNotNumeric`).
- A failed upload does not surface an error message. `JSON.parse` or a
  missing `config`/`params` key throws inside the reader's onload handler,
  so nothing is stored. The model returns the reason as a `LoadError` and
  leaves the session unchanged (`Session.SearchSession.ConfigRead`).
- The `.json` accept attribute of the file input is only a hint to the
  browser. No code rejects other files, so there is no file-type error.
- A search does not reset the page. Only a page-size change does.

## Model

| member | source | states |
|---|---|---|
| JsText.ToLower | src/components/SearchConfig.js:107 | lower-casing keeps the length, maps every character by LowerChar and leaves no upper-case ASCII letter |
| JsText.ToLowerIdempotent | src/components/SearchConfig.js:107 | lower-casing twice equals lower-casing once |
| JsText.ToLowerIgnoresUpperCase | src/components/SearchConfig.js:107 | a string and its upper-cased form lower-case alike |
| JsText.ContainsIff | src/components/SearchConfig.js:107 | `includes` holds exactly when the needle occurs at some position of the haystack, both directions |
| JsText.Contains | src/components/SearchConfig.js:107 | `includes`; described by ContainsIff: true exactly when the needle occurs at some position |
| JsText.NatToString | src/components/SearchConfig.js:62-64 | the rendering of a natural number is a non-empty digit string without leading zero whose decimal value is that number |
| JsText.IntToString | src/components/SearchConfig.js:62-64 | a negative number renders as "-" and its magnitude's digits, any other number as its digits |
| JsNumber.TrimStart | src/components/SearchConfig.js:102 | the result is a suffix of the input, every dropped character is white space and the result does not start with white space |
| JsNumber.TrimEnd | src/components/SearchConfig.js:102 | the result is a prefix of the input, every dropped character is white space and the result does not end with white space |
| JsNumber.IsNumeric | src/components/SearchConfig.js:102 | `!isNaN(query)`; described by IntToStringIsNumeric, DigitStringIsNumeric, TrailingLettersAreNotNumeric, FractionIsNumeric, BlankIsNumericWithoutValue and HexIsNumeric |
| JsNumber.ParseInt | src/components/SearchConfig.js:103 | `parseInt(query)`; described by LeadingDigits, IntToStringIsNumeric (round trip with IntToString), DigitStringIsNumeric and the four concrete lemmas |
| JsNumber.DigitRunEnd | src/components/SearchConfig.js:103 | the returned end bounds the longest run of radix digits from the start position: all digits before it, a non-digit at it |
| JsNumber.LeadingDigits | src/components/SearchConfig.js:103 | parseInt reads the longest run of digits at the start, all of them digits of the radix |
| JsNumber.DigitStringIsNumeric | src/components/SearchConfig.js:102-103 | a decimal digit string (leading zeros allowed) is numeric and parseInt gives its decimal value |
| JsNumber.IntToStringIsNumeric | src/components/SearchConfig.js:102-103 | the rendering of any integer is numeric and parseInt reads that integer back |
| JsNumber.TrailingLettersAreNotNumeric | src/components/SearchConfig.js:102-103 | "12abc" is not numeric, although parseInt reads 12 from it |
| JsNumber.FractionIsNumeric | src/components/SearchConfig.js:102-103 | "1.5" is numeric and parseInt reads 1 from it |
| JsNumber.BlankIsNumericWithoutValue | src/components/SearchConfig.js:102-103 | " " is numeric but parseInt reads no number (NaN), so no `var` matches it |
| JsNumber.HexIsNumeric | src/components/SearchConfig.js:102-103 | "0x1F" is numeric and parseInt reads 31 |
| Resolve.Join | src/components/SearchConfig.js:62 | joining no parts is "", joining one part is that part |
| Resolve.JoinAppend | src/components/SearchConfig.js:62 | joining a concatenation is the two joins with one separator between them |
| Resolve.IntStrings | src/components/SearchConfig.js:62 | each number of the array is rendered in place, same length |
| Resolve.JoinIntsAppend | src/components/SearchConfig.js:62 | `join(", ")` of two non-empty number arrays concatenated is their joins with ", " between |
| Resolve.FormatIdx | src/components/SearchConfig.js:60-65 | the index display is bracketed and holds the scalar's rendering or the array's ", "-join |
| Resolve.FormatIdxScalarIsSingleton | src/components/SearchConfig.js:60-65 | a scalar index displays as the one-element array holding it |
| Resolve.FormatIdxSplit | src/components/SearchConfig.js:61-62 | the display of a concatenated array index is the bracketed joins of the two parts with one ", " between, order kept |
| Resolve.FormatIdxExamples | src/components/SearchConfig.js:60-65 | 5 shows as "[5]" and [] as "[]" |
| Resolve.FormatIdxListExample | src/components/SearchConfig.js:61-62 | [1, 2, 3] shows as "[1, 2, 3]" |
| Resolve.CapitalizeFirstLetter | src/components/SearchConfig.js:67-69 | same length, first character upper-cased, the rest unchanged, "" stays "" |
| Resolve.CapitalizeIdempotent | src/components/SearchConfig.js:67-69 | capitalising twice equals capitalising once |
| Resolve.CapitalizeKeepsLowerCase | src/components/SearchConfig.js:67-69 | capitalising does not change the lower-cased form |
| Records.ValText | src/components/SearchConfig.js:74 | `String(val)`: the number's decimal rendering or the string itself; described by NumberAndStringKeysAgree |
| Resolve.Label | src/components/SearchConfig.js:74 | `value[val]`, "undefined" when absent; described by MissingKeyShowsUndefined and MissingKeyRowValue |
| Resolve.FormatParamValue | src/components/SearchConfig.js:71-75 | a string `value` is shown as it is; an object `value` shows the label of String(val) followed by " (val)" |
| Resolve.LiteralIgnoresRawValue | src/components/SearchConfig.js:72-73 | with a string `value` the parameter's `val` does not affect the display |
| Resolve.NumberAndStringKeysAgree | src/components/SearchConfig.js:74 | a numeric `val` and its decimal string look up the same label and display alike |
| Resolve.MissingKeyShowsUndefined | src/components/SearchConfig.js:74 | a `val` absent from the lookup object shows as "undefined (val)" |
| Resolve.ProcessConfigData | src/components/SearchConfig.js:77-91 | a row exactly when `var` equals `variable_id`, with `var`, `attr` from the record, `name` from the descriptor, formatted `idx` and capitalised value |
| Resolve.MakeRow | src/components/SearchConfig.js:82-88 | the row object literal of processConfigData; described by ProcessConfigData's ensures: `var` and `attr` from the record, `name` from the descriptor, formatted `idx` and capitalised value |
| Resolve.MissingKeyRowValue | src/components/SearchConfig.js:74-86 | in the row, a missing lookup key shows as "Undefined (val)" |
| Resolve.ResolveExamples | src/components/SearchConfig.js:71-75 | a literal "Celsius" shows as "Celsius"; `val` "1" against {"0": "Off", "1": "On"} shows as "On (1)" |
| Resolve.FanSpeedRow | src/components/SearchConfig.js:77-91 | parameter 7, idx 0, val "1", attr "rw" against "Fan Speed" {"0": "Low", "1": "High"} gives the row 7, "Fan Speed", "[0]", "High (1)", "rw" |
| Search.QueryMatches | src/components/SearchConfig.js:100-110 | the three query branches; described by PairResultIff, NumericQueryRows, NameQueryRows, IdQueryRows and NameQueryIgnoresCase |
| Search.Search | src/components/SearchConfig.js:93-117 | the `filteredResults` of handleSearch; described by SearchRows, SearchMembership, SearchCount, SearchIsFilter and the order lemmas |
| Search.PairResult | src/components/SearchConfig.js:99-111 | the outcome of one inner iteration; described by PairResultIff (a row exactly when the identifiers match and the query admits the pair) and PairRefines (the empty query's outcome, kept only when the query admits it) |
| Search.ScanDataset | src/components/SearchConfig.js:98-116 | what the inner forEach pushes for one record; described by ScanAppend, ScanMembership, ScanCount and ScanGroupsByDescriptor |
| Search.NestedScan | src/components/SearchConfig.js:97-117 | what the two nested loops push; described by NestedAppend, NestedMembership and NestedCount |
| Search.PairRow | src/components/SearchConfig.js:99-111 | the three query branches compute exactly the pair's specified result |
| Search.ScanRows | src/components/SearchConfig.js:98-116 | the inner loop appends exactly one record's scan of the dataset and counts it in `z` |
| Search.SearchRows | src/components/SearchConfig.js:93-121 | the nested loops return exactly the rows of the Search specification, and `z` is their number |
| Search.ScanAppend | src/components/SearchConfig.js:98-116 | scanning a concatenated dataset is scanning each part in turn |
| Search.NestedAppend | src/components/SearchConfig.js:97-117 | scanning a concatenated config list is scanning each part in turn |
| Search.SearchGroupsByConfig | src/components/SearchConfig.js:97-117 | the result is the rows of earlier configs, then config i's, then later configs' |
| Search.ScanGroupsByDescriptor | src/components/SearchConfig.js:98-116 | within one config, rows follow dataset order |
| Search.PairResultIff | src/components/SearchConfig.js:99-111 | a pair yields a row exactly when the query admits it and the identifiers match, and that row is processConfigData's |
| Search.ScanMembership | src/components/SearchConfig.js:98-116 | a row is in one config's scan exactly when some descriptor yields it |
| Search.NestedMembership | src/components/SearchConfig.js:97-117 | a row is in the nested scan exactly when some (config, descriptor) pair yields it |
| Search.SearchMembership | src/components/SearchConfig.js:97-117 | a row is in the search result exactly when some pair yields it for that query |
| Search.EmptyQueryIsJoin | src/components/SearchConfig.js:100-101 | with the empty query a row is returned exactly when it is the processed row of a pair with matching identifiers |
| Search.ScanCount | src/components/SearchConfig.js:98-116 | one record's scan pushes one row per descriptor position whose step yields a row |
| Search.NestedCount | src/components/SearchConfig.js:97-117 | the nested scan pushes one row per (config, descriptor) index pair whose step yields a row |
| Search.SearchCount | src/components/SearchConfig.js:112-115 | the number of rows (hence `z`) is the number of index pairs that yield a row |
| Search.EmptyQueryCount | src/components/SearchConfig.js:100-115 | with the empty query the number of rows is the number of index pairs with matching identifiers |
| Search.FilterMembership | src/components/SearchConfig.js:99-110 | a row survives a filter exactly when it was present and is accepted |
| Search.PairRefines | src/components/SearchConfig.js:99-111 | a query's outcome for a pair is the empty query's outcome, kept exactly when the query admits its row |
| Search.ScanRefines | src/components/SearchConfig.js:98-116 | a step that keeps another step's rows by a test scans to the other's scan filtered by that test, order kept |
| Search.NestedRefines | src/components/SearchConfig.js:97-117 | the same for the nested scan: the refined step's rows are the other's rows filtered, order kept |
| Search.SearchIsFilter | src/components/SearchConfig.js:99-110 | every query's result is the empty query's result with the rows it does not admit removed, order kept |
| Search.SearchIsSubsequenceOfAll | src/components/SearchConfig.js:97-117 | every query's result is a subsequence of the empty query's result |
| Search.NumericQueryRows | src/components/SearchConfig.js:102-105 | with a numeric query every returned row's `var` is parseInt of the query |
| Search.NameQueryRows | src/components/SearchConfig.js:106-109 | with a non-numeric query every returned row's name contains the query, ignoring case |
| Search.IdQueryRows | src/components/SearchConfig.js:102-105 | typing a variable's ID returns exactly the empty query's rows of that variable, both directions |
| Search.NameQueryIgnoresCase | src/components/SearchConfig.js:107 | name queries equal up to case return the same rows |
| Search.SearchSinglePair | src/components/SearchConfig.js:97-117 | one config and one descriptor give that pair's result or nothing |
| Search.FanSpeedSearchAll | src/components/SearchConfig.js:93-121 | the fan-speed scenario with the empty query returns its single resolved row |
| Search.OtherIdFindsNothing | src/components/SearchConfig.js:102-105 | searching one pair for an ID other than the record's `var` returns nothing |
| Search.FanSpeedSearchOtherId | src/components/SearchConfig.js:102-105 | the fan-speed scenario with query "99" returns nothing |
| ConfigLoader.Flatten | src/components/SearchConfig.js:34-43 | the flattened `config[].params[]` list or the first group without `params`; described by FlattenOutcome, FlattenLength, FlattenAppend and FlattenPosition |
| ConfigLoader.Load | src/components/SearchConfig.js:31-45 | what the onload handler stores, or why it throws; described by FlattenConfig and FlattenOutcome |
| ConfigLoader.FlattenConfig | src/components/SearchConfig.js:31-45 | the onload loop stores exactly the Load specification's list, or fails with its reason |
| ConfigLoader.FailurePropagates | src/components/SearchConfig.js:34-35 | once a prefix of the groups fails, the whole document fails with the same reason |
| ConfigLoader.FlattenOutcome | src/components/SearchConfig.js:34-35 | flattening succeeds exactly when every group has `params`, and a failure names the first group without them |
| ConfigLoader.FlattenLength | src/components/SearchConfig.js:32-43 | the flat list holds as many records as all `params` lists together |
| ConfigLoader.FlattenAppend | src/components/SearchConfig.js:34-43 | flattening concatenated groups concatenates their flat lists |
| ConfigLoader.FlattenPosition | src/components/SearchConfig.js:34-42 | record k of group i is copied to position (records before group i) + k, unchanged |
| Paging.PageRows | src/components/SearchConfig.js:195 | the rows of the current page; described by PageShape, EveryRowOnItsPage and PagingExample |
| Paging.RowNumber | src/components/SearchConfig.js:198 | `page * rowsPerPage + index + 1`; described by RowNumberNamesItsRow and RowOnOnePage |
| Paging.Slice | src/components/SearchConfig.js:195 | `slice` clamps both ends to the length and returns the elements from the start, in order |
| Paging.PageShape | src/components/SearchConfig.js:195 | a page holds min(page size, rows left) rows starting at page × size, never more than the page size, none past the end |
| Paging.RowNumberNamesItsRow | src/components/SearchConfig.js:195-198 | the number beside a row is that row's 1-based position in the results |
| Paging.EveryRowOnItsPage | src/components/SearchConfig.js:195 | with a positive page size, result k appears on page k / size at position k % size |
| Paging.RowOnOnePage | src/components/SearchConfig.js:195-198 | a displayed row's position determines its page and offset, so no result is shown on two pages |
| Paging.PagingExample | src/components/SearchConfig.js:195 | 23 results in pages of 10: page 2 holds results 20–22, page 5 is empty |
| Session.SearchSession.constructor | src/components/SearchConfig.js:13-20 | the initial hook values: empty query, configs, dataset and results, page 0, no "No Data Found", 25 rows per page, no file |
| Session.SearchSession.SetQuery | src/components/SearchConfig.js:150 | typing changes the query only and searches nothing |
| Session.SearchSession.HandleSearch | src/components/SearchConfig.js:93-121 | results become the search of the current configs, dataset and query; noData holds exactly when there are none |
| Session.SearchSession.KeyDown | src/components/SearchConfig.js:138-142 | Enter searches the current configs, dataset and query and records them as the last search; any other key leaves results and noData unchanged |
| Session.SearchSession.ConfigsChanged | src/components/SearchConfig.js:54-58 | a non-empty configs list is searched and recorded as the last search; an empty one leaves the previous results |
| Session.SearchSession.ConfigRead | src/components/SearchConfig.js:30-46 | a document that loads replaces configs and is searched when non-empty; one that fails changes nothing |
| Session.SearchSession.FileChange | src/components/SearchConfig.js:132-136 | a non-empty selection marks a file chosen; an empty one changes nothing |
| Session.SearchSession.FetchData | src/components/SearchConfig.js:22-52 | the fetched dataset replaces the old one; with a file chosen its document is loaded as ConfigRead does |
| Session.SearchSession.ChangePage | src/components/SearchConfig.js:123-125 | the page becomes the chosen one, nothing else changes |
| Session.SearchSession.ChangeRowsPerPage | src/components/SearchConfig.js:127-130 | the page size becomes the chosen one and the page goes back to 0 |
| Session.SearchSession.DisplayedRows | src/components/SearchConfig.js:176-205 | under "No Data Found" no row is shown, otherwise the current page of the results |
| Session.SearchSession.DisplayedNumber | src/components/SearchConfig.js:198 | the number in a shown row's first column; described by DisplayedRowsAreResults |
| Session.SearchSession.RecordCount | src/components/SearchConfig.js:171 | the "Records:" figure, the number of results; described by DisplayedRowsAreResults and, for the last search, SearchCount |
| Session.SearchSession.DisplayedRowsAreResults | src/components/SearchConfig.js:194-198 | a shown row is among the last search's rows, numbered by its position in them, and a page shows at most the page size |

## Left out

- Rendering is not modelled: React's scheduling, the MUI table widgets and the stylesheet. State updates are modelled as taking effect at once, in handler order.
- The stale-upload race is not modelled. A new upload started while an older read is pending could be overwritten by the older one.
- `FetchData` replaces the dataset and reads the upload in one step. The code first awaits `fetch` and only then reads the file, so a search run in between, with the old configs against the new dataset, is not modelled.
- `fetch` and `FileReader` are I/O. The fetched dataset and the parsed upload reach `FetchData` and `ConfigRead` as parameters.
- A failed dataset fetch is left out. It rejects the effect's promise and nothing is stored.
- `JSON.parse` is left out. Text it rejects appears as the `None` upload.
- Only the JSON shapes the logic relies on are modelled:
  - an `idx` is a number or an array of numbers;
  - a `val` is a number or a string;
  - a descriptor `value` is a string or an object of strings.
  - a record's `var` and a descriptor's `variable_id` are integers, and `name` and `attr` are strings. A string `var` such as "7" is not modelled: in JavaScript it fails the `===` test against a numeric `variable_id` and never equals `parseInt(query)`.
- Missing per-parameter fields (`undefined` in the pushed record) are not modelled.
- Property lookup through the object prototype chain is not modelled (e.g. a `val` of "toString").
- The file object and its name are not modelled, only whether one was chosen, so the "Uploaded File:" caption is left out. `RecordCount` gives its "Records:" figure.
- Numbers are mathematical integers:
  - floating-point `val`/`idx` values are left out;
  - `parseInt` precision loss on long digit strings and `-0` are left out;
  - JavaScript's exponent notation for very large numbers is left out.
- JsText.ToLower: ASCII case mapping only. JavaScript's full Unicode `toLowerCase` is not modelled.
- Strings are modelled as sequences of Unicode code points, not of UTF-16 code units as in JavaScript. Lone surrogates cannot be represented, and lengths differ for characters outside the Basic Multilingual Plane.
- Resolve.CapitalizeFirstLetter: ASCII upper-casing of the first character only. Unicode `toUpperCase` (e.g. "ß" becoming "SS") is not modelled.
- Paging.Slice: only non-negative bounds. The page and page size are `nat` because the pagination widget supplies no negative values.
