# SEC filing lister — a Dafny model

This project models the part of `SEC_utils.py` that has logic of its own: resolving a company
name to its SEC Central Index Key (CIK) and turning the SEC EDGAR submissions document into a
list of 10-K filing records. The network requests are not modelled. The registry's HTTP
status and entries are inputs, and so is the submissions document, given as a function of the
requested URL.

Modules (one file each):

- `Wrappers` (`wrappers.dfy`): `Option` for Python's `None`. `Result` for "returns a value or
  raises".
- `Text` (`text.dfy`): the Python string operations the pipeline uses. These are
  `str.zfill` (sign handling included), `str.replace('-', '')`, `str.lower` on ASCII, and
  `str(int)` for a non-negative integer, with `DecimalValue` as its inverse.
- `CikLookup` (`cik_lookup.dfy`): `get_cik_from_company_name`. A status other than 200 gives
  `None`. Otherwise the registry entries are scanned in order and the first whose lower-cased
  title equals the lower-cased name supplies `str(cik_str)`; if none matches, `None`.
- `FilingLister` (`filing_lister.dfy`): `get_SEC_filings`. The CIK is padded with
  `zfill(10)` and the submissions URL is built from it. `filings.recent` is read with the
  source's `.get` defaults. The collection loop walks the indices of `form` in order, stops
  as soon as `num_filings` records are held, and builds a record for each index whose form
  is `"10-K"`. The method `ProcessFilings` is that loop. It is proved equal to the
  function `Listing`, which builds the records of the first `num_filings` matching indices.
- `ListingProperties` (`listing_properties.dfy`): what the listing promises. This covers
  the count, the order, field alignment, URL shape, exactly when the code raises, and
  indifference to entries past the limit.

Python exceptions are modelled as `Failure` values of `FilingLister.Error`:

- `NoCik`: `None.zfill` when the company is unknown.
- `MissingField`: a `KeyError` on `filings[key]`.
- `IndexOutOfRange`: an `IndexError` on `...[i]`.

The dict literal of a record is evaluated field by field, so the first failing lookup decides
which error is raised.

Behaviour of the code worth noting:

- The CIK is `zfill(10)` of `str(cik_str)`. It is at least ten digits, and longer when the
  number has more than ten digits. It is not fixed-width.
- Ragged arrays are not skipped. A selected index that an array does not cover raises.
- Accession numbers are not checked for uniqueness.
- The missing-`reportDate` default `[""]` covers index 0 only. A selected 10-K at a later
  index raises `IndexError` when `reportDate` is absent (`MissingReportDateRaises`).

## Model

| member | source | states |
|---|---|---|
| `Text.ZFill` | SEC_utils.py:50 | `zfill(w)` has length `max(w, len)`. Without a leading sign it ends with the input and every added character is `'0'`. With a sign, the sign stays first and the zeros follow it. |
| `Text.ZFillIdempotent` | SEC_utils.py:50 | Padding a padded string again changes nothing. |
| `Text.ZFillKeepsValue` | SEC_utils.py:50 | Padding a digit string adds only leading zeros, so the result is all digits and denotes the same number. |
| `Text.LeadingZerosKeepValue` | SEC_utils.py:50 | Leading zeros do not change the number a digit string denotes. |
| `Text.PaddedCik` | SEC_utils.py:50 | The padded CIK of registry number `n` has length `max(10, len(str(n)))`. It is `'0'`s followed by `str(n)`, is all digits, and reads back as `n`. |
| `Text.StripDashes` | SEC_utils.py:68 | `replace('-', '')` leaves no `'-'` and keeps every other character with its multiplicity. |
| `Text.StripDashesAppend` | SEC_utils.py:68 | Dash removal distributes over concatenation, so kept characters keep their relative order. |
| `Text.StripDashesNoDash` | SEC_utils.py:68 | A dash-free string is unchanged. |
| `Text.StripDashesKeepsPrefix` | SEC_utils.py:68 | A dash-free prefix is kept as it is. |
| `Text.StripDashesDropsDash` | SEC_utils.py:68 | A leading dash is dropped. |
| `Text.StripDashesIdempotent` | SEC_utils.py:68 | Removing dashes twice is the same as once. |
| `Text.Lower` | SEC_utils.py:91 | Lower-casing keeps the length, leaves no ASCII capital, and changes only capitals, each to its lower-case letter. |
| `Text.LowerIdempotent` | SEC_utils.py:91 | Lower-casing a lower-cased string changes nothing. |
| `Text.DecimalString` | SEC_utils.py:92 | `str(n)` is a non-empty string of digits with no leading zero, and it is exactly `"0"` when `n == 0`. |
| `Text.DecimalRoundTrip` | SEC_utils.py:92 | Reading back the digits of `str(n)` gives `n`. |
| `CikLookup.GetCikFromCompanyName` | SEC_utils.py:86-93 | The status check and the scanning loop return exactly `Lookup(status, entries, name)`. |
| `CikLookup.FindCik` | SEC_utils.py:90-93 | No contract. This is the definition of the scan over the registry entries; `FindCikFirstMatch` characterises it. |
| `CikLookup.Lookup` | SEC_utils.py:87-93 | No contract. This is the definition of the lookup, status check included; `LookupSpec` characterises it. |
| `CikLookup.FindCikFirstMatch` | SEC_utils.py:90-93 | The scan returns `None` iff no title matches. When entry `k` is the first match, it returns `str(cik_str)` of entry `k`. |
| `CikLookup.LookupSpec` | SEC_utils.py:87-93 | The lookup returns `Some` iff the status is 200 and some title matches, case-insensitively. Its value is the first matching entry's `str(cik_str)`. |
| `CikLookup.FoundCikIsDecimal` | SEC_utils.py:92 | A found CIK is a non-empty digit string that reads back as the `cik_str` of a matching entry. |
| `CikLookup.FirstMatchIndex` | SEC_utils.py:90-91 | When some title matches, there is a first matching entry. |
| `FilingLister.SubmissionsUrl` | SEC_utils.py:51 | No contract. This is the definition of the submissions URL; `SecFilingsSpec` states that the document is fetched from it. |
| `FilingLister.ArchiveUrl` | SEC_utils.py:68 | No contract. This is the definition of the filing URL; `BuildRecordSpec` and `TenKListing` state how each record's URL is built. |
| `FilingLister.RecentOf` | SEC_utils.py:57 | No contract. This is the definition of the `.get("filings", {}).get("recent", {})` chain; `SecFilingsSpec` characterises its use. |
| `FilingLister.BuildRecord` | SEC_utils.py:63-71 | No contract. This is the definition of the dict literal, evaluated field by field; `BuildRecordSpec` characterises it. |
| `FilingLister.BuildAll` | SEC_utils.py:63-71 | No contract. This is the definition of the appends in index order; `BuildAllSpec` and `BuildAllFirstFailure` characterise it. |
| `FilingLister.Matching` | SEC_utils.py:59-62 | No contract. This is the definition of the form filter; `MatchingBounds`, `MatchingSpec` and `MatchingCount` characterise it. |
| `FilingLister.Selected` | SEC_utils.py:59-62 | No contract. This is the definition of the `break` at the limit; `SelectedPrefix` and `SelectedSpec` characterise it. |
| `FilingLister.Listing` | SEC_utils.py:57-72 | No contract. This is the definition of the collection loop's result; `ListingCount`, `ListingRecords`, `ListingSucceedsIff` and `ListingFailure` characterise it. |
| `FilingLister.SecFilings` | SEC_utils.py:50-72 | No contract. This is the definition of `get_SEC_filings`' result; `SecFilingsSpec` and `UnknownCompanyRaises` characterise it. |
| `FilingLister.ProcessFilings` | SEC_utils.py:57-72 | The collection loop, with its early `break` and the exceptions of its lookups, returns exactly `Listing`. That is the records of the first `num_filings` matching indices, or the first error among them. |
| `FilingLister.GetSecFilings` | SEC_utils.py:50-72 | Lookup, `zfill(10)`, the submissions fetch and the loop together return exactly `SecFilings`; `num_filings` defaults to 5. |
| `FilingLister.MatchingPrefix` | SEC_utils.py:59-62 | The matching indices seen up to `i` begin those seen up to any later `n`. |
| `FilingLister.BuildAllLength` | SEC_utils.py:63-71 | Each built index adds exactly one record. |
| `FilingLister.BuildAllFailurePersists` | SEC_utils.py:63-71 | An exception while building a record ends the listing with that exception, whatever follows. |
| `FilingLister.BuildAllStep` | SEC_utils.py:62-71 | A matching index whose record builds appends that record. |
| `FilingLister.BuildAllStepFailure` | SEC_utils.py:63-71 | A matching index whose record fails ends the run with its error. |
| `FilingLister.SelectedExtends` | SEC_utils.py:59-62 | While under the limit, the matches seen so far begin the selected indices. |
| `FilingLister.LoopExit` | SEC_utils.py:59-61 | Whether the loop ends at the limit or at the end of `form`, it has seen exactly the selected indices. |
| `FilingLister.LoopFailure` | SEC_utils.py:60-71 | A failing record within the limit makes the listing fail with its error. |
| `ListingProperties.BuildRecordSpec` | SEC_utils.py:63-70 | A record builds iff every field lookup of its index succeeds. It then holds that index's slot of every array, and its URL is built from that slot. |
| `ListingProperties.BuildAllSpec` | SEC_utils.py:59-71 | A run of records builds iff each record does. The results then come in index order, one per index. |
| `ListingProperties.BuildAllFirstFailure` | SEC_utils.py:63-71 | A failing run raises the error of its first failing record, and all earlier records built. |
| `ListingProperties.MatchingBounds` | SEC_utils.py:59-62 | Every matching index is a slot of `form` with a requested form type. |
| `ListingProperties.MatchingSpec` | SEC_utils.py:59-62 | Matching indices are strictly ascending and include every slot with a requested form. |
| `ListingProperties.MatchingCount` | SEC_utils.py:59-62 | There are as many matching indices as slots whose form is requested. |
| `ListingProperties.SelectedPrefix` | SEC_utils.py:59-62 | The indices the loop takes are the first `min(num_filings, matches)` matching indices. |
| `ListingProperties.SelectedSpec` | SEC_utils.py:59-62 | The taken indices ascend, each has a requested form, and no matching slot before the last taken one is skipped. |
| `ListingProperties.ListingCount` | SEC_utils.py:59-62 | The number of records is `min(num_filings, count of i with form[i] in filing_types)`, a negative limit counting as 0. |
| `ListingProperties.EmptyListing` | SEC_utils.py:57-61 | `num_filings <= 0`, or no `form` array, gives the empty list. |
| `ListingProperties.ListingRecords` | SEC_utils.py:62-71 | Record `k` comes from the `k`-th taken index. Every field is that index's slot. Its form type is requested. |
| `ListingProperties.ListingSucceedsIff` | SEC_utils.py:63-70 | The listing raises iff some taken index lacks a field. Ragged slots after the limit never matter. |
| `ListingProperties.ListingFailure` | SEC_utils.py:63-70 | The raised error is that of the first taken index whose record fails; all earlier taken indices are complete. |
| `ListingProperties.AlignedArraysSucceed` | SEC_utils.py:63-70 | When every indexed array is present and at least as long as `form`, the listing never raises. |
| `ListingProperties.MissingReportDateRaises` | SEC_utils.py:67 | With no `reportDate` array, a taken index past 0 raises. |
| `ListingProperties.ListingPrefix` | SEC_utils.py:59-61 | With a smaller limit, the list is a prefix of the list for a larger limit. |
| `ListingProperties.MatchingExtend` | SEC_utils.py:59-62 | Appending slots to `form` leaves the earlier matching indices unchanged. |
| `ListingProperties.LaterEntriesIgnored` | SEC_utils.py:59-61 | Once `num_filings` matches exist, appending any entries to `form` leaves the result unchanged. |
| `ListingProperties.BuildAllPrefix` | SEC_utils.py:59-71 | Building a prefix of the indices gives a prefix of the records. |
| `ListingProperties.BuildAllCongruent` | SEC_utils.py:63-71 | Arrays giving the same record at every taken index give the same listing. |
| `ListingProperties.UnknownCompanyRaises` | SEC_utils.py:50 | An unmatched name, or a registry status other than 200, makes `get_SEC_filings` raise (`NoCik`). It does not return an empty list. |
| `ListingProperties.TenKListing` | SEC_utils.py:53-71 | With `["10-K"]`, there are at most `num_filings` records. Each is a 10-K whose URL is the archive path of its own accession number (dashes removed) and primary document. |
| `ListingProperties.SecFilingsSpec` | SEC_utils.py:50-72 | End to end, there are at most `num_filings` records, all 10-Ks. Their URLs sit under the CIK `str(cik_str).zfill(10)` of the first matching registry entry, which has at least ten digits and denotes that `cik_str`. The result is the listing of the submissions document fetched for that CIK. |
| `ListingProperties.DefaultListsAtMostFive` | SEC_utils.py:43 | Without an explicit `num_filings`, a successful call returns at most five records. |
| `ListingProperties.AccessionSegment` | SEC_utils.py:68 | An accession number `x-y-z` with dash-free groups yields the URL segment `xyz`, e.g. `0000320193-23-000106` becomes `000032019323000106`. |

## Left out

- `scrape_sec_filing` (SEC_utils.py:29-41): an HTTP GET, HTML tag stripping by BeautifulSoup, and a file write. It is I/O and foreign-library behaviour.
- `store_10k_content` (SEC_utils.py:94-104): a web loader fetch, a text splitter whose algorithm lives in a library, and insertion into a Chroma store with remote embeddings. These are foreign calls over floating-point vectors.
- `retrieve_context` (SEC_utils.py:106-114): a similarity search in the vector store, a foreign call.
- The module-level embedding client, vector store, `USER_AGENT` setting, agent creation, prompt and streaming output (SEC_utils.py:16-28, 116-135). This is configuration and UI. The stray token at line 126 would raise `NameError` when the module is run; it is not modelled.
- `llm.py`: it only constructs hosted language-model clients.
- `multi_agent custom_state.py`: agents plus tools that list a directory, read a file and ask the model for a summary, and write `debug.txt` and a model-reformatted copy of a file. It is file I/O and model calls, with nothing from `SEC_utils.py`.
- The HTTP requests and `response.json()` (SEC_utils.py:55-56, 86, 89): the parsed results are inputs. The submissions response's status is not checked by the source, and the model does not check it either. A body that is not JSON, or a transport failure, would raise and is not modelled.
- JSON values of unexpected types: a registry entry without `title`, a non-integer `cik_str`, a non-string array element, or `filings` that is not an object. The model types these values, so the corresponding `KeyError`/`TypeError` paths are not represented.
- The f-string at SEC_utils.py:68 nests double quotes. That needs Python 3.12 or later; the model assumes such an interpreter.
- `Text.Lower`: lower-cases ASCII letters only. Python's `str.lower` also folds non-ASCII letters (and can change a string's length), so two non-ASCII titles that Python treats as equal may not match in the model.
