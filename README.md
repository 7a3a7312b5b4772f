# Firmware filter — a verified model

The Firmware-Dataset tool picks firmware images out of a CSV catalog and
hands their URLs to a downloader. This project models the selection core of
`src/firmware_filter.py` in Dafny and proves what it promises. The core has
three parts:

- **Keyword tables** (`DOMAIN_KEYWORDS`, `INDUSTRY_KEYWORDS`). These are two
  fixed maps from a domain or industry tag to a list of lower-case
  substrings. The module `KeywordTables` copies them word for word.
- **`filter_firmware`**. It collects a keyword list: the domain's keywords,
  then the industry's, then the custom ones. With no keywords and no vendor
  it returns `[]`. Otherwise it scans the catalog once. A row is skipped when
  a vendor is given and the row's vendor differs from it, ignoring case. The
  row is kept when there are no keywords, or when some keyword, lower-cased,
  occurs in the row's lower-cased product name or URL. The method
  `FirmwareFilter.FilterFirmware` models this with the source's loop. It is
  proved to compute the specification function `FirmwareFilter.Filtered`.
  That function states the scan one row at a time, as `Scan`.
- **The pure part of `download_filtered_firmware`**. With a positive limit
  the list is cut to its first `limit` rows. Then each row's `url` column is
  read. The module `Download` models this step.

Modules:

- `Text`: ASCII lower-casing and the substring test `IsSubstring`.
  `IsSubstring` means Python's `needle in text`; it is proved equal to "occurs
  at some position".
- `Records`: a catalog row is a `map<string, string>`.
  `Field(r, key)` is `row.get(key, '')`. A `Result` models `row[key]`: its
  `KeyError` case names the missing key and the index of the row.
- `FilterProperties`: the generic filter `Keep`, the reference selection
  `Select` (a list comprehension) and the properties of `filter_firmware`.
- `Scenarios`: two worked examples on a two-row catalog.

The model follows the code on these points:

- The code does not treat a missing `vendor` column as empty. With a vendor
  given, `firmware['vendor']` (line 152) raises `KeyError` at the first row
  that lacks the column, and the model returns that error.
- `item['url']` (line 182) raises `KeyError` in the same way.
- The keyword "set" is a list built with `extend`. Duplicates are kept, and
  the order is domain, then industry, then custom.
- Python's optional arguments are tested for truthiness. For a vendor, domain
  or industry, `None` (`Option.None`) and `""` both mean "not given". For the
  custom keywords, `None` and `[]` both mean "not given". For the limit,
  `None`, `0` and negative numbers all mean "no cap".

## Model

| member | source | states |
|---|---|---|
| Text.LowerChar | src/firmware_filter.py:152 | lower-casing one character turns 'A'..'Z' into the matching letter of 'a'..'z', so the result is never upper-case, and leaves every other character alone |
| Text.Lower | src/firmware_filter.py:152 | the ASCII model of `str.lower()` keeps the length and lower-cases each character in place |
| Text.LowerOfLowerCase | src/firmware_filter.py:161-162 | a keyword that is already lower-case, as the tables' keywords are, is unchanged by `keyword.lower()` |
| Text.LowerIsLower | src/firmware_filter.py:152 | `str.lower()` leaves no upper-case letter, and a string is unchanged by it exactly when it is already lower-case |
| Text.LowerIdempotent | src/firmware_filter.py:152 | lower-casing twice is the same as lower-casing once |
| Text.IsSubstringIff | src/firmware_filter.py:161-162 | `keyword in text` holds exactly when the keyword occurs in the text at some position |
| Text.EmptyIsSubstring | src/firmware_filter.py:161-162 | the empty keyword occurs in every text, so it matches every row |
| Records.FirstLacking | src/firmware_filter.py:152 | the row where `row['vendor']` raises is the first one without the column: it lacks the column and every earlier row has it |
| KeywordTables.DomainTableWellFormed | src/firmware_filter.py:27-57 | the domain table has exactly the tags wifi, iot, camera, storage, printer, voip and modem, and each tag's list is non-empty, with every keyword non-empty and lower-case |
| KeywordTables.IndustryTableWellFormed | src/firmware_filter.py:60-70 | the industry table has exactly its nine tags, and each tag's list is non-empty, with every keyword non-empty and lower-case |
| FirmwareFilter.CollectKeywords | src/firmware_filter.py:128-141 | the collected list is `Keywords`: the known domain's list, then the known industry's, then the custom keywords when the list is non-empty; an unknown or empty tag adds nothing |
| FirmwareFilter.FilterFirmware | src/firmware_filter.py:114-171 | the loop returns `Filtered`: `[]` without criteria; otherwise the rows kept by the one-row-at-a-time scan, or `KeyError('vendor')` at the first row without a vendor column |
| FirmwareFilter.ScanKeepsError | src/firmware_filter.py:150-153 | once a row has raised, the later rows do not change the outcome |
| FirmwareFilter.ScanStep | src/firmware_filter.py:150-169 | one more input row either raises (vendor given, column missing), or is kept when it passes the test, or leaves the list unchanged |
| FilterProperties.AnyKeywordInIff | src/firmware_filter.py:161-162 | `any(k.lower() in t for k in keywords)` holds exactly when some keyword, lower-cased, is a substring of `t` |
| FilterProperties.KeywordTestIff | src/firmware_filter.py:151-169 | with keywords, a row passes exactly when it passes the vendor test and some lower-cased keyword occurs in its lower-cased product or URL, where a missing column reads as "" |
| FilterProperties.KeywordsEmptyIff | src/firmware_filter.py:129-141 | the keyword list is empty exactly when no known domain, no known industry and no non-empty custom list is given |
| FilterProperties.KeywordSources | src/firmware_filter.py:129-141 | a word is in the keyword list exactly when it is in the known domain's list, in the known industry's list, or among the custom keywords |
| FilterProperties.KeywordsOrder | src/firmware_filter.py:129-141 | the keyword list is the domain block, then the industry block, then the custom block, each in its own order, and its length is the sum of theirs |
| FilterProperties.NoCriteriaSelectsNothing | src/firmware_filter.py:143-146 | with no known tag, no custom keyword and no vendor, the result is `[]` whatever the catalog |
| FilterProperties.KeepAppend | src/firmware_filter.py:150-169 | filtering a list with one more element at the end adds that element exactly when it passes |
| FilterProperties.LackingInPrefix | src/firmware_filter.py:152 | a row without the vendor column in a prefix is one in the whole list, and the first such row is the same |
| FilterProperties.LackingLast | src/firmware_filter.py:152 | when only the last row lacks the vendor column, that row is the first one that does |
| FilterProperties.NoneLacking | src/firmware_filter.py:152 | when the prefix and the last row have the vendor column, every row has it |
| FilterProperties.ScanIsSelect | src/firmware_filter.py:148-171 | the scan raises exactly when a vendor is given and some row lacks the vendor column, and then it raises at the first such row; otherwise it returns the list comprehension `Select` |
| FilterProperties.KeepSubsequence | src/firmware_filter.py:148-171 | the filtered list sits in the input at strictly increasing positions, each holding an element that passes, and it is no longer than the input |
| FilterProperties.KeepMembership | src/firmware_filter.py:148-171 | an element is in the filtered list exactly when it is in the input and passes |
| FilterProperties.KeepAllKept | src/firmware_filter.py:148-171 | filtering a list whose every element passes gives the list back |
| FilterProperties.SelectVendorOnly | src/firmware_filter.py:151-158 | with a vendor and no keywords, the selection is the rows whose vendor equals it ignoring case, in order |
| FilterProperties.FilterOutcome | src/firmware_filter.py:114-171 | `filter_firmware` raises exactly when there are criteria, a vendor is given and some row lacks the vendor column, and then it raises at the first such row; otherwise, with criteria, it returns `Select` |
| FilterProperties.FilterIsSubsequence | src/firmware_filter.py:148-171 | the result is an order-preserving subsequence of the input, no longer than the input; with criteria, every row it uses passes the test |
| FilterProperties.VendorSound | src/firmware_filter.py:151-153 | with a vendor given, every result row has a vendor column equal to the argument ignoring case |
| FilterProperties.VendorOnly | src/firmware_filter.py:151-158 | with a vendor and no keywords, over a catalog where every row has a vendor column, the result is exactly the rows of that vendor, ignoring case, in input order |
| FilterProperties.KeywordSelection | src/firmware_filter.py:155-169 | with keywords, a catalog row is in the result exactly when it passes the vendor test and some lower-cased keyword occurs in its lower-cased product or URL |
| FilterProperties.FilterIdempotent | src/firmware_filter.py:114-171 | filtering the result again with the same criteria gives the same result |
| Download.Capped | src/firmware_filter.py:179-180 | with `limit > 0` the list is its first `min(limit, len)` rows; otherwise it is the whole list; always a prefix |
| Download.Urls | src/firmware_filter.py:182 | the URL list has one entry per row, each the row's `url` column, in order; it raises `KeyError('url')` exactly when some row lacks the column, and then at the first such row |
| Download.DownloadUrls | src/firmware_filter.py:179-187 | the downloader gets `min(limit, len)` URLs (all of them without a positive limit), each from the row at the same position; a `KeyError('url')` is raised exactly when a row of the capped prefix lacks the column, and names such a row |
| Scenarios.WifiScenario | src/firmware_filter.py:114-171 | on a catalog of a TP-Link "Archer C7 Router" and an Acme "Smart Thermostat", domain `wifi` keeps the router only |
| Scenarios.VendorScenario | src/firmware_filter.py:151-158 | on the same catalog, vendor `acme` (catalog value `Acme`) keeps the thermostat only |

## Left out

- The CSV loaders `load_firmware_list` and `load_ftp_list` (lines 72-112) are not modelled. They do file I/O and print messages. The model starts from the rows they return.
- `csv.DictReader` gives `None` for a short row's missing cells. The model has no `None` values: every value is a string. So the `AttributeError` that calling `.lower()` on `None` would raise is not modelled.
- `main` and the command line (lines 189-318) are not modelled: argument parsing, the listing and test modes, the preview of the first 20 matches, loading the FTP list (which only feeds the emptiness check and the printed total) and the unpacker call.
- In `download_filtered_firmware`, creating the directory (lines 175-176), the progress message and the `download_firmware` call (lines 184-185) are I/O and are left out. `DownloadUrls` models the URL list handed to the downloader; its length is the count the function returns.
- The `print` of "No filtering criteria provided" (line 145) is output only and is left out.
- The optional `tqdm` import (lines 14-21) and `src/fw_unpacker.py` have no bearing on the selection. The downloader module `fw_downloader` is not part of this model.
- Text.Lower: models `str.lower()` on ASCII letters only. Other characters are left unchanged, where Python also lower-cases non-ASCII letters through Unicode case mapping, which may also change the length (`'İ'.lower()` is two code points).
- FilterProperties.FilterIsSubsequence: states that the positions it returns are increasing and hold rows that pass. It does not also state that every passing row's position is among them; `KeywordSelection` and `VendorOnly` give that direction.
