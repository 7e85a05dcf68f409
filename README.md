# SIM-Comparator in Dafny

SIM-Comparator reconciles the company's SIM inventory ("Iluvatrack") with the
operator's billing sheets ("Telkomsel"). This project models its logic in
`sim_comparator.py`:

- **Identifier normaliser** (`normalize_sim`, module `Normalizer`). A missing
  cell gives no identifier. Otherwise the cell text is processed in four steps:
  1. it is stripped of surrounding whitespace;
  2. every `".0"` is removed;
  3. it is reduced to its digits;
  4. it goes through the first-match-wins prefix rules. `"62"` becomes `"0"`,
     a leading `8` gets a `0` in front, a leading `0` is kept, and anything
     else is rejected.

  Every identifier it produces is *canonical*: non-empty, digits only, starting
  with `0`.
- **Loaders** (`load_iluvatrack`, `load_telkomsel`, module `Loaders`). They work
  on sheets whose rows have already been read: an inventory sheet is its
  "Sim Card" column, and a billing row is its MSISDN cell, its price and its
  status text.
  - The inventory loader maps the column through the normaliser, drops the
    missing results and collects the rest into a set.
  - The billing loader normalises each identifier and cleans each status. It
    drops rows without an identifier and rows whose status is `C`, tags the
    rest with the caller's region and removes exact duplicates, keeping the
    first occurrence.
- **The Compare action** (module `Reconciler`). It refuses to start unless at
  least one inventory sheet and both regional billing sheets are present.
  Otherwise it works in three steps:
  1. it unions the inventory sets, one sheet at a time;
  2. it loads and appends the billing frames in the order Jakarta, Kalimantan,
     `Extra-1` … `Extra-n`, then concatenates them;
  3. in the chosen direction, it reports either the billed rows whose
     identifier the inventory lacks, or the tracked identifiers that no billing
     row mentions.

  The two loops of the action are methods proved against specification
  functions: `CollectTracked` against `TrackedIds`, and `CombineBilling` against
  `Concat(LoadAll(BillingSources(…)))`.

Module `Scenarios` states and proves the normaliser's results on sample numbers. Module
`CompareScenarios` states and proves whole comparisons on small inputs:
- a number matched across its local and international forms, next to a
  cancelled line;
- one mismatch in each direction;
- duplicates within one sheet, which collapse;
- the same row in two sheets, which is kept twice.

The code has two behaviours that are easy to misread:
- `str.replace(".0", "")` makes one left-to-right pass, so `"..00"` becomes
  `".0"` (`Scenarios.SinglePassSample`). It removes a `".0"` anywhere in the
  cell, not only a trailing float suffix, so `"81.05"` becomes `"0815"`.
- Stripping whitespace before the digit filter has no effect on the result
  (`Normalizer.StripKeepsDigits`).

## Model

| member | source | states |
|---|---|---|
| Normalizer.NormalizeSim | sim_comparator.py:7-18 | a missing cell gives None; any identifier produced is non-empty, all digits and starts with '0' |
| Normalizer.Strip | sim_comparator.py:10 | `str.strip()`: the result neither starts nor ends with whitespace and is no longer than the input |
| Normalizer.TrimLeft | sim_comparator.py:10 | the left half of `strip()`: no longer than the input, and the result does not start with whitespace |
| Normalizer.TrimRight | sim_comparator.py:10 | the right half of `strip()`: no longer than the input, and the result does not end with whitespace |
| Normalizer.TrimLeftSplits | sim_comparator.py:10 | what the left trim removes is a run of whitespace, and the rest is kept as a suffix |
| Normalizer.TrimRightSplits | sim_comparator.py:10 | what the right trim removes is a run of whitespace, and the rest is kept as a prefix |
| Normalizer.StripPadding | sim_comparator.py:10 | stripping a core with non-blank ends out of whitespace padding gives exactly the core |
| Normalizer.RemoveDotZero | sim_comparator.py:10 | `replace(".0", "")` changes a string exactly when it contains ".0", and then makes it shorter |
| Normalizer.RemoveDotZeroAppend | sim_comparator.py:10 | the removal works piecewise on a concatenation unless a ".0" straddles the seam |
| Normalizer.Digits | sim_comparator.py:11 | the digit filter yields only digits and leaves a digit string unchanged |
| Normalizer.DigitsAppend | sim_comparator.py:11 | the digit filter distributes over concatenation, so it keeps the order of the digits |
| Normalizer.DigitsDropsNonDigit | sim_comparator.py:11 | a non-digit character is dropped wherever it stands: the filter ignores it |
| Normalizer.ApplyPrefixRule | sim_comparator.py:12-18 | on a digit string every accepted result is canonical |
| Normalizer.StripKeepsDigits | sim_comparator.py:10-11 | stripping before the ".0" removal and the digit filter never changes their result |
| Normalizer.DigitStringReachesPrefixRule | sim_comparator.py:10-18 | a digit string goes to the prefix rules unchanged |
| Normalizer.CountryCodeRule | sim_comparator.py:12-13 | "62"+r gives "0"+r, so "62" alone gives "0" |
| Normalizer.LeadingEightRule | sim_comparator.py:14-15 | a digit string starting with '8' gets a '0' in front |
| Normalizer.LeadingZeroRule | sim_comparator.py:16-17 | a digit string starting with '0' is returned unchanged |
| Normalizer.NoRuleRejects | sim_comparator.py:12-18 | a digit string that matches no rule, the empty one included, is rejected |
| Normalizer.PaddingIsIgnored | sim_comparator.py:10 | whitespace around a cell does not change its normalised identifier |
| Normalizer.FloatSuffixIsIgnored | sim_comparator.py:10 | a digit string with ".0" appended normalises like the digit string |
| Normalizer.NormalizeIdempotent | sim_comparator.py:7-18 | normalising a produced identifier again gives it back unchanged |
| Loaders.NormalizeColumn | sim_comparator.py:23 | the normalised column has one entry per cell |
| Loaders.DropMissing | sim_comparator.py:24 | `dropna()` keeps exactly the present values, never adding any |
| Loaders.DropMissingAppend | sim_comparator.py:32 | `dropna()` works piecewise, so it keeps the order of the rows |
| Loaders.LoadIluvatrack | sim_comparator.py:20-24 | every loaded identifier is canonical |
| Loaders.LoadIluvatrackMembership | sim_comparator.py:23-24 | an identifier is loaded exactly when some cell of the column normalises to it |
| Loaders.UpperChar | sim_comparator.py:31 | a lower-case ASCII letter becomes its capital (32 code points lower); every other character is kept |
| Loaders.Upper | sim_comparator.py:31 | `str.upper()` works character by character and leaves text without lower-case letters unchanged |
| Loaders.CleanStatus | sim_comparator.py:31 | the cleaned status has no surrounding whitespace and no lower-case letter |
| Loaders.CleanStatusOfPadded | sim_comparator.py:31 | the cleaned status of a padded text is the upper-cased text: " aktif " and "AKTIF" give the same status |
| Loaders.CleanStatusKeepsClean | sim_comparator.py:31 | a status that is already trimmed and upper-case is left as it is |
| Loaders.ToRecord | sim_comparator.py:29-34 | a kept row carries the row's price and the caller's region |
| Loaders.ToRecordSpec | sim_comparator.py:29-34 | a row is kept exactly when its identifier normalises and its cleaned status is not "C"; a kept row is well formed and is exactly the row's normalised identifier, price, cleaned status and region |
| Loaders.ToRecords | sim_comparator.py:29-34 | the per-row steps give one outcome per row of the sheet |
| Loaders.TaggedRows | sim_comparator.py:32-33 | the rows left after dropping missing identifiers and cancelled lines are no more than the sheet's rows |
| Loaders.TaggedRowsMembership | sim_comparator.py:29-34 | a record survives the per-row steps exactly when some row of the sheet yields it |
| Loaders.FirstIndex | sim_comparator.py:35 | the position returned holds the element, and no earlier position does |
| Loaders.DropDuplicates | sim_comparator.py:35 | `drop_duplicates()` keeps the same elements, with no repetition |
| Loaders.DropDuplicatesKeepsFirstOrder | sim_comparator.py:35 | the kept elements appear in the order of their first occurrences |
| Loaders.DropDuplicatesOfDistinct | sim_comparator.py:35 | a sequence without repetitions is unchanged |
| Loaders.LoadTelkomsel | sim_comparator.py:26-35 | a loaded billing frame has no two equal records and no more rows than the sheet |
| Loaders.LoadTelkomselMembership | sim_comparator.py:29-35 | a record is loaded exactly when some row of the sheet yields it |
| Loaders.LoadTelkomselWellFormed | sim_comparator.py:29-34 | every loaded record has a canonical identifier, a trimmed upper-case status other than "C", and the caller's region |
| Loaders.CancelledRowIsDropped | sim_comparator.py:31-33 | a status of "c" or "C", with any whitespace around it, drops the row |
| Reconciler.NatToString | sim_comparator.py:80 | the decimal rendering of a number is a numeral: non-empty digits, no leading zero for a positive number |
| Reconciler.NumeralRoundTrip | sim_comparator.py:80 | every numeral without a leading zero is the rendering of its value, so the rendering is the only numeral for its number |
| Reconciler.ExtraLabel | sim_comparator.py:80 | the label is "Extra-" followed by a numeral with no leading zero whose value is i+1 ("Extra-1", never "Extra-01") |
| Reconciler.DecimalRoundTrip | sim_comparator.py:80 | reading a rendered number back gives the number |
| Reconciler.ExtraLabelsDistinct | sim_comparator.py:77-80 | two optional sheets get the same label only when they are the same sheet, and no label is "Jakarta" or "Kalimantan" |
| Reconciler.TrackedIds | sim_comparator.py:70-73 | the union of the inventory sheets' sets holds only canonical identifiers |
| Reconciler.TrackedIdsMembership | sim_comparator.py:70-73 | an identifier is tracked exactly when some inventory sheet yields it |
| Reconciler.ExtraSources | sim_comparator.py:79-80 | the i-th optional sheet is labelled "Extra-" followed by i+1 |
| Reconciler.BillingSources | sim_comparator.py:76-80 | the sources are Jakarta, then Kalimantan, then the optional sheets in upload order with their labels |
| Reconciler.SourceLabelsDistinct | sim_comparator.py:76-80 | no two sources share a region label |
| Reconciler.LoadAll | sim_comparator.py:76-80 | there is one loaded frame per source |
| Reconciler.LoadAllAppend | sim_comparator.py:79-80 | loading one more source appends its frame and leaves the earlier frames alone |
| Reconciler.Concat | sim_comparator.py:82 | a record is in the concatenation exactly when it is in one of the frames |
| Reconciler.ConcatAppend | sim_comparator.py:82 | concatenation keeps every frame whole and in order, with nothing merged across sources |
| Reconciler.ConcatOne | sim_comparator.py:82 | one frame concatenated on its own is that frame, unchanged |
| Reconciler.ThreeFrames | sim_comparator.py:82 | three frames concatenate to the three one after the other |
| Reconciler.ConcatDistinct | sim_comparator.py:82 | frames without repeated records, each record carrying its frame's label and no two labels equal, concatenate without repeated records |
| Reconciler.CombinedFrameDistinct | sim_comparator.py:76-82 | the combined billing frame has no repeated record: each sheet is deduplicated on its own (line 35) and no two sheets share a region |
| Reconciler.BilledIds | sim_comparator.py:83 | an identifier is billed exactly when some row of the frame carries it |
| Reconciler.FilterUntracked | sim_comparator.py:87 | a row is reported exactly when it is in the frame and its identifier is not tracked, fields untouched |
| Reconciler.FilterUntrackedAppend | sim_comparator.py:87 | the filter works row by row, so it keeps the order of the frame |
| Reconciler.FilterUntrackedDistinct | sim_comparator.py:87 | the filter repeats no record when the frame repeats none |
| Reconciler.MissingFromBilling | sim_comparator.py:90-92 | the result is a subset of the tracked set, shares no identifier with the frame, and every other tracked identifier is billed |
| Reconciler.ReconciliationPartition | sim_comparator.py:83-92 | tracked-and-billed, tracked-only and billed-only identifiers partition everything seen |
| Reconciler.CollectTracked | sim_comparator.py:70-73 | the loop's union equals the union of every sheet's identifiers |
| Reconciler.CombineBilling | sim_comparator.py:76-82 | the loop's frame is the sources' frames, loaded in order and concatenated, and it has no repeated record |
| Reconciler.Compare | sim_comparator.py:64-92 | fails exactly when no inventory sheet or a regional sheet is missing; otherwise gives the untracked rows or the unbilled identifiers for the chosen direction; the untracked rows repeat no record |
| Scenarios.InternationalSample | sim_comparator.py:12-13 | "6281234567890" gives "081234567890" and "62" gives "0" |
| Scenarios.LocalSamples | sim_comparator.py:14-17 | "81234567890" and "081234567890" both give "081234567890" |
| Scenarios.RejectedSamples | sim_comparator.py:8-18 | a foreign number, an empty cell and a missing cell are rejected |
| Scenarios.DotZeroSample | sim_comparator.py:10-15 | "81.05" gives "0815" |
| Scenarios.SinglePassSample | sim_comparator.py:10 | ".0" removal is one pass, so "..00" leaves ".0" |
| CompareScenarios.OneNumberInventory | sim_comparator.py:70-73 | an inventory holding one canonical number tracks exactly that number |
| CompareScenarios.DroppedRowIsInvisible | sim_comparator.py:32-33 | a row dropped by the per-row steps leaves the tagged rows, and so the loaded frame, unchanged |
| CompareScenarios.OneRowSheet | sim_comparator.py:26-35 | a sheet with one live row loads as that one record |
| CompareScenarios.TwoSheetFrame | sim_comparator.py:76-82 | without optional sheets the frame is the Jakarta frame followed by the Kalimantan frame |
| CompareScenarios.MatchedAfterNormalisation | sim_comparator.py:83-92 | a local inventory number billed in international form is matched, and a cancelled line is ignored: both directions are empty |
| CompareScenarios.OneMismatchEachWay | sim_comparator.py:83-92 | each direction reports exactly the number the other side lacks, with the billed row's fields untouched |
| CompareScenarios.DuplicateRowsCollapse | sim_comparator.py:35 | two identical rows in one sheet collapse to one record |
| CompareScenarios.SameRowInTwoSheetsKept | sim_comparator.py:76-82 | the same row in Jakarta and in Extra-1 is kept twice, as two records that differ in region |

## Left out

- The Streamlit user interface is not modelled: the widgets, the messages,
  the table display and the download buttons (lines 44-66, 88, 93-111). The
  mode selector becomes the `Direction` parameter. The upload widgets become
  `Compare`'s parameters: a sequence of inventory sheets, two optional regional
  sheets and a sequence of optional sheets.
- Workbook I/O is not modelled: `pd.read_excel`, `to_excel_file`, `json.dumps`
  and `BytesIO` (lines 22, 28, 37-41, 99-111). Sheets are given as rows that
  are already read. A sheet that lacks a column therefore cannot be expressed.
- The catch-all `except Exception` (lines 113-114) is not modelled, because
  with rows already read none of the modelled steps can raise.
- The second return value of `load_iluvatrack`, the raw DataFrame, is unused
  by the caller and is not modelled.
- Loaders.RawBillingRow: the price is taken as an already-parsed integer. The
  float coercion, the default of 0 and the truncation of
  `pd.to_numeric(..., errors="coerce").fillna(0).astype(int)` (line 30) are
  not modelled. The price is carried through unchanged.
- Normalizer.NormalizeSim: a cell is given as the text `str(sim)` produces, or
  as None for a missing value. Python's rendering of numeric cells (float
  formatting, scientific notation) and NaN values other than a missing cell
  are not modelled.
- Loaders.CleanStatus: the status is given as text. The `"nan"` that
  `.astype(str)` makes of a missing status is just such a text.
- Normalizer.IsDigit: only the ASCII digits count. Python's `str.isdigit`
  also accepts other Unicode digits, such as superscripts or Arabic-Indic
  digits, and keeps them.
- Normalizer.IsSpace: the whitespace set is the one Python's `str.strip()`
  uses up to U+00A0. Wider Unicode spaces, such as U+2000–U+200A or U+3000,
  are not treated as whitespace.
- Loaders.Upper: only the ASCII letters are upper-cased. Python's
  `str.upper()` also maps other letters, some of them to two characters
  (`ß` becomes `SS`).
- Pandas row indices, including `ignore_index=True` at line 82, are not
  modelled. A frame is a sequence of records.
- Reconciler.MissingFromBilling: the tracked-but-unbilled result is a set.
  The order of the list built from a Python set at line 91 is unspecified and
  is not modelled.
