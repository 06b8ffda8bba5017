# Leads uploader — a Dafny model of its pure core

The leads uploader takes a CSV of sales leads sent by a company. It derives an
index name from the file path and the company name, and builds a search-index
mapping from the CSV's columns. If the index does not exist yet, it creates it
and uploads every lead whose CNPJ (the Brazilian company registration number)
is registered as `ATIVA` in a reference index of companies.

This project models the deterministic logic behind that flow and proves what it
guarantees:

- `Common`: concatenation of a list of lists and the order-preserving
  subsequence relation.
- `Frames`: a CSV as pandas reads it. Columns have names and dtypes; cells are
  strings, integers or already-rendered floats. `Render` is Python's `str()`;
  an integer's digits are tied to its value by a round trip.
- `Cnpj`: `format_cnpj`, which is `str()` followed by `zfill(14)`. The padding
  is written the way CPython's `str.zfill` computes it, sign handling included.
- `Chunking`: `divide_list` and `divide_m_parts`, with Python's `range` and
  floor division made explicit.
- `Mapping`: `create_mapping_from_csv` as a fold of `add_field_type_to_mapping`
  over the columns, starting from the preset `date_sent`/`status`/`chat_id`
  schema.
- `Documents`: `create_doc` and the row loop of `upload_all_leads`.
- `ActiveFilter`: `_filter_companies` on one batch and `filter_companies` over
  batches of 1000. The reference index is a deterministic oracle
  (`map<Cell, RefRecord>`). The thread pool is a sequential loop, because the
  futures are gathered in submission order.
- `Entry`: the index-name derivation and the `main` / `send_leads` dispatch.
  The index-exists check and CSV reading are parameters. The effects are
  returned as a list of actions with the final `END DATA` line.

Where the code and its description disagree, the model follows the code:

- `cnpj` is converted to strings before column types are read, so its mapping
  entry is text with a raw keyword sub-field, never `long` (`Mapping.IntegerCnpjIsText`).
- A CSV column named `status` or `chat_id` replaces the preset entry. Those
  entries are kept only when no column has that name.
- `filter_companies` keeps input order: per-batch results are concatenated in
  submission order, and each batch preserves order (`ActiveFilter.FilterCompanies`).
- A failed multi-get does not drop its batch. `result` stays unbound and the
  batch's future raises, so the run fails (left out, see below).
- `divide_m_parts(l, m)` gives at least `m` parts, not exactly `m`: ten
  elements asked for three parts come in four (`Chunking.TenIntoThreeGivesFour`).
- A lead is kept when the record found for *some* identifier of its batch
  carries its CNPJ and is `ATIVA`. Per batch, this equals "its own CNPJ is
  found and active" only when every reference record carries the CNPJ it is
  stored under (`ActiveFilter.Consistent`). The whole-list equivalence is
  proved under that assumption.

## Model

| member | source | states |
|---|---|---|
| `Chunking.ChunksShape` | leads_uploader/src/config.py:398-404 | the reference slicing concatenates back to the list exactly; no slice is empty or longer than `n`, and every slice but the last holds exactly `n` |
| `Chunking.ChunksCount` | leads_uploader/src/config.py:399-403 | the number of slices is ⌈len(l)/n⌉, so an empty list gives none |
| `Chunking.DivideList` | leads_uploader/src/config.py:388-404 | for a positive step the loop returns exactly the reference slicing, which concatenates back to `l` with every slice of length 1..n; a negative step gives no slices; a zero step is excluded because `range` raises |
| `Chunking.DivideMParts` | leads_uploader/src/config.py:378-386 | with slice size `len(l) // m` (Python floor division), the parts concatenate back to `l`, number at least `m` and hold at most `len(l) // m` each; a negative `m` gives no parts; a zero slice size is excluded because `range` raises |
| `Chunking.AtLeastMParts` | leads_uploader/src/config.py:384-385 | slices of `len // m` elements number at least `m` |
| `Chunking.TenIntoThreeGivesFour` | leads_uploader/src/config.py:384-385 | ten elements split "into three parts" give four slices, not three |
| `Frames.NatToDecimal` | leads_uploader/src/util.py:9 | a natural number prints as a non-empty string of decimal digits with no leading zero unless it is zero; one digit exactly below 10 |
| `Frames.DecimalRoundTrip` | leads_uploader/src/util.py:9 | the printed digits denote the number printed |
| `Frames.RenderInt` | leads_uploader/src/util.py:9 | `str()` of an integer is its digits, preceded by `-` when negative; the digits denote its absolute value and have no leading zero |
| `Cnpj.ZFill` | leads_uploader/src/util.py:10 | the result is `s` zero-padded to the width; its length is max(width, len s); inputs already that long are unchanged; digits stay digits; an unsigned input is a suffix of the result |
| `Cnpj.ZFillCharacterised` | leads_uploader/src/util.py:10 | `zfill` is the only function meeting the declarative padding description, in both directions |
| `Cnpj.ZFillIdempotent` | leads_uploader/src/util.py:10 | padding a padded value again changes nothing |
| `Cnpj.ZFillKeepsSign` | leads_uploader/src/util.py:10 | a leading `+`/`-` stays first, the zeros follow it, then the rest of the input |
| `Cnpj.FormatCnpj` | leads_uploader/src/util.py:3-12 | the series keeps its length and each element is the `str()` of the input padded to 14, at least 14 long |
| `Cnpj.FormatCnpjOfNaturals` | leads_uploader/src/util.py:9-10 | non-negative integers become all-digit strings of length max(14, number of digits) |
| `Mapping.FieldTypeOf` | leads_uploader/src/config.py:150-161 | the dtype lookup never yields `date` or `keyword`, and yields `None` exactly for dtypes other than int64/object/float64 |
| `Mapping.AddFieldType` | leads_uploader/src/config.py:141-176 | `date_sent` leaves the mapping unchanged; any other column adds or overwrites only its own entry, typed from its dtype with a raw keyword sub-field capped at 256 |
| `Mapping.FoldKeys` | leads_uploader/src/config.py:136-137 | the fold adds exactly the names of the non-`date_sent` columns to the preset keys |
| `Mapping.FoldKeepsDateSent` | leads_uploader/src/config.py:165-166 | whatever the column order, the fold never changes the `date_sent` entry |
| `Mapping.FoldKeepsUnnamed` | leads_uploader/src/config.py:94-137 | an entry that no column is named after survives the fold unchanged |
| `Mapping.FoldTypesColumn` | leads_uploader/src/config.py:136-137 | the last column of a given name (other than `date_sent`) decides that name's entry |
| `Mapping.CreateMapping` | leads_uploader/src/config.py:134-139 | the mapping is built iff the CSV has a `cnpj` column; otherwise `KeyError('cnpj')` |
| `Mapping.CreateMappingKeys` | leads_uploader/src/config.py:94-139 | the keys are the preset ones plus one per column; `date_sent` is a date; preset `status`/`chat_id` survive only when no column has that name |
| `Mapping.CreateMappingTypes` | leads_uploader/src/config.py:134-137 | `cnpj` is text with a raw sub-field; every other column except `date_sent` is typed from its dtype |
| `Mapping.IntegerCnpjIsText` | leads_uploader/src/config.py:134 | an int64 `cnpj` with a text `status` and a text `date_sent` gives cnpj→text, status→text, date_sent→date |
| `Documents.CopyFieldsKeys` | leads_uploader/src/config.py:215-217 | copying the row adds exactly its field names to the document's keys |
| `Documents.CopyFieldsLast` | leads_uploader/src/config.py:215-217 | the last value written for a field is the value the document holds |
| `Documents.CopyFieldsKeeps` | leads_uploader/src/config.py:209-217 | a key no field names keeps its initial value |
| `Documents.CreateDocContents` | leads_uploader/src/config.py:203-219 | the document goes to `index_name` with no `_id`; its source has exactly `status` plus the row's fields and each field's value; `status` is `PENDING` unless the row has its own |
| `Documents.UploadAllLeads` | leads_uploader/src/config.py:186-196 | leads are built iff the CSV has `cnpj` (`KeyError` otherwise); there is one document per row and all go to the given index |
| `Documents.LeadRowFields` | leads_uploader/src/config.py:188-189 | after `format_cnpj` and `assign`, each field name occurs once; the CSV's columns keep their positions; `cnpj` holds the normalised text it is given; every other value but `company_name` is unchanged; and a `company_name` pair with the company's name is present |
| `Documents.UploadedLeadCompany` | leads_uploader/src/config.py:189 | every uploaded lead carries the uploading company's name |
| `Documents.UploadedLeadCnpj` | leads_uploader/src/config.py:188 | every uploaded lead's `cnpj` is the CSV value's text padded to 14 |
| `Documents.UploadedLeadOtherFields` | leads_uploader/src/config.py:192-196 | every other CSV value reaches the lead unchanged |
| `Documents.UploadedLeadPending` | leads_uploader/src/config.py:209-217 | a lead from a CSV without a `status` column starts as `PENDING` |
| `ActiveFilter.ActiveCnpjsMembers` | leads_uploader/src/config.py:301-303 | a CNPJ is listed iff some answer is found, `ATIVA` and carries it |
| `ActiveFilter.KeepListedSubsequence` | leads_uploader/src/config.py:308-310 | the filter's output is an order-preserving subsequence of its input |
| `ActiveFilter.KeepListedCounts` | leads_uploader/src/config.py:308-310 | a lead with a listed CNPJ is kept as often as it occurs, any other lead never |
| `ActiveFilter.KeepListedContents` | leads_uploader/src/config.py:308-310 | subsequence, per-lead counts, and membership iff the CNPJ is listed |
| `ActiveFilter.KeepListedAppend` | leads_uploader/src/config.py:308 | the filter distributes over concatenation |
| `ActiveFilter.ListedIffVouched` | leads_uploader/src/config.py:289-303 | a CNPJ is listed iff the record found for some identifier of the batch is `ATIVA` and carries it; identifiers not found contribute nothing |
| `ActiveFilter.FilterChunkContents` | leads_uploader/src/config.py:279-310 | a batch keeps, in order and with duplicates, exactly its leads whose CNPJ is vouched for within the batch |
| `ActiveFilter.KeepActiveAppend` | leads_uploader/src/config.py:271-274 | the whole-list reference filter distributes over concatenation |
| `ActiveFilter.KeepListedIsKeepActive` | leads_uploader/src/config.py:308-310 | filtering on a list that agrees with "is active" on every lead is the reference filter |
| `ActiveFilter.FilterChunkIsKeepActive` | leads_uploader/src/config.py:279-310 | with a consistent reference, a batch keeps exactly its leads whose own CNPJ is found and `ATIVA` |
| `ActiveFilter.BatchStep` | leads_uploader/src/config.py:265-274 | gathering one more batch keeps the invariant: the batches seen filtered one by one and concatenated, a subsequence of their leads, equal to the reference filter under consistency, one lookup of 1..1000 identifiers per batch |
| `ActiveFilter.FilterCompanies` | leads_uploader/src/config.py:243-277 | for every reference, the result is `_filter_companies` applied to each batch of 1000 cut by `divide_list`, concatenated in batch order, and so an order-preserving subsequence of the leads; the lookups cover the leads' CNPJs in order, at most 1000 each; under a consistent reference it equals the whole-list reference filter and the unbatched filter; no leads give no lookups |
| `ActiveFilter.ActiveExample` | leads_uploader/src/config.py:301-310 | of two leads, the one whose CNPJ is `ATIVA` is kept and the `BAIXADA` one dropped |
| `Entry.Split` | leads_uploader/src/main.py:41 | `str.split(sep)` gives one more piece than separators, no piece holds the separator, joining the pieces gives the string back, and one piece means no separator |
| `Entry.SplitJoin` | leads_uploader/src/main.py:41 | splitting undoes joining pieces that hold no separator |
| `Entry.SplitFirstPiece` | leads_uploader/src/main.py:41 | the first piece is everything before the first separator |
| `Entry.IndexStem` | leads_uploader/src/main.py:41 | the stem exists iff the path has a `/` (`IndexError` otherwise) and holds no `/` or `.` |
| `Entry.StemBetweenParts` | leads_uploader/src/main.py:41 | the path is its first segment, `/`, the stem, then nothing or a `.` or `/` |
| `Entry.IndexStemLocated` | leads_uploader/src/main.py:41 | the stem sits right after the first `/` and runs to the next `.`, `/` or the end |
| `Entry.StemOfDirFile` | leads_uploader/src/main.py:41 | `dir/stem.ext` names the index after `stem`, whatever dots the extension holds |
| `Entry.StemOfNestedPath` | leads_uploader/src/main.py:41 | `a/b/c.csv` gives `b`, the second segment, not the file name |
| `Entry.StemOfBareName` | leads_uploader/src/main.py:41 | `leads.csv` with no `/` raises `IndexError` |
| `Entry.Lower` | leads_uploader/src/main.py:46 | lower-casing keeps the length, moves every ASCII or Latin-1 capital 0x20 up to its small letter, keeps every other character, and leaves no capital |
| `Entry.LowerFixed` | leads_uploader/src/main.py:46 | lower-casing changes a string iff it holds a capital, and lowering twice is lowering once |
| `Entry.ReplaceSpaces` | leads_uploader/src/main.py:44-46 | every space of the company name becomes `-` and every other character stays, so no space is left |
| `Entry.ReplaceSpacesFixed` | leads_uploader/src/main.py:44-46 | replacing spaces changes a name iff it holds a space |
| `Entry.IndexName` | leads_uploader/src/main.py:41-46 | the name exists iff the path has a `/` (`IndexError` otherwise); it is the company name with spaces turned into `-` and lower-cased, then `-`, then the lower-cased stem; it holds no capital and lowering it changes nothing |
| `Entry.Dispatch` | leads_uploader/src/main.py:34-61 | an empty file or company name gives only the no-file line; otherwise a CSV without `cnpj` ends in `KeyError`, checked before a path without `/`, which ends in `IndexError`; an existing index ends with the index-exists line and no effect; a new index is created with the CSV's mapping, then the leads are uploaded into it, and the last line names it |
| `Entry.MainWithoutArguments` | leads_uploader/src/main.py:27-34 | without exactly two non-empty arguments, `main` only prints that no file was passed |
| `Entry.MainCrashes` | leads_uploader/src/main.py:38-41 | a CSV without `cnpj` ends `main` with `KeyError`, checked before a path without `/`, which ends it with `IndexError` |
| `Entry.MainIndexExists` | leads_uploader/src/main.py:49-58 | an existing index: nothing is created or uploaded and the last line says so |
| `Entry.MainCreatesThenUploads` | leads_uploader/src/main.py:49-55 | a new index is created with the CSV's mapping, then the leads are uploaded into it, and the last line is `END DATA: ` plus its name |
| `Entry.SendLeadsOverridden` | leads_uploader/src/config.py:21-54 | `send_leads` is `main` when the command line has three entries, and otherwise runs on its parameters |

## Left out

- Elasticsearch: `index_exists_for_company` and `mget` are oracles (a predicate and a map). `main`'s calls to `create_index` and `upload_all_leads` are returned as actions and not carried out; the documents `upload_all_leads` builds are modelled in `Documents`, and `filter_companies`, which `upload_leads` applies to them, in `ActiveFilter`. `helpers.parallel_bulk`, `elastic.search` and `elastic.index` are not modelled. All of these are network calls.
- The `ThreadPoolExecutor` fan-out is a sequential loop. The futures are read in submission order, so concurrency changes no result.
- pandas: reading the CSV, `fillna('')` and dtype inference are not modelled. The frame is given as read and the dtypes are inputs. Float cells carry their `str()` text, because float formatting is not modelled.
- Failures that crash instead of degrading are not modelled: a failed `mget` leaves `result` unbound, and a missing CSV leaves `df` unbound. The oracle is total and the CSV always readable. When `upload_all_leads` finds no file it prints and returns; that path is also not modelled.
- Printing and flushing are not modelled, except the final `END DATA` line. Environment variables and dotenv are not modelled either.
- The commented-out code at leads_uploader/src/config.py:312-376 is not part of this model.
- elastic_filler/src/main.py and tester/main.py are not part of this model: they only copy and print search results.
- Chunking.DivideList: a zero step is a precondition, not an error result. `range` raises `ValueError` there, and the only caller passes 1000.
- Chunking.DivideMParts: `m == 0` (`ZeroDivisionError`) and `len(l) < m` (`range` step 0) are preconditions, not error results.
- ActiveFilter.FilterChunk: an empty batch is a precondition. The program would fail printing `result[0]`, but `divide_list` never yields an empty batch.
- ActiveFilter.FilterCompanies: equality with the whole-list filter is proved only for a reference whose records carry the CNPJ they are stored under, because it does not hold otherwise: a record stored under one CNPJ that carries another can let a batch keep a lead whose own CNPJ is not active. For every reference the result is stated as the per-batch filter concatenated in batch order.
- Entry.Lower: lower-cases the capitals of ASCII and of the Latin-1 supplement only; capitals beyond U+00FF (and the few whose lower-case form is longer) stay unchanged where Python's `str.lower` would lower them, because the Unicode case tables are not modelled.
- Entry.IndexName: its lower-case property covers the same ASCII and Latin-1 capitals only, for the same reason.
- Cnpj.ZFill: pandas' `Series.str.zfill` is taken to pad like Python's `str.zfill`, keeping a leading `+` or `-` in front of the zeros. The repository pins no pandas version, and a version that pads in front of the sign would differ for signed values; unsigned CNPJs are padded the same either way.
- Python's cross-type equality (`1 == 1.0`) is not modelled. A cell compares equal only to a cell of the same kind and value, in the filter's `in` test and in the reference lookup.
- Documents.CreateDoc: the `value != np.nan` guard is always true, since NaN equals nothing, so no field is ever skipped.
