# guard ai-service: feature extraction and labelled-dataset loading

This project models the two pieces of the guard bot detector's ai-service
that turn raw traffic records into training data:

- `extract_features` (ai-service/model.py). It turns one request into the
  seven-slot feature vector `[method code, url length, url depth, url digits,
  url special characters, user-agent length, user-agent digits]`. The method
  code comes from the nine-entry `METHODS` table.
- The loaders of ai-service/dataset.py:
  - `load_phase_data` builds a session-id → label table from the annotation
    files. It then keeps every log line whose session is labelled.
  - `load_csic_data` labels CSIC 2010 rows.
  - `load_query_data` reads a URL list up to a line limit.
  - `get_combined_dataset` concatenates the four sources into a
    `UnifiedDataset`.

The modules are:

- `Wrappers`: the `Option` type.
- `Text`: the Python `str` operations the code relies on, namely `isdigit`,
  `isalnum`, `isspace`, `upper`, `lower`, `strip`, `split()` and substring
  `in`. The character classes follow CPython on Latin-1; `upper` and `lower`
  are ASCII case mapping. Each operation comes with its
  characterising lemmas. `split()` has a round trip with words
  separated by any whitespace runs, and `strip()` does not change its tokens.
- `Features`: the method table and `extract_features` as pure functions.
  Count lemmas state what each slot means and how the slots bound each
  other.
- `Seqs`: generic filter-map folds for the loaders' `append` loops. `Collect`
  works over the lines of one file and `CollectAll` over a list of files. It
  has lemmas for concatenation, soundness, completeness and preserved
  properties.
- `Dataset`: the loaders as methods with loops. The session table is a
  `map` value that the nested loops reassign, one insert at a time. Each method is proved equal
  to a specification function, and the properties the code promises are
  proved about those functions.

File contents are inputs:

- A text file is the sequence of its lines, each with its line end, as
  Python iterates them.
- A directory glob is the sequence of the matched files' contents, in the
  order the glob returns them.
- The CSIC CSV is either missing, unreadable, or its sequence of rows.

The Apache-log regular expression (ai-service/dataset.py:51) is the parameter
`parse`. It returns the five captured groups, or `None` when the line does
not match.

## Model

| member | source | states |
|---|---|---|
| `Text.IsDigit` | ai-service/model.py:23 | `c.isdigit()`, exactly as CPython defines it on U+0000..U+00FF: the ASCII digits and the superscripts two, three and one |
| `Text.IsAlnum` | ai-service/model.py:24 | `c.isalnum()`, exactly as CPython defines it on U+0000..U+00FF: a letter (`IsAlpha`) or a numeric character (`IsNumeric`: a digit or one of the vulgar fractions ¼, ½, ¾) |
| `Text.IsSpace` | ai-service/dataset.py:40 | the whitespace `strip()` and `split()` cut at, exactly as CPython's `isspace()` defines it on U+0000..U+00FF: tab to carriage return, U+001C..U+001F, space, U+0085 and U+00A0 |
| `Text.DigitIsAlnum` | ai-service/model.py:23-24 | every digit is alphanumeric, so no character counts both as a url digit and as a url special character |
| `Text.SlashIsNotAlnum` | ai-service/model.py:22-24 | '/' is not alphanumeric, so every slash counted by url_depth is also counted by url_special |
| `Text.Upper` | ai-service/model.py:14 | `Upper` (ASCII upper-casing) keeps the length and leaves no lower-case ASCII letter |
| `Text.UpperIdempotent` | ai-service/model.py:14 | upper-casing twice equals upper-casing once |
| `Text.UpperIgnoresCase` | ai-service/model.py:14 | strings that differ only in letter case upper-case to the same string |
| `Text.Lower` | ai-service/dataset.py:43 | `Lower` (ASCII lower-casing) keeps the length and leaves no upper-case ASCII letter |
| `Text.LeadingSpaceSpec` | ai-service/dataset.py:40 | the leading-whitespace count covers exactly the whitespace run at the start |
| `Text.TrailingSpaceSpec` | ai-service/dataset.py:40 | the trailing-whitespace count covers exactly the whitespace run at the end |
| `Text.StripSpec` | ai-service/dataset.py:40 | `strip()` returns the infix of its argument with only whitespace cut on either side; the result is empty iff the argument is all whitespace, and otherwise it neither starts nor ends with whitespace |
| `Text.StripPadded` | ai-service/dataset.py:59 | a string that starts and ends with non-whitespace, padded with whitespace on either side, strips back to itself |
| `Text.StripIdempotent` | ai-service/dataset.py:104 | stripping a stripped string changes nothing |
| `Text.Split` | ai-service/dataset.py:40 | `split()` returns no more tokens than the string has characters |
| `Text.WordLengthSpec` | ai-service/dataset.py:40 | the first token of `split()` is exactly the maximal non-whitespace run at the start |
| `Text.SplitWords` | ai-service/dataset.py:40 | every token of `split()` is non-empty and holds no whitespace |
| `Text.SplitFirstWord` | ai-service/dataset.py:40 | a word followed by the end of the string or by whitespace is split off whole |
| `Text.SplitSkipsSpace` | ai-service/dataset.py:40 | leading whitespace does not change the tokens of `split()` |
| `Text.WordLengthExtend` | ai-service/dataset.py:40 | a token that ends before the end of a string ends at the same place in any extension of it |
| `Text.SplitDropsSpace` | ai-service/dataset.py:40 | trailing whitespace does not change the tokens of `split()` |
| `Text.SplitIgnoresStrip` | ai-service/dataset.py:40 | `line.strip().split()` equals `line.split()` for every line |
| `Text.SplitJoinRuns` | ai-service/dataset.py:40 | round trip: splitting whitespace-free words separated by any non-empty whitespace runs, the last followed by any whitespace or none, gives back the words |
| `Text.Contains` | ai-service/dataset.py:43 | substring `in`: an occurrence is never longer than the string searched, and the empty string occurs in every string |
| `Text.ContainsInfix` | ai-service/dataset.py:43 | a string contains every infix of it |
| `Features.MethodTableAgrees` | ai-service/model.py:7 | the `METHODS` dictionary maps exactly the nine method names, each to its position 0..8 |
| `Features.MethodIndex` | ai-service/model.py:14-18 | the method code is below 9; a known upper-cased method gets the table position holding it, and any other method gets 0 |
| `Features.Count` | ai-service/model.py:22-28 | a character count never exceeds the string's length |
| `Features.ExtractFeatures` | ai-service/model.py:9-39 | the vector has exactly 7 slots; the method code is below 9 (its value is fixed by `MethodSlotCode`); url_depth ≤ url_special; url_digits + url_special ≤ url_len; ua_digits ≤ ua_len |
| `Features.CountAppend` | ai-service/model.py:22-24 | counting a concatenation adds the counts of the two parts |
| `Features.CountMonotone` | ai-service/model.py:22-24 | a character class that implies another never counts more characters |
| `Features.SlashesAreSpecial` | ai-service/model.py:22-24 | url_depth ≤ url_special for every url: '/' is not alphanumeric, so each slash is also a special character |
| `Features.DigitsAndSpecialDisjoint` | ai-service/model.py:23-24 | a digit is alphanumeric, so url_digits + url_special ≤ url_len |
| `Features.UnknownMethodIsGet` | ai-service/model.py:14-18 | a missing method, or one whose upper-case form is not in the table, gets GET's code 0 |
| `Features.MethodIndexIgnoresCase` | ai-service/model.py:14-18 | upper-casing the method first does not change its code |
| `Features.MethodIndexOfCaseVariant` | ai-service/model.py:14-18 | two spellings of a method that differ only in letter case get the same code |
| `Features.MissingFieldsGiveZero` | ai-service/model.py:13-28 | a missing url gives zeros in the four url slots; a missing user agent gives zeros in the two user-agent slots |
| `Features.UrlSlotsAdd` | ai-service/model.py:21-24 | the four url slots of a concatenated url are the sums of the two parts' slots |
| `Features.CountIsPositions` | ai-service/model.py:22-28 | a count equals the number of positions whose character is in the class |
| `Features.MethodSlotCode` | ai-service/model.py:14-18 | slot 0 is `METHODS.get(method.upper(), 0)` of the method (GET when missing): a method naming table position k, in any letter case, gets k; upper-casing the method first leaves the slot unchanged |
| `Features.PostIsOne` | ai-service/model.py:14-18 | a request whose method is "post" in any letter case gets 1 in slot 0 |
| `Features.FeatureSlotsCount` | ai-service/model.py:21-28 | url_len and ua_len are the lengths; url_depth, url_digits, url_special and ua_digits are the numbers of positions holding a '/', a digit, a non-alphanumeric character and a digit |
| `Features.RootPageScenario` | ai-service/model.py:18-24 | url "/" with method GET gives first five slots [0, 1, 1, 0, 1] for every user agent (the first request of ai-service/debug_model.py:32 is one); ua_len is the agent's length, and ua_digits is positive whenever the agent holds a digit |
| `Features.AboutPageScenario` | ai-service/model.py:18-24 | url "/about" with method GET gives first five slots [0, 6, 1, 0, 1] for every user agent (the third request of ai-service/debug_model.py:34 is one), and ua_len is the agent's length |
| `Features.InjectionProbeScenario` | ai-service/model.py:9-39 | the SQL-injection probe of ai-service/debug_model.py:33 (url "/login?user=' OR 1=1", method GET, agent "sqlmap/1.5.2") gives exactly [0, 20, 1, 2, 7, 12, 3]: more url digits and special characters than the root page's 0 and 1 |
| `Features.CountNone` | ai-service/model.py:22-28 | a class that no character of the string is in counts 0 |
| `Seqs.Collect` | ai-service/dataset.py:55-66 | the lines of a file yield at most one sample each |
| `Seqs.CollectConcat` | ai-service/dataset.py:55-66 | collecting two runs of lines gives the first run's values, then the second's |
| `Seqs.CollectAllConcat` | ai-service/dataset.py:53-66 | collecting two runs of files gives the first run's values, then the second's |
| `Seqs.CollectSound` | ai-service/dataset.py:55-66 | every collected value is what some line yields |
| `Seqs.CollectComplete` | ai-service/dataset.py:55-66 | every value a line yields is collected |
| `Seqs.CollectKeeps` | ai-service/dataset.py:55-66 | a property of every yielded value holds for every collected value |
| `Seqs.CollectAllKeeps` | ai-service/dataset.py:53-66 | the same over a run of files |
| `Dataset.UnifiedDataset.GetItem` | ai-service/dataset.py:19-20 | indexing succeeds exactly for -len ≤ idx < len; a non-negative index returns that element; every result is an element of the data |
| `Dataset.LengthIsFirstMissingIndex` | ai-service/dataset.py:16-20 | `len(dataset)` (`UnifiedDataset.Length`) is the first index past the end: every index below it returns that sample, and both it and minus it minus one raise IndexError |
| `Dataset.NegativeIndexAliases` | ai-service/dataset.py:19-20 | index idx - len names the same sample as idx |
| `Dataset.LabelTableSnoc` | ai-service/dataset.py:43 | inserting one more entry overwrites that session id's label and keeps the rest |
| `Dataset.LabelTableStep` | ai-service/dataset.py:39-43 | reading one more annotation line inserts the entry it yields, if it yields one |
| `Dataset.AnnotationEntriesBinary` | ai-service/dataset.py:43 | every annotation entry has label 0 or 1 |
| `Dataset.LabelTableConcat` | ai-service/dataset.py:37-43 | the table of two runs of entries is the first run's table overridden by the second's |
| `Dataset.LabelTableKeys` | ai-service/dataset.py:37-43 | a session id is in the table iff some entry names it |
| `Dataset.LabelTableLastWins` | ai-service/dataset.py:37-43 | a session id's label is that of its last entry |
| `Dataset.LabelTableBinary` | ai-service/dataset.py:43 | a table built from 0/1 entries holds only 0/1 labels |
| `Dataset.TestAnnotationsOverride` | ai-service/dataset.py:31-43 | the session table is the train files' table overridden by the test files' table, so the test label wins for a session annotated in both |
| `Dataset.AnnotationEntrySpec` | ai-service/dataset.py:40-43 | the per-line reader `AnnotationEntry`, for every line: an entry iff the line has exactly two tokens; the entry's session id is the first token, and its label is 1 iff the lower-cased second token contains "bot", else 0 |
| `Dataset.AnnotationOfWords` | ai-service/dataset.py:40-43 | a line of words separated by any whitespace runs, with any whitespace before and after (a blank line when there are no words), gives an entry iff it has exactly two words; the session id is the first word, and the label is 1 iff the lower-cased second word contains "bot", else 0 |
| `Dataset.BotTagLabelsOne` | ai-service/dataset.py:43 | a second token holding, anywhere in it, "bot" in any letter case ("bot", "Bot", "bOT", ...) labels its session 1 |
| `Dataset.BuildSessionLabels` | ai-service/dataset.py:36-43 | the nested loops build the table of all annotation entries in file, then line order, and every label is 0 or 1 |
| `Dataset.LogSamplePaddedId` | ai-service/dataset.py:56-66 | the per-line reader `LogSample`: a line whose captured session id is a bare id padded with whitespace yields a sample iff the bare id is in the table, and the sample has the line's url, method and user agent and the bare id's label |
| `Dataset.LogSamplesConcat` | ai-service/dataset.py:53-66 | log samples keep file order |
| `Dataset.LogFileSamples` | ai-service/dataset.py:55-66 | within a file, samples keep line order; each sample comes from a line that parses and whose stripped session id is in the table, and it carries that table entry as its label; every such line yields its sample |
| `Dataset.LogSamplesLabels` | ai-service/dataset.py:60-65 | every log sample's label is a value of the table, so a 0/1 table gives 0/1 samples |
| `Dataset.LoadPhaseData` | ai-service/dataset.py:22-69 | the loops return exactly the Phase samples: the table is built from the train files, then the test files, then the log files are filtered in order; every label is 0 or 1 |
| `Dataset.CsicSample` | ai-service/dataset.py:81-87 | a row's sample has its url, method and user agent; the label is 0 or 1, and 0 iff the classification is "Normal" |
| `Dataset.LoadCsicData` | ai-service/dataset.py:71-92 | one sample per row, in row order, with the row's url, method and user agent; the label is 0 iff the classification is "Normal", else 1; a missing or unreadable file gives no samples |
| `Dataset.LinesRead` | ai-service/dataset.py:101-103 | the loop reads at most `limit` lines and at most all lines; exactly `limit` lines when the file has at least that many; all lines when the file is no longer than the limit; none when `limit` ≤ 0 |
| `Dataset.QuerySampleSpec` | ai-service/dataset.py:104-111 | the per-line reader `QuerySample`: a line yields a sample iff it is not all whitespace; the sample is the stripped line, which starts and ends with non-whitespace, with method GET, user agent "" and the list's label |
| `Dataset.QuerySamplesShape` | ai-service/dataset.py:104-111 | every query sample has a non-empty stripped url that is the stripped text of one of the lines, method GET, user agent "" and the given label; there is at most one sample per line |
| `Dataset.BlankLineUsesLimit` | ai-service/dataset.py:101-105 | a blank line yields no sample but uses up its place in the limit: with limit 1 the non-blank line after it is never read |
| `Dataset.LoadQueryData` | ai-service/dataset.py:94-113 | the loop returns the samples of the first `limit` lines; there are at most `limit` of them; a missing file gives none; every sample has the stripped non-empty url, GET, "" and the label |
| `Dataset.GetCombinedDataset` | ai-service/dataset.py:115-128 | the dataset is Phase ++ CSIC ++ good queries (label 0) ++ bad queries (label 1); its length is the sum of the four lengths; every label is 0 or 1 |

## Left out

- `BotClassifier` (ai-service/model.py:42-57): a torch network of floating-point layers inside a foreign library.
- Feature normalisation, the training loop and the saved artifacts (ai-service/train.py): float arithmetic, random splits and library calls.
- ai-service/main.py (the HTTP service) and ai-service/debug_model.py (a diagnostic script): routing, model loading and printing. The three requests the diagnostic script feeds in (ai-service/debug_model.py:32-34) are inputs of `Features.RootPageScenario`, `Features.InjectionProbeScenario` and `Features.AboutPageScenario`. Their long browser agents enter the first only through its length and digit count, and the third only through its length.
- The `float32` cast of the feature vector: it is exact for every count below 2^24, so the model keeps natural numbers.
- `str()` of a non-string field value (say, pandas' NaN for an empty CSV cell). `Features.Request` carries strings only.
- File system, `glob`, `open`, encodings and `pd.read_csv`. They are replaced by input sequences of lines, files and rows, and `print` calls are dropped.
- Regex internals: the Apache-log pattern with lazy quantifiers is the function parameter `parse`.
- Character classes above U+00FF: `Text.IsDigit`, `Text.IsAlnum` and `Text.IsSpace` follow CPython exactly on Latin-1 only. The log and query files are decoded as Latin-1 (ai-service/dataset.py:54, 100), so on them the model is exact. Three inputs can carry other characters: the annotation files, opened with the platform's default encoding (ai-service/dataset.py:38); the CSIC CSV, read by pandas (ai-service/dataset.py:78); and the requests the HTTP service extracts features from (ai-service/main.py:55-58). On those the model can differ from CPython. For example, U+3000 (ideographic space) separates annotation tokens in CPython but not in the model, and a non-ASCII digit such as U+0661 counts as a digit in CPython but not in the model.
- `Text.Upper` and `Text.Lower` map ASCII letters only, and keep the length, where CPython's `upper()` turns 'ß' into "SS". Within Latin-1 this does not change any result the loaders or the extractor compute. The only Latin-1 letter that upper-cases to an ASCII string is 'ß' → "SS", and no method name contains "SS". Only 'B', 'O' and 'T' lower-case to the letters of "bot". Beyond Latin-1 it can: CPython upper-cases "poſt" (U+017F, long s) to "POST", code 1, where the model gives 0, and lower-cases U+212A (Kelvin sign) to 'k'.
- Read errors outside the CSIC loader: the annotation, log and query loaders catch nothing (ai-service/dataset.py:38, 54, 100). An open or decode error there propagates out of `get_combined_dataset` and no dataset is built. The model takes every annotation and log file as readable, and a query file as missing (`None`) or as its lines. It does not model that failure.
- `Dataset.LoadCsicData`: does not model an exception part-way through the rows. The only exceptions the row loop can raise are missing-column lookups, and those fail at the first row, so an unreadable table (`Unreadable`) gives no samples.
- `UnifiedDataset` is a value: the source never changes it after construction, and `Dataset.UnifiedDataset.GetItem` returns `None` where Python raises IndexError.
