# Indonesian labour-market dashboard: ingestion and normalisation logic

This project models the logic inside four Python scripts and one utility file:

- a Streamlit dashboard of BPS (Badan Pusat Statistik) labour-market tables;
- the script that fetches the raw BPS payload;
- the news scraper;
- the label loader of an emotion detector;
- a date formatter.

The UI, HTTP, MongoDB and inference glue around them is not modelled.

What is modelled:

- **`parse_bps_value`** (app.py), module `BpsParse`. It picks a raw string out of a loosely shaped value object, rewrites Indonesian number notation and parses the result, defaulting to 0.0.
- **`create_dataframe_from_bps_data`**, module `BpsRows`, with its properties in `BpsRowsFacts`. It walks the province records, skips the national row and builds one row per province. It counts the misses per variable id in `missing_keys` and keeps up to three debug records.
- **The smaller pieces of app.py**, module `AppTables`:
  - the cleaned table id and the collection name;
  - the `Provinsi_Clean` normalisation chain;
  - the `COLUMN_MAP` validation table;
  - the de-duplicated column order of the data table.
- **scraper.py**, module `Scraper`. It checks the configuration, gates on the HTTP status and extracts `json['data'][1]['data']`, distinguishing the caught and the uncaught exceptions. It appends one document.
- **`scrap_dan_simpan`** (scraping_api_berita.py), module `NewsScraper`. It empties the collection, then inserts one document per article in endpoint-then-post order. An exception abandons only the current endpoint.
- **`load_labels`** (tflite.py), module `Labels`. It builds the dict comprehension `int(tok0) -> tok1` over the lines of the file.
- **`format_date`** (utils.py), module `Dates`.

The helper modules model the Python and MongoDB behaviour the code relies on:

- `Wrappers`: `Option` and `Result`.
- `PyStrings`:
  - `str.isspace`, `strip`, `upper`, `replace`, `split`, the token split of `str.split()`;
  - `int()` and a decimal `float()`;
  - `str(int)`.
- `PyJson`: the decoded JSON value, subscripting with KeyError / IndexError / TypeError, `dict.get` and `str()`.
- `Mongo`: a `Collection` class whose `docs` sequence `insert_one` appends to and `delete_many({})` empties.

State is modelled in three ways:

- The collection is a class with a `seq` field, updated in place by the scripts' methods.
- The loops of `parse_bps_value`, `create_dataframe_from_bps_data`, the validation table, the column de-duplication and `scrap_dan_simpan` are methods with loop invariants. Each is proved equal to a specification function, and the source's promises are proved as lemmas about that function.
- The pure pieces (`Provinsi_Clean`, the `['data'][1]['data']` lookup, `load_labels`, `format_date`) are functions and lemmas.

### Behaviour worth knowing

- **scraper.py appends.** Every run adds one new document with `insert_one` (scraper.py:36-39); earlier documents stay. `Scraper.Run` appends and replaces nothing.
- **scraper.py makes one request.** It calls `requests.get` once, outside any `try` (scraper.py:22), and exits on any status other than 200 (scraper.py:23-26).
- **scraper.py catches only KeyError and IndexError around the lookup.** Those two are reported as a structure mismatch (scraper.py:29-33). A node of the wrong type on the path raises an uncaught TypeError (`Scraper.Crashed`), and a failed connection an uncaught exception (`Scraper.RequestRaised`).
- **Unparseable values are not counted as missing.** `missing_keys` counts only ids that are absent or None in a kept record (app.py:158-161). A value such as `"abc"` becomes 0.0 without any diagnostic: `BpsRowsFacts.CountMissesCounts` counts a present id as no miss.
- **The national row.** It is recognised by `label.strip().upper() == "INDONESIA"`, that is ignoring ASCII case and surrounding whitespace.

## Model

| member | source | states |
|---|---|---|
| BpsParse.FirstPresentKey | app.py:135-138 | the index found is the first of the keys that is present with a non-None value; None exactly when no key is |
| BpsParse.Clean | app.py:144 | the cleaned string deletes every `.` and turns every `,` into `.`, so it never contains `,` |
| BpsParse.SelectRawString | app.py:133-143 | the for/else search returns `raw_value_string` as `RawString` defines it: key order, then the sole member, then `"0"` |
| BpsParse.ParseBpsValue | app.py:132-146 | the method returns `BpsValue(v)`: the parse of the cleaned raw string, or 0.0 where `float` raises |
| BpsParse.FirstPresentIs | app.py:136-138 | the loop stops at key `i` when it is present and no earlier key is |
| BpsParse.NoneFirstPresent | app.py:139 | the `else` branch is reached exactly when no key is present |
| BpsParse.RawStringKeyOrder | app.py:135-138 | `value_raw` wins over `val`, which wins over `nilai`, each only when present and not None |
| BpsParse.RawStringFallback | app.py:139-141 | without those keys, a one-member dict with a non-None value gives `str` of it, anything else gives `"0"` |
| BpsParse.RawStringScalar | app.py:142-143 | str, int, float and bool are stringified directly; None and lists keep `"0"` and read as 0.0 |
| BpsParse.ValueOfRaw | app.py:144-146 | the number depends only on the raw string chosen |
| BpsParse.CleanPlain | app.py:144 | text without `.` or `,` is left unchanged by the cleanup |
| BpsParse.ZeroStringIsZero | app.py:133-145 | the default raw string `"0"` parses as 0.0 |
| BpsParse.IndonesianNotation | app.py:144-145 | `"1.234,5"` reads as 1234.5 |
| BpsParse.UnparseableIsZero | app.py:145-146 | `"abc"`, `""` and `"-"` read as 0.0 |
| BpsParse.LettersRejected | app.py:145-146 | `"abc"` reads as 0.0 |
| BpsParse.NoDigitsRejected | app.py:145-146 | the empty string and a lone `-` read as 0.0 |
| BpsParse.RejectedPlain | app.py:144-146 | text without `.` or `,` that `float` rejects reads as 0.0 |
| BpsParse.FloatPointDropped | app.py:142-145 | a JSON float is stringified before the cleanup, so its point is dropped too: 1.5 reads as 15.0 |
| BpsParse.GroupDigitsUngroups | app.py:144 | removing the `.` separators of a grouped digit string gives back the digits, and it has no `,` |
| BpsParse.GroupedDigits | app.py:144 | a number written with `.` thousands separators loses them in the cleanup and keeps its value |
| BpsParse.IndonesianRoundTrip | app.py:144-145 | round trip: `n` written with `.` groups, a `,` and fraction digits reads back as `n + frac / 10^len(frac)` |
| BpsParse.GroupedRoundTrip | app.py:144-145 | round trip: `n` written with `.` groups reads back as `n` |
| BpsRows.CreateDataframe | app.py:148-168 | the loop's result is the walk `Process` over all records: the rows, `missing_keys` and the debug records, or the first exception |
| BpsRows.FillRow | app.py:153-165 | the inner loop builds `row_data`, updates `missing_keys` and the debug entries exactly as `RowOf`, `CountMisses` and `DebugCells` define them |
| BpsRows.FillCell | app.py:157-165 | one column: 0.0 and a miss for an absent or None id, the parsed value otherwise; `setdefault(...)["miss_count"] += 1` creates or bumps the entry |
| BpsRows.ErrorStays | app.py:150-154 | once a record raises, the whole call raises with that exception |
| BpsRowsFacts.FirstFailed | app.py:150-154 | the position found holds a record that raises |
| BpsRowsFacts.FirstFailedIsFirst | app.py:150-154 | no record before that position raises |
| BpsRowsFacts.WalkFails | app.py:150-154 | the call raises exactly when some record raises, with the first such record's exception |
| BpsRowsFacts.WalkOk | app.py:150-168 | the call returns exactly when no record raises |
| BpsRowsFacts.KeptAreProvinces | app.py:152-166 | every kept position is a non-national record that does not raise |
| BpsRowsFacts.KeptIncrease | app.py:150-166 | kept positions increase: rows come in input order |
| BpsRowsFacts.ProvincesAreKept | app.py:152-166 | every non-national record that does not raise is kept |
| BpsRowsFacts.WalkRows | app.py:153-166 | one row per kept record, in order, each built from that record |
| BpsRowsFacts.WalkDebugCount | app.py:167 | a kept record leaves a debug record exactly when its position in the input is below 3 |
| BpsRowsFacts.WalkDebug | app.py:155-167 | each debug record carries the label, the variable keys and one entry per column of its kept record |
| BpsRowsFacts.AtMostThreeDebug | app.py:167 | there are at most 3 debug records |
| BpsRowsFacts.IdsMember | app.py:156 | an id is in the map's id set exactly when some column has it |
| BpsRowsFacts.CountMissesCounts | app.py:157-161 | after one record, every id of the map it lacks has one more miss; every other count, including that of an id whose value is present but unparseable, is unchanged |
| BpsRowsFacts.CountMissesEntries | app.py:161 | after one record, new entries are exactly the lacking ids, with their own column name; old entries keep theirs |
| BpsRowsFacts.WalkMissCounts | app.py:157-161 | `missing_keys[id].miss_count` equals the number of kept records lacking `id`, and ids outside the map count 0 |
| BpsRowsFacts.WalkMissEntries | app.py:161 | every entry of `missing_keys` is a map id with its own column name and a count of at least one |
| BpsRowsFacts.MissingExactly | app.py:157-161 | an id is in `missing_keys` exactly when it is a map id that some kept record lacks |
| BpsRowsFacts.NamesMember | app.py:156 | a name is in the map's name set exactly when some column has it |
| BpsRowsFacts.RowContents | app.py:153-163 | a row holds `Provinsi` = label plus exactly one number per map column: 0.0 for an absent or None id, else the parsed value |
| BpsRowsFacts.AbsentIsZero | app.py:158-159 | a column whose id the record lacks holds 0.0 |
| BpsRowsFacts.ColumnMapIds | app.py:35-46 | `COLUMN_MAP` has distinct ids |
| BpsRowsFacts.ColumnMapNames | app.py:35-46 | `COLUMN_MAP` has distinct names, none of them `Provinsi` |
| BpsRowsFacts.OnlyAttributeError | app.py:151-154 | a record that raises raises AttributeError (`.get`, `.strip` or `.keys` on the wrong type) |
| BpsRowsFacts.DefaultLabelNotNational | app.py:151-152 | a record without a label gets `Prov Unknown #idx`, which is never skipped as national |
| BpsRowsFacts.NationalExample | app.py:152 | `" Indonesia\n"` is recognised as the national row |
| BpsRowsFacts.ProvinceExample | app.py:152 | `"Aceh"` is not the national row |
| BpsRowsFacts.ProcessFails | app.py:148-168 | the call raises exactly when some record raises |
| BpsRowsFacts.ProcessError | app.py:151-154 | the only exception the call raises is AttributeError |
| BpsRowsFacts.ProcessRows | app.py:150-166 | the rows are, in input order, those of the records with a well-typed label that is not national, each built from its label and variables |
| BpsRowsFacts.ProvinceGivesRow | app.py:152-166 | a record that is not national gives a row when the call succeeds |
| BpsRowsFacts.NationalGivesNoRow | app.py:152 | a national record gives no row |
| BpsRowsFacts.DictExample | app.py:135-145 | `{"value_raw": "1.234,5"}` reads as 1234.5 |
| BpsRowsFacts.CellExample | app.py:157-163 | with the app's parser, a record giving that object for `iihviv2ocw` gets 1234.5 in its column |
| AppTables.CleanTableId | app.py:25 | the cleaned id is the id with every `=` and then every `/` removed, so it has neither |
| AppTables.CleanTableIdPlain | app.py:25 | an id without `=` and `/` is unchanged |
| AppTables.CleanTableIdIdempotent | app.py:25 | cleaning twice is cleaning once |
| AppTables.CleanedTarget | app.py:22-25 | `CLEANED_ID_TABEL_TARGET` equals `BPS_ID_TABEL_TARGET`, which has no `=` or `/` |
| AppTables.DefaultCollectionName | app.py:26 | without the environment variable the collection is `data_bps_<id>_<year>` for a clean id |
| AppTables.ProvinsiCleanShape | app.py:237-242 | a cleaned province name has no lower-case ASCII letter and no leading or trailing whitespace |
| AppTables.ProvinsiCleanIgnoresCase | app.py:237 | the normalisation gives the same result for a name and its upper-case form |
| AppTables.DkiDropped | app.py:238 | a leading `DKI ` in any case is dropped: `DKI Jakarta` and `Jakarta` agree |
| AppTables.DiDropped | app.py:238 | a leading `DI ` in any case is dropped, and `DKI ` removal does not touch it |
| AppTables.ValidationTable | app.py:192-207 | the loop builds exactly `Checks`: one line per map column, or the AttributeError of a found definition that is no dict |
| AppTables.ChecksErrorStays | app.py:193-198 | once a line raises, the whole table raises |
| AppTables.StatusOf | app.py:193-201 | `DITEMUKAN` exactly when the id is in a non-empty `kolom` dict; else `TIDAK DITEMUKAN DI DATA PROVINSI` exactly when it is in `missing_keys`; else `TIDAK DITEMUKAN DI API`; the API name is `N/A` unless found |
| AppTables.ChecksLines | app.py:192-207 | the table succeeds exactly when every line does, and then has one line per column, in map order |
| AppTables.NoDefsNoneFound | app.py:178-196 | without a usable `kolom` dict (absent, not a dict, or empty) no column is found and nothing raises |
| AppTables.DefinitionNotDict | app.py:198 | a found definition that is not a dict makes `.get` raise AttributeError |
| AppTables.Insert | app.py:438 | inserting keeps every element and adds `x` |
| AppTables.SortedSetSpec | app.py:438 | `sorted(set(xs))` is strictly increasing, has no duplicates and holds exactly the strings of `xs` |
| AppTables.Filter | app.py:434-437 | the filtered list holds exactly the non-empty names the frame has as numeric columns |
| AppTables.DisplayColumns | app.py:439-441 | the loop keeps exactly `Dedup(order, frame)` |
| AppTables.DedupSpec | app.py:439-441 | the shown columns are distinct and are exactly the non-empty columns of the order that the frame has |
| AppTables.DedupPrefix | app.py:439-441 | looking at more of the order only appends: columns stay in order of first occurrence |
| AppTables.ProvinsiShownFirst | app.py:436-441 | `Provinsi` is the first shown column whenever the frame has it |
| AppTables.DisplayedColumns | app.py:434-441 | the table shows exactly `Provinsi` and the map and ratio columns that the frame holds as numbers |
| Scraper.Extract | scraper.py:29-31 | the lookup succeeds exactly when every node has the right shape, giving `json['data'][1]['data']`; KeyError exactly for a missing key at either level or a dict in place of the list; IndexError exactly for a list or str of fewer than 2 elements; anything else is TypeError |
| Scraper.Run | scraper.py:12-39 | the outcome is `RunOutcome`; exactly one `{timestamp, data}` document is appended when it stores, none otherwise |
| Scraper.ConfigCheckedFirst | scraper.py:12-14 | a missing or empty key or URI ends the run before any request |
| Scraper.StatusGate | scraper.py:23-26 | only status 200 can store; any other status ends the run with that status |
| Scraper.ConnectionErrorCrashes | scraper.py:22 | once configured, a request that raises ends the run uncaught, before any status check |
| Scraper.StoredIsPath | scraper.py:30-39 | the stored data is exactly the node at `['data'][1]['data']` |
| Scraper.MissingTopKey | scraper.py:29-33 | an object without `data` is a caught structure mismatch (KeyError) |
| Scraper.ShortDataList | scraper.py:29-33 | a `data` list with fewer than two entries is a caught structure mismatch (IndexError) |
| Scraper.MissingInnerKey | scraper.py:29-33 | a second entry without `data` is a caught structure mismatch (KeyError) |
| Scraper.TopLevelListCrashes | scraper.py:30-31 | a list as the top-level value raises an uncaught TypeError |
| Scraper.ScalarSecondEntryCrashes | scraper.py:30-31 | a second entry that is not an object raises an uncaught TypeError |
| Scraper.HandledErrors | scraper.py:31 | a caught mismatch is KeyError or IndexError; an uncaught crash is TypeError |
| Mongo.Collection.InsertOne | scraper.py:36-39 | `insert_one` appends one document and replaces nothing |
| Mongo.Collection.DeleteMany | scraping_api_berita.py:27-28 | `delete_many({})` removes every document and reports how many there were |
| NewsScraper.Iterate | scraping_api_berita.py:37 | a list iterates its items and a string its one-character strings, in order; `{}` gives no items; exactly None, a bool, an int, a float and a non-empty dict give an error, and it is TypeError |
| NewsScraper.EndpointPosts | scraping_api_berita.py:33-37 | a failed request, an HTTP error status (400-599) or bad JSON abandons the endpoint; otherwise the posts are read exactly when the body is a dict whose `data` is a dict holding an iterable `posts`, and they are the items of `json['data']['posts']`; a missing `data` or `posts` key is exactly the KeyError case, every other failure on the path a TypeError |
| NewsScraper.ArticleFields | scraping_api_berita.py:38-46 | a document is built exactly for a dict with `title` and `link` on an endpoint with a 4th segment; `judul` and `link` are copied, and `thumbnail`, `description`, `pubDate` default to `''` |
| NewsScraper.Inserted | scraping_api_berita.py:37-48 | an endpoint never inserts more documents than it has posts |
| NewsScraper.InsertedPrefix | scraping_api_berita.py:37-52 | the inserted documents are those of the posts before the first that raises, in post order, and the post after them raises |
| NewsScraper.ScrapAndStore | scraping_api_berita.py:24-54 | the deleted count is the old size; afterwards the collection holds exactly this run's documents, endpoint after endpoint |
| NewsScraper.StoreEndpoint | scraping_api_berita.py:37-52 | one endpoint appends exactly its `Inserted` documents to the collection |
| NewsScraper.StoreArticle | scraping_api_berita.py:38-48 | one article is stored exactly when its document can be built |
| NewsScraper.EndpointBlock | scraping_api_berita.py:31-52 | the documents of endpoint `i` sit, as one block, between those of the endpoints before and after it, whatever happens at the others |
| NewsScraper.FailedEndpointAddsNothing | scraping_api_berita.py:32-52 | an endpoint abandoned before its article loop adds nothing |
| NewsScraper.NoPostsKey | scraping_api_berita.py:37 | a body `{"data": {}}` raises KeyError at `['posts']` and the endpoint stores nothing |
| NewsScraper.PostsNotIterable | scraping_api_berita.py:37 | posts that are None, a bool, an int or a float raise TypeError and the endpoint stores nothing |
| NewsScraper.PostsListWalked | scraping_api_berita.py:37-48 | a list at `data.posts` is exactly what the article loop walks |
| NewsScraper.OnlyThisRun | scraping_api_berita.py:27-48 | every stored document comes from an endpoint of this run |
| NewsScraper.AllArticlesStored | scraping_api_berita.py:37-48 | when every article has a title and a link, each gives one document |
| NewsScraper.MissingLinkStops | scraping_api_berita.py:40-52 | an article without `link` raises KeyError and ends its endpoint |
| NewsScraper.SourceSegment | scraping_api_berita.py:44 | for an endpoint `scheme//host/source/rest` the source is `source` |
| Labels.LineEntry | tflite.py:26 | a line gives `int(tok0) -> tok1` exactly when it has two tokens and the first parses; IndexError exactly for no token or an integer without a second; ValueError exactly when the first token is not an integer |
| Labels.CollectSucceeds | tflite.py:26 | the dict is built exactly when every pair is |
| Labels.CollectFailure | tflite.py:26 | a failed build reports the first failing pair's exception |
| Labels.CollectSize | tflite.py:26 | a built dict has no more entries than pairs |
| Labels.CollectKeys | tflite.py:26 | the keys are exactly the integers of the pairs |
| Labels.CollectLaterWins | tflite.py:26 | the last pair with a key gives its value |
| Labels.LoadProperties | tflite.py:24-50 | the load succeeds exactly when every line gives a pair; a failure carries the first failing line's exception; entries are at most the lines |
| Labels.LoadKeys | tflite.py:26 | the keys of a loaded file are exactly the integers of its lines |
| Labels.LaterLineWins | tflite.py:26 | of lines sharing an integer, the later one's name wins |
| Labels.BlankLine | tflite.py:26 | a blank or whitespace-only line fails with IndexError |
| Labels.FirstTwoTokens | tflite.py:26 | the first two tokens of `w0 t0 w1 t1 rest` are `t0` and `t1` |
| Labels.TwoTokens | tflite.py:26 | only the first two tokens count and any whitespace run separates them; a non-integer first token is ValueError |
| Labels.OneToken | tflite.py:26 | a line with just one integer token fails with IndexError |
| Labels.LineRoundTrip | tflite.py:26 | round trip: the line `str(k) + " " + name + "\n"` reads back as `k -> name` |
| Dates.OneDash | utils.py:9-11 | a string with exactly one `-` becomes the input followed by `-01` |
| Dates.ManyDashes | utils.py:10-17 | two or more `-` make the unpacking raise and return the input unchanged |
| Dates.YearOnly | utils.py:12-13 | four characters without `-` become `s-01-01`, digits or not |
| Dates.OtherwisePandas | utils.py:14-17 | anything else is the pandas result, or the input when pandas raises |
| Dates.YearMonth | utils.py:9-11 | `year-month` without other `-` becomes `year-month-01` |
| Dates.MonthExample | utils.py:5-11 | `"2024-05"` becomes `"2024-05-01"` |
| Dates.YearExample | utils.py:5-13 | `"2024"` becomes `"2024-01-01"` |
| PyJson.Subscript | scraper.py:30 | a name subscript succeeds only on a dict holding the key; KeyError exactly on a dict lacking it |
| PyStrings.SplitCount | utils.py:10 | `split(c)` gives one more part than there are `c` |
| PyStrings.SplitJoin | utils.py:10-11 | joining the parts of `split(c)` with `c` gives back the string |
| PyStrings.IntRoundTrip | tflite.py:26 | `int(str(i)) == i` |
| PyStrings.Tokens | tflite.py:26 | every token of `str.split()` is non-empty and has no whitespace |

## Left out

- The Streamlit, plotly and WordCloud rendering, the sidebar, the CSV download and app.berita.py are user interface and are not modelled.
- The MongoDB client, connection caching and `find_one`/`find` are not modelled. A collection is a sequence of documents.
- HTTP, `.env` loading and the GeoJSON download are not modelled. The status code and the decoded body are inputs. So is the outcome of `res.json()`: raising is `None`.
- The URL built from the API key (scraper.py:20) is not modelled.
- The scheduler loop and `time.sleep` (scraping_api_berita.py:57-64) are not modelled. The model covers one call of `scrap_dan_simpan`.
- Floating-point arithmetic is not modelled: the ratios, the national totals, colour ranges and the softmax of the emotion detector. Numbers are exact `real`s.
- `float()` is modelled on plain decimal notation: whitespace, a sign, digits and an optional point. Exponents, `inf`, `nan` and underscores count as rejected.
- `int()` and `float()` take ASCII digits only, and `upper()` maps only the ASCII letters; other scripts' digits and letters are not modelled.
- `str()` of a list or dict keeps only its opening bracket. That is enough for `float()` to reject it; the debug records therefore hold only that bracket for such values.
- BpsRows.DebugItem: `api_var_keys` is a set of keys. The model's dicts are unordered maps, so the insertion order that `list(vars_prov.keys())` (app.py:155) keeps is not modelled.
- The debug records' key strings (`NOT_FOUND: …`, `RAW: …`) are not modelled. They are captured as a `DebugCell` per column.
- BpsRows.CreateDataframe: the pandas `DataFrame` is represented by its list of rows. The number parser is a parameter (the app passes `parse_bps_value`, i.e. `BpsParse.BpsValue`). This keeps the walk's proofs independent of the parser.
- NewsScraper.ScrapAndStore: one timestamp `now` stands for every `datetime.now()` of a run. The script reads the clock once per article, so the per-article `tanggal_scrap` differences are not modelled.
- NewsScraper.Iterate: iterating a non-empty dict gives its keys, and the first `key['title']` raises TypeError. The model summarises this as TypeError before any insert.
- NewsScraper.SourceSegment: the lemma is stated for every endpoint of the form `scheme//host/source/rest`. The literal example `tribun` for the first endpoint is not separately proved.
- The printed messages of every script (`print`, `st.warning`) are not modelled. Only the control flow they accompany is.
- Dates: the input is a `str`; `format_date` on a non-string (which raises and is returned unchanged) is not modelled. `pd.to_datetime(...).strftime` is a function parameter returning `None` when it raises.
- tflite.py's file reading, OpenCV, TFLite inference and WebRTC are not modelled. `load_labels` is given the list of lines `readlines()` returns.
