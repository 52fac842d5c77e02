# Ariana Grande Tracker: the data engine

`app.py` is a Streamlit dashboard of an artist's streaming statistics. It
reads one set of daily files per day from `daily_data/`:

- `<date>_songs.csv`, one row per song;
- `<date>_albums.csv`, one row per album;
- `<date>_meta.json`, with the career total and the monthly listeners.

Under the page layout sits a small data engine, and this project models it
in Dafny:

- the two cell clean-ups, `clean_number` and `normalize_text`;
- `standardize_columns`, which adds `Daily_Num` and `Total_Num` or
  `Streams_Num` to a table from an ordered list of alias columns;
- `load_data_pair`, which picks today's and the day before's files by
  their sorted names and date prefixes;
- the history scans (career rises, one item's trend, listeners) and the
  seven-file averages for albums and songs;
- the day-over-day `Change` merge, the milestone counts, the `Avg_7Days`
  fallback and the next-milestone label;
- the billion-stream projection on the crystal-ball cards.

The directory is a parameter, `Files.DataDir`. It is either absent or a
sequence of entries, each carrying its name and what `pd.read_csv` and
`json.load` give for it, with `None` where that call raises. `glob` becomes
a filter by suffix, `sorted` an insertion sort in Python's code-point
order, and every `try`/`except` a `None` result. Cells are `Cell = Str |
Int | Missing`; a float cell is held as its `str()` text. Averages are
exact reals.

Modules follow the program's layers:

- `Wrappers` holds `Option`.
- `PyText` holds Python's string built-ins: `strip`, `replace`,
  `str(int)`, `f"{n:,}"` and the numerals `int()` reads.
- `Cells`, `Frames` and `Files` cover cells, tables and the directory.
- `Milestones` does the round-number arithmetic.
- `History` holds the scans, `Loader` holds `load_data_pair`, and
  `Dashboard` holds the inline computations of the page.

`standardize_columns` changes the frame it is given in place, so it is
modelled twice:

- `Frames.DataFrame`, a class whose methods assign columns;
- `Frames.Standardized`, the value those methods are proved against.

The scans are methods with loops. Each is proved equal to a function over
the sorted file list, and the lemmas are stated about that function.

## Model

| member | source | states |
|---|---|---|
| Cells.CleanedText | app.py:128 | The text `clean_number` hands to `int()` holds no `,`, no `+` and no `.`. |
| Cells.ParseIntNumeral | app.py:128 | `int()` reads a decimal numeral, and the same numeral after a minus sign, as its value and its negation. |
| Cells.ParseIntLeadingSpace | app.py:128 | A leading character that `int()` treats as whitespace does not change what it reads. |
| Cells.ParseIntLeadingOther | app.py:128 | A leading character that is neither whitespace to `int()`, a sign nor a digit makes `int()` fail, whatever follows. |
| Cells.ParseIntSpaces | app.py:128 | `int()` strips a leading no-break space, but fails on a leading U+001C, although `str.isspace` accepts both. |
| Cells.ParseInt | app.py:128 | Text `int()` accepts, once stripped of what `int()` counts as whitespace, starts with a sign or a digit and ends with a digit. `ParseIntNumeral`, `ParseIntLeadingSpace`, `ParseIntLeadingOther` and `ParseIntSpaces` state what it accepts and the value it reads. |
| Cells.CleanNumber | app.py:127-129 | A non-zero result is the number `int()` reads from the cleaned text. `CleanNumberOfNumeral`, `CleanNumberFallback` and the `CleanNumberOf…` lemmas below state the rest. |
| Cells.CleanNumberOfNumeral | app.py:127-129 | When the cleaned text is a decimal numeral, optionally negative, `clean_number` returns its value. Results can be negative. |
| Cells.CleanNumberFallback | app.py:127-129 | Wherever `int()` would raise on the cleaned text, `clean_number` returns 0 instead of failing. |
| Cells.CleanNumberOfInt | app.py:127-129 | An integer cell, and the text `str()` gives it, come back unchanged. |
| Cells.CleanNumberOfGrouped | app.py:127-129 | Comma-grouped text such as "1,234" reads back as the number it was formatted from. |
| Cells.CleanNumberOfPlus | app.py:128 | A leading `+` is deleted: "+500" gives 500. |
| Cells.CleanNumberOfDecimal | app.py:128 | Everything from the first `.` on is cut off: "12.7" gives 12, whatever follows the point. |
| Cells.CleanNumberOfWord | app.py:127-129 | Text with no `,`, `+` or `.`, whose first character is neither a digit, a `-` nor whitespace and whose last character is not whitespace, gives 0. |
| Cells.CleanNumberOfWordText | app.py:127-129 | "abc" gives 0. |
| Cells.CleanNumberOfEmptyText | app.py:127-129 | "" gives 0. |
| Cells.CleanNumberOfMissing | app.py:127-129 | A missing value (NaN, whose `str()` is "nan") gives 0. |
| Cells.NormalizeText | app.py:115-119 | For text, the result holds no `*` and no curly quote, and starts and ends with a non-space. Anything else becomes `str(x)`. |
| Cells.NormalizeTextFixedPoint | app.py:117-118 | A name with no `*`, no curly quote (U+2019) and no `â` (U+00E2, the first character of both mangled sequences) anywhere, and no outer whitespace, is returned unchanged. |
| Cells.NormalizeWithoutMojibake | app.py:117-118 | Text without mangled UTF-8 only goes through the curly-quote, `*` and strip steps. |
| Cells.NormalizeTextQuoteSpellings | app.py:117 | A title spelled with a curly apostrophe and the same title with a straight one become the same join key. |
| Cells.NormalizeTextDropsStar | app.py:118 | A footnote `*` anywhere in a name does not change the key. |
| Frames.WithColumn | app.py:141 | Column assignment. The row count is kept and the column is added once. Every row gets its value under the column, and every other cell is unchanged. |
| Frames.FirstPresentIndex | app.py:139-146 | The alias used is the first one present: every earlier alias is absent, and the index is past the end only when none is present. |
| Frames.EnsureColumn | app.py:139-147 | One alias chain. A canonical column that is present leaves the table exactly as it was. Otherwise the column is added, with rows and other cells kept. |
| Frames.EnsureColumnFrom | app.py:139-147 | An added canonical column holds, row by row, the cleaned value (`apply(clean_number)`, `CleanedColumn`) of the first alias present, or 0 (the broadcast `Zeros`) when none is present. |
| Frames.DailyIndex | app.py:140-146 | The `Daily_Num` aliases are tried in order: `Daily_Raw`, `Daily Raw`, `Daily`. |
| Frames.TotalIndex | app.py:152-156 | The album `Total_Num` aliases are tried in order: `Total`, `Streams`. |
| Frames.StreamsIndex | app.py:162-164 | The song `Streams_Num` alias is `Streams`. |
| Frames.StandardizedShape | app.py:131-167 | The row count is kept. Afterwards `Daily_Num` and the mode's count column exist, no other column is added, and every other cell is unchanged. |
| Frames.StandardizedKeepsCanonical | app.py:139-161 | A canonical column the table already has is left untouched. |
| Frames.DailyNumResolution | app.py:139-147 | A missing `Daily_Num` is the cleaned `Daily_Raw`, else `Daily Raw`, else `Daily`, else 0, row by row. |
| Frames.TotalNumResolution | app.py:150-157 | A missing album `Total_Num` is the cleaned `Total`, else `Streams`, else 0. |
| Frames.StreamsNumResolution | app.py:160-165 | A missing song `Streams_Num` is the cleaned `Streams`, else 0. |
| Frames.StandardizedIdempotent | app.py:131-167 | A second `standardize_columns` changes nothing. |
| Frames.Standardized | app.py:131-167 | The row count is kept, no column is dropped, and `Daily_Num` and the mode's count column exist afterwards. `StandardizedShape`, `StandardizedKeepsCanonical`, the three `…Resolution` lemmas and `StandardizedIdempotent` state the rest. |
| Frames.NormalizedSongs | app.py:245 | Normalising `Song` fails exactly when the table has no `Song` column. Otherwise columns and row count are kept, every `Song` cell is the normalised old cell (`NormalizedColumn`), and every other cell is unchanged. |
| Frames.FirstRowIndex | app.py:521-524 | `df[df[col] == v].iloc[0]`: the first row holding `v`, with no earlier row holding it, or past the end when there is none. |
| Frames.DataFrame.Assign | app.py:141 | In place: the frame afterwards holds the old table with the column assigned. |
| Frames.DataFrame.AssignCleaned | app.py:141 | In place: the frame afterwards holds the cleaned source column under the destination. |
| Frames.DataFrame.EnsureDaily | app.py:139-147 | In place: the `Daily_Num` chain. |
| Frames.DataFrame.EnsureTotal | app.py:150-157 | In place: the album `Total_Num` chain. |
| Frames.DataFrame.EnsureStreams | app.py:160-165 | In place: the song `Streams_Num` chain. |
| Frames.DataFrame.Standardize | app.py:138-167 | In place: the frame afterwards holds `Standardized` of its old table. |
| Frames.StandardizeColumns | app.py:131-167 | `None` stays `None`. Any other frame is returned itself, standardised in place. |
| Files.Glob | app.py:230 | The matches of `*suffix` are exactly the directory's names that end with the suffix and do not start with a dot. |
| Files.Find | app.py:244 | Opening a name reaches an entry of that name, or fails when there is none. |
| Files.SortNames | app.py:230 | `sorted` returns a permutation of its input. |
| Files.SortNamesSorted | app.py:230 | `sorted` returns its input in ascending code-point order. |
| Files.LatestAndPrevious | app.py:230-236 | The last listed file is the greatest name, and the one before it, `song_files[-2]` at line 264, is the greatest of the rest. |
| Files.LastSeven | app.py:177 | `files[-7:]`, also used at line 349: the last seven names, or all of them when there are fewer. |
| Files.DatePrefix | app.py:237 | The date of a file name is its text up to the first `_`, a prefix of the name with no `_` in it. |
| Files.DatePrefixOf | app.py:237-240 | A file named `<date>_<kind>` reads back its date. |
| Files.ReadDaily | app.py:244-246 | A daily file loads exactly when `read_csv` reads it and, for a song file, it has a `Song` column. The table is then the file standardised (album) or with its song names normalised and then standardised (song): same row count, `Daily_Num` and the count column present, and row i's `Song` is `normalize_text` of the file's row i. |
| Milestones.NextMilestone | app.py:200-201 | The next milestone, here and at line 625, is a multiple of the step, above the total by at most one step, and exactly one step above when the total is a multiple. |
| Milestones.NextMilestoneLeast | app.py:201 | No multiple of the step lies strictly between the total and its next milestone. |
| Milestones.Remaining | app.py:203 | The gap to the next milestone, here and at line 626, is between 1 and the step, and closes it exactly. |
| Milestones.MilestoneProjection1B | app.py:196-221 | None exactly for a total that is not positive. Otherwise the milestone is a multiple of a billion and equals total plus remaining. The ETA is "never" (infinite days, "Unknown" date) exactly when the rate is not positive, and days times rate equals remaining otherwise. |
| Milestones.ProjectionOnBoundary | app.py:201-203 | A total already on a billion boundary is projected a whole billion further. |
| Milestones.ProjectionExample | app.py:196-219 | 700,000,000 streams at 10,000,000 a day give 1,000,000,000 as the goal, 300,000,000 to go and 30 days. |
| Milestones.WholeDays | app.py:630-631 | `int(gap / speed)` is the whole number of days a positive rate needs: the days times the rate stay within one day's rate of the gap. |
| Milestones.MilestoneLabelForms | app.py:623-632 | The label is the gap in `f"{gap:,}"` form. It adds "(Need N Days)" exactly when the rate is positive and the gap is less than 3650 days away, and then N < 3650. |
| Milestones.MilestoneLabelReadsBack | app.py:628-632 | A label without a day count reads back through `clean_number` as the gap. |
| Milestones.MilestoneLabel | app.py:623-632 | The label starts with the gap to the next hundred million in `f"{gap:,}"` form. `MilestoneLabelForms` and `MilestoneLabelReadsBack` state its two forms. |
| History.Scan | app.py:313-326 | The skip-on-failure loop that every scan runs returns the steps' results in file order. |
| History.CollectMembership | app.py:313-326 | An entry is in a scan's result exactly when some file's step yields it. |
| History.CareerStep | app.py:295-303 | A pair of meta files gives a point exactly when both career totals read and the rise is strictly between 0 and 100,000,000. The point is dated with the later file and its value is the rise. |
| History.CareerPointsMembership | app.py:293-303 | A point is in the career trend exactly when some consecutive pair of meta files, `(files[i-1], files[i])` as `Pairs` lists them, yields it. Every point is in the plausibility band. |
| History.CareerPointsCount | app.py:293-294 | With fewer than two meta files the trend is empty. With n files it has at most n−1 points. |
| History.CareerHistory | app.py:287-304 | The loop equals the career trend of the sorted meta files, and is empty without the directory. |
| History.FirstDaily | app.py:322-324 | The item's `Daily_Num` is taken from the first row naming it. The lookup fails when the key column is missing, and finds nothing only when no row names the item. |
| History.ItemHistoryMembership | app.py:313-326 | A point of an item's trend is the item's daily count in some file of its kind, dated with that file. |
| History.ItemHistory | app.py:306-327 | The loop equals the item trend over the sorted files of its kind. |
| History.ListenerCountForms | app.py:339-340 | A count nested as `{"count": n}` reads as a flat `n`. A missing `count` or `listeners` entry reads as 0. |
| History.ListenerPoint | app.py:339-341 | A meta file gives a point exactly when its listener count reads and is positive, dated with the file. |
| History.ListenersHistoryMembership | app.py:334-342 | The listener trend holds exactly the positive counts of the sorted meta files, each with its file's date. |
| History.ListenersHistory | app.py:329-343 | The loop equals the listener trend. |
| History.MeanBounds | app.py:194 | `sum / len` of values in a band lies in that band. |
| History.MeanOfPositives | app.py:193-194 | The mean of positive values is positive. It is 0 only for no values. |
| History.AlbumDaily | app.py:187-190 | A file contributes the album's first-row `Daily_Num` exactly when it is a positive number. |
| History.AlbumDailies | app.py:177-191 | Only the last seven album files are read, so at most seven counts are kept. |
| History.AlbumDailiesPositive | app.py:190 | Every kept count is positive. |
| History.Album7DayAverageZero | app.py:179-194 | The album average is 0 exactly when none of the last seven files has a positive count, and is never negative. |
| History.Album7DayAverage | app.py:173-194 | The loop and the mean equal the average of the positive counts in the last seven album files. |
| History.SongDailies | app.py:354-357 | A song file contributes its `(Song, Daily)` pairs exactly when it loads, one per row: pair i holds `normalize_text` of the file's row i `Song` and that row's standardised `Daily_Num`. |
| History.FlattenMembership | app.py:360 | `concat` holds exactly the rows of the frames concatenated. |
| History.DailiesOfMembership | app.py:361 | A song has daily counts exactly when some row of that song holds a number. |
| History.GroupMean | app.py:361 | `groupby('Song').mean()` for the songs with at least one numeric daily count: exactly those songs are keys, each mapped to the mean of its counts. |
| History.GroupMeanBounds | app.py:361 | A song's average lies within any band that holds all its counts. |
| History.SongAveragesKeys | app.py:351-361 | The averages name exactly the songs that have a numeric count in some file read. |
| History.ReportsDailyRows | app.py:354-357 | A song file has a row whose normalised `Song` is the song and whose daily count is a number exactly when its `(Song, Daily)` pairs hold that song with a numeric count. |
| History.ReportsDailyFrames | app.py:351-357 | Some frame the loop collects holds the song with a numeric count exactly when some file of the loop reports it. |
| History.SevenDayAverageKeys | app.py:346-361 | `get_7day_average` names exactly the songs that some row of one of the last seven song files reports with a numeric daily count, and none when there are fewer than two song files. A song whose counts are all missing is left out; see `History.GroupMean` under Left out. |
| History.SevenDayAverage | app.py:345-361 | The loop equals the per-song mean over the last seven song files, and is empty with fewer than two. |
| Loader.TodayAlbums | app.py:253-257 | No album file means no albums. An album file that fails to load fails the whole load, and one that loads is read as a daily album table. |
| Loader.LoadPreviousAsWritten | app.py:268-279 | The day before as written: previous albums are only there with previous songs. |
| Loader.PreviousWithoutSongAsWritten | app.py:270-279 | As written, a previous song file without `Song` is returned raw and still lacks `Song`. |
| Loader.LoadPrevious | app.py:268-279 | The corrected day before. The songs are exactly the previous song file read as a daily song table, `None` when that fails. The albums are the companion album file read as a daily album table when the songs loaded and that file exists, and `None` otherwise. |
| Loader.LoadPreviousAgrees | app.py:268-279 | The corrected and as-written versions agree, except on a previous song file without `Song`, which the corrected one discards. |
| Loader.PreviousPair | app.py:259-279 | The day before, read by the corrected `LoadPrevious`, is loaded only with two song files, from the second-greatest one. Its songs have `Song` and `Daily_Num`, its albums `Daily_Num` and `Total_Num`. |
| Loader.LoadDataPairNoData | app.py:226-233 | Nothing is loaded, and nothing reported, exactly when the directory or every song file is missing. |
| Loader.LoadedToday | app.py:242-257 | A loaded snapshot has today's song table with `Song`, `Daily_Num` and `Streams_Num`, and today's meta. Albums are there exactly when today's album file exists, with `Daily_Num` and `Total_Num`. |
| Loader.LoadedPrevious | app.py:259-281 | A loaded snapshot carries the day before as `PreviousPair` gives it, that is, by the corrected loader. |
| Loader.LoadDataPair | app.py:223-283 | `load_data_pair` with the corrected inner `try` (`LoadPrevious`). Whenever something is loaded or an error reported, there is a song file, and the date is the prefix of the greatest one. Once a song file exists, the day loads exactly when the greatest song file, that day's `meta.json` and that day's album slot all read, and is reported as failed otherwise. `LoadDataPairNoData`, `LoadedToday` and `LoadedPrevious` state what a loaded snapshot holds. |
| Dashboard.JoinRow | app.py:393 | Each merged row is the current row with `Daily_Num_Prev` set. There is one per matching previous row, carrying that row's daily count in previous-row order, or a single row with a missing `Daily_Num_Prev` when none matches. |
| Dashboard.PrevMatchesMembership | app.py:393 | A count is among a key's matches exactly when some previous row with that key has it as its `Daily_Num`. |
| Dashboard.JoinRowPrevious | app.py:393 | A merged row's `Daily_Num_Prev` is missing when no previous row shares its key, and otherwise is the `Daily_Num` of a previous row that does. |
| Dashboard.JoinRows | app.py:393 | A left merge has at least as many rows as the current table. Their order and contents are stated by the four lemmas below. |
| Dashboard.JoinRowsAppend | app.py:393 | Merging concatenated current rows concatenates their merges. |
| Dashboard.JoinRowsSplit | app.py:393 | A current row's merged rows sit after those of every earlier current row and before those of every later one. |
| Dashboard.JoinRowsOrigin | app.py:393 | Every merged row is some current row with its `Daily_Num_Prev` set. |
| Dashboard.JoinRowsCover | app.py:393 | Every current row appears in the merge, with its `Daily_Num_Prev` set. |
| Dashboard.LeftMerge | app.py:393 | The merge, here and at line 406, succeeds exactly when both tables have the key and `Daily_Num`. It appends `Daily_Num_Prev` to the current columns. |
| Dashboard.FillZero | app.py:394 | `fillna(0)` turns a missing value into 0 and keeps every present one. |
| Dashboard.Minus | app.py:395 | A difference of two numbers is a number, and adding back the subtrahend gives the minuend. |
| Dashboard.WithChange | app.py:392-398 | One `Change` block, for songs here and for albums at lines 404-411. With no previous table the block always succeeds. When it succeeds there is a `Change` column and at least as many rows as the current table. The rows themselves are stated by `ChangeWithoutPrevious`, `ChangeMergedRows`, `ChangeKeepsRows` and `ChangeRowOrigin`. |
| Dashboard.ChangeWithoutPrevious | app.py:397-398 | Without a previous table every row keeps its cells and gets `Change` = 0. |
| Dashboard.ChangeMergedRows | app.py:392-396 | With a previous table of any keys, the block succeeds and its rows are the merged rows in order. `Daily_Num_Prev` is filled with 0 (`FillNa`), `Change` is `Daily_Num` less it (`Differences`), and every other cell is kept. |
| Dashboard.ChangeKeepsRows | app.py:392-396 | No current row is lost: each has a result row holding all its cells apart from `Change` and `Daily_Num_Prev`. |
| Dashboard.ChangeRowOrigin | app.py:392-396 | Nothing is invented: each result row holds the cells of some current row apart from `Change` and `Daily_Num_Prev`. |
| Dashboard.PreviousDaily | app.py:393-394 | The previous count a row is compared against is never missing. It is 0 when no previous row has the key, and the filled `Daily_Num` of the matching row otherwise. |
| Dashboard.FilledMerge | app.py:393-394 | With distinct previous keys, the merged table after `fillna(0)` (`FillNa`) is the current table row for row, plus the previous count. |
| Dashboard.ChangeWithPrevious | app.py:392-396 | With distinct previous keys the block succeeds and keeps exactly the current rows and cells. Each `Change` (`Differences`) is today's `Daily_Num` minus the previous count, with 0 for a new row. |
| Dashboard.ChangeDuplicatesRows | app.py:393 | A previous table naming one key twice makes the merged table longer than the current one. |
| Dashboard.SongsChangeAsWritten | app.py:392-393 | With the day before loaded as written, a previous song file without `Song` makes the songs' `Change` block raise. |
| Dashboard.SongsChangeLoaded | app.py:387-398 | With the day before loaded as corrected, the songs' `Change` block never raises. |
| Dashboard.ApplyChange | app.py:392-398 | In place. Without a previous table the frame itself gets `Change`. Otherwise a fresh merged frame is returned and the old one is left unchanged. The result is `WithChange` of the old table, or null exactly where that raises. |
| Dashboard.CountAtLeast | app.py:436-437 | The count is the number of positions whose cell under the column is a number at least the bar (`RowsAtLeast`, the filter `df[df[col] >= bar]`), so at most the row count. |
| Dashboard.RowsAtLeastSnoc | app.py:436-437 | A row added at the end adds one to the filter's size exactly when it meets the bar. |
| Dashboard.CountAtLeastAntitone | app.py:436-437 | A higher bar is met by no more rows. |
| Dashboard.CountAtLeastZero | app.py:436-437 | The count is 0 exactly when no row reaches the bar. |
| Dashboard.MilestoneCounts | app.py:436-437 | The two counts are the numbers of songs whose `Streams_Num` is at least a billion and at least a hundred million; the first is at most the second, which is at most all songs. |
| Dashboard.Avg7Days | app.py:621 | A song in the averages map gets its average. Every other song falls back to its `Daily_Num`, which is a rate exactly when it is a number (`CellRate`). |
| Dashboard.Avg7DaysFallback | app.py:620-621 | A song with no numeric count in the files the average reads is rated at today's `Daily_Num`. |
| Dashboard.Avg7DaysFewFiles | app.py:350 | With fewer than two song files the averages map is empty, so every song is rated at today's `Daily_Num` by the `fillna` of line 621. |
| Dashboard.NextMilestoneLabel | app.py:623-632 | Every song except one with a text `Streams_Num` gets a label. A missing `Streams_Num` gives "nan". A numeric one gives a label that starts with the gap to the next hundred million in `f"{gap:,}"` form. |
| Dashboard.NextMilestoneLabelReadsBack | app.py:627-632 | A song whose rate is not positive shows only its gap, which reads back as that number. |
| Dashboard.CardRate | app.py:527 | An average of 0 falls back to today's `Daily_Num`, a rate only when it is a number (`CellRate`). Any other average is used as it is. |
| Dashboard.CardRateFallback | app.py:525-527 | Today's count is the fallback exactly when no recent album file has a positive count. Otherwise the rate is the positive seven-file average. |
| Dashboard.AlbumCard | app.py:521-529 | A card comes from the album's first row. It carries that row's positive `Total_Num`, the fallback rate, and the billion projection of the two. Such a first row with a positive numeric total and a numeric rate always gives a card. |
| Dashboard.AlbumCardHasEstimate | app.py:525-531 | An album with a positive seven-file average always has a finite ETA on its card. |

## Left out

- Presentation is not part of this model: the Streamlit page, the CSS, the themes and their random choice, the Plotly charts, the HTML cards, the link building and the base64 image embedding (`get_image_base64`).
- `st.cache_data` caching is not modelled. It depends on the wall clock, not on the data.
- The ETA date string is not modelled, since it needs `datetime.now()` and `pd.Timedelta`. Its "never" branch stands for the infinite days and the "Unknown" date.
- The text of the `st.error` message is not modelled. `Loader.LoadResult.LoadFailed` keeps only the date it names.
- Sorting is not modelled where only the display order depends on it: the songs by `Daily_Num` (app.py:401), the songs by `Streams_Num` (app.py:635) and the crystal-ball list (app.py:543).
- The loop over the fixed album list (app.py:520) is not modelled. `Dashboard.AlbumCard` models one card.
- Some dashboard figures are not modelled: `career_total` and `real_career_daily` (app.py:414-415), the listener change between the last two history points (app.py:418-425), the listener counters (app.py:439-443) and the percentage shares (app.py:427-434, app.py:600-602). These are sums, look-ups and float formatting for display.
- Floating point is not modelled. Averages and rates are exact reals, and a float cell of a CSV is held as its `str()` text.
- JSON floats, booleans, strings and lists are all `JOther`. A float career total or listener count, which Python would subtract or compare, makes that file count as skipped. So does a boolean one, which Python would use as the integer 1 or 0.
- Dashboard.Minus: arithmetic on a non-number cell gives a missing value. The source would either compute with floats or raise `TypeError`.
- History.GroupMean: a text `Daily_Num` cell in a song file is skipped by the mean, where pandas would raise on the mixed column.
- History.GroupMean: a song whose daily counts are all missing is left out of the map, where pandas keeps it with the value NaN. The `fillna` at app.py:621 turns that NaN into today's `Daily_Num`, as `Dashboard.Avg7Days` does for a song not in the map, so `Avg_7Days` is the same.
- Cells.ParseInt: non-ASCII decimal digits, which Python's `int()` accepts, are rejected, so such text cleans to 0.
- Cells.ParseInt: a numeral of more than 4300 digits is read as its value. Python 3.11 and later refuse it with `ValueError` by default, so there `clean_number` gives 0.
- Dashboard.ChangeWithPrevious: the row-by-row result is stated only for a previous table whose key cells are distinct. With a repeated key the merge repeats rows (`Dashboard.ChangeDuplicatesRows`), and their contents are not stated.
- A current table that already has a `Daily_Num_Prev` or `Change` column is not modelled. pandas would add further suffixes in the merge.
- Dashboard.AlbumCard: an album table without `Base_Name`, a text `Total_Num`, or a text fallback `Daily_Num`, gives no card. The source raises there (`KeyError`, or `TypeError` in the comparisons at app.py:198 and app.py:205), which ends the page.
- Dashboard.AlbumCard: a missing (NaN) `Total_Num` gives no card. In the source `nan <= 0` is false (app.py:198). With a rate of 0 or less it then appends a card whose milestone and remaining are NaN and whose date is "Unknown" (app.py:205-211, app.py:531). With a positive rate the day count is NaN and formatting the date raises (app.py:213-220), which ends the page.
- Dashboard.AlbumCard: a seven-file average of 0 with a missing fallback `Daily_Num` gives no card. The source computes a NaN day count and raises when it formats the date (app.py:213-220), which ends the page.
- Dashboard.CountAtLeast: a text `Streams_Num` cell counts as below the bar. The comparison at app.py:436 would raise `TypeError`, which ends the page.
- Dashboard.NextMilestoneLabel: a text `Streams_Num` gives no label, where `//` would raise `TypeError`. A `Streams_Num` column with a missing value is a float column in pandas, so its labels end in `.0`; the model keeps integer cells.
- Directory entries are taken as given. Reading a file yields one fixed result for `read_csv` and one for `json.load`, so a file that changes between two reads is not modelled.

## Findings

| source | as written | input that shows it | evidently intended | confidence | as-written member | corrected member |
|---|---|---|---|---|---|---|
| app.py:268-279 | After `pd.read_csv` succeeds, `df_songs_prev['Song']` raises `KeyError`. The bare `except: pass` then leaves the raw, unstandardised frame in `df_songs_prev`, not `None`. The songs' merge at line 393 then selects `prev_songs_df[['Song', 'Daily_Num']]`, which raises again, outside any `try`. | A previous-day songs CSV that loads but has no `Song` column, next to a valid current day. | A previous song file that cannot be prepared counts as no previous day, so every `Change` is 0. `Loader.LoadDataPair`, `Loader.PreviousPair` and `Loader.LoadedPrevious` are built on this corrected loader. | not executed | Loader.LoadPreviousAsWritten, Dashboard.SongsChangeAsWritten | Loader.LoadPrevious, Dashboard.SongsChangeLoaded |
