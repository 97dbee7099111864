# Sri Lanka trends collector, modelled in Dafny

The collector gathers Google Trends interest series for Sri Lanka keyword by keyword and keeps
them as CSV files. Every pipeline is driven by plain-text status files:
- `unprocessed.txt`, `processing.txt`, `processed.txt` and `failed.txt` are queues of keywords.
- A master list (`all_keywords.txt` or `topics_master.txt`) holds the keywords that should exist.

This project models that core as Dafny functions, methods and lemmas. It covers these scripts:

- `fetch_trends.py`: the original collector. It loads keywords from `keywords.csv`, picks a block
  of four keywords from the four-hour slot of the clock, and saves one file per keyword the
  provider answers with rows.
- `script/fetch_one_keyword.py`: the monthly fetcher. It pops the first valid keyword, marks it
  as processing, fetches it with up to five attempts and exponential backoff, and moves it to
  `processed` (with its file saved) or to `failed`.
- `script_weekly/fetch_weekly_one_keyword.py`: the weekly fetcher, one keyword at a time. It
  plans 90-day windows every 30 days from 2015-01-01, fetches each one and stitches them by
  median scaling over the overlaps.
- `script_weekly/fetch_weekly_one_window.py`: fetches only the first five-year window of a
  keyword. The window is snapped to Sundays and reindexed onto the weekly grid. The keyword is
  saved under a sanitised file name.
- `script_weekly/stitch_weekly_keyword.py`: stitches the saved windows of a keyword. Each
  window's tail after the previous window is concatenated and duplicates are dropped (the last
  one is kept); the rows are sorted once at the end.
- `script/merge_files.py` and `script_weekly/merge_weekly.py`: build the wide datasets from the
  newest file per keyword.
- `script/sync_master_and_cleanup.py` and `script_weekly/sync_master_weekly.py`: reconcile the
  status files with the master list, delete the data of processed keywords that left it, and
  rebuild the merged dataset.
- `script_weekly/map_topics.py`: maps raw terms to topics through the provider's suggestions and
  writes the topic master list, a mapping log and a rejection list.

How the model represents the system:

- **Files.** A text file is `Option<seq<string>>`, its lines without newlines; `None` means the
  file is missing. The four status files together are the class `Queue.KeywordFiles`, whose
  methods rewrite or append to them in place.
- **Directories.** A directory of CSV files is a listing of entries, each a name, a modification
  time and the series the file holds (`None` when it cannot be read).
- **Series.** A series is a list of rows (a day number and an optional real value). A missing
  value stands for NaN; day 0 is 1970-01-01.
- **Tables.** A merged table is one row per timestamp, with one optional value per column.
- **The provider.** The Trends provider is an oracle: the answers it gives to successive
  attempts (`Raised(msg)` or `Frame(rows)`, where an empty frame stands for `None` and for an
  empty result alike) are parameters. So are the clock reading and the
  file-name timestamps.

The lemmas state what the scripts promise together:
- the queue moves undo the processing mark;
- status sets written back read back the same;
- a sync is a fixed point when repeated with the same master;
- the fetch blocks of consecutive slots continue each other and never repeat a keyword;
- median rescaling aligns the overlap medians;
- stitched series keep strictly increasing timestamps;
- the merge scripts would find, by name, the files the fetchers write under the same safe name,
  for keywords without the glob wildcards `*`, `?` and `[`, together with the ways the file-name
  globs and `rsplit` keys over-match or differ. Only the names are compared: the folders differ
  (see "## Left out").

## Model

| member | source | states |
|---|---|---|
| Text.TrimLeftSpec | script/sync_master_and_cleanup.py:26 | `lstrip()`: removes an all-whitespace prefix, leaving a suffix that is empty or starts with a non-space |
| Text.TrimRightSpec | script/sync_master_and_cleanup.py:26 | `rstrip()`: removes an all-whitespace suffix, leaving a prefix that is empty or ends with a non-space |
| Text.StripShape | script/sync_master_and_cleanup.py:26 | `strip()` gives a text no longer than the input that neither starts nor ends with whitespace |
| Text.StripIdempotent | script/sync_master_and_cleanup.py:26 | stripping twice is stripping once |
| Text.StripMembers | script/sync_master_and_cleanup.py:26 | a stripped text holds only characters of the input |
| Text.StripFixes | script/sync_master_and_cleanup.py:26 | a text without whitespace at either end is its own strip |
| Text.ReplaceChar | script_weekly/sync_master_weekly.py:45-46 | `replace(a, b)` on single characters keeps the length and leaves no `a` when `b` differs from it |
| Text.ReplaceCharBack | script_weekly/sync_master_weekly.py:45-46 | replacing `b` by `a` again gives back a text that held no `b` |
| Lines.Filter | fetch_trends.py:26-29 | a list comprehension with a condition keeps only accepted lines and is no longer than the input |
| Lines.FilterMembers | fetch_trends.py:26-29 | a line survives the filter exactly when it is in the input and accepted |
| Lines.FilterAppend | fetch_trends.py:26-29 | filtering keeps file order: the filter of `a + b` is the filter of `a` followed by that of `b` |
| Lines.FilterAll | fetch_trends.py:26-29 | a filter accepting every line returns the input unchanged |
| Lines.FilterEmpty | fetch_trends.py:26-29 | the filter is empty exactly when no line is accepted |
| Lines.FilterFirst | fetch_trends.py:26-29 | a non-empty filter result starts with the first accepted line, followed by the filtered lines after it |
| Lines.NonBlank | script_weekly/fetch_weekly_one_window.py:45-49 | `read_lines` of the one-window fetcher: exactly the non-blank lines, unchanged |
| Lines.Without | script_weekly/fetch_weekly_one_window.py:64 | exactly the lines different from the keyword |
| Lines.KeepUnlessStripsToMembers | script/fetch_one_keyword.py:72 | exactly the lines that do not strip to the keyword, unchanged |
| Lines.NonBlankStripped | script_weekly/merge_weekly.py:17-21 | the stripped non-blank lines: no more of them than the input has |
| Lines.NonBlankStrippedAllClean | script_weekly/merge_weekly.py:17-21 | every line read is clean: stripped and non-empty |
| Lines.StripAllMembers | script_weekly/merge_weekly.py:21 | `[l.strip() for l in lines]`: an item is produced exactly when some line strips to it |
| Lines.NonBlankStrippedMembers | script_weekly/merge_weekly.py:17-21 | an item is read exactly when some non-blank line strips to it |
| Lines.NonBlankStrippedClean | script/sync_master_and_cleanup.py:22-32 | clean lines read back unchanged, so a file written from clean items reads as written |
| Lines.CleanRest | script_weekly/fetch_weekly_one_keyword.py:55-62 | after the first of some clean lines is popped, the rest read back as they were |
| Lines.StrippedExcept | script_weekly/fetch_weekly_one_keyword.py:70 | every kept item is stripped and differs from the keyword |
| Lines.StrippedExceptMembers | script_weekly/fetch_weekly_one_keyword.py:70 | an item is kept exactly when it differs from the keyword and some line strips to it |
| StringOrder.Sort | script_weekly/merge_weekly.py:39 | `sorted(list)` returns a permutation of the input |
| StringOrder.SortSorted | script_weekly/merge_weekly.py:39 | `sorted(list)` is in non-decreasing order, a permutation, and of the same length |
| StringOrder.SortedSet | script/sync_master_and_cleanup.py:29-32 | `sorted(set)`: sorted, each element once, exactly the set's members |
| StringOrder.SortedDistinctUnique | script/sync_master_and_cleanup.py:29-32 | two sorted repeat-free lists with the same members are equal: what `write_set` writes depends only on the set |
| Naming.SafeKw | script/sync_master_and_cleanup.py:35 | the safe name has the keyword's length and holds no space or slash: spaces and slashes (and only those) become `_` |
| Naming.SafeKwIdempotent | script/sync_master_and_cleanup.py:35 | a safe name holds no space or slash, and making it safe again changes nothing |
| Naming.SafeKwCollision | script/sync_master_and_cleanup.py:35 | two keywords share a safe name exactly when they have the same length and differ only among space, slash and `_` |
| Naming.KeepOrUnderscore | script_weekly/fetch_weekly_one_window.py:71 | the character pass keeps the length and leaves only letters, digits, `_` and spaces |
| Naming.Sanitize | script_weekly/fetch_weekly_one_window.py:70-73 | `sanitize_for_filename` never gives an empty name and gives only letters, digits and `_` |
| Naming.SanitizeFixes | script_weekly/fetch_weekly_one_window.py:70-73 | a non-empty name made of letters, digits and `_` is its own sanitised form |
| Naming.SanitizeIdempotent | script_weekly/fetch_weekly_one_window.py:70-73 | sanitising twice is sanitising once |
| Naming.SanitizeBlank | script_weekly/fetch_weekly_one_window.py:73 | an empty or all-space keyword falls back to `keyword` |
| Naming.SanitizeOther | script_weekly/fetch_weekly_one_window.py:71-73 | a keyword with a non-space character gives a name no longer than itself |
| Naming.BeforeLast | script/merge_files.py:38 | `rsplit(c, 1)[0]` is the prefix before the last `c`: the input has `c` right after it and none later; with no `c` it is the whole input |
| Naming.RSplit2 | script/merge_files.py:16 | `rsplit(c, 2)` gives one to three pieces; the split-off pieces hold no `c`, and with fewer than three pieces the first holds none either |
| Naming.RSplit2Join | script/merge_files.py:16 | joining the pieces with `c` gives back the name |
| Naming.OccursAt | script/merge_files.py:20 | `p in s` holds exactly when some slice of `s` is `p` |
| Naming.UpTo | script/merge_files.py:20 | `split(p)[0]` is a prefix of the input; where it stops is stated by Naming.UpToFirst |
| Naming.UpToFirst | script/merge_files.py:20 | `split(p)[0]` stops at the first `p`: `p` follows the result and does not occur earlier; with no `p` the result is the whole input |
| Naming.RemoveAll | script/sync_master_and_cleanup.py:61 | `replace(p, "")` leaves the text unchanged exactly when `p` does not occur in it, and otherwise removes at least one `p`'s length |
| Naming.RunFileKeys | script/merge_files.py:14-20 | the key `merge_files` and the key the monthly sync derive from a run file `{safe}_{date}_{time}.csv` are both `safe`, whatever `_`s it holds |
| Naming.RunFileColumn | script/merge_files.py:38 | the column `merge_files` names a run file's series is `{safe}_{date}`, never its key |
| Naming.RunFileMatches | script/sync_master_and_cleanup.py:36-37 | a run file matches the glob `{safe}_*.csv` of its own safe name, when the safe name holds no wildcard |
| Naming.KeywordGlobOvermatch | script/sync_master_and_cleanup.py:36-37 | the glob of a wildcard-free `safe` also matches the run files of every keyword whose safe name is `safe_...` |
| Calendar.SameWeekday | script_weekly/fetch_weekly_one_window.py:82-83 | two days share a weekday exactly when they are a whole number of weeks apart |
| Calendar.SundayOnOrBeforeSpec | script_weekly/fetch_weekly_one_window.py:82 | the snapped start is a Sunday at most six days before the date, and no later Sunday is on or before it |
| Calendar.SundayOnOrAfterSpec | script_weekly/fetch_weekly_one_window.py:83 | the snapped end is a Sunday at most six days after the date, and no earlier Sunday is on or after it |
| Calendar.WeeklyGridSpec | script_weekly/fetch_weekly_one_window.py:93 | `date_range(freq="W-SUN")` is exactly the Sundays of the interval, increasing |
| Calendar.JanFirstNext | script_weekly/fetch_weekly_one_window.py:113-115 | consecutive 1 Januaries are one calendar year (365 or 366 days) apart |
| Calendar.JanFirstGrows | script_weekly/fetch_weekly_one_window.py:113-115 | `k` years after a 1 January is at least `365 * k` days later |
| Calendar.StartDay | script_weekly/fetch_weekly_one_window.py:24 | 2015-01-01 is day 16436 |
| Calendar.PrevNextInverse | script/fetch_one_keyword.py:29-32 | stepping one day back and one forward are inverse on valid dates |
| Calendar.LastDayOfPreviousMonth | script/fetch_one_keyword.py:29-32 | the result is a valid date, the last of its month, in the month before today's, and the day after it is the first of today's month |
| Provider.FirstOk | script/fetch_one_keyword.py:79-101 | the attempt that ends a retry loop: no earlier answer is accepted, and it is accepted unless it is past the last attempt |
| Queue.FindFirstValid | script/fetch_one_keyword.py:52-58 | none exactly when no line strips to a non-empty non-comment; otherwise the first such line |
| Queue.KeywordFiles.constructor | script/fetch_one_keyword.py:17-20 | the four status files hold the given contents |
| Queue.KeywordFiles.AppendTo | script_weekly/fetch_weekly_one_window.py:41-43 | `append_line`: the target file gains the line at its end and nothing else changes |
| Queue.KeywordFiles.MarkProcessing | script_weekly/fetch_weekly_one_window.py:126 | the processing file gains the keyword at its end and nothing else changes |
| Queue.KeywordFiles.PopKeyword | script_weekly/fetch_weekly_one_keyword.py:51-63 | the first stripped non-blank line is returned, the others are written back stripped, and a file without one is left untouched |
| Queue.KeywordFiles.SaveStatusMove | script_weekly/fetch_weekly_one_keyword.py:66-74 | an existing processing file keeps its lines stripped, except those equal to the keyword; the target gains the keyword |
| Queue.KeywordFiles.PopLine | script_weekly/fetch_weekly_one_window.py:51-59 | the first non-blank line is returned unstripped, and the other non-blank lines are written back |
| Queue.KeywordFiles.MoveLine | script_weekly/fetch_weekly_one_window.py:61-68 | an existing processing file keeps its non-blank lines other than the keyword; the target gains the keyword |
| Queue.KeywordFiles.PopFirstUnprocessed | script/fetch_one_keyword.py:45-65 | the first valid line is returned stripped and removed, every other line stays in place; without one nothing changes |
| Queue.KeywordFiles.MoveFromProcessingTo | script/fetch_one_keyword.py:67-75 | an existing processing file loses the lines stripping to the keyword; the target gains the stripped keyword |
| Queue.PopKeywordConserves | script_weekly/fetch_weekly_one_keyword.py:51-63 | the popped keyword followed by what the rewritten queue reads is what the queue read before |
| Queue.PopKeywordIsFirstLine | script_weekly/fetch_weekly_one_keyword.py:55-58 | the popped keyword is the first non-blank line, stripped, and every earlier line is blank |
| Queue.PopFirstRestores | script/fetch_one_keyword.py:62 | putting the removed line back at its index restores the file exactly |
| Queue.MoveUndoesMark | script/fetch_one_keyword.py:72 | the move removes the processing line the run appended: the result is as if it had never been added |
| Queue.SaveStatusMoveUndoesMark | script_weekly/fetch_weekly_one_keyword.py:70 | the same for the per-keyword weekly move |
| Queue.MoveLineUndoesMark | script_weekly/fetch_weekly_one_window.py:64 | the same for the one-window weekly move |
| Series.Slice | script_weekly/stitch_weekly_keyword.py:30-31 | `loc[lo:hi]` keeps exactly the rows with a day in `[lo, hi]`, and keeps timestamps increasing |
| Series.From | script_weekly/stitch_weekly_keyword.py:37 | `loc[lo:]` keeps exactly the rows from `lo` on, and keeps timestamps increasing |
| Series.Present | script_weekly/stitch_weekly_keyword.py:33 | `dropna()` gives no more values than rows; it drops none exactly when no value is missing, and keeps none exactly when all are |
| Series.PresentMembers | script_weekly/stitch_weekly_keyword.py:33 | a value survives `dropna()` exactly when some row holds it |
| Series.ScaleRows | script_weekly/stitch_weekly_keyword.py:36 | `df * c` keeps every timestamp in place |
| Series.Blanked | script_weekly/fetch_weekly_one_keyword.py:134-135 | `df * nan` keeps the timestamps and makes every value missing, so `dropna()` of it is empty |
| Series.Lookup | script_weekly/fetch_weekly_one_window.py:100 | a present value found for a day is the row of that day; on unique days it is that row's value; a day with no row gives NaN |
| Series.SortReals | script_weekly/stitch_weekly_keyword.py:33 | sorting the values for the median gives a permutation of the same length |
| Series.SortRealsSpec | script_weekly/stitch_weekly_keyword.py:33 | the sorted values are in order |
| Series.SortRealsOfSorted | script_weekly/stitch_weekly_keyword.py:33 | sorting values that are already in order changes nothing |
| Series.MedianOfSorted | script_weekly/stitch_weekly_keyword.py:33 | on ordered values the median is the middle value, or the mean of the two middle values |
| Series.MedianBounds | script_weekly/stitch_weekly_keyword.py:33 | the median lies between any lower and upper bound of the values |
| Series.SortRealsScale | script_weekly/stitch_weekly_keyword.py:36 | scaling by a positive factor commutes with sorting |
| Series.MedianScale | script_weekly/stitch_weekly_keyword.py:36 | scaling by a positive factor scales the median by it |
| Series.MedianTimesZero | script_weekly/stitch_weekly_keyword.py:36 | scaling by zero gives a zero median |
| Series.MedianAligned | script_weekly/stitch_weekly_keyword.py:36 | scaling the new overlap by the ratio of the medians gives it the old overlap's median |
| Series.PresentScale | script_weekly/stitch_weekly_keyword.py:36 | the present values of a scaled series are the scaled present values |
| Series.SliceScale | script_weekly/stitch_weekly_keyword.py:30-36 | slicing and scaling commute |
| Series.FromDays | script_weekly/stitch_weekly_keyword.py:37 | the tail holds exactly the timestamps from `lo` on |
| Series.FromSameDays | script_weekly/stitch_weekly_keyword.py:36-37 | value-wise changes do not change which timestamps a tail keeps |
| Series.MergeMembers | script_weekly/stitch_weekly_keyword.py:38-39 | concat then `duplicated(keep="last")` keeps every new row, and exactly the old rows on days the new rows do not have |
| Series.MergeIncreasing | script_weekly/stitch_weekly_keyword.py:38-41 | the merged series has strictly increasing timestamps |
| Series.MergeDays | script_weekly/stitch_weekly_keyword.py:38-39 | the merged timestamps are those of both inputs |
| Series.MergeAppends | script_weekly/stitch_weekly_keyword.py:38-41 | when every old row comes before every new row, dropping duplicates and sorting change nothing: the merge is the plain concatenation |
| StitchWeekly.FactorAligns | script_weekly/stitch_weekly_keyword.py:33-36 | when the guard holds, the rescaled new overlap has the old overlap's median |
| StitchWeekly.FactorExample | script_weekly/stitch_weekly_keyword.py:33-36 | old overlap 10, 20, 30 and new overlap 5, 10, 15 give the factor 2 |
| StitchWeekly.Scaled | script_weekly/stitch_weekly_keyword.py:32-36 | `df_scaled` has the new window's timestamps |
| StitchWeekly.Tail | script_weekly/stitch_weekly_keyword.py:37 | the tail is increasing and holds exactly the new window's timestamps after the previous window's end |
| StitchWeekly.Step | script_weekly/stitch_weekly_keyword.py:25-39 | one loop pass keeps timestamps strictly increasing; a row survives exactly when it is in the tail, or is an old row on a day the tail lacks |
| StitchWeekly.StepKeeps | script_weekly/stitch_weekly_keyword.py:37-39 | a step never touches a row at or before the previous window's end |
| StitchWeekly.StitchPrefix | script_weekly/stitch_weekly_keyword.py:24-39 | the series stitched after any number of windows, merging and sorting on every pass, has strictly increasing timestamps |
| StitchWeekly.StepAppends | script_weekly/stitch_weekly_keyword.py:37-39 | a pass over rows that all end by the previous window's end only appends the tail |
| StitchWeekly.StitchPrefixWithin | script_weekly/stitch_weekly_keyword.py:24-39 | with every window within its bounds and the ends in file order, the rows stitched after `k` windows end by window `k - 1`'s end |
| StitchWeekly.StitchPrefixAppends | script_weekly/stitch_weekly_keyword.py:24-41 | under the same conditions the sorted merge of every pass equals the source's unsorted `concat` loop (`Concatenated`), whose index is therefore strictly increasing, so each `loc` slice runs on a sorted index |
| StitchWeekly.StepDays | script_weekly/stitch_weekly_keyword.py:37-39 | a pass adds exactly the new window's timestamps after the previous window's end |
| StitchWeekly.WindowsInOrder | script_weekly/stitch_weekly_keyword.py:12-21 | files in name order give windows whose ends are in order, when no later name ends earlier |
| StitchWeekly.Collect | script_weekly/stitch_weekly_keyword.py:16-21 | the windows of the files in order, or a crash exactly when some file is empty |
| StitchWeekly.StitchAll | script_weekly/stitch_weekly_keyword.py:24-39 | the loop computes the stitch of all the windows |
| StitchWeekly.StitchDays | script_weekly/stitch_weekly_keyword.py:24-41 | the stitched timestamps are the first window's plus, for every later window, its timestamps after the previous window's end |
| StitchWeekly.SeedKept | script_weekly/stitch_weekly_keyword.py:24-39 | the first window survives unscaled when it lies within its bounds and no later window ends before it |
| StitchWeekly.FileWindow | script_weekly/stitch_weekly_keyword.py:18-21 | a window read from a file is bounded by its first and last timestamps |
| StitchWeekly.Windows | script_weekly/stitch_weekly_keyword.py:16-21 | one window per file name, holding that file's rows and running from its first timestamp to its last |
| StitchWeekly.StitchKeyword | script_weekly/stitch_weekly_keyword.py:10-42 | files are taken in sorted name order. An empty folder writes nothing, and an empty file raises. Otherwise the written series is the stitch of all the windows, equal to the unsorted concatenation of their tails and strictly increasing |
| Table.FilterEntries | script/merge_files.py:11 | a listing filter keeps exactly the accepted entries |
| Table.FilterEntriesAll | script/merge_files.py:11 | a filter accepting every entry keeps the listing unchanged |
| Table.NewestIndex | script/merge_files.py:22-24 | the entry the mtime scan keeps lies within the scanned prefix |
| Table.NewestIndexSpec | script/merge_files.py:22-24 | the scan keeps nothing exactly when no entry is accepted; otherwise it keeps the first of the accepted entries with the greatest mtime |
| Table.FirstNewestUnique | script_weekly/merge_weekly.py:49 | at most one entry is the first of the newest, so `max(key=getmtime)` and the scan agree |
| Table.FirstSeen | script/merge_files.py:23-24 | the first entry with a given key, where the dictionary first gains that key |
| Table.LatestPerKey | script/merge_files.py:10-25 | there is a key exactly when some file has it; each key maps to the first newest file with it; the keys come in first-seen order |
| Table.Newest | script_weekly/merge_weekly.py:49 | `max(files, key=getmtime)` is the first of the newest accepted entries |
| Table.ColumnsOf | script/sync_master_and_cleanup.py:67-80 | no more columns than keywords |
| Table.ColumnsOfSpec | script/sync_master_and_cleanup.py:67-80 | every column is a keyword's frame under its safe name; there is none exactly when no keyword has a frame |
| Table.InsertDay | script/sync_master_and_cleanup.py:92 | adding a timestamp keeps the index ascending and adds just that one |
| Table.SortDays | script/sync_master_and_cleanup.py:92 | `sort_index()` of the joined index: ascending, exactly the given timestamps |
| Table.DaySeq | script/sync_master_and_cleanup.py:91 | a frame's index holds exactly its timestamps |
| Table.AllDays | script/sync_master_and_cleanup.py:91 | the joined index holds exactly the timestamps of the frames |
| Table.OuterJoinShape | script/sync_master_and_cleanup.py:91-92 | `concat(axis=1)` then `sort_index`: one named column per frame, rows ascending with each timestamp once, every timestamp one of the frames' |
| Table.OuterJoinPresent | script/sync_master_and_cleanup.py:91 | a value is present only where its frame has it at that timestamp |
| Table.OuterJoinComplete | script/sync_master_and_cleanup.py:91 | every row of a frame without repeated timestamps appears in its column at its timestamp |
| Table.Joined | script/sync_master_and_cleanup.py:82-93 | no merged dataset exactly when there is no frame; otherwise the joined table |
| Reconcile.ReadKeywordSetMembers | script/sync_master_and_cleanup.py:22-27 | monthly `read_set`: exactly the stripped non-blank, non-comment lines; a missing file is empty |
| Reconcile.ReadTopicSetMembers | script_weekly/sync_master_weekly.py:33-37 | weekly `read_set`: exactly the stripped non-blank lines, `#` lines included; a missing file is empty |
| Reconcile.ListsUnique | script/sync_master_and_cleanup.py:29-32 | two files `write_set` could write for the same set are equal |
| Reconcile.KeywordSetRoundTrip | script/sync_master_and_cleanup.py:22-32 | writing a set of keywords and reading it back gives the same set |
| Reconcile.TopicSetRoundTrip | script_weekly/sync_master_weekly.py:33-42 | writing a set of clean items and reading it back gives the same set |
| Reconcile.ReadKeywordSetKeywords | script/sync_master_and_cleanup.py:26 | everything the monthly reader returns is clean and not a comment |
| Reconcile.ReconciledSpec | script/sync_master_and_cleanup.py:111-150 | after a sync, unprocessed and failed lie in the master. A processed keyword outside the master stays exactly while it is in processing. Every master keyword is in some set, and keeps the set it was in. The added keywords are the master keywords that were in no set |
| Reconcile.ReconciledIdempotent | script/sync_master_and_cleanup.py:111-155 | a second sync with the same master changes no status set |
| Reconcile.AddNew | script/sync_master_and_cleanup.py:111-116 | unprocessed gains exactly the master keywords no set holds, and `added` lists each of them once |
| Reconcile.KeepInMaster | script/sync_master_and_cleanup.py:128-138 | the set keeps exactly its master keywords and the others are reported once each |
| Reconcile.ListSet | script_weekly/sync_master_weekly.py:151 | `list(set)`: each element once, in some order |
| SyncMonthly.DeleteRawFiles | script/sync_master_and_cleanup.py:34-45 | the files the keyword glob matches are removed and reported; the others stay in order |
| SyncMonthly.DropEvicted | script/sync_master_and_cleanup.py:140-150 | processed loses exactly the evicted keywords. The raw files any of them claims are removed, and one removal is reported per evicted keyword |
| SyncMonthly.CollectLatest | script/sync_master_and_cleanup.py:66-80 | the frame loop collects, for each keyword in order, the frame of the file `latest` holds under its safe name, if any |
| SyncMonthly.LatestFramesAgree | script/sync_master_and_cleanup.py:52-64 | when `latest` holds the newest file of each key, reading frames through it gives the columns of the newest raw files |
| SyncMonthly.RebuildMerged | script/sync_master_and_cleanup.py:47-94 | the processed keywords, sorted, each contribute the newest raw file under their safe name, joined; no frame leaves no dataset |
| SyncMonthly.ReconcileSets | script/sync_master_and_cleanup.py:111-150 | the loops compute the reconciled sets and delete the evicted keywords' raw files |
| SyncMonthly.Sync | script/sync_master_and_cleanup.py:96-180 | without a master nothing changes. Otherwise the three rewritten status files list the reconciled sets, sorted, and processing is untouched. The raw files are cleaned and the dataset is rebuilt from the new processed file |
| SyncWeekly.DeleteRawFiles | script_weekly/sync_master_weekly.py:49-70 | the keyword's window folder and its weekly file go, and exactly their files are reported |
| SyncWeekly.DropEvicted | script_weekly/sync_master_weekly.py:150-158 | processed loses exactly the evicted keywords, whose window folders and weekly files are removed |
| SyncWeekly.RebuildMerged | script_weekly/sync_master_weekly.py:77-105 | the processed keywords, sorted, each contribute their weekly file under the safe name, joined; no frame leaves no dataset |
| SyncWeekly.ReconcileSets | script_weekly/sync_master_weekly.py:126-158 | in any iteration order of the sets, the loops compute the reconciled sets and remove the evicted keywords' data |
| SyncWeekly.ReadTopicSetClean | script_weekly/sync_master_weekly.py:33-42 | every item the weekly reader returns is clean, so it survives a write and a read |
| SyncWeekly.Sync | script_weekly/sync_master_weekly.py:112-186 | without a master nothing changes. Otherwise the status files list the reconciled sets, sorted, and the evicted data is removed. The dataset is rebuilt from the new processed file |
| MergeWeekly.ReadLines | script_weekly/merge_weekly.py:17-21 | no more items than lines, each one clean |
| MergeWeekly.NewestFile | script_weekly/merge_weekly.py:42-49 | none exactly when the glob lists no file; otherwise the first of the newest it lists |
| MergeWeekly.CollectFrames | script_weekly/merge_weekly.py:37-55 | the columns are the newest readable file per keyword, in order; `missing` holds exactly the keywords whose glob lists nothing |
| MergeWeekly.Merge | script_weekly/merge_weekly.py:26-74 | no processed keyword removes the dataset. With no frame the old dataset stays. Otherwise the join of the sorted keywords' frames is written before the run fails on the undefined legacy folder |
| MergeWeekly.OvermatchPicked | script_weekly/merge_weekly.py:42-49 | the glob of a wildcard-free `a` picks the weekly file of a keyword `a b` when that is the only file |
| MergeFiles.NewestFor | script/merge_files.py:10-25 | the file kept for a key has that key |
| MergeFiles.KeyColumns | script/merge_files.py:32-42 | no more columns than keys |
| MergeFiles.KeyColumnsSpec | script/merge_files.py:32-42 | each column is the series of a key's newest file, named after that file; there is none exactly when no key's newest file can be read |
| MergeFiles.CollectColumns | script/merge_files.py:32-42 | the loop collects the columns of the keys in first-seen order |
| MergeFiles.Merge | script/merge_files.py:27-50 | no CSV file writes nothing, and so does no readable newest file. Otherwise the join of the columns is written. The keys are exactly the file keys, in first-seen order |
| Monthly.Timeframe | script/fetch_one_keyword.py:25-35 | the timeframe starts on 2015-01-01 and ends on the day before the first of the current month |
| Monthly.Pow2 | script/fetch_one_keyword.py:98 | `2 ** n` is at least 1 |
| Monthly.FetchKeyword | script/fetch_one_keyword.py:77-101 | the first non-raising attempt decides: an empty frame gives "empty", a frame gives "ok". Five raises give the final error. The sleeps double from 60 seconds |
| Monthly.TotalBackoff | script/fetch_one_keyword.py:98-100 | `n` backoffs sleep `60 * (2^n - 1)` seconds in all |
| Monthly.FetchAndMove | script/fetch_one_keyword.py:119-134 | an "ok" fetch saves the frame under the safe name and moves the keyword to processed; anything else moves it to failed. Either way its processing line goes |
| Monthly.Run | script/fetch_one_keyword.py:109-140 | no valid keyword changes nothing. Otherwise the first valid line is popped and marked. It is fetched, then moved to processed (frame saved) or to failed |
| WeeklyKeyword.WindowCountUnique | script_weekly/fetch_weekly_one_keyword.py:99-107 | the window count is the one number whose last window ends by now while the next would not |
| WeeklyKeyword.PlanWindows | script_weekly/fetch_weekly_one_keyword.py:99-107 | the loop plans exactly the windows `Planned` describes |
| WeeklyKeyword.PlannedSpec | script_weekly/fetch_weekly_one_keyword.py:99-107 | windows are 90 days long, 30 days apart, overlap by 60 days and start on 2015-01-01. Every one ends by now and the next one would not |
| WeeklyKeyword.FetchWindow | script_weekly/fetch_weekly_one_keyword.py:79-96 | the first non-raising attempt decides: an empty answer gives none and a frame gives it. Five raises give none. The sleeps are 60, 120, ... seconds |
| WeeklyKeyword.FetchOutcomes | script_weekly/fetch_weekly_one_keyword.py:79-96 | a fetch fails exactly when it gives no window |
| WeeklyKeyword.ScaleForAligns | script_weekly/fetch_weekly_one_keyword.py:133-135 | a real scale aligns the new overlap's median with the old one's |
| WeeklyKeyword.Rescaled | script_weekly/fetch_weekly_one_keyword.py:132-137 | rescaling keeps the timestamps. A NaN scale blanks every value, and no scale changes nothing |
| WeeklyKeyword.ConcatStep | script_weekly/fetch_weekly_one_keyword.py:122-141 | a loop pass only appends, and only rows of the window after the previous window's end; under a NaN scale they are all missing |
| WeeklyKeyword.StepTail | script_weekly/fetch_weekly_one_keyword.py:139-141 | the appended rows are rows of the window after the previous window's end, all missing under a NaN scale, and increasing when the window is |
| WeeklyKeyword.ConcatSeed | script_weekly/fetch_weekly_one_keyword.py:119-143 | the first window is kept unchanged as the prefix of the stitched series |
| WeeklyKeyword.ConcatStepIncreasing | script_weekly/fetch_weekly_one_keyword.py:139-141 | one pass keeps timestamps increasing and within the current window's end |
| WeeklyKeyword.ConcatIncreasing | script_weekly/fetch_weekly_one_keyword.py:112-143 | without deduplication, the stitched timestamps are still strictly increasing |
| WeeklyKeyword.ConcatDays | script_weekly/fetch_weekly_one_keyword.py:112-143 | every stitched timestamp comes from one of the windows |
| WeeklyKeyword.StitchWindows | script_weekly/fetch_weekly_one_keyword.py:112-143 | none exactly for no windows; otherwise the first window with every later tail appended |
| WeeklyKeyword.FetchAll | script_weekly/fetch_weekly_one_keyword.py:169-179 | windows are fetched in plan order up to the first failure. Each saved window carries its planned bounds and its fetched rows |
| WeeklyKeyword.PlannedCollected | script_weekly/fetch_weekly_one_keyword.py:169-182 | planned windows with sorted, in-bounds rows meet what the increasing-stitch lemma needs |
| WeeklyKeyword.Run | script_weekly/fetch_weekly_one_keyword.py:148-193 | the first keyword is popped and marked. A failed window or an empty plan moves it to failed. Otherwise the stitched series is written and it moves to processed |
| WeeklyKeyword.FetchAndStitch | script_weekly/fetch_weekly_one_keyword.py:159-186 | the planned windows are fetched in order until one fails, which is reported with its index; with none failing, an empty plan leaves nothing to stitch and otherwise the saved windows are stitched |
| WeeklyWindow.Reindexed | script_weekly/fetch_weekly_one_window.py:100 | `reindex(grid)` gives one row per grid day, in grid order |
| WeeklyWindow.ReindexedSpec | script_weekly/fetch_weekly_one_window.py:82-100 | the reindexed frame covers the Sundays from the snapped start to the snapped end, each with the fetched value or NaN |
| WeeklyWindow.FetchGridWindow | script_weekly/fetch_weekly_one_window.py:81-107 | the first accepted frame is reindexed onto the Sunday grid; otherwise an all-NaN grid. The sleeps are 20, 40, ... seconds |
| WeeklyWindow.FullWindowGrows | script_weekly/fetch_weekly_one_window.py:113-115 | a five-year window spans at least 5 * 365 days, and the next one starts at least 4 * 365 days later |
| WeeklyWindow.FullFromSpec | script_weekly/fetch_weekly_one_window.py:113-115 | the counted full windows all end by now and the next one does not |
| WeeklyWindow.PlanYearly | script_weekly/fetch_weekly_one_window.py:109-118 | the loop plans exactly the windows `PlannedYearly` describes for yesterday |
| WeeklyWindow.PlannedYearlySpec | script_weekly/fetch_weekly_one_window.py:109-118 | no window exactly when yesterday is under a week after 2015-01-01. Otherwise windows start on 2015-01-01, each spans at least a week, ends by yesterday and overlaps the previous one |
| WeeklyWindow.PlannedFirst | script_weekly/fetch_weekly_one_window.py:109-118 | no window exactly when yesterday is under a week after 2015-01-01; otherwise the first window starts on 2015-01-01 |
| WeeklyWindow.PlannedBounds | script_weekly/fetch_weekly_one_window.py:109-118 | every planned window spans at least a week and ends by yesterday |
| WeeklyWindow.PlannedOverlap | script_weekly/fetch_weekly_one_window.py:109-118 | each planned window starts after the previous one starts and before it ends |
| WeeklyWindow.FullWindows | script_weekly/fetch_weekly_one_window.py:111-115 | the loop collects exactly the five-year windows that end by yesterday, and stops at the year of the first that does not |
| WeeklyWindow.FirstWindow | script_weekly/fetch_weekly_one_window.py:131-139 | no window exactly when yesterday is under a week after 2015-01-01; otherwise the window fetched starts on 2015-01-01 and ends by yesterday |
| WeeklyWindow.Run | script_weekly/fetch_weekly_one_window.py:120-156 | the first non-blank line is popped and marked. With no window it moves to failed. Otherwise the first window is saved under the sanitised name and the keyword stays in processing |
| FetchTrends.KeywordsMembers | fetch_trends.py:22-30 | a keyword is loaded exactly when some record's stripped `keyword` field (`""` when absent) is it, and it is non-empty and not a comment |
| FetchTrends.KeywordsClean | fetch_trends.py:27-29 | every loaded keyword is clean and not a comment |
| FetchTrends.KeywordsAppend | fetch_trends.py:26-29 | loading keeps file order: more records append their keywords |
| FetchTrends.KeywordsOne | fetch_trends.py:27-29 | one record gives its stripped field when accepted, and nothing otherwise |
| FetchTrends.LoadKeywords | fetch_trends.py:22-30 | the loop loads exactly `Keywords` of the records |
| FetchTrends.BlockStart | fetch_trends.py:37 | the block starts at a valid position of the list |
| FetchTrends.Position | fetch_trends.py:40 | every block position is a valid index of the list |
| FetchTrends.SelectBlock | fetch_trends.py:32-41 | `k` keywords, the `i`-th at position `(start + i) % n` of the list |
| FetchTrends.BlockDistinct | fetch_trends.py:37-40 | with at most `n` keywords per run, no position repeats within a block |
| FetchTrends.NextBlockContinues | fetch_trends.py:36-40 | the next slot's block starts right after this one's last position |
| FetchTrends.SlotAdvances | fetch_trends.py:36 | four hours later is the next slot |
| FetchTrends.Fetched | fetch_trends.py:43-56 | a frame with rows is fetched; an empty frame or a raise gives nothing |
| FetchTrends.SavedFiles | fetch_trends.py:75-88 | no more files than keywords |
| FetchTrends.SavedFilesSpec | fetch_trends.py:75-88 | a file is saved exactly for each keyword answered with rows, named `{safe}_{date}_{time}.csv`, holding those rows |
| FetchTrends.SavedFilesFound | fetch_trends.py:80-81 | each saved file name is found by name under its keyword's safe name by both merge keys and, for a keyword without wildcards, by the keyword glob |
| FetchTrends.Run | fetch_trends.py:58-91 | no file, or no keyword, does nothing. Otherwise the slot's block is fetched, and exactly the files `SavedFiles` describes are saved |
| FetchTrends.SaveBlock | fetch_trends.py:75-88 | the loop saves one file per keyword of the block with a non-empty answer, in block order, and exactly the files `SavedFiles` describes |
| MapTopics.ReadRaw | script_weekly/map_topics.py:19-23 | the terms are sorted and each appears once. A term is read exactly when some non-blank line strips to it |
| MapTopics.ReadTopicSetClean | script_weekly/map_topics.py:21 | every term read is clean |
| MapTopics.FirstTopic | script_weekly/map_topics.py:31-34 | the first suggestion with a non-empty `mid` and a `title`, if any |
| MapTopics.MapKeyword | script_weekly/map_topics.py:25-35 | a raising lookup gives its message as the error. Otherwise the first topic suggestion gives id and title, or the error is `no_topic_match`. There is an id exactly when there is no error |
| MapTopics.FirstTopicWins | script_weekly/map_topics.py:31-34 | suggestions after the first topic do not change the mapping |
| MapTopics.LogRows | script_weekly/map_topics.py:44-52 | one log row per term; the cells of each are stated by MapTopics.LogRowsCells |
| MapTopics.LogRowsCells | script_weekly/map_topics.py:44-52 | log row `i` has four cells and starts with term `i`; its id cell is filled exactly when the term is mapped, and its error cell exactly when it is not |
| MapTopics.MappedInOrder | script_weekly/map_topics.py:45-51 | the mapped terms are exactly the terms with a topic, in order |
| MapTopics.RejectedInOrder | script_weekly/map_topics.py:45-52 | the rejected terms are exactly the terms without a topic, in order |
| MapTopics.PartitionSize | script_weekly/map_topics.py:45-52 | mapped and rejected together hold one entry per term |
| MapTopics.PartitionEntries | script_weekly/map_topics.py:46-51 | each entry carries its own term's id and title, or its own term's error |
| MapTopics.WriteLists | script_weekly/map_topics.py:54-62 | one master line `id\ttitle` per mapped term, and one `term\terror` line per rejected term, in order |
| MapTopics.MasterLineRead | script_weekly/map_topics.py:57 | with a clean id and title, the weekly sync reads a master line as the whole `id\ttitle` |
| MapTopics.MasterLineNoTitle | script_weekly/map_topics.py:57 | with an empty title, the weekly sync reads the id alone |
| MapTopics.MapAll | script_weekly/map_topics.py:42-52 | the loop produces the mapped list, the rejected list and the log rows, in term order |
| MapTopics.Run | script_weekly/map_topics.py:37-67 | terms are read, mapped in order, and logged with a header; the master and rejected files are written from the lists |

## Left out

- Logging, printing, `time.sleep` and the random user agent and jitter are left out. The retry loops return the sleep durations they would wait.
- Lines.Appended: a file is its list of lines. Appending with `write(line + "\n")` to a file whose last line lacks its newline (a hand-edited status file) joins the two lines in the source; the model always adds a separate line.
- CSV parsing and writing are left out: file contents are series of rows, the CSV records of `keywords.csv` are maps from column name to text, and the mapping log is a list of cell lists.
- FetchTrends.LoadKeywords: a short `keywords.csv` row, whose missing field reads as `None` and raises on `.strip()`, is not modelled; a missing field reads as `""`.
- Column renames and dropping `isPartial` are left out: a frame is its single value column.
- Floating point is modelled as exact reals, and NaN as a missing value. The median skips missing values, as pandas does.
- Provider calls are oracles. The answers to successive attempts are parameters, so each retrying operation takes exactly the number of answers its attempts can use.
- The clock and the file timestamps are parameters. Timestamp strings are any texts without `_`.
- The output file names `merge_files` builds from the clock are left out.
- The provider timeframes of the weekly fetchers are their planned windows, not formatted strings.
- Naming.Sanitize: `isalnum` is modelled for ASCII letters and digits only; other Unicode letters and digits, which Python keeps, become `_`.
- Naming.KeepOrUnderscore: the same ASCII-only `isalnum` as Naming.Sanitize.
- Naming.Sanitize: the one-window fetcher names its window folder and files after `sanitize_for_filename(keyword)` (script_weekly/fetch_weekly_one_window.py:127 and 143), while the weekly sync deletes the folder named after `safe_kw(keyword)` (script_weekly/sync_master_weekly.py:50-53). The two names differ for keywords with characters other than letters, digits, spaces and slashes; the model does not relate them.
- Naming.RemoveAll: does not state that no `p` is left, because removal can join a new one (`"aabb"` less `"ab"` leaves `"ab"`).
- Text.StripShape: the whitespace set is the characters Python's `str.strip()` removes; other Unicode case or normalisation rules are not modelled.
- SyncMonthly.DeleteRawFiles: a failing `os.remove`, which the script reports and skips, is not modelled; every matched file is removed. It requires a keyword without glob wildcards (see Naming.MatchesKeywordGlob).
- Naming.MatchesKeywordGlob: the keyword globs `{safe}_*.csv` are built without `glob.escape`, so `*`, `?` and `[...]` in a safe name act as wildcards (the glob of `a?` also lists the files of `ab`; the glob of `x[1]` misses the files of `x[1]` and lists those of `x1`). Only the literal reading is modelled, and the data directory path is taken to hold no wildcard either. Every member whose contract rests on the glob requires wildcard-free keywords (`Naming.GlobLiteral`): Naming.RunFileMatches, Naming.KeywordGlobOvermatch, FetchTrends.SavedFilesFound, MergeWeekly.NewestFile, MergeWeekly.CollectFrames, MergeWeekly.Merge, MergeWeekly.OvermatchPicked, SyncMonthly.DeleteRawFiles, SyncMonthly.DropEvicted, SyncMonthly.ReconcileSets and SyncMonthly.Sync.
- Naming.RunFileMatches: requires a safe name without glob wildcards.
- Naming.KeywordGlobOvermatch: requires a safe name without glob wildcards; the further over-matches wildcards cause are not stated.
- FetchTrends.SavedFilesFound: requires a keyword without glob wildcards. It compares file names only: `fetch_trends.py` writes to `data/` (line 81), while `merge_files.py` lists `data/raw` (lines 6 and 11) and the monthly sync `data_monthly/raw` (line 10), so the files are not found there without being moved.
- MergeWeekly.NewestFile: requires a safe name without glob wildcards.
- MergeWeekly.CollectFrames: requires keywords without glob wildcards.
- MergeWeekly.OvermatchPicked: requires a keyword without glob wildcards.
- SyncMonthly.DropEvicted: requires processed keywords without glob wildcards.
- SyncMonthly.ReconcileSets: requires processed keywords without glob wildcards.
- SyncMonthly.Sync: requires the keywords of `processed.txt` to hold no glob wildcards.
- SyncWeekly.DeleteRawFiles: a window folder is flat. Subfolders walked by `os.walk` and failures of `os.remove` or `os.rmdir` are not modelled.
- SyncWeekly.ReconcileSets: the weekly sync iterates over sets in hash order. The model leaves that order open, so the order of `added` and of the removal reports is not stated.
- Table.OuterJoinComplete: a frame with a timestamp twice, which makes `concat(axis=1)` raise, is not modelled; the join takes the first value.
- MergeWeekly.Merge: requires the keywords of `processed.txt` to hold no glob wildcards. The undefined legacy folder name is modelled as an outcome that follows the write, not as an exception.
- WeeklyWindow.Run: the undefined `PROCED` is modelled the same way. The top-level handler only logs.
- Monthly.Run: the top-level handler for unexpected exceptions (I/O errors) is not modelled.
- Monthly.FetchKeyword: the fallback return after the retry loop cannot be reached and is not modelled.
- WeeklyKeyword.Run: the folder and file names are not modelled. The per-keyword weekly fetcher writes under `data/raw_windows` and `data/raw_weekly` with only spaces replaced, while the weekly sync and merge look under `data_weekly/` with both spaces and slashes replaced.
- StitchWeekly.Step: the pass ends with the sort the source leaves to the end of the loop; it is the source's plain concatenation when the stitched rows all end by the previous window's end (StitchWeekly.StepAppends).
- StitchWeekly.StitchPrefix: the model merges and sorts after every pass, while the source sorts once, at the end (line 41). The two agree when every window lies within its bounds and the window ends follow file order (StitchWeekly.StitchPrefixAppends). On other window sets the source's `loc` slices run on an unsorted index: they can pick other overlap rows, or raise `KeyError` when a bound is not in the index. That behaviour is not modelled.
- StitchWeekly.StitchKeyword: requires every file's timestamps to be strictly increasing and no file to end earlier than a file whose name sorts before it. Window files are named `{safe}_{start}_{end}.csv` by the weekly fetchers, whose windows start and end later one after another, so their folders meet this. Folders that break it (hand-edited or unsorted files) are not modelled; see StitchWeekly.StitchPrefix.
- StitchWeekly.StitchKeyword: the `__main__` loop over `processed.txt`, which names folders with only spaces replaced, is not modelled. The operation takes the contents of one window folder.
- MapTopics.ReadRaw: a missing raw file, which raises, is not modelled; the operation takes the file's lines.
- `script/plot_weekly_preview.py` (a plotting preview) is not part of this model.
