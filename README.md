# PDF watcher: record assembly, banding and deduplication

This project models the core of the PDF watcher, a desktop tool that watches an
annotated PDF. Each time the PDF is saved, the tool turns its highlighted passages
into rows of a spreadsheet report. The model covers four parts:

- **Record assembly** (`parse_records`). The highlighted fragments arrive in
  document order. Each is stripped and classified as a date marker, a time marker
  or comment text. A small state machine (`current_date`, `comment_buffer`,
  `pending_time`) groups the comments under a time marker. It supports two modes,
  'Comment → Time' and 'Time → Comment', plus a tail flush at the end. Each group
  becomes a record: a date, the prefix plus a page number, and the heading plus the
  time plus the comments joined by " [...] ".
- **Report writing** (`append_to_xlsx`). The records are appended as rows. Every
  data row is then re-banded: the fill alternates each time the date column
  changes value.
- **Deduplication** (`PDFChangeHandler.on_modified`). Records already written in
  this session are dropped. The rest are written, and they join the seen set only
  once the write has succeeded.
- **Settings** (`start_watcher`). An empty prefix or heading falls back to its
  default.

The modules follow the program's structure:

| file | module | what it holds |
|---|---|---|
| `outcomes.dfy` | `Outcomes` | `Option` and `Result` |
| `strings.dfy` | `Strings` | Python's `str.strip` with the full `str.isspace` set, newline replacement, decimal digits, `str.join`, `reversed` |
| `dates.dfy` | `Dates` | `date_pattern`, and `strptime('%d %b %Y')` followed by `strftime('%d/%m/%Y')` |
| `assembler.dfy` | `Assembler` | classification, the fold `Step`/`RunFrom` that specifies the loop, and the records |
| `assembler.dfy` | `Assembler` | the `RecordAssembler` class with the loop's state; `ParseRecords` is proved to compute `Assemble` |
| `assembler_properties.dfy` | `AssemblerProperties` | the properties of the assembler: flushes in both modes, the date reset, the tail flush, record count, flush order, dates, join order, classification examples |
| `report.dfy` | `Report` | the banding scan; its parity reference; stability under append; the `Store` class for the workbook file |
| `session.dfy` | `Session` | defaults, the seen-set filter and its laws, the `Handler` class, `StartWatcher` |

Some inputs the program reads from the outside world become parameters of the model:
- The clock: `today` is the `dd/mm/yyyy` date `datetime.now()` would give during one pass.
- The extracted highlights: a sequence of `Fragment(page, text)`.
- Whether `wb.save` succeeds: `saveOk`.

The model follows the code on these points, where a reader of the program's
description might expect otherwise:
- An invalid date of the right shape (for example "31 Feb 2024") makes `strptime`
  raise. The whole parse is then aborted, and no record of that pass is written.
- A setting is replaced by its default only when it is empty, not when it is
  otherwise malformed.
- A group flushed in 'Time → Comment' carries the page of the time marker that
  closes it. This is not the page of the time it is labelled with.
- In 'Time → Comment', comments before the first time marker are not dropped. No
  time is pending yet, so that marker neither flushes nor clears the buffer, and
  those comments join its group.

## Model

| member | source | states |
|---|---|---|
| Strings.Strip | pdfwatcherapp1.py:89 | Definition of `text.strip()`: the trailing whitespace run is cut, then the leading one, with whitespace as `str.isspace` defines it; `StripSpec` states its meaning |
| Strings.StripSpec | pdfwatcherapp1.py:89 | `text.strip()` is a contiguous slice of the text. Everything cut off on either side is whitespace, and the result neither starts nor ends with whitespace |
| Strings.StripEndSpec | pdfwatcherapp1.py:108 | Cutting trailing whitespace (the `\s*$` of the comment rule) leaves a prefix that does not end with whitespace, and only whitespace was removed |
| Strings.StripStartSpec | pdfwatcherapp1.py:89 | Cutting leading whitespace leaves a suffix that does not start with whitespace, and only whitespace was removed |
| Strings.ReplaceNewlines | pdfwatcherapp1.py:108 | `text.replace('\n', ' ')` keeps the length, turns every newline into a space and changes no other character |
| Strings.NatToString | pdfwatcherapp1.py:83 | The page number in the locator is written as `str(page)` writes it: at least one digit, no leading zero unless the number is 0, and the digits read back as the page number |
| Strings.Reversed | pdfwatcherapp1.py:80-81 | `reversed(comments)` has the same length, and element i is element n-1-i of the input |
| Strings.Join | pdfwatcherapp1.py:82 | Definition of `' [...] '.join(comments)`: the parts in order with the separator between neighbours; nothing for no parts, the part itself for one |
| Dates.IsDatePattern | pdfwatcherapp1.py:22 | Definition of `date_pattern`: one or two ASCII digits, a space, three ASCII letters, a space and four ASCII digits, and nothing else |
| Dates.MonthNumber | pdfwatcherapp1.py:91 | Definition of `%b`: the three letters, lower-cased, looked up among the English month abbreviations, giving 1..12, or 0 for no month |
| Dates.FieldsOf | pdfwatcherapp1.py:91 | The day, month number and year `strptime` reads from a date-shaped text under `%d %b %Y`: a day below 100, a month from 0 (unknown name) to 12, a year below 10000 |
| Dates.IsValidDate | pdfwatcherapp1.py:91 | Definition of what `strptime` accepts: a known month, a year of at least 1, and a day from 1 to the length of that month in that year |
| Dates.ParseDate | pdfwatcherapp1.py:91-92 | Definition of the conversion: a valid date becomes its `dd/mm/yyyy` rendering, an invalid one is the error `strptime` raises; `ParseDateSpec` states its meaning |
| Dates.FormatDate | pdfwatcherapp1.py:92 | Definition of `strftime('%d/%m/%Y')`: the zero-padded day, the month's two digits and the four-digit year, separated by slashes; `FormatDateSpec` states its meaning |
| Dates.IndexOf | pdfwatcherapp1.py:91 | A month name is looked up by position: the position found holds the name, and the end position means the name is absent |
| Dates.DaysInMonth | pdfwatcherapp1.py:91 | Every month `strptime` accepts has between 28 and 31 days |
| Dates.SlashedParts | pdfwatcherapp1.py:92 | In `dd/mm/yyyy` the slashes sit at positions 2 and 5, and the day, month and year groups sit at fixed slices |
| Dates.MonthDigitsValue | pdfwatcherapp1.py:92 | `%m` writes two digits that read back as the month |
| Dates.DayDigits | pdfwatcherapp1.py:92 | `%d` writes two digits, zero-padded, that read back as the day read by `strptime` |
| Dates.YearDigits | pdfwatcherapp1.py:92 | `%Y` writes four digits that read back as the year read by `strptime` |
| Dates.FormatDateSpec | pdfwatcherapp1.py:91-92 | The reformatted date is ten characters `dd/mm/yyyy`, and its groups read back as the same day, month and year |
| Dates.ParseDateSpec | pdfwatcherapp1.py:90-92 | A date-shaped text converts exactly when it names a calendar date (known month, year ≥ 1, day within the month, leap years included). It then converts to `dd/mm/yyyy` with the same fields |
| Assembler.IsTimePattern | pdfwatcherapp1.py:23 | Definition of `time_pattern`: exactly two digits, a colon and two digits, with no check that they form a time of day |
| Assembler.NormaliseComment | pdfwatcherapp1.py:108 | Definition of the comment rewrite: newlines become spaces, then a comma followed only by whitespace at the end becomes " [...]"; `NormaliseCommentSpec` states its meaning |
| Assembler.Classify | pdfwatcherapp1.py:89-108 | Definition of the three-way branch on a stripped text: the date pattern is tried first (converted date, or the `strptime` error), then the time pattern, and anything else is a normalised comment |
| Assembler.Step | pdfwatcherapp1.py:88-112 | Definition of one loop iteration. A date sets `current_date` and clears the buffer and the pending time. In 'Comment → Time' a time flushes a non-empty buffer under itself and its own page. In 'Time → Comment' a time flushes a non-empty buffer under the pending time and the new time's page, then becomes pending. A comment is appended to the buffer. An invalid date aborts |
| Assembler.RunFrom | pdfwatcherapp1.py:88-112 | Definition of the whole `for page, text in highlights` loop as repeated `Step`, stopping at the first invalid date |
| Assembler.LastPage | pdfwatcherapp1.py:115 | The page of the last fragment, which the loop variable `page` still holds when the tail flush reads it; 0 when there are no fragments |
| Assembler.Finish | pdfwatcherapp1.py:113-115 | Definition of the tail flush: only in 'Time → Comment', with a pending time and a non-empty buffer, one more group on the page the loop ended on |
| Assembler.RecordOf | pdfwatcherapp1.py:78-86 | Definition of the row `flush_group` appends: the group's date or else today, the prefix, a space and the page, and the heading, a newline, the time, ": " and the comments joined by " [...] " (reversed for 'Bottom to Top') |
| Assembler.Assemble | pdfwatcherapp1.py:72-116 | Definition of `parse_records`: the loop over the stripped and classified fragments, then the tail flush, with each group rendered by `RecordOf`; or the first invalid date's error |
| Assembler.NormaliseCommentSpec | pdfwatcherapp1.py:108 | On stripped text, the comment has no newline. Every newline became a space, a final comma became " [...]", and nothing else changed |
| Assembler.Classified | pdfwatcherapp1.py:88-89 | The loop sees one item per fragment, in order: item i is fragment i's stripped text, classified, with fragment i's page |
| Assembler.RecordsOf | pdfwatcherapp1.py:78-86 | There is one record per flushed group, in order, and record i is the rendering of group i |
| Assembler.ErrorPersists | pdfwatcherapp1.py:91 | Once a date fails to parse, the rest of the fragments do not matter: the whole call fails with that error |
| Assembler.AssembleFails | pdfwatcherapp1.py:91 | A failure at fragment i is the result of `parse_records` |
| Assembler.RecordAssembler.constructor | pdfwatcherapp1.py:73-76 | The loop starts with no records, no date, an empty buffer and no pending time |
| Assembler.RecordAssembler.FlushGroup | pdfwatcherapp1.py:78-86 | `flush_group` appends exactly one record, rendered from the comments, the time, the page and the current date |
| Assembler.RecordAssembler.OnDate | pdfwatcherapp1.py:90-94 | A date marker does what `Step` says: it sets the date and clears the buffer and the pending time |
| Assembler.RecordAssembler.OnTime | pdfwatcherapp1.py:95-106 | A time marker does what `Step` says in both modes, including which time and which page a flushed group gets |
| Assembler.RecordAssembler.OnComment | pdfwatcherapp1.py:107-112 | A comment is appended to the buffer, as `Step` says |
| Assembler.RecordAssembler.Feed | pdfwatcherapp1.py:88-112 | One iteration: strip, classify by the date pattern, then the time pattern, then comment. The new state is `Step` of the classified fragment, or the `strptime` error; on that error the state and the records are left as they were |
| Assembler.RecordAssembler.FlushTail | pdfwatcherapp1.py:113-115 | The tail flush happens only in 'Time → Comment' with a pending time and a non-empty buffer |
| Assembler.ParseRecords | pdfwatcherapp1.py:72-116 | The loop returns exactly `Assemble`: the records of the fold over the classified fragments, or the first invalid date |
| AssemblerProperties.ClassifySpec | pdfwatcherapp1.py:88-108 | A stripped text is one of the following, in both directions. A time: exactly two digits, a colon, two digits, with no range check. A date or an invalid date: exactly the date shape; it is invalid exactly when `strptime` rejects it. Otherwise a comment, normalised |
| AssemblerProperties.PatternsDisjoint | pdfwatcherapp1.py:22-23 | No text matches both patterns, so the order of the two tests does not matter |
| AssemblerProperties.OutOfRangeTimeIsTime | pdfwatcherapp1.py:23 | "99:99" is a time marker |
| AssemblerProperties.ShortTimeIsComment | pdfwatcherapp1.py:23 | "9:30" is comment text |
| AssemblerProperties.ValidDateClassifies | pdfwatcherapp1.py:90-92 | A valid date-shaped text classifies as its `dd/mm/yyyy` rendering |
| AssemblerProperties.DateExample | pdfwatcherapp1.py:90-92 | "1 Jan 2024" becomes the date "01/01/2024" |
| AssemblerProperties.MonthCaseIgnored | pdfwatcherapp1.py:91 | "5 jAN 2020" becomes "05/01/2020": `%b` ignores case |
| AssemblerProperties.UnknownMonthIsInvalid | pdfwatcherapp1.py:91 | "12 Xyz 2024" matches the date pattern but `strptime` rejects it |
| AssemblerProperties.NonexistentDayIsInvalid | pdfwatcherapp1.py:91 | "29 Feb 2023" is rejected |
| AssemblerProperties.LeapDayIsValid | pdfwatcherapp1.py:91-92 | "29 Feb 2024" becomes "29/02/2024" |
| AssemblerProperties.TrailingCommaContinues | pdfwatcherapp1.py:108 | "continued," becomes the comment "continued [...]" |
| AssemblerProperties.RunAppend | pdfwatcherapp1.py:88-112 | The loop is a fold: running `a + b` is running `b` from the state after `a` |
| AssemblerProperties.CommentsAccumulate | pdfwatcherapp1.py:107-112 | A run of comments only extends the buffer, in order, in both modes |
| AssemblerProperties.CommentToTimeFlush | pdfwatcherapp1.py:97-101 | In 'Comment → Time', a time marker turns the buffered comments into one group with that marker's time and page, then empties the buffer. With nothing buffered it changes nothing |
| AssemblerProperties.TimeThenComments | pdfwatcherapp1.py:102-112 | In 'Time → Comment', from an empty buffer, a time marker becomes pending and the comments after it are buffered |
| AssemblerProperties.TimeToCommentFlush | pdfwatcherapp1.py:102-106 | In 'Time → Comment', from an empty buffer, time t1, comments, then time t2 give one group with time t1 and t2's page, or none when there are no comments between them. t2 becomes pending |
| AssemblerProperties.EarlyCommentsJoinFirstTime | pdfwatcherapp1.py:102-112 | In 'Time → Comment', with no pending time, the first time marker flushes nothing and keeps the buffer: comments before it join its group together with those after it, and the next time marker flushes them with its own page |
| AssemblerProperties.DateResets | pdfwatcherapp1.py:90-94 | A date marker continues the run from a state with that date, an empty buffer, no pending time and the same groups |
| AssemblerProperties.RunShift | pdfwatcherapp1.py:86 | Records already emitted do not influence the rest of the run |
| AssemblerProperties.DateDiscardsBuffer | pdfwatcherapp1.py:90-94 | The groups of `pre + [date] + post` are those flushed during `pre`, then exactly those of `[date] + post` alone. Comments pending at the date are never emitted |
| AssemblerProperties.StepAppends | pdfwatcherapp1.py:86 | One fragment appends at most one group and never removes or reorders groups |
| AssemblerProperties.GroupsOnlyGrow | pdfwatcherapp1.py:86-88 | The groups after any prefix of the input are a prefix of the final groups: records come out in flush order |
| AssemblerProperties.RunInvariants | pdfwatcherapp1.py:95-112 | Every group has at least one comment. 'Comment → Time' never holds a pending time. Groups plus a pending time never outnumber the time markers |
| AssemblerProperties.CurrentDateIsLatest | pdfwatcherapp1.py:90-92 | `current_date` is always the most recent date marker, or none |
| AssemblerProperties.FlushedGroupDate | pdfwatcherapp1.py:85 | A group is dated with the last date marker before the fragment that flushed it |
| AssemblerProperties.TailFlush | pdfwatcherapp1.py:113-115 | 'Time → Comment' flushes a pending time over buffered comments once more, with the last fragment's page. 'Comment → Time' drops comments after its last time marker |
| AssemblerProperties.RecordCountBound | pdfwatcherapp1.py:95-115 | There are never more records than time markers, and every record has a comment |
| AssemblerProperties.JoinOrderOnlyReverses | pdfwatcherapp1.py:78-86 | Both join orders give the same number of records with the same dates (the last date marker, else today) and the same locators. The info texts differ only in that the comments are joined reversed |
| AssemblerProperties.DateCommentTime | pdfwatcherapp1.py:88-115 | In 'Comment → Time', any date, comment and time in that order give exactly one group: the comment, dated by the marker, with the time and the time's page |
| AssemblerProperties.TimeCommentsTime | pdfwatcherapp1.py:88-115 | In 'Time → Comment', any time, two comments and a second time give exactly one group: both comments in order under the first time, on the second time's page, with no date; the pending second time has nothing to flush at the end |
| AssemblerProperties.CommentToTimeExample | pdfwatcherapp1.py:72-116 | "1 Jan 2024", "Patient stable", "09:30" on pages 1 to 3 give the single record ("01/01/2024", "CHR 3", "Daily Notes\n09:30: Patient stable") |
| AssemblerProperties.TimeToCommentExample | pdfwatcherapp1.py:72-116 | "09:00", "A", "B", "09:15" on pages 1, 1, 2, 3 give the single record (today, "CHR 3", "Daily Notes\n09:00: A [...] B") |
| Report.RowsOf | pdfwatcherapp1.py:136-137 | There is one row per record, in order, with the record's three fields |
| Report.Scan | pdfwatcherapp1.py:139-144 | Definition of the banding scan: `prev_date` and `band` after reading a date column, with `band` flipped whenever a date differs from `prev_date` |
| Report.Bands | pdfwatcherapp1.py:139-146 | Definition of the banding: row j is banded when `band` is set just after the scan reads row j |
| Report.Refill | pdfwatcherapp1.py:139-148 | Definition of the fills after banding: a row is filled when it was filled before or it is banded now, since fills are only added |
| Report.ScanPrev | pdfwatcherapp1.py:143-144 | `prev_date` is always the date of the row read last |
| Report.BandIsParity | pdfwatcherapp1.py:139-145 | Reference definition: `band` is set exactly when the number of date changes so far is odd |
| Report.FirstRowBanded | pdfwatcherapp1.py:139-146 | The first data row is banded exactly when its date cell is not empty |
| Report.NeighbourBands | pdfwatcherapp1.py:143-146 | Adjacent rows with equal dates share a band, and a different date flips it |
| Report.BandsStable | pdfwatcherapp1.py:139-148 | Appending rows never changes the bands of earlier rows, whatever the call boundaries |
| Report.BandingExample | pdfwatcherapp1.py:139-148 | Dates D1, D1, D2, D2, D1 band as on, on, off, off, on |
| Report.RefillExact | pdfwatcherapp1.py:146-148 | Fills are never removed. A sheet whose fills were its bands still has fills equal to its bands after an append |
| Report.AppendRows | pdfwatcherapp1.py:136-137 | The append loop adds the records' rows after the existing rows, in order |
| Report.BandRows | pdfwatcherapp1.py:139-148 | The banding loop fills a row when the scan has it banded and keeps every fill the row had |
| Report.Store.Missing | pdfwatcherapp1.py:120 | A path with no workbook yet |
| Report.Store.Existing | pdfwatcherapp1.py:127-129 | A workbook already on disk |
| Report.Store.AppendToXlsx | pdfwatcherapp1.py:119-154 | A new workbook gets the three-column header. The rows become the old rows plus the new ones, and the fills are re-banded over all rows. If the save fails, nothing changes. A store banded by this program stays exactly banded |
| Session.OrDefault | pdfwatcherapp1.py:160-161 | `value or default`: the value unless it is empty |
| Session.SettingsNeverEmpty | pdfwatcherapp1.py:157-162 | The effective prefix and heading are never empty |
| Session.JoinOrderOf | pdfwatcherapp1.py:80 | The comments are reversed exactly when the setting is 'Bottom to Top' |
| Session.ModeOf | pdfwatcherapp1.py:97 | 'Comment → Time' behaviour is chosen exactly for that label |
| Session.Unseen | pdfwatcherapp1.py:40 | A record is kept exactly when it is among the parsed records and not in `seen` |
| Session.UnseenAppend | pdfwatcherapp1.py:40 | The filter keeps order: filtering a concatenation concatenates the filtered parts |
| Session.UnseenCounts | pdfwatcherapp1.py:40 | Duplicates within one batch all survive. An unseen record keeps its count, and a seen record has none |
| Session.UnseenIdempotent | pdfwatcherapp1.py:40 | Filtering again against the same set removes nothing more |
| Session.AllSeenYieldNothing | pdfwatcherapp1.py:40-41 | If every record is in `seen`, nothing is written |
| Session.RepeatYieldsNothing | pdfwatcherapp1.py:40-43 | After `seen.update(new)`, the same records yield nothing new: repeating an event on an unchanged document, on the same day, writes nothing |
| Session.Handler.constructor | pdfwatcherapp1.py:26-34 | A handler starts with an empty seen set |
| Session.Handler.OnModified | pdfwatcherapp1.py:36-43 | An event on another path does nothing. A parse error writes nothing. Only unseen records are written, in order, and only when there are any. `seen` grows by exactly the written records after the write succeeds. A failed save leaves `seen` and the store unchanged |
| Session.StartWatcher | pdfwatcherapp1.py:157-162 | The handler gets the defaulted prefix and heading, the chosen modes and an empty seen set |

## Left out

- `extract_highlighted_text` (PDF annotations, quadrilaterals, word geometry): the fragments are a parameter.
- The clock (`datetime.now()`): `today` is a parameter that stays fixed during one pass. The time stamps of the log messages are not modelled.
- The log messages sent to the window, the GUI loop `main`, and the observer scheduling in `start_watcher`.
- Concurrency: the watch service's thread is not modelled. Events are handled one at a time.
- Cell styling in `append_to_xlsx`: borders, wrap, font, column width and fill colour. Only whether a row carries the fill is modelled.
- Report.Store: a workbook is a header plus data rows whose cells are strings or empty. A workbook that exists but has no header row, and non-string cell values such as dates, are not modelled.
- Report.Store.AppendToXlsx: a workbook that cannot be loaded is not modelled. The only write failure modelled is a failed save.
- Dates.IsDatePattern: accepts only ASCII digits. Python's `\d` also matches other Unicode decimal digits.
- Assembler.IsTimePattern: accepts only ASCII digits, for the same reason.
- Dates.MonthNumber: only the C-locale English month abbreviations.
- Dates.YearDigits: writes the four digits as read. For years below 1000, some C libraries write `%Y` without padding.
- Session.ModeOf: maps every label other than 'Comment → Time' to 'Time → Comment'. The loop does the same, but the tail flush tests for the exact label 'Time → Comment'. For a third label the model therefore performs a tail flush that the program skips.
- Assembler.LastPage: with no fragments the page is 0. The program never reads `page` in that case, because nothing is pending.
