# LogLens log facility and log list, in Dafny

LogLens is a small self-hosted log collector. Application code logs through a
process-wide facility with three leveled calls, `Info`, `Warn` and `Error`.
Each call renders one text entry:

    [<timestamp>] [<LEVEL>] [<channel>] <message>\n

An optional `Traceback:\n<stack>\n` block follows that line. The entry is
appended to a file named after the current day, `logs/YYYY-MM-DD.log`. A web
viewer lists the `.log` files of the log directory, latest first.

This project models the two pure pieces of that contract between writer and
reader:

- **The writer.** `write` holds the facility's mutex for its whole body, so
  each call is one atomic step over a file store (`map<string, string>`, path
  to content). The step opens the day's file for appending, creating it when
  absent and never truncating it, then writes the rendered entry in one call.
  The clock is injected: `write` reads it twice, once for the file's day and
  once for the entry's timestamp, so these are two separate parameters
  (`Clock(day, stamp)`). The file system's answer is a parameter too
  (`Io = Ok | OpenFails | WriteFails`).
- **The reader.** The viewer keeps the directory names that end in `.log` and
  sorts them in reverse lexicographic order. With the writer's fixed-width
  `YYYY-MM-DD` names, that order is newest day first.

Modules, in dependency order:

- `Wrappers`: `Option`.
- `Text`: `HasSuffix`, `HasPrefix`, `IndexOf`, and the lexicographic order
  `Less` with its order lemmas.
- `Calendar`: days and Go's `2006-01-02` layout.
- `Entries`: levels, the entry text, and a decoder that reads an entry back.
- `Logger`: daily paths, the append step, `Write`, and the three leveled calls.
- `Runs`: what a sequence of serialised calls leaves in the store.
- `Viewer`: filtering, sorting and the listing.

The decoder `Entries.Decode` is not part of the source. It is the partner of
the renderer: every entry whose timestamp and channel contain no `]`, and
whose message contains no line break, is read back exactly from its text.
Only such texts decode (`Entries.Decode`'s own contract). Without those
conditions the format is ambiguous (`Entries.ChannelAmbiguous`, `Entries.MessageAmbiguous`). One
such case: a message containing `\nTraceback:\n` renders exactly like a
shorter message of the same level with a stack attached. The round trip is
about one entry. A file of several decodable entries does not split uniquely
(`Entries.ConcatAmbiguous`): a stack may itself contain a line that looks
like the next entry.

Three details of the code are easy to miss:

- The traceback block ends with a line break after the stack (`"Traceback:\n%s\n"`).
- The path is `logs/<day>.log`, because `filepath.Join("./logs", …)` cleans away the `./`.
- No `PANIC` level reaches `write` from the three public calls. The only
  caller that passes one passes the lowercase string `"panic"`, and it sits in
  the ineffective panic handler, which is left out.

## Model

| member | source | states |
|---|---|---|
| `Calendar.FormatDateOrder` | internal/logger.go:73 | two valid days' `2006-01-02` renderings compare lexicographically exactly as the days compare chronologically (both directions) |
| `Calendar.FormatDateInjective` | internal/logger.go:73 | two valid days with the same rendering are the same day |
| `Calendar.PadOrder` | internal/logger.go:73 | zero-padded numerals of one width are lexicographically ordered exactly as the numbers they denote |
| `Logger.FileName` | internal/logger.go:74 | a day's file name has the fixed length 14 and ends in `.log` |
| `Logger.DailyPath` | internal/logger.go:73-74 | the path names a file directly inside the log directory (no `/` after the directory's own), whose base name is the day's file name and ends in `.log`, so the viewer's `.log` filter over that directory keeps it |
| `Logger.DailyPathInjective` | internal/logger.go:73-74 | two days share a file exactly when they are the same day |
| `Logger.FileNameOrder` | internal/logger.go:73-74 | one day's file name is lexicographically below another's exactly when that day is earlier |
| `Logger.Append` | internal/logger.go:76-92 | a failed open leaves the store unchanged and reports `OpenFailed`; otherwise the file exists afterwards and its old content (empty if it was absent) is a prefix of the new one; a successful write appends exactly the text; a failed write leaves the content as it was and reports `WriteFailed`; no other file changes |
| `Logger.Write` | internal/logger.go:69-92 | only the clock day's file can change; a failed open changes nothing; otherwise the file exists and keeps its old content as a prefix (it is never truncated); a failed write leaves the content as it was; a successful write appends exactly the rendered entry; a diagnostic is printed exactly when the write did not succeed, and nothing is returned to the caller |
| `Logger.Info` | internal/logger.go:45-47 | on success the day's file grows by exactly the one line `[stamp] [INFO] [channel] msg\n`, with no traceback block; no other file changes; a failed open changes nothing; a failed write leaves the file's content as it was, and no outcome truncates it |
| `Logger.Warn` | internal/logger.go:49-51 | the same as `Info`, with level `WARN` |
| `Logger.Error` | internal/logger.go:53-64 | for every kind of argument (error value, format string, other value), on success the day's file grows by the line `[stamp] [ERROR] [channel] message\n` followed by `Traceback:\n` + stack + `\n`; no other file changes; a failed open changes nothing; a failed write leaves the file's content as it was, and no outcome truncates it |
| `Entries.Decode` | internal/logger.go:83-88 | a text that decodes to an entry is exactly that entry's rendering, and that entry has no `]` in its timestamp or channel and no line break in its message |
| `Entries.DecodeFormat` | internal/logger.go:83-88 | every such entry decodes back from its rendering to the same timestamp, level, channel, message and stack (absent stack ↔ no traceback block) |
| `Entries.FormatInjective` | internal/logger.go:83-88 | two such entries with the same rendering are equal: the four fields and the traceback block stay intact |
| `Entries.Format` | internal/logger.go:84-88 | every entry is non-empty and ends with a line break |
| `Entries.ChannelAmbiguous` | internal/logger.go:84 | a channel containing `] [` renders exactly like a shorter channel whose message begins with the rest of it, so the format alone cannot separate the two fields |
| `Entries.MessageAmbiguous` | internal/logger.go:84-88 | a message containing a line break followed by `Traceback:` renders exactly like a shorter message with a stack attached, so the traceback block is not self-delimiting |
| `Entries.ConcatAmbiguous` | internal/logger.go:84-88 | an entry with a stack followed by a plain entry renders exactly like one entry whose stack holds the second entry's line, so a file of several entries does not split uniquely even when each entry is decodable |
| `Runs.ApplyContent` | internal/logger.go:70-92 | after a sequence of appends, each file holds its old content followed by the texts of the successful appends to it, in order |
| `Runs.ApplyFiles` | internal/logger.go:76 | after a sequence of appends, a file exists exactly when it existed before or some append to it got past the open |
| `Runs.NeverTruncates` | internal/logger.go:76 | no sequence of appends removes a file, and each file's old content stays a prefix of its new content |
| `Runs.RunStep` | internal/logger.go:70-71 | running one more call is exactly that call's `Write` on the store the earlier calls left: the calls are serialised |
| `Runs.RunContent` | internal/logger.go:70-92 | after any sequence of calls, a day's file holds its old content followed by the entries of the calls that succeeded on that day, in the order they took the lock; calls on other days and failed calls leave it unchanged |
| `Runs.PlainEntries` | internal/logger.go:45-51 | when the timestamp and channel contain no `]` and the message no line break, the text `Info` and `Warn` append decodes to an entry with level INFO or WARN, those fields, and no stack |
| `Runs.ErrorEntries` | internal/logger.go:53-64 | when the timestamp and channel contain no `]` and the message no line break, the text `Error` appends decodes to an entry with level ERROR, those fields, the argument's message and the captured stack |
| `Text.LessTotal` | internal/viewer.go:31 | Go's string `<`, which `sort.StringSlice` compares with, is total and asymmetric: two different names are ordered exactly one way round |
| `Text.LessTransitive` | internal/viewer.go:31 | Go's string `<` is transitive, so sorting by it is well defined |
| `Text.LessIrreflexive` | internal/viewer.go:31 | no name is below itself |
| `Viewer.LogNames` | internal/viewer.go:22-28 | every kept name ends in `.log`; every directory name ending in `.log` is kept, as often as it occurs; no other name is kept |
| `Viewer.CollectLogFiles` | internal/viewer.go:23-28 | the collecting loop keeps exactly the `.log` names, in directory order |
| `Viewer.Insert` | internal/viewer.go:31 | inserting into a non-increasing list keeps it non-increasing and adds exactly the new name |
| `Viewer.SortDescending` | internal/viewer.go:31 | the sorted list is non-increasing and a permutation of its input |
| `Viewer.ListLogs` | internal/viewer.go:22-31 | a name is listed exactly when it is a `.log` name of the directory; it is a permutation of the filtered names; it is in non-increasing lexicographic order |
| `Viewer.SortedUnique` | internal/viewer.go:31 | two non-increasing permutations of the same names are the same list |
| `Viewer.AnySortAgrees` | internal/viewer.go:31 | whatever algorithm `sort.Sort` uses, any non-increasing permutation of the `.log` names equals `ListLogs` |
| `Viewer.NewestFirst` | internal/viewer.go:30-31 | among the writer's daily files, a listed day never comes before a later day |
| `Viewer.WrittenDayListed` | internal/viewer.go:24-28 | after a call that got past the open, any listing that includes every plain file name of the log directory contains that day's file name |

## Left out

- The singleton `LogLens` with `sync.Once`, the directory creation `os.MkdirAll` and the fatal exit when it fails (internal/logger.go:24-41): process start-up and OS I/O.
- The panic-handler goroutine and its lowercase `"panic"` level (internal/logger.go:33-38): `recover` in a fresh goroutine catches nothing, so it promises nothing.
- The mutex itself (internal/logger.go:70-71): it is modelled only through its effect, which is that each `write` is one atomic step and concurrent calls form a sequence (`Runs.Run`).
- `time.Now` and Go's layouts: the day is a `Calendar.Date` rendered with the `2006-01-02` layout. The timestamp is an opaque string. The two readings are independent, so an entry stamped just after midnight can land in the previous day's file. The model allows exactly that.
- `Calendar.Valid`: only years 0 through 9999 are modelled, the range Go renders as four digits. Day 31 is admitted for every month, which is a superset of real dates.
- `fmt.Sprintf`, `error.Error()` and `%v`: the message is an opaque string. `Logger.ErrorArg` carries the text each branch of the type switch produces.
- `debug.Stack`: the stack is an opaque string. Go's `stack != nil` test becomes `Option`. `Info` and `Warn` pass `nil`, and `Error` never does.
- `Logger.Append`: a failed `WriteString` is modelled as appending nothing, because a short write that leaves part of an entry is not modelled. `f.Close` errors are ignored by the source and play no part.
- The `log.Printf` diagnostics: modelled as a `Diagnostic` value, without the OS error text.
- The rest of `ViewLogs`: the `os.ReadDir` error response, the `?file=` query, `os.ReadFile`, `filepath.Join` on user input, and the HTML templates (internal/viewer.go:16-20, 33-95). These are HTTP and rendering. The directory listing is a parameter.
- Byte strings: Go compares and suffix-tests strings byte by byte. The model works on characters, which gives the same order and the same suffix test for well-formed UTF-8. Names that are not valid UTF-8 are not modelled.
- internal/middleware.go, main.go and cmd/main.go: Basic-Auth wrapper and server start-up.
