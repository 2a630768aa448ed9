/**
 The logging facility: the daily file a write goes to, the single append step
 `write` performs, the three leveled calls built on it, and what a sequence of
 calls does to the log directory.

 The file system is a store from paths to contents. `write` holds the
 facility's mutex for its whole body, so each call is one atomic step over the
 store and concurrent callers amount to some sequence of such steps (`Run`).
 The clock is a parameter: `write` reads it twice, once for the file's day and
 once for the entry's timestamp, so the two readings are separate fields.
 */
module Logger {
  import opened Wrappers
  import opened Text
  import opened Calendar
  import opened Entries

  /** The log directory, "./logs", as `filepath.Join` cleans it. */
  const LogDir: string := "logs"

  /** The name of a day's log file: a plain name, with no directory part. */
  function FileName(d: Date): (r: string)
    requires Valid(d)
    ensures |r| == 14 && HasSuffix(r, ".log")
    ensures '/' !in r
  {
    var name := FormatDate(d) + ".log";
    assert forall i :: 0 <= i < |name| ==> name[i] != '/';
    name
  }

  /**
   The path of a day's log file: a file directly inside the log directory
   (no further `/` after the directory's), named after the day, and ending in
   `.log`, so the viewer's listing of that directory keeps it.
   */
  function DailyPath(d: Date): (r: string)
    requires Valid(d)
    ensures HasPrefix(r, LogDir + "/") && r[|LogDir| + 1..] == FileName(d)
    ensures '/' !in r[|LogDir| + 1..]
    ensures HasSuffix(r, ".log")
  {
    LogDir + "/" + FileName(d)
  }

  /** Different days are written to different files. */
  lemma DailyPathInjective(a: Date, b: Date)
    requires Valid(a) && Valid(b)
    ensures DailyPath(a) == DailyPath(b) <==> a == b
  {
    if DailyPath(a) == DailyPath(b) {
      assert FileName(a) == FileName(b);
      assert FormatDate(a) == FileName(a)[..10];
      assert FormatDate(b) == FileName(b)[..10];
      FormatDateInjective(a, b);
    }
  }

  /** File names order as their days do, so the text order is the calendar order. */
  lemma FileNameOrder(a: Date, b: Date)
    requires Valid(a) && Valid(b)
    ensures Less(FileName(a), FileName(b)) <==> Before(a, b)
  {
    LessLeading(FormatDate(a), FormatDate(b), ".log", ".log");
    LessIrreflexive(".log");
    FormatDateOrder(a, b);
  }

  /** Files by path. A path that is absent names no file. */
  type Store = map<string, string>

  /** The two clock readings `write` takes: the day and the rendered timestamp. */
  datatype Clock = Clock(day: Date, stamp: string)

  /** What the file system does with one write: succeed, refuse to open, or fail to write. */
  datatype Io = Ok | OpenFails | WriteFails

  /** The diagnostic a failed write prints to standard error. */
  datatype Diagnostic = OpenFailed | WriteFailed

  /** The store after a call, and the diagnostic printed, if any. Nothing is returned to the caller. */
  datatype Outcome = Outcome(store: Store, diagnostic: Option<Diagnostic>)

  /** A file's content, empty when the file does not exist. */
  function Content(store: Store, path: string): string {
    if path in store then store[path] else ""
  }

  /** Every file other than `path` exists in both stores alike, with the same content. */
  predicate SameElsewhere(a: Store, b: Store, path: string) {
    a - {path} == b - {path}
  }

  /**
   The file-system half of `write`: open `path` for appending, creating it
   when absent and never truncating it, then write `text` in one call. A
   failed open leaves everything as it was; a failed write leaves the file
   created but unextended. Either failure prints a diagnostic and nothing is
   reported to the caller.
   */
  function Append(store: Store, path: string, text: string, io: Io): (r: Outcome)
    ensures SameElsewhere(store, r.store, path)
    ensures io == OpenFails ==> r.store == store && r.diagnostic == Some(OpenFailed)
    ensures io != OpenFails ==> path in r.store && HasPrefix(r.store[path], Content(store, path))
    ensures io == WriteFails ==> r.store[path] == Content(store, path) && r.diagnostic == Some(WriteFailed)
    ensures io == Ok ==> r.store[path] == Content(store, path) + text && r.diagnostic == None
  {
    if io == OpenFails then
      Outcome(store, Some(OpenFailed))
    else
      var before := Content(store, path);
      if io == WriteFails then
        Outcome(store[path := before], Some(WriteFailed))
      else
        Outcome(store[path := before + text], None)
  }

  /** One call of `write`: render the entry and append it to the file of the clock's day. */
  function Write(store: Store, clock: Clock, level: Level, channel: string, msg: string,
                 stack: Option<string>, io: Io): (r: Outcome)
    requires Valid(clock.day)
    ensures SameElsewhere(store, r.store, DailyPath(clock.day))
    ensures io == OpenFails ==> r.store == store
    ensures io != OpenFails ==> DailyPath(clock.day) in r.store
    ensures io != OpenFails ==> HasPrefix(Content(r.store, DailyPath(clock.day)), Content(store, DailyPath(clock.day)))
    ensures io == WriteFails ==> Content(r.store, DailyPath(clock.day)) == Content(store, DailyPath(clock.day))
    ensures io == Ok ==>
      Content(r.store, DailyPath(clock.day))
      == Content(store, DailyPath(clock.day)) + Format(Entry(clock.stamp, level, channel, msg, stack))
    ensures r.diagnostic == None <==> io == Ok
  {
    Append(store, DailyPath(clock.day), Format(Entry(clock.stamp, level, channel, msg, stack)), io)
  }

  /** `Info`: level INFO and no stack, so the entry is a single line. */
  function Info(store: Store, clock: Clock, channel: string, msg: string, io: Io): (r: Outcome)
    requires Valid(clock.day)
    ensures SameElsewhere(store, r.store, DailyPath(clock.day))
    ensures io == Ok ==>
      Content(r.store, DailyPath(clock.day))
      == Content(store, DailyPath(clock.day)) + ("[" + clock.stamp + "] [INFO] [" + channel + "] " + msg + "\n")
    ensures io == OpenFails ==> r.store == store
    ensures io != OpenFails ==> HasPrefix(Content(r.store, DailyPath(clock.day)), Content(store, DailyPath(clock.day)))
    ensures io == WriteFails ==> Content(r.store, DailyPath(clock.day)) == Content(store, DailyPath(clock.day))
  {
    assert Format(Entry(clock.stamp, INFO, channel, msg, None)) == Header(clock.stamp, INFO, channel, msg);
    assert Header(clock.stamp, INFO, channel, msg)
        == "[" + clock.stamp + "] [INFO] [" + channel + "] " + msg + "\n";
    Write(store, clock, INFO, channel, msg, None, io)
  }

  /** `Warn`: level WARN and no stack, so the entry is a single line. */
  function Warn(store: Store, clock: Clock, channel: string, msg: string, io: Io): (r: Outcome)
    requires Valid(clock.day)
    ensures SameElsewhere(store, r.store, DailyPath(clock.day))
    ensures io == Ok ==>
      Content(r.store, DailyPath(clock.day))
      == Content(store, DailyPath(clock.day)) + ("[" + clock.stamp + "] [WARN] [" + channel + "] " + msg + "\n")
    ensures io == OpenFails ==> r.store == store
    ensures io != OpenFails ==> HasPrefix(Content(r.store, DailyPath(clock.day)), Content(store, DailyPath(clock.day)))
    ensures io == WriteFails ==> Content(r.store, DailyPath(clock.day)) == Content(store, DailyPath(clock.day))
  {
    assert Format(Entry(clock.stamp, WARN, channel, msg, None)) == Header(clock.stamp, WARN, channel, msg);
    assert Header(clock.stamp, WARN, channel, msg)
        == "[" + clock.stamp + "] [WARN] [" + channel + "] " + msg + "\n";
    Write(store, clock, WARN, channel, msg, None, io)
  }

  /**
   The value `Error` is given, by the kind its type switch finds: an error
   value with its description, a format string already formatted with its
   arguments, or any other value already rendered with `%v`.
   */
  datatype ErrorArg = ErrorLike(description: string) | FormatString(formatted: string) | Other(rendered: string)

  /** The message `Error` logs for its argument. */
  function Message(arg: ErrorArg): string {
    match arg
    case ErrorLike(d) => d
    case FormatString(f) => f
    case Other(v) => v
  }

  /** `Error`: level ERROR, with the captured stack attached whatever the argument's kind. */
  function Error(store: Store, clock: Clock, channel: string, arg: ErrorArg, stack: string, io: Io): (r: Outcome)
    requires Valid(clock.day)
    ensures SameElsewhere(store, r.store, DailyPath(clock.day))
    ensures io == Ok ==>
      Content(r.store, DailyPath(clock.day))
      == Content(store, DailyPath(clock.day))
         + (("[" + clock.stamp + "] [ERROR] [" + channel + "] " + Message(arg) + "\n")
            + ("Traceback:\n" + stack + "\n"))
    ensures io == OpenFails ==> r.store == store
    ensures io != OpenFails ==> HasPrefix(Content(r.store, DailyPath(clock.day)), Content(store, DailyPath(clock.day)))
    ensures io == WriteFails ==> Content(r.store, DailyPath(clock.day)) == Content(store, DailyPath(clock.day))
  {
    var e := Entry(clock.stamp, ERROR, channel, Message(arg), Some(stack));
    var header := "[" + clock.stamp + "] [ERROR] [" + channel + "] " + Message(arg) + "\n";
    var traceback := "Traceback:\n" + stack + "\n";
    assert Format(e) == header + traceback by {
      assert Traceback(e.stack) == traceback;
      assert Header(e.stamp, e.level, e.channel, e.msg) == header;
    }
    Write(store, clock, ERROR, channel, Message(arg), Some(stack), io)
  }
}
