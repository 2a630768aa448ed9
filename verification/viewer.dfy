/**
 The log list the viewer shows: the names in the log directory that end in
 `.log`, sorted in reverse lexicographic order. With the writer's
 `YYYY-MM-DD.log` names, that puts the latest day first.
 */
module Viewer {
  import opened Wrappers
  import opened Text
  import opened Calendar
  import opened Entries
  import opened Logger

  const LogSuffix: string := ".log"

  /** The directory names that end in `.log`, in directory order. */
  function LogNames(names: seq<string>): (r: seq<string>)
    ensures forall x :: x in r ==> HasSuffix(x, LogSuffix)
    ensures forall x :: x in names && HasSuffix(x, LogSuffix) ==> x in r
    ensures forall x :: multiset(r)[x] == if HasSuffix(x, LogSuffix) then multiset(names)[x] else 0
    decreases |names|
  {
    if |names| == 0 then []
    else
      var last := names[|names| - 1];
      assert names == names[..|names| - 1] + [last];
      LogNames(names[..|names| - 1]) + (if HasSuffix(last, LogSuffix) then [last] else [])
  }

  /** The collecting loop of `ViewLogs`: keep each `.log` name, in order. */
  method CollectLogFiles(files: seq<string>) returns (logFiles: seq<string>)
    ensures logFiles == LogNames(files)
  {
    logFiles := [];
    var i := 0;
    while i < |files|
      invariant 0 <= i <= |files|
      invariant logFiles == LogNames(files[..i])
    {
      var f := files[i];
      assert files[..i + 1][..i] == files[..i];
      if HasSuffix(f, LogSuffix) {
        logFiles := logFiles + [f];
      }
      i := i + 1;
    }
    assert files[..i] == files;
  }

  /** The order `sort.Reverse(sort.StringSlice(...))` sorts into: no name is below a later one. */
  predicate NonIncreasing(s: seq<string>) {
    forall i, j :: 0 <= i < j < |s| ==> !Less(s[i], s[j])
  }

  /** "Not below" is transitive. */
  lemma NotLessTransitive(a: string, b: string, c: string)
    requires !Less(a, b) && !Less(b, c)
    ensures !Less(a, c)
  {
    LessTotal(a, b);
    LessTotal(b, c);
    LessTotal(a, c);
    if a != b && b != c {
      LessTransitive(c, b, a);
    }
  }

  /** A name not below `x` nor below any of `tail` is not below any of `tail` with `x` added. */
  lemma NotBelowAll(h: string, x: string, tail: seq<string>, rest: seq<string>)
    requires forall j :: 0 <= j < |tail| ==> !Less(h, tail[j])
    requires !Less(h, x)
    requires multiset(rest) == multiset(tail) + multiset{x}
    ensures forall y :: y in rest ==> !Less(h, y)
  {
    forall y | y in rest ensures !Less(h, y) {
      assert y in multiset(rest);
      if y != x {
        assert y in multiset(tail);
        var k :| 0 <= k < |tail| && tail[k] == y;
      }
    }
  }

  /** Inserts `x` into a non-increasing list, keeping it non-increasing. */
  function Insert(x: string, s: seq<string>): (r: seq<string>)
    requires NonIncreasing(s)
    ensures NonIncreasing(r)
    ensures multiset(r) == multiset(s) + multiset{x}
    decreases |s|
  {
    if |s| == 0 then [x]
    else if !Less(x, s[0]) then
      assert forall j :: 0 < j < |s| ==> !Less(x, s[j]) by {
        forall j | 0 < j < |s| ensures !Less(x, s[j]) {
          NotLessTransitive(x, s[0], s[j]);
        }
      }
      [x] + s
    else
      assert s == [s[0]] + s[1..];
      var rest := Insert(x, s[1..]);
      LessTotal(x, s[0]);
      NotBelowAll(s[0], x, s[1..], rest);
      [s[0]] + rest
  }

  /** Sorts into non-increasing order; the result is a permutation of the input. */
  function SortDescending(s: seq<string>): (r: seq<string>)
    ensures NonIncreasing(r)
    ensures multiset(r) == multiset(s)
    decreases |s|
  {
    if |s| == 0 then []
    else
      assert s == [s[0]] + s[1..];
      Insert(s[0], SortDescending(s[1..]))
  }

  /** The listing `ViewLogs` shows: the `.log` names, latest first. */
  function ListLogs(names: seq<string>): (r: seq<string>)
    ensures forall x :: x in r <==> x in names && HasSuffix(x, LogSuffix)
    ensures multiset(r) == multiset(LogNames(names))
    ensures NonIncreasing(r)
  {
    var r := SortDescending(LogNames(names));
    assert forall x :: x in r <==> x in multiset(r);
    assert forall x :: x in LogNames(names) <==> x in multiset(LogNames(names));
    r
  }

  /** The head of a non-increasing list is not below any of its names. */
  lemma HeadIsGreatest(s: seq<string>, x: string)
    requires NonIncreasing(s) && x in multiset(s)
    ensures |s| > 0 && !Less(s[0], x)
  {
    var k :| 0 <= k < |s| && s[k] == x;
    if k == 0 {
      LessIrreflexive(x);
    }
  }

  /** Two non-empty non-increasing arrangements of the same names start alike. */
  lemma HeadsAgree(a: seq<string>, b: seq<string>)
    requires NonIncreasing(a) && NonIncreasing(b) && multiset(a) == multiset(b) && |a| > 0
    ensures |b| > 0 && a[0] == b[0]
  {
    assert a[0] in multiset(a);
    HeadIsGreatest(b, a[0]);
    assert b[0] in multiset(b);
    HeadIsGreatest(a, b[0]);
    LessTotal(a[0], b[0]);
  }

  /** Removing the same head from both sides keeps the names equal. */
  lemma TailsAgree(a: seq<string>, b: seq<string>)
    requires multiset(a) == multiset(b) && |a| > 0 && |b| > 0 && a[0] == b[0]
    ensures multiset(a[1..]) == multiset(b[1..])
  {
    assert a == [a[0]] + a[1..] && b == [b[0]] + b[1..];
    assert multiset(a[1..]) == multiset(a) - multiset{a[0]};
    assert multiset(b[1..]) == multiset(b) - multiset{b[0]};
  }

  /** Two non-increasing arrangements of the same names are the same list. */
  lemma {:induction false} SortedUnique(a: seq<string>, b: seq<string>)
    requires NonIncreasing(a) && NonIncreasing(b)
    requires multiset(a) == multiset(b)
    ensures a == b
    decreases |a|
  {
    if |a| == 0 {
      assert |multiset(b)| == 0;
    } else {
      HeadsAgree(a, b);
      TailsAgree(a, b);
      SortedUnique(a[1..], b[1..]);
      assert a == [a[0]] + a[1..] && b == [b[0]] + b[1..];
    }
  }

  /**
   Whatever algorithm `sort.Sort` uses, a non-increasing permutation of the
   `.log` names is exactly `ListLogs`: the listing is determined by the names.
   */
  lemma AnySortAgrees(names: seq<string>, sorted: seq<string>)
    requires NonIncreasing(sorted) && multiset(sorted) == multiset(LogNames(names))
    ensures sorted == ListLogs(names)
  {
    SortedUnique(sorted, ListLogs(names));
  }

  /** Among the writer's daily files, the listing never puts a day before a later one. */
  lemma NewestFirst(names: seq<string>, i: nat, j: nat, a: Date, b: Date)
    requires Valid(a) && Valid(b)
    requires i < j < |ListLogs(names)|
    requires ListLogs(names)[i] == FileName(a) && ListLogs(names)[j] == FileName(b)
    ensures !Before(a, b)
  {
    FileNameOrder(a, b);
  }

  /**
   After a call that opened its daily file, a listing of the log directory
   shows that day's file name.
   */
  lemma WrittenDayListed(store: Store, clock: Clock, level: Level, channel: string, msg: string,
                         stack: Option<string>, io: Io, names: seq<string>)
    requires Valid(clock.day) && io != OpenFails
    requires forall n :: '/' !in n && LogDir + "/" + n in Write(store, clock, level, channel, msg, stack, io).store ==> n in names
    ensures FileName(clock.day) in ListLogs(names)
  {
    assert FileName(clock.day) in names;
  }
}
