/**
 What the log directory holds after a sequence of leveled calls. The
 facility's mutex makes every `write` one atomic step, so any interleaving of
 concurrent callers is the sequence of their calls in the order they took the
 lock. Each call is one append to one file (`Op`); `Apply` performs a
 sequence of appends and `Run` the appends a sequence of calls amounts to.
 */
module Runs {
  import opened Wrappers
  import opened Text
  import opened Calendar
  import opened Entries
  import opened Logger

  /** One append under the lock: the file, the text, and the file system's response. */
  datatype Op = Op(path: string, text: string, io: Io)

  /** The store after the appends, in order. */
  function Apply(store: Store, ops: seq<Op>): Store
    decreases |ops|
  {
    if |ops| == 0 then store
    else
      var o := ops[|ops| - 1];
      Append(Apply(store, ops[..|ops| - 1]), o.path, o.text, o.io).store
  }

  /** The texts of the appends to `path` that succeeded, concatenated in order. */
  function Texts(ops: seq<Op>, path: string): string
    decreases |ops|
  {
    if |ops| == 0 then ""
    else
      var o := ops[|ops| - 1];
      Texts(ops[..|ops| - 1], path) + (if o.path == path && o.io == Ok then o.text else "")
  }

  lemma ContentElsewhere(a: Store, b: Store, path: string, p: string)
    requires SameElsewhere(a, b, path) && p != path
    ensures p in a <==> p in b
    ensures Content(a, p) == Content(b, p)
  {
    assert p in a <==> p in a - {path};
    assert p in b <==> p in b - {path};
    if p in a {
      assert a[p] == (a - {path})[p];
      assert b[p] == (b - {path})[p];
    }
  }

  /** Each file ends up as it was, followed by the successful appends to it in order. */
  lemma {:induction false} ApplyContent(store: Store, ops: seq<Op>, p: string)
    ensures Content(Apply(store, ops), p) == Content(store, p) + Texts(ops, p)
    decreases |ops|
  {
    if |ops| > 0 {
      var prefix, o := ops[..|ops| - 1], ops[|ops| - 1];
      var mid := Apply(store, prefix);
      ApplyContent(store, prefix, p);
      if o.path != p {
        ContentElsewhere(mid, Append(mid, o.path, o.text, o.io).store, o.path, p);
      }
    }
  }

  /** A file exists after the appends exactly when it existed before or some append opened it. */
  lemma {:induction false} ApplyFiles(store: Store, ops: seq<Op>, p: string)
    ensures p in Apply(store, ops) <==> p in store || exists i :: 0 <= i < |ops| && ops[i].path == p && ops[i].io != OpenFails
    decreases |ops|
  {
    if |ops| > 0 {
      var prefix, o := ops[..|ops| - 1], ops[|ops| - 1];
      var mid := Apply(store, prefix);
      ApplyFiles(store, prefix, p);
      if o.path != p {
        ContentElsewhere(mid, Append(mid, o.path, o.text, o.io).store, o.path, p);
      }
      if exists i :: 0 <= i < |ops| && ops[i].path == p && ops[i].io != OpenFails {
        var i :| 0 <= i < |ops| && ops[i].path == p && ops[i].io != OpenFails;
        if i < |prefix| {
          assert prefix[i] == ops[i];
        }
      }
      if exists i :: 0 <= i < |prefix| && prefix[i].path == p && prefix[i].io != OpenFails {
        var i :| 0 <= i < |prefix| && prefix[i].path == p && prefix[i].io != OpenFails;
        assert ops[i] == prefix[i];
      }
    }
  }

  /** No sequence of appends removes or truncates a file: each old content is a prefix of the new. */
  lemma NeverTruncates(store: Store, ops: seq<Op>, p: string)
    requires p in store
    ensures p in Apply(store, ops) && HasPrefix(Apply(store, ops)[p], store[p])
  {
    ApplyContent(store, ops, p);
    ApplyFiles(store, ops, p);
    assert (store[p] + Texts(ops, p))[..|store[p]|] == store[p];
  }

  /** One call of `write`, with the clock readings and the file system's response it met. */
  datatype Call = Call(clock: Clock, level: Level, channel: string, msg: string, stack: Option<string>, io: Io)

  predicate ValidCalls(calls: seq<Call>) {
    forall i :: 0 <= i < |calls| ==> Valid(calls[i].clock.day)
  }

  function EntryOf(c: Call): Entry {
    Entry(c.clock.stamp, c.level, c.channel, c.msg, c.stack)
  }

  /** The append a call performs. */
  function OpOf(c: Call): Op
    requires Valid(c.clock.day)
  {
    Op(DailyPath(c.clock.day), Format(EntryOf(c)), c.io)
  }

  function Ops(calls: seq<Call>): (ops: seq<Op>)
    requires ValidCalls(calls)
    ensures |ops| == |calls|
    ensures forall i :: 0 <= i < |calls| ==> ops[i] == OpOf(calls[i])
  {
    seq(|calls|, i requires 0 <= i < |calls| && ValidCalls(calls) => OpOf(calls[i]))
  }

  /** The store after the calls, in the order they took the lock. */
  function Run(store: Store, calls: seq<Call>): Store
    requires ValidCalls(calls)
  {
    Apply(store, Ops(calls))
  }

  /** The appends of one more call are the earlier appends followed by that call's. */
  lemma OpsSnoc(calls: seq<Call>, c: Call)
    requires ValidCalls(calls) && Valid(c.clock.day)
    ensures ValidCalls(calls + [c])
    ensures Ops(calls + [c]) == Ops(calls) + [OpOf(c)]
  {
    assert ValidCalls(calls + [c]) by {
      forall i | 0 <= i < |calls| + 1 ensures Valid((calls + [c])[i].clock.day) {
        if i < |calls| {
          assert (calls + [c])[i] == calls[i];
        }
      }
    }
    assert forall i :: 0 <= i < |calls| ==> (calls + [c])[i] == calls[i];
  }

  /** Running one more call is the `write` of that call on the store the earlier calls left. */
  lemma RunStep(store: Store, calls: seq<Call>, c: Call)
    requires ValidCalls(calls) && Valid(c.clock.day)
    ensures ValidCalls(calls + [c])
    ensures Run(store, calls + [c]) == Write(Run(store, calls), c.clock, c.level, c.channel, c.msg, c.stack, c.io).store
  {
    OpsSnoc(calls, c);
    var ops := Ops(calls) + [OpOf(c)];
    assert ops[..|calls|] == Ops(calls);
  }

  /** What one call adds to a day's file: its entry if it succeeded on that day, else nothing. */
  function Piece(c: Call, day: Date): string {
    if c.clock.day == day && c.io == Ok then Format(EntryOf(c)) else ""
  }

  /** The entries of the calls that succeeded on `day`, concatenated in call order. */
  function Appends(calls: seq<Call>, day: Date): string
    decreases |calls|
  {
    if |calls| == 0 then "" else Appends(calls[..|calls| - 1], day) + Piece(calls[|calls| - 1], day)
  }

  lemma PieceOfCall(c: Call, day: Date)
    requires Valid(c.clock.day) && Valid(day)
    ensures Texts([OpOf(c)], DailyPath(day)) == Piece(c, day)
  {
    DailyPathInjective(c.clock.day, day);
  }

  lemma ValidPrefix(calls: seq<Call>)
    requires ValidCalls(calls) && |calls| > 0
    ensures ValidCalls(calls[..|calls| - 1])
  {
    var prefix := calls[..|calls| - 1];
    forall i | 0 <= i < |prefix| ensures Valid(prefix[i].clock.day) {
      assert prefix[i] == calls[i];
    }
  }

  lemma TextsSnoc(ops: seq<Op>, o: Op, path: string)
    ensures Texts(ops + [o], path) == Texts(ops, path) + Texts([o], path)
  {
    assert (ops + [o])[..|ops|] == ops;
    assert [o][..0] == [];
  }

  lemma {:induction false} TextsOfCalls(calls: seq<Call>, day: Date)
    requires ValidCalls(calls) && Valid(day)
    ensures Texts(Ops(calls), DailyPath(day)) == Appends(calls, day)
    decreases |calls|
  {
    if |calls| > 0 {
      var prefix, c := calls[..|calls| - 1], calls[|calls| - 1];
      assert calls == prefix + [c];
      ValidPrefix(calls);
      OpsSnoc(prefix, c);
      TextsSnoc(Ops(prefix), OpOf(c), DailyPath(day));
      TextsOfCalls(prefix, day);
      PieceOfCall(c, day);
    }
  }

  /**
   After any sequence of calls, a day's file holds what it held before
   followed by the entries of the calls that succeeded on that day, in the
   order the calls took the lock; calls on other days and failed calls leave
   it as it was.
   */
  lemma RunContent(store: Store, calls: seq<Call>, day: Date)
    requires ValidCalls(calls) && Valid(day)
    ensures Content(Run(store, calls), DailyPath(day)) == Content(store, DailyPath(day)) + Appends(calls, day)
  {
    ApplyContent(store, Ops(calls), DailyPath(day));
    TextsOfCalls(calls, day);
  }

  /** The text a call added to the file at `path`. */
  function Appended(before: Store, after: Store, path: string): string
    requires |Content(before, path)| <= |Content(after, path)|
  {
    Content(after, path)[|Content(before, path)|..]
  }

  /** `Info` and `Warn` append one entry that reads back with its level and no traceback. */
  lemma PlainEntries(store: Store, clock: Clock, channel: string, msg: string)
    requires Valid(clock.day) && ']' !in clock.stamp && ']' !in channel && '\n' !in msg
    ensures Decode(Appended(store, Info(store, clock, channel, msg, Ok).store, DailyPath(clock.day)))
         == Some(Entry(clock.stamp, INFO, channel, msg, None))
    ensures Decode(Appended(store, Warn(store, clock, channel, msg, Ok).store, DailyPath(clock.day)))
         == Some(Entry(clock.stamp, WARN, channel, msg, None))
  {
    var path := DailyPath(clock.day);
    var before := Content(store, path);
    var info := Entry(clock.stamp, INFO, channel, msg, None);
    var warn := Entry(clock.stamp, WARN, channel, msg, None);
    assert Content(Info(store, clock, channel, msg, Ok).store, path) == before + Format(info);
    assert Content(Warn(store, clock, channel, msg, Ok).store, path) == before + Format(warn);
    DecodeFormat(info);
    DecodeFormat(warn);
  }

  /** `Error` appends one entry that reads back with level ERROR and the stack, for every kind of argument. */
  lemma ErrorEntries(store: Store, clock: Clock, channel: string, arg: ErrorArg, stack: string)
    requires Valid(clock.day) && ']' !in clock.stamp && ']' !in channel && '\n' !in Message(arg)
    ensures Decode(Appended(store, Error(store, clock, channel, arg, stack, Ok).store, DailyPath(clock.day)))
         == Some(Entry(clock.stamp, ERROR, channel, Message(arg), Some(stack)))
  {
    var path := DailyPath(clock.day);
    var e := Entry(clock.stamp, ERROR, channel, Message(arg), Some(stack));
    assert Content(Error(store, clock, channel, arg, stack, Ok).store, path) == Content(store, path) + Format(e);
    DecodeFormat(e);
  }
}
