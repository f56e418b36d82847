/** The in-memory diagnostic log: a process-wide buffer of at most 100
    entries with first-in-first-out eviction. Console mirroring is not part
    of this model; the clock reading taken at each call is a parameter. */
module Logger {
  import opened Base

  datatype Level = Debug | Info | Warning | Error

  /** A structured context value; `Undefined` is a key present with value
      `undefined` (as `stack` is for an error with no stack trace). */
  datatype Value = Undefined | Str(s: string) | Num(n: int)

  type Context = map<string, Value>

  /** `timestamp` is the clock reading, in milliseconds, at the log call. */
  datatype Entry = Entry(level: Level, message: string, context: Option<Context>, timestamp: int)

  /** A JavaScript `Error` as `logException` reads it. */
  datatype JsError = JsError(message: string, stack: Option<string>)

  const MaxLogBuffer: nat := 100

  /** The buffer after `addToBuffer(e)`: push, then shift once if over capacity. */
  function Appended(buf: seq<Entry>, e: Entry): (r: seq<Entry>)
    ensures |buf| <= MaxLogBuffer ==> |r| <= MaxLogBuffer
    ensures |r| > 0 && r[|r| - 1] == e
    ensures |buf| < MaxLogBuffer ==> r == buf + [e]
    ensures |buf| == MaxLogBuffer ==> r == buf[1..] + [e]
  {
    var pushed := buf + [e];
    if |pushed| > MaxLogBuffer then pushed[1..] else pushed
  }

  /** The buffer after appending every entry of `es`, in order. */
  function AppendedAll(buf: seq<Entry>, es: seq<Entry>): seq<Entry>
    decreases |es|
  {
    if es == [] then buf else AppendedAll(Appended(buf, es[0]), es[1..])
  }

  /** The last `n` elements of `s` (all of `s` when it is shorter). */
  function LastN<T>(s: seq<T>, n: nat): (r: seq<T>)
    ensures |r| == Min(n, |s|)
  {
    if |s| <= n then s else s[|s| - n..]
  }

  /** Whatever is appended, the buffer holds exactly the newest 100 entries
      of its old contents followed by the appended ones. */
  lemma {:induction false} AppendedAllKeepsNewest(buf: seq<Entry>, es: seq<Entry>)
    requires |buf| <= MaxLogBuffer
    ensures AppendedAll(buf, es) == LastN(buf + es, MaxLogBuffer)
    decreases |es|
  {
    if es == [] {
      assert buf + es == buf;
    } else {
      var p := buf + [es[0]];
      var t := es[1..];
      AppendedAllKeepsNewest(Appended(buf, es[0]), t);
      assert buf + es == p + t;
      if |p| > MaxLogBuffer {
        DropOldestKeepsNewest(p, t);
      }
    }
  }

  /** Dropping the oldest entry of an over-full buffer does not change
      which entries are the newest 100. */
  lemma DropOldestKeepsNewest(p: seq<Entry>, t: seq<Entry>)
    requires |p| > MaxLogBuffer
    ensures LastN(p[1..] + t, MaxLogBuffer) == LastN(p + t, MaxLogBuffer)
  {
    assert p[1..] + t == (p + t)[1..];
  }

  /** Logging 150 entries into an empty buffer keeps entries 50 through 149. */
  lemma OneHundredFiftyLeavesLastHundred(es: seq<Entry>)
    requires |es| == 150
    ensures AppendedAll([], es) == es[50..]
    ensures |AppendedAll([], es)| == 100
  {
    AppendedAllKeepsNewest([], es);
    assert [] + es == es;
  }

  /** The context of a `logException` entry: the caller's context (or none)
      with `stack` set to the error's stack, overriding any caller value. */
  function ExceptionContext(context: Option<Context>, stack: Option<string>): (r: Context)
    ensures "stack" in r && r["stack"] == (if stack.Some? then Str(stack.value) else Undefined)
    ensures r.Keys == context.GetOr(map[]).Keys + {"stack"}
    ensures forall k :: k in context.GetOr(map[]) && k != "stack" ==> r[k] == context.GetOr(map[])[k]
  {
    context.GetOr(map[])["stack" := if stack.Some? then Str(stack.value) else Undefined]
  }

  class LogBuffer {
    var entries: seq<Entry>

    ghost predicate Valid()
      reads this
    {
      |entries| <= MaxLogBuffer
    }

    constructor ()
      ensures Valid() && entries == []
    {
      entries := [];
    }

    method AddToBuffer(e: Entry)
      requires Valid()
      modifies this
      ensures Valid()
      ensures entries == Appended(old(entries), e)
    {
      entries := entries + [e];
      if |entries| > MaxLogBuffer {
        entries := entries[1..];
      }
    }

    method LogDebug(message: string, context: Option<Context>, now: int)
      requires Valid()
      modifies this
      ensures Valid()
      ensures entries == Appended(old(entries), Entry(Debug, message, context, now))
    {
      AddToBuffer(Entry(Debug, message, context, now));
    }

    method LogInfo(message: string, context: Option<Context>, now: int)
      requires Valid()
      modifies this
      ensures Valid()
      ensures entries == Appended(old(entries), Entry(Info, message, context, now))
    {
      AddToBuffer(Entry(Info, message, context, now));
    }

    method LogWarning(message: string, context: Option<Context>, now: int)
      requires Valid()
      modifies this
      ensures Valid()
      ensures entries == Appended(old(entries), Entry(Warning, message, context, now))
    {
      AddToBuffer(Entry(Warning, message, context, now));
    }

    method LogError(message: string, context: Option<Context>, now: int)
      requires Valid()
      modifies this
      ensures Valid()
      ensures entries == Appended(old(entries), Entry(Error, message, context, now))
    {
      AddToBuffer(Entry(Error, message, context, now));
    }

    method LogException(error: JsError, context: Option<Context>, now: int)
      requires Valid()
      modifies this
      ensures Valid()
      ensures entries == Appended(old(entries),
        Entry(Error, error.message, Some(ExceptionContext(context, error.stack)), now))
    {
      AddToBuffer(Entry(Error, error.message, Some(ExceptionContext(context, error.stack)), now));
    }

    /** A copy of the buffer, oldest entry first; the buffer is not changed. */
    method GetRecentLogs() returns (logs: seq<Entry>)
      requires Valid()
      ensures logs == entries && |logs| <= MaxLogBuffer
    {
      logs := entries;
    }

    method ClearLogs()
      modifies this
      ensures Valid() && entries == []
    {
      entries := [];
    }
  }
}
