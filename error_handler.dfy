/** The error handler: error records, the debug log in storage that keeps the
    ten most recent of them, and the wrappers that log and rethrow. */
module ErrorHandler {
  import opened Wrappers

  /** A thrown value: its `message` (empty when it has none) and `stack`. */
  datatype Thrown = Thrown(message: string, stack: Option<string>)

  /** The recorded error: the message, or the thrown value itself when its
      message is empty or missing. */
  datatype Recorded = Message(text: string) | Raw(thrown: Thrown)

  /** The context a wrapper adds: the function's name and argument count. */
  datatype Context = NoContext | CallContext(functionName: string, arguments: nat)

  /** What the page supplies: the time stamp, the page address and the user
      agent. */
  datatype Environment = Environment(timestamp: string, url: string, userAgent: string)

  datatype ErrorInfo = ErrorInfo(component: string, error: Recorded, stack: Option<string>,
                                 timestamp: string, url: string, userAgent: string, context: Context)

  /** The record `logError` builds. */
  function ErrorInfoOf(component: string, error: Thrown, context: Context, env: Environment): (info: ErrorInfo)
    ensures error.message != [] ==> info.error == Message(error.message)
    ensures error.message == [] ==> info.error == Raw(error)
    ensures info.component == component && info.stack == error.stack && info.context == context
  {
    ErrorInfo(component, if error.message != [] then Message(error.message) else Raw(error), error.stack,
              env.timestamp, env.url, env.userAgent, context)
  }

  const MaxStoredErrors: nat := 10

  /** `errors.slice(-10)`: the last ten entries, or all of them when there
      are fewer. */
  function LastTen<T>(errors: seq<T>): (r: seq<T>)
    ensures |r| == if |errors| < MaxStoredErrors then |errors| else MaxStoredErrors
    ensures r == errors[|errors| - |r|..]
  {
    if |errors| <= MaxStoredErrors then errors else errors[|errors| - MaxStoredErrors..]
  }

  /** Storing one more error keeps a suffix of the log with the new error at
      its end, drops nothing while fewer than ten were stored, and keeps the
      same ten a log of every error would end with. */
  lemma LastTenAppend<T>(stored: seq<T>, errors: seq<T>, e: T)
    requires stored == LastTen(errors)
    ensures LastTen(stored + [e]) == LastTen(errors + [e])
    ensures LastTen(stored + [e])[|LastTen(stored + [e])| - 1] == e
    ensures |stored| < MaxStoredErrors ==> LastTen(stored + [e]) == stored + [e]
  {
    var all := errors + [e];
    var n := |errors|;
    if n >= MaxStoredErrors {
      assert stored == errors[n - 10..];
      assert (stored + [e])[1..] == errors[n - 9..] + [e];
      assert all[n + 1 - 10..] == errors[n - 9..] + [e];
    } else {
      assert stored == errors;
    }
  }

  /** The outcome of a call: a returned value or a thrown error. */
  datatype Outcome<T> = Returned(value: T) | Threw(error: Thrown)

  /** The debug error log kept under `debug_errors`. */
  class ErrorLog {
    /** The stored value; `None` when nothing is stored. */
    var debugErrors: Option<seq<ErrorInfo>>

    constructor ()
      ensures debugErrors.None?
    {
      debugErrors := None;
    }

    /** `getStoredErrors`: the stored list; `[]` when nothing is stored
      (which is then stored as the default, unless that write fails and is
      swallowed; `defaultOk` says whether it succeeds) or when reading fails. */
    method GetStoredErrors(readOk: bool, defaultOk: bool) returns (errors: seq<ErrorInfo>)
      modifies this
      ensures !readOk ==> errors == [] && debugErrors == old(debugErrors)
      ensures readOk && old(debugErrors).Some? ==> errors == old(debugErrors).value && debugErrors == old(debugErrors)
      ensures readOk && old(debugErrors).None? ==> errors == [] && debugErrors == if defaultOk then Some([]) else None
    {
      if !readOk {
        return [];
      }
      if debugErrors.None? {
        if defaultOk {
          debugErrors := Some([]);
        }
        return [];
      }
      return debugErrors.value;
    }

    /** `storeError`: reads the list, adds the new record, and writes back its
      last ten entries; a failed write leaves what the read left. */
    method StoreError(info: ErrorInfo, readOk: bool, defaultOk: bool, writeOk: bool)
      modifies this
      ensures writeOk ==> debugErrors == Some(LastTen((if readOk then old(debugErrors).GetOr([]) else []) + [info]))
      ensures !writeOk ==> debugErrors == if readOk && old(debugErrors).None? && defaultOk then Some([]) else old(debugErrors)
    {
      var errors := GetStoredErrors(readOk, defaultOk);
      errors := errors + [info];
      var recentErrors := LastTen(errors);
      if writeOk {
        debugErrors := Some(recentErrors);
      }
    }

    /** `clearStoredErrors`: stores the empty list; a failed write changes
      nothing. */
    method ClearStoredErrors(writeOk: bool)
      modifies this
      ensures writeOk ==> debugErrors == Some([])
      ensures !writeOk ==> debugErrors == old(debugErrors)
    {
      if writeOk {
        debugErrors := Some([]);
      }
    }

    /** `logError`: builds the record and stores it. */
    method LogError(component: string, error: Thrown, context: Context, env: Environment,
                    readOk: bool, defaultOk: bool, writeOk: bool)
      modifies this
      ensures writeOk ==> debugErrors == Some(LastTen((if readOk then old(debugErrors).GetOr([]) else []) + [ErrorInfoOf(component, error, context, env)]))
      ensures !writeOk ==> debugErrors == if readOk && old(debugErrors).None? && defaultOk then Some([]) else old(debugErrors)
    {
      StoreError(ErrorInfoOf(component, error, context, env), readOk, defaultOk, writeOk);
    }

    /** A call through `wrapFunction` (and `wrapAsyncFunction`, whose
      awaited outcome behaves the same): the outcome of `fn` unchanged, and a
      thrown error is logged with the function's name and argument count
      before it is rethrown. */
    method CallWrapped<A, T>(fn: seq<A> -> Outcome<T>, fnName: string, component: string, args: seq<A>,
                             env: Environment, readOk: bool, defaultOk: bool, writeOk: bool)
      returns (outcome: Outcome<T>)
      modifies this
      ensures outcome == fn(args)
      ensures outcome.Returned? ==> debugErrors == old(debugErrors)
      ensures outcome.Threw? && writeOk ==>
        debugErrors == Some(LastTen((if readOk then old(debugErrors).GetOr([]) else [])
                                    + [ErrorInfoOf(component, outcome.error, CallContext(fnName, |args|), env)]))
      ensures outcome.Threw? && !writeOk ==>
        debugErrors == if readOk && old(debugErrors).None? && defaultOk then Some([]) else old(debugErrors)
    {
      outcome := fn(args);
      if outcome.Threw? {
        LogError(component, outcome.error, CallContext(fnName, |args|), env, readOk, defaultOk, writeOk);
      }
    }
  }
}
