/**
 * What a run of one of the converter's generators looks like from the
 * outside: the records it yielded, in order, and the exception that ended
 * it, if one did. Also the errors the modelled code can raise.
 */
module Streams {
  import opened Wrappers
  import opened Paths

  /** A parsed requirement: the package name and its extras. */
  datatype Requirement = Requirement(name: string, extras: seq<string>)

  /** The exceptions of the modelled code, by Python exception class. */
  datatype Error =
    | InvalidRequirement(message: string)     // the requirement parser's ValueError subclass
    | OSError(filename: Path)                  // a file that cannot be opened or read
    | IncludeFailed(line: string, cause: Error) // Exception("Parsing line '%s' : %s", l, err)
    | RecursionLimit                           // RecursionError: includes nested too deeply
    | AttributeError(message: string)
    | ExecFailed(message: string)              // any other exception of the setup script
    | KeyError(key: string)
    | RuntimeError(message: string)
  {
    /** Caught by `except ValueError`. */
    predicate IsValueError() {
      InvalidRequirement?
    }

    /** Caught by `except OSError`. */
    predicate IsOSError() {
      OSError?
    }
  }

  /** The records a generator yielded, then the exception that stopped it (None: it ran to the end). */
  datatype Stream = Stream(records: seq<Requirement>, error: Option<Error>)

  const Empty: Stream := Stream([], None)

  /**
   * Yielding everything `a` yields and then everything `b` yields: once
   * `a` raises, `b` is never started.
   */
  function Then(a: Stream, b: Stream): Stream {
    if a.error.Some? then a else Stream(a.records + b.records, b.error)
  }

  lemma ThenAssociative(a: Stream, b: Stream, c: Stream)
    ensures Then(Then(a, b), c) == Then(a, Then(b, c))
  {
    if a.error == None && b.error == None {
      assert a.records + b.records + c.records == a.records + (b.records + c.records);
    }
  }

  lemma ThenEmpty(a: Stream)
    ensures Then(Empty, a) == a
    ensures Then(a, Empty) == a
  {
    assert [] + a.records == a.records;
    assert a.records + [] == a.records;
  }
}
