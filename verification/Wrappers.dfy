/** Small definitions shared by all modules. */
module Wrappers {

  datatype Option<+T> = None | Some(value: T)

  datatype Result<+R, +E> = Ok(value: R) | Err(error: E)

  /**
   Where the database lets a transaction down: at one of its statements, in the
   order they are sent (past the last: at the commit), or only in answering the commit.
   */
  datatype Fault = NoFault | FailsAt(statement: nat) | CommitAnswerLost

  /** A finite history, oldest first: every run is a shorter run and one more thing that happened. */
  datatype Run<+T> = Start | Then(past: Run<T>, last: T)

  function Length<T>(run: Run<T>): nat {
    match run
    case Start => 0
    case Then(past, _) => Length(past) + 1
  }

  /** The first `n` elements of a sequence, as a history. */
  function FirstN<T>(s: seq<T>, n: nat): Run<T>
    requires n <= |s|
  {
    if n == 0 then Start else Then(FirstN(s, n - 1), s[n - 1])
  }

  lemma {:induction false} FirstNOfLonger<T>(s: seq<T>, more: seq<T>, n: nat)
    requires n <= |s|
    ensures FirstN(s + more, n) == FirstN(s, n)
  {
    if n > 0 {
      FirstNOfLonger(s, more, n - 1);
    }
  }

  predicate Occurs<T(==)>(run: Run<T>, x: T) {
    run.Then? && (run.last == x || Occurs(run.past, x))
  }

  /** `early` is how `run` stood at some point. */
  predicate IsPrefix<T(==)>(early: Run<T>, run: Run<T>) {
    early == run || (run.Then? && IsPrefix(early, run.past))
  }

  const MAX_INT32 := 0x7FFF_FFFF
  const MAX_INT64 := 0x7FFF_FFFF_FFFF_FFFF

  type Uuid = nat

  /** UUID text is library code: `scan` reads it, `show` prints it, `trim` strips white space. */
  datatype Ids = Ids(scan: string -> Option<Uuid>, show: Uuid -> string, trim: string -> string)

  function Parse(ids: Ids, s: string): Option<Uuid> {
    ids.scan(ids.trim(s))
  }
}
