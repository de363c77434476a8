/** The future a caller waits on while its command is in flight: it carries
    the command, and is completed exactly once with the error (or none) that
    the connection's reader reports for it. */
module Futures {
  import opened Wrappers

  /** A command of type `C` whose completion reports an error of type `E`,
      or None for success. */
  class Future<C, E> {
    var cmd: C
    var err: Option<E>
    /** Whether the future has been completed. */
    var done: bool

    constructor (c: C)
      ensures cmd == c && err == None && !done
    {
      cmd, err, done := c, None, false;
    }

    /** The command the future was made for. */
    function Command(): C
      reads this
    {
      cmd
    }

    /** The outcome, once the future is complete; waiting for completion is
        the caller's side of the channel and is not modelled. */
    method Error() returns (e: Option<E>)
      requires done
      ensures e == err
    {
      e := err;
    }

    /** Completes the future with its outcome. Completing it a second time is a
        Go panic (closing a closed channel), so it is only done once. */
    method Respond(e: Option<E>)
      requires !done
      modifies this`err, this`done
      ensures done && err == e
    {
      err := e;
      done := true;
    }
  }

  /** The future of the package's tests: it holds its command, and once it is
      completed every wait reports the same error. */
  method FutureExample<C, E>(c: C, failure: E) returns (held: C, first: Option<E>, second: Option<E>)
    ensures held == c && first == Some(failure) && second == Some(failure)
  {
    var f := new Future<C, E>(c);
    f.Respond(Some(failure));
    first := f.Error();
    second := f.Error();
    held := f.Command();
  }
}
