/** The test reporter the assertions are given. */
module Testing {

  /** A test reporter reduced to its append-only log of non-fatal failures.
      A failure never stops the test: the assertion returns and the test
      goes on. */
  class Reporter {
    var failures: seq<string>

    constructor ()
      ensures failures == []
    {
      failures := [];
    }

    /** Records one non-fatal failure with the given message. */
    method Error(msg: string)
      modifies this
      ensures failures == old(failures) + [msg]
    {
      failures := failures + [msg];
    }
  }
}
