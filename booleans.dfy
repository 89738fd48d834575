/** Assertions on a boolean. */
module Booleans {
  import opened Testing
  import Messages

  /** Fails once iff the assertion is false; a true one leaves the reporter
      as it was. */
  method True(t: Reporter, assertion: bool)
    modifies t
    ensures t.failures == old(t.failures) + if !assertion then [Messages.Inequality] else []
  {
    if !assertion {
      t.Error(Messages.Inequality);
    }
  }

  /** Fails once iff the assertion is true; a false one leaves the reporter
      as it was. */
  method False(t: Reporter, assertion: bool)
    modifies t
    ensures t.failures == old(t.failures) + if assertion then [Messages.Inequality] else []
  {
    if assertion {
      t.Error(Messages.Inequality);
    }
  }

  /** Runs True and False on the same boolean: exactly one fails, once. */
  method TrueFalsePair(assertion: bool) returns (trueFailures: nat, falseFailures: nat)
    ensures trueFailures + falseFailures == 1
    ensures trueFailures == 0 <==> assertion
  {
    var t1 := new Reporter();
    True(t1, assertion);
    var t2 := new Reporter();
    False(t2, assertion);
    trueFailures, falseFailures := |t1.failures|, |t2.failures|;
  }
}
