/**
 * The bounded retry around the relational store: a transient connection
 * error (`InterfaceError`, `OperationalError`) on attempt `a` is retried
 * while `a < db_conn_retry`, and re-raised after that.
 */
module Retry {
  import opened Wrappers

  /** `db_conn_retry`: the number of attempts in all. */
  const DbConnRetry: nat := 3

  /**
   * The first attempt, from `a` on, that gets through, where `ok(a)` says
   * whether attempt `a` meets no transient error; None when the attempts
   * run out first.
   */
  function FirstSuccess(ok: nat -> bool, a: nat): Option<nat>
    decreases DbConnRetry - a
  {
    if a > DbConnRetry then None
    else if ok(a) then Some(a)
    else if a == DbConnRetry then None
    else FirstSuccess(ok, a + 1)
  }

  /**
   * At most `db_conn_retry` attempts are made: the attempt that gets
   * through is the first one that does, and the error is re-raised only
   * when every attempt failed.
   */
  lemma {:induction false} FirstSuccessBounded(ok: nat -> bool, a: nat)
    requires 1 <= a
    ensures var r := FirstSuccess(ok, a);
            (r.Some? ==> a <= r.value <= DbConnRetry && ok(r.value) &&
                         forall b :: a <= b < r.value ==> !ok(b)) &&
            (r.None? <==> forall b :: a <= b <= DbConnRetry ==> !ok(b))
    decreases DbConnRetry - a
  {
    if a < DbConnRetry && !ok(a) {
      FirstSuccessBounded(ok, a + 1);
      var r := FirstSuccess(ok, a);
      if r.None? {
        assert forall b :: a <= b <= DbConnRetry ==> !ok(b) by {
          forall b | a <= b <= DbConnRetry ensures !ok(b) {
            if b > a {
              assert a + 1 <= b;
            }
          }
        }
      }
    }
  }

  /**
   * A bounded retry loop: attempt after attempt while the attempt fails and
   * attempts are left. The attempt it stops at has gone through exactly
   * when some attempt does.
   */
  method Attempt(ok: nat -> bool) returns (attempt: nat)
    ensures 1 <= attempt <= DbConnRetry
    ensures FirstSuccess(ok, 1) == (if ok(attempt) then Some(attempt) else None)
  {
    attempt := 1;
    while !ok(attempt) && attempt < DbConnRetry
      invariant 1 <= attempt <= DbConnRetry
      invariant FirstSuccess(ok, 1) == FirstSuccess(ok, attempt)
      decreases DbConnRetry - attempt
    {
      attempt := attempt + 1;
    }
  }
}
