/** The calls that one HTTP/1 connection makes to the process-wide body budget. */
module BudgetCalls {

  datatype Call = Reserve(n: nat, granted: bool) | Release(n: nat)

  function Change(c: Call): int {
    match c
    case Reserve(n, granted) => if granted then n else 0
    case Release(n) => 0 - n
  }

  /** What the calls have taken from the budget and not given back. */
  function Holding(calls: seq<Call>): int {
    if |calls| == 0 then 0 else Holding(calls[..|calls| - 1]) + Change(calls[|calls| - 1])
  }

  /** Nothing is given back. */
  predicate Asks(calls: seq<Call>) {
    forall i :: 0 <= i < |calls| ==> calls[i].Reserve?
  }

  /** Every release gives back exactly what is held at that moment. */
  ghost predicate Balanced(calls: seq<Call>) {
    forall i :: 0 <= i < |calls| && calls[i].Release? ==> calls[i].n == Holding(calls[..i])
  }

  lemma HoldingSnoc(calls: seq<Call>, c: Call)
    ensures Holding(calls + [c]) == Holding(calls) + Change(c)
    ensures Balanced(calls) && (c.Release? ==> c.n == Holding(calls)) ==> Balanced(calls + [c])
  {
    assert (calls + [c])[..|calls|] == calls;
    if Balanced(calls) && (c.Release? ==> c.n == Holding(calls)) {
      forall i | 0 <= i < |calls + [c]| && (calls + [c])[i].Release? ensures (calls + [c])[i].n == Holding((calls + [c])[..i]) {
        if i < |calls| { assert (calls + [c])[..i] == calls[..i]; }
      }
    }
  }

  /** Asking more leaves earlier releases as they were. */
  lemma {:induction false} HoldingMore(calls: seq<Call>, more: seq<Call>)
    ensures Holding(calls + more) == Holding(calls) + Holding(more)
    ensures Balanced(calls) && Asks(more) ==> Balanced(calls + more)
    decreases |more|
  {
    if |more| == 0 {
      assert calls + more == calls;
    } else {
      var init, last := more[..|more| - 1], more[|more| - 1];
      HoldingMore(calls, init);
      HoldingSnoc(calls + init, last);
      assert calls + init + [last] == calls + more;
    }
  }

  lemma BalancedPrefix(calls: seq<Call>, n: nat)
    requires Balanced(calls) && n <= |calls|
    ensures Balanced(calls[..n])
  {
    forall i | 0 <= i < n && calls[..n][i].Release? ensures calls[..n][i].n == Holding(calls[..n][..i]) { assert calls[..n][..i] == calls[..i]; }
  }
}
