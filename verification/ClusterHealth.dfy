/** The health of one node over a run of reports. */
module ClusterHealth {
  import opened Cluster

  /** A node after `k` errors in a row, reported at the given times. */
  function Errors(settings: Settings, n: Node, times: nat -> nat, k: nat): Node {
    if k == 0 then n else Blamed(settings, Errors(settings, n, times, k - 1), times(k - 1))
  }

  function Successes(settings: Settings, n: Node, j: nat): Node {
    if j == 0 then n else Relieved(settings, Successes(settings, n, j - 1))
  }

  /** What is left of `a` after `b` has been taken away. */
  function Left(a: nat, b: nat): nat {
    if a > b then a - b else 0
  }

  function Least(a: nat, b: nat): nat {
    if a < b then a else b
  }

  lemma {:induction false} ErrorsAddUp(settings: Settings, n: Node, times: nat -> nat, k: nat)
    ensures Errors(settings, n, times, k).errorCount == n.errorCount + k
    ensures Errors(settings, n, times, k).offlineUntil ==
            if k > 0 && n.errorCount + k >= settings.removeNodeErrorCount && settings.restoreNodeTimeout > 0
            then times(k - 1) + settings.restoreNodeTimeout else n.offlineUntil
  {
    if k > 0 {
      ErrorsAddUp(settings, n, times, k - 1);
    }
  }

  lemma {:induction false} SuccessesPayOff(settings: Settings, n: Node, j: nat)
    requires settings.removeNodeErrorCount > 0
    ensures Successes(settings, n, j).errorCount ==
            if j == 0 then n.errorCount else Left(Least(n.errorCount, settings.removeNodeErrorCount), j)
    ensures Successes(settings, n, j).offlineUntil == if j == 0 then n.offlineUntil else 0
  {
    if j > 0 {
      SuccessesPayOff(settings, n, j - 1);
    }
  }

  /** A new node that had `k` errors is online exactly if these are below the limit, or the timeout has passed. */
  lemma OfflineForTheTimeout(settings: Settings, times: nat -> nat, k: nat, now: nat)
    requires settings.removeNodeErrorCount > 0 && settings.restoreNodeTimeout > 0
    ensures Online(Errors(settings, Node(0, 0), times, k), now) <==>
            k < settings.removeNodeErrorCount || now >= times(k - 1) + settings.restoreNodeTimeout
  {
    ErrorsAddUp(settings, Node(0, 0), times, k);
  }

  /**
  After any number of errors one success brings a new node back, and as many successes as the limit clear its count,
  however far beyond the limit it was.  Until then it takes just as many errors as there were successes to take the node
  offline again.
  */
  lemma ErrorsThenSuccesses(settings: Settings, times: nat -> nat, k: nat, j: nat, e: nat, now: nat)
    requires settings.removeNodeErrorCount > 0 && settings.restoreNodeTimeout > 0 && j > 0
    requires e > 0 ==> now < times(e - 1) + settings.restoreNodeTimeout
    ensures var n := Successes(settings, Errors(settings, Node(0, 0), times, k), j);
            && Online(n, now)
            && (n.errorCount == 0 <==> j >= Least(k, settings.removeNodeErrorCount))
            && (k >= settings.removeNodeErrorCount >= j ==>
                  (!Online(Errors(settings, n, times, e), now) <==> e >= j))
  {
    var n := Errors(settings, Node(0, 0), times, k);
    ErrorsAddUp(settings, Node(0, 0), times, k);
    SuccessesPayOff(settings, n, j);
    ErrorsAddUp(settings, Successes(settings, n, j), times, e);
  }
}
