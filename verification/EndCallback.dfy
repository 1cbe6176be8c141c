/** The countdown behind the callback of `end`, of a pool and of a cluster alike. */
module EndCallback {
  import opened Options

  /** How many reports it takes without an error.  If none is awaited, one is scheduled all the same. */
  function Needed(awaited: nat): nat {
    if awaited == 0 then 1 else awaited
  }

  function FirstError<E>(reports: seq<Option<E>>): Option<E> {
    if reports == [] then None else if reports[0].Some? then reports[0] else FirstError(reports[1..])
  }

  /** The calls of the callback after the given reports: one, with the first error, or when the last report is in. */
  function Calls<E>(awaited: nat, reports: seq<Option<E>>): seq<Option<E>> {
    if |reports| >= Needed(awaited) then [FirstError(reports[..Needed(awaited)])]
    else if FirstError(reports).Some? then [FirstError(reports)]
    else []
  }

  lemma {:induction false} FirstErrorConcat<E>(reports: seq<Option<E>>, more: seq<Option<E>>)
    ensures FirstError(reports + more) == if FirstError(reports).Some? then FirstError(reports) else FirstError(more)
  {
    if reports == [] {
      assert reports + more == more;
    } else {
      assert (reports + more)[1..] == reports[1..] + more;
      FirstErrorConcat(reports[1..], more);
    }
  }

  lemma {:induction false} FirstErrorIn<E>(reports: seq<Option<E>>)
    ensures FirstError(reports).Some? <==> exists i :: 0 <= i < |reports| && reports[i].Some?
  {
    if reports != [] {
      FirstErrorIn(reports[1..]);
      if FirstError(reports[1..]).Some? {
        var i :| 0 <= i < |reports[1..]| && reports[1..][i].Some?;
        assert reports[i + 1].Some?;
      }
      if i :| 0 < i < |reports| && reports[i].Some? {
        assert reports[1..][i - 1].Some?;
      }
    }
  }

  /** Whatever is reported later, the callback is not called a second time. */
  lemma {:induction false} CalledOnce<E>(awaited: nat, reports: seq<Option<E>>, more: seq<Option<E>>)
    ensures |Calls(awaited, reports)| <= 1
    ensures Calls(awaited, reports) != [] ==> Calls(awaited, reports + more) == Calls(awaited, reports)
  {
    var n := Needed(awaited);
    FirstErrorConcat(reports, more);
    if |reports| >= n {
      assert (reports + more)[..n] == reports[..n];
    } else if |reports + more| >= n {
      assert (reports + more)[..n] == reports + more[..n - |reports|];
      FirstErrorConcat(reports, more[..n - |reports|]);
    }
  }

  /** It is called exactly if there was an error or everybody has reported, and without an error if there was none. */
  lemma {:induction false} CalledExactlyIf<E>(awaited: nat, reports: seq<Option<E>>)
    ensures Calls(awaited, reports) != [] <==>
            |reports| >= Needed(awaited) || exists i :: 0 <= i < |reports| && reports[i].Some?
    ensures Calls(awaited, reports) == [None] <==>
            |reports| >= Needed(awaited) && forall i :: 0 <= i < Needed(awaited) ==> reports[i].None?
  {
    FirstErrorIn(reports);
    if |reports| >= Needed(awaited) {
      FirstErrorIn(reports[..Needed(awaited)]);
    }
  }

  /** The variables of `end`, shared by the reports that it awaits. */
  class Closing<E> {
    var calledBack: bool
    var waitingClose: int
    /** The calls of the callback. */
    var calls: seq<Option<E>>
    ghost const awaited: nat
    ghost var reports: seq<Option<E>>

    ghost predicate Valid()
      reads this
    {
      && calls == Calls(awaited, reports)
      && (calledBack <==> calls != [])
      && (!calledBack ==> waitingClose == awaited - |reports|)
    }

    constructor (waitingClose: nat)
      ensures Valid() && awaited == waitingClose && reports == [] && calls == []
    {
      calledBack, calls, this.waitingClose := false, [], waitingClose;
      awaited, reports := waitingClose, [];
    }

    method OnEnd(err: Option<E>)
      requires Valid()
      modifies this
      ensures Valid() && reports == old(reports) + [err]
    {
      CalledOnce(awaited, reports, [err]);
      FirstErrorConcat(reports, [err]);
      ghost var all := reports + [err];
      assert |all| == Needed(awaited) ==> all[..Needed(awaited)] == all;
      if !calledBack {
        if err.None? {
          waitingClose := waitingClose - 1;
        }
        if err.Some? || waitingClose <= 0 {
          calledBack := true;
          calls := calls + [err];
        }
      }
      reports := reports + [err];
    }
  }
}
