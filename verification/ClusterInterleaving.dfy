/** Errors of any number of requests whose attempts overlap in time. */
module ClusterInterleaving {
  import opened Lists
  import opened Cluster
  import opened ClusterChances

  /** An error is counted for the node with this id at this time, whichever request it belongs to. */
  datatype Report = Report(id: string, at: nat)

  /** A report for a node that was removed meanwhile changes no other. */
  ghost predicate Counted(settings: Settings, m: Members, report: Report, m': Members) {
    if report.id in m.nodes then ErrorOf(settings, m, report.id, report.at, m') else m' == m
  }

  /** The reports come one after the other from `now` on, with no success between them; `run` has the nodes. */
  ghost predicate Errors(settings: Settings, now: nat, reports: seq<Report>, run: seq<Members>)
    decreases |reports|
  {
    && |run| == |reports| + 1
    && (reports != [] ==>
          && now <= reports[0].at && Counted(settings, run[0], reports[0], run[1])
          && Errors(settings, reports[0].at, reports[1..], run[1..]))
  }

  /** How many of them are for nodes of the pattern that are online when they come. */
  ghost function OnlineErrors(pattern: string, reports: seq<Report>, run: seq<Members>): nat
    requires |run| == |reports| + 1
    decreases |reports|
  {
    if reports == [] then 0
    else
      (if reports[0].id in run[0].Online(pattern, reports[0].at) then 1 else 0) +
      OnlineErrors(pattern, reports[1..], run[1..])
  }

  function LastTime(now: nat, reports: seq<Report>): nat {
    if reports == [] then now else reports[|reports| - 1].at
  }

  /** No node is offline for longer than the timeout from `now` on. */
  ghost predicate Timely(settings: Settings, m: Members, now: nat) {
    forall id :: id in m.nodes ==> m.nodes[id].offlineUntil <= now + settings.restoreNodeTimeout
  }

  /** An error of a node that is offline, by an attempt made before, keeps it offline and gives it no chances. */
  lemma {:induction false} LateErrorGivesNone(settings: Settings, n: Node, at: nat, horizon: nat)
    requires Healthy(settings, n) && !Online(n, at) && n.offlineUntil <= at + settings.restoreNodeTimeout
    ensures Chances(settings, Blamed(settings, n, at), at, horizon) <= Chances(settings, n, at, horizon)
  {
    ReturnsFall(settings.restoreNodeTimeout, n.offlineUntil, at + settings.restoreNodeTimeout, horizon);
  }

  lemma {:induction false} LateErrorCostsNone(settings: Settings, m: Members, pattern: string, id: string, at: nat,
                                              horizon: nat, m': Members)
    requires m.Sound(settings) && Timely(settings, m, at) && ErrorOf(settings, m, id, at, m')
    requires id !in m.Online(pattern, at)
    ensures Potential(settings, m', pattern, at, horizon) <= Potential(settings, m, pattern, at, horizon)
  {
    var weight, less := Weight(settings, m.nodes, pattern, at, horizon),
                        Weight(settings, m'.nodes, pattern, at, horizon);
    forall other ensures less(other) <= weight(other) {
      if other == id && Matches(pattern, id) {
        assert !Online(m.nodes[id], at);
        LateErrorGivesNone(settings, m.nodes[id], at, horizon);
      }
    }
    SumFalls(m.order, weight, less, false);
    if Removes(settings, m.nodes[id]) {
      SumWithout(m.order, less, id);
    }
  }

  /** Chances do not grow with time. */
  lemma {:induction false} PotentialFalls(settings: Settings, m: Members, pattern: string, now: nat, later: nat,
                                          horizon: nat)
    requires m.Sound(settings) && now <= later && (settings.restoreNodeTimeout > 0 ==> later <= horizon)
    ensures Potential(settings, m, pattern, later, horizon) <= Potential(settings, m, pattern, now, horizon)
  {
    var weight, less := Weight(settings, m.nodes, pattern, now, horizon),
                        Weight(settings, m.nodes, pattern, later, horizon);
    forall id ensures less(id) <= weight(id) {
      if id in m.nodes {
        ChancesFall(settings, m.nodes[id], now, later, horizon);
      }
    }
    SumFalls(m.order, weight, less, false);
  }

  /** One report costs a chance if its node is online, and none is won otherwise. */
  lemma {:induction false} ReportCosts(settings: Settings, m: Members, pattern: string, now: nat, report: Report,
                                       horizon: nat, m': Members)
    requires m.Sound(settings) && Timely(settings, m, now) && Counted(settings, m, report, m') && now <= report.at
    requires settings.restoreNodeTimeout > 0 ==> report.at <= horizon
    ensures m'.Sound(settings) && Timely(settings, m', report.at)
    ensures Potential(settings, m', pattern, report.at, horizon) +
            (if report.id in m.Online(pattern, report.at) then 1 else 0) <=
            Potential(settings, m, pattern, now, horizon)
  {
    PotentialFalls(settings, m, pattern, now, report.at, horizon);
    if report.id in m.nodes {
      ErrorKeepsSound(settings, m, report.id, report.at, m');
      if report.id in m.Online(pattern, report.at) {
        ErrorCostsOne(settings, m, pattern, report.id, report.at, report.at, report.at, horizon, m');
      } else {
        LateErrorCostsNone(settings, m, pattern, report.id, report.at, horizon, m');
      }
    }
  }

  /**
  Between two successes, and however many requests overlap, the nodes of a pattern take no more errors while they are
  online than they have chances until the horizon.
  */
  lemma {:induction false} OverlappingRequestsAreBounded(settings: Settings, pattern: string, now: nat,
                                                         reports: seq<Report>, run: seq<Members>, horizon: nat)
    requires Errors(settings, now, reports, run) && run[0].Sound(settings) && Timely(settings, run[0], now)
    requires settings.restoreNodeTimeout > 0 ==> LastTime(now, reports) <= horizon
    ensures OnlineErrors(pattern, reports, run) +
            Potential(settings, run[|reports|], pattern, LastTime(now, reports), horizon) <=
            Potential(settings, run[0], pattern, now, horizon)
    decreases |reports|
  {
    if reports != [] {
      var rest := reports[1..];
      InTime(settings, now, reports, run);
      ReportCosts(settings, run[0], pattern, now, reports[0], horizon, run[1]);
      assert rest != [] ==> rest[|rest| - 1] == reports[|reports| - 1];
      OverlappingRequestsAreBounded(settings, pattern, reports[0].at, rest, run[1..], horizon);
    }
  }

  lemma {:induction false} InTime(settings: Settings, now: nat, reports: seq<Report>, run: seq<Members>)
    requires Errors(settings, now, reports, run)
    ensures now <= LastTime(now, reports)
    ensures reports != [] ==> reports[0].at <= LastTime(now, reports)
    decreases |reports|
  {
    if reports != [] {
      InTime(settings, reports[0].at, reports[1..], run[1..]);
    }
  }
}
