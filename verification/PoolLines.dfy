/** Lines of requests, in which a request may stand more than once and only its last place counts. */
module PoolLines {
  import opened Lists
  import opened PoolModel

  /** Whoever stands at `j` came after the one at `i`, unless that one stands again behind `i`. */
  ghost predicate After(line: seq<Request>, i: nat, j: nat)
    requires i < j < |line|
  {
    line[i] < line[j] || line[i] in line[i + 1..]
  }

  /** A line is in order if everybody behind the last place of a request came later. */
  ghost predicate InOrder(line: seq<Request>) {
    forall i: nat, j: nat :: i < j < |line| ==> After(line, i, j)
  }

  ghost predicate Ascending(line: seq<Request>) {
    forall i, j :: 0 <= i < j < |line| ==> line[i] < line[j]
  }

  /** The first goes to the back. */
  function Turned(line: seq<Request>): seq<Request> {
    if line == [] then [] else line[1..] + [line[0]]
  }

  lemma AscendingSnoc(line: seq<Request>, r: Request)
    requires Ascending(line) && forall x :: x in line ==> x < r
    ensures Ascending(line + [r])
  {
    forall i | 0 <= i < |line| ensures line[i] < r {
      assert line[i] in line;
    }
  }

  lemma AscendingPrefix(line: seq<Request>, more: seq<Request>)
    requires Ascending(line + more)
    ensures Ascending(line)
  {
    forall i, j | 0 <= i < j < |line| ensures line[i] < line[j] {
      assert (line + more)[i] < (line + more)[j];
    }
  }

  /** Somebody new may join at the back. */
  lemma JoinsBehind(line: seq<Request>, r: Request)
    requires InOrder(line) && forall x :: x in line ==> x < r
    ensures InOrder(line + [r])
  {
    var line' := line + [r];
    forall i: nat, j: nat | i < j < |line'| ensures After(line', i, j) {
      assert line'[i + 1..] == line[i + 1..] + [r];
      if j < |line| {
        assert After(line, i, j);
      } else {
        assert line'[i] == line[i] && line[i] in line;
      }
    }
  }

  /** Somebody new may not stand before others. */
  lemma JoinsBefore(front: seq<Request>, r: Request, back: seq<Request>)
    requires back != [] && r !in back && back[0] < r
    ensures !InOrder(front + [r] + back)
  {
    var line := front + [r] + back;
    var n := |front|;
    assert line[n] == r && line[n + 1] == back[0] && line[n + 1..] == back;
    assert !After(line, n, n + 1);
  }

  lemma FirstTwo(front: seq<Request>, queue: seq<Request>)
    requires InOrder(front + queue) && NoDup(queue) && |queue| >= 2
    ensures queue[0] < queue[1]
  {
    var line, n := front + queue, |front|;
    assert line[n] == queue[0] && line[n + 1] == queue[1] && line[n + 1..] == queue[1..];
    assert After(line, n, n + 1);
  }

  /** Nor may the first of two or more go to the back. */
  lemma TurnedBreaks(front: seq<Request>, queue: seq<Request>)
    requires NoDup(queue) && |queue| >= 2 && queue[0] < queue[1]
    ensures !InOrder(front + Turned(queue))
  {
    var line, n, back := front + Turned(queue), |front|, queue[2..] + [queue[0]];
    SecondFirst(queue);
    assert line[n] == queue[1] && line[n + |back|] == back[|back| - 1] && line[n + 1..] == back;
    assert !After(line, n, n + |back|);
  }

  lemma SecondFirst(queue: seq<Request>)
    requires NoDup(queue) && |queue| >= 2
    ensures var back := queue[2..] + [queue[0]];
            Turned(queue) == [queue[1]] + back && queue[1] !in back
  {
    assert queue[1] !in queue[2..];
  }

  lemma TurnedOrder(front: seq<Request>, queue: seq<Request>)
    requires InOrder(front + queue) && NoDup(queue)
    ensures InOrder(front + Turned(queue)) <==> |queue| <= 1
  {
    if |queue| <= 1 {
      assert Turned(queue) == queue;
    } else {
      FirstTwo(front, queue);
      TurnedBreaks(front, queue);
    }
  }

  /** The last place of a request. */
  lemma {:induction false} LastPlace(line: seq<Request>, r: Request) returns (k: nat)
    requires r in line
    ensures k < |line| && line[k] == r && r !in line[k + 1..]
  {
    var n := |line| - 1;
    if line[n] == r {
      k := n;
    } else {
      k := LastPlace(line[..n], r);
      assert line[k + 1..] == line[..n][k + 1..] + [line[n]];
    }
  }

  /** Whoever waits came after a request that was started and does not wait. */
  lemma WaitersAreLater(started: seq<Request>, queue: seq<Request>, r: Request, x: Request)
    requires InOrder(started + queue) && r in started && r !in queue && x in queue
    ensures r < x
  {
    var line := started + queue;
    var k := LastPlace(started, r);
    var j :| 0 <= j < |queue| && queue[j] == x;
    assert line[k] == r && line[|started| + j] == x && line[k + 1..] == started[k + 1..] + queue;
    assert After(line, k, |started| + j);
  }

  /** Nobody who came later was started, except for those who wait again. */
  ghost predicate StartedLast(started: seq<Request>, queue: seq<Request>, r: Request) {
    forall x :: x in started && x > r ==> x in queue
  }

  /** A request that is started again has to be the one started last. */
  lemma StartedAgain(started: seq<Request>, queue: seq<Request>, r: Request)
    requires InOrder(started + queue) && r in started && r !in queue
    ensures InOrder(started + [r] + queue) <==> StartedLast(started, queue, r)
  {
    if StartedLast(started, queue, r) {
      AgainKeeps(started, queue, r);
    } else {
      var line', n := started + [r] + queue, |started|;
      var x :| x in started && x > r && x !in queue;
      var k := LastPlace(started, x);
      assert line'[k] == x && line'[n] == r && line'[k + 1..] == started[k + 1..] + [r] + queue;
      assert !After(line', k, n);
    }
  }

  lemma AgainKeeps(started: seq<Request>, queue: seq<Request>, r: Request)
    requires InOrder(started + queue) && r in started && r !in queue && StartedLast(started, queue, r)
    ensures InOrder(started + [r] + queue)
  {
    var line' := started + [r] + queue;
    forall i: nat, j: nat | i < j < |line'| ensures After(line', i, j) {
      if i < |started| {
        AfterStarted(started, queue, r, i, j);
      } else {
        AfterLast(started, queue, r, i, j);
      }
    }
  }

  lemma AfterStarted(started: seq<Request>, queue: seq<Request>, r: Request, i: nat, j: nat)
    requires InOrder(started + queue) && StartedLast(started, queue, r)
    requires i < |started| && i < j < |started| + 1 + |queue|
    ensures After(started + [r] + queue, i, j)
  {
    var line, line', n := started + queue, started + [r] + queue, |started|;
    var x := started[i];
    assert line[i] == line'[i] == x && x in started;
    assert line'[i + 1..] == started[i + 1..] + [r] + queue && line[i + 1..] == started[i + 1..] + queue;
    if j < n {
      assert After(line, i, j) && line'[j] == line[j];
    } else if j > n {
      assert After(line, i, j - 1) && line'[j] == line[j - 1];
    } else {
      assert line'[j] == r;
    }
  }

  lemma AfterLast(started: seq<Request>, queue: seq<Request>, r: Request, i: nat, j: nat)
    requires InOrder(started + queue) && r in started && r !in queue
    requires |started| <= i < j < |started| + 1 + |queue|
    ensures After(started + [r] + queue, i, j)
  {
    var line, line', n := started + queue, started + [r] + queue, |started|;
    if i == n {
      assert line'[i] == r && line'[j] == queue[j - n - 1] && queue[j - n - 1] in queue;
      WaitersAreLater(started, queue, r, queue[j - n - 1]);
    } else {
      assert line'[i] == line[i - 1] && line'[j] == line[j - 1] && line'[i + 1..] == line[i..];
      assert After(line, i - 1, j - 1);
    }
  }

  /** A request that waits again has to wait alone. */
  lemma WaitsAgain(started: seq<Request>, queue: seq<Request>, r: Request)
    requires InOrder(started + queue) && NoDup(queue) && r in started && r !in queue
    ensures InOrder(started + (queue + [r])) <==> queue == [] && StartedLast(started, queue, r)
  {
    if queue == [] {
      assert started + (queue + [r]) == started + [r] + queue;
      StartedAgain(started, queue, r);
    } else {
      var line', n := started + (queue + [r]), |started|;
      assert queue[0] in queue;
      WaitersAreLater(started, queue, r, queue[0]);
      assert line'[n] == queue[0] && line'[n + |queue|] == r && line'[n + 1..] == queue[1..] + [r];
      assert !After(line', n, n + |queue|);
    }
  }
}
