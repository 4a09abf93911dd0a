/**
 * The training page (apps/web/src/pages/Training.tsx): the severity label, the
 * choice of solution moves, the session queue (uncompleted exercises, largest
 * loss first, at most `count` of them) and the session's progression through
 * it.
 */
module Training {
  import opened Optional
  import opened JsStrings
  import opened ChessTypes
  import Analyzer

  datatype Mistake = Mistake(mistakeType: string, theme: Option<string>, evalLoss: int, moveNumber: int)

  /** The stored solution; each field may be missing. */
  datatype SolutionText = SolutionText(moves: Option<seq<string>>, bestMove: Option<string>, correctMove: Option<string>)

  datatype Exercise = Exercise(
    id: string,
    exerciseType: string,
    fenStart: string,
    solution: SolutionText,
    completed: bool,
    attempts: int,
    mistake: Mistake)

  datatype SessionResult = SessionResult(id: string, solved: bool)

  /** `currentResult`: 'playing' | 'solved' | 'failed'. */
  datatype CurrentResult = ResultPlaying | ResultSolved | ResultFailed

  /** `SEVERITY_LABEL` */
  function SeverityLabel(loss: int): string {
    if loss >= 200 then "Blunder" else if loss >= 80 then "Mistake" else "Inaccuracy"
  }

  /** A text field of the solution counts only when present and non-empty (JavaScript truthiness). */
  predicate Truthy(s: Option<string>) {
    s.Some? && s.value != ""
  }

  /** `getSolutionMoves`: the move list if present (even empty), else the best move, else the correct move, else none. */
  function SolutionMoves(e: Exercise): seq<string> {
    if e.solution.moves.Some? then e.solution.moves.value
    else if Truthy(e.solution.bestMove) then [e.solution.bestMove.value]
    else if Truthy(e.solution.correctMove) then [e.solution.correctMove.value]
    else []
  }

  // ---- the session queue ----

  /** `exercises.filter(e => !e.completed)` */
  function Uncompleted(exercises: seq<Exercise>): (r: seq<Exercise>)
    ensures forall i :: 0 <= i < |r| ==> !r[i].completed
  {
    if |exercises| == 0 then []
    else
      var rest := Uncompleted(exercises[1..]);
      if exercises[0].completed then rest else [exercises[0]] + rest
  }

  /** The filter only drops exercises: each kept one is stored, at most as often. */
  lemma {:induction false} UncompletedFromStored(exercises: seq<Exercise>)
    ensures multiset(Uncompleted(exercises)) <= multiset(exercises)
  {
    if |exercises| > 0 {
      var rest := Uncompleted(exercises[1..]);
      UncompletedFromStored(exercises[1..]);
      assert exercises == [exercises[0]] + exercises[1..];
      assert multiset(exercises) == multiset{exercises[0]} + multiset(exercises[1..]);
      if !exercises[0].completed {
        assert multiset([exercises[0]] + rest) == multiset{exercises[0]} + multiset(rest);
      }
    }
  }

  /** The filter keeps every uncompleted exercise. */
  lemma {:induction false} UncompletedKeepsAll(exercises: seq<Exercise>, e: Exercise)
    requires e in exercises && !e.completed
    ensures e in Uncompleted(exercises)
  {
    if exercises[0] != e {
      assert e in exercises[1..];
      UncompletedKeepsAll(exercises[1..], e);
    }
  }

  /** `exercises.filter(e => e.completed)` */
  function Completed(exercises: seq<Exercise>): seq<Exercise> {
    if |exercises| == 0 then []
    else
      var rest := Completed(exercises[1..]);
      if exercises[0].completed then [exercises[0]] + rest else rest
  }

  function Loss(e: Exercise): int {
    e.mistake.evalLoss
  }

  /** Largest loss first. */
  predicate SortedByLoss(s: seq<Exercise>) {
    forall i, j :: 0 <= i < j < |s| ==> Loss(s[i]) >= Loss(s[j])
  }

  /** Insert `x` in front of the first element whose loss is not larger, so that `x` precedes the equal ones. */
  function InsertByLoss(x: Exercise, s: seq<Exercise>): (r: seq<Exercise>)
    requires SortedByLoss(s)
    ensures |r| == |s| + 1 && (r[0] == x || (|s| > 0 && r[0] == s[0]))
    ensures SortedByLoss(r)
  {
    if |s| == 0 || Loss(s[0]) <= Loss(x) then [x] + s
    else
      assert SortedByLoss(s[1..]) by {
        forall i, j | 0 <= i < j < |s| - 1 ensures Loss(s[1..][i]) >= Loss(s[1..][j]) {
          assert s[1..][i] == s[i + 1] && s[1..][j] == s[j + 1];
        }
      }
      var rest := InsertByLoss(x, s[1..]);
      assert Loss(s[0]) >= Loss(rest[0]);
      [s[0]] + rest
  }

  /** Insertion adds exactly the one element. */
  lemma {:induction false} InsertByLossPermutes(x: Exercise, s: seq<Exercise>)
    requires SortedByLoss(s)
    ensures multiset(InsertByLoss(x, s)) == multiset(s) + multiset{x}
  {
    if |s| > 0 && Loss(s[0]) > Loss(x) {
      assert SortedByLoss(s[1..]) by {
        forall i, j | 0 <= i < j < |s| - 1 ensures Loss(s[1..][i]) >= Loss(s[1..][j]) {
          assert s[1..][i] == s[i + 1] && s[1..][j] == s[j + 1];
        }
      }
      InsertByLossPermutes(x, s[1..]);
      assert s == [s[0]] + s[1..];
    }
  }

  /**
   * `.sort((a, b) => b.mistake.evalLoss - a.mistake.evalLoss)`: a stable sort, largest loss
   * first, written as an insertion sort.
   */
  function SortByLoss(s: seq<Exercise>): (r: seq<Exercise>)
    ensures |r| == |s| && SortedByLoss(r)
  {
    if |s| == 0 then []
    else InsertByLoss(s[0], SortByLoss(s[1..]))
  }

  /** The sort rearranges its input and adds or drops nothing. */
  lemma {:induction false} SortByLossPermutes(s: seq<Exercise>)
    ensures multiset(SortByLoss(s)) == multiset(s)
  {
    if |s| > 0 {
      SortByLossPermutes(s[1..]);
      InsertByLossPermutes(s[0], SortByLoss(s[1..]));
      PrefixSplit(s, 1);
      assert s[..1] == [s[0]];
    }
  }

  /** `slice(0, count)` */
  function Take<T>(s: seq<T>, count: nat): (r: seq<T>)
    ensures |r| == Min(count, |s|)
    ensures r == s[..|r|]
  {
    if count < |s| then s[..count] else s
  }

  /** The queue `startSession(count)` builds. */
  function SelectQueue(exercises: seq<Exercise>, count: nat): seq<Exercise> {
    Take(SortByLoss(Uncompleted(exercises)), count)
  }

  // ---- counters ----

  function SolvedCount(results: seq<SessionResult>): nat {
    if |results| == 0 then 0
    else SolvedCount(results[..|results| - 1]) + (if results[|results| - 1].solved then 1 else 0)
  }

  function FailedCount(results: seq<SessionResult>): nat {
    if |results| == 0 then 0
    else FailedCount(results[..|results| - 1]) + (if results[|results| - 1].solved then 0 else 1)
  }

  /** The page's state variables. */
  class TrainingPage {
    var exercises: seq<Exercise>
    var queue: seq<Exercise>
    var index: nat
    var active: bool
    var results: seq<SessionResult>
    var current: CurrentResult

    /** While a session is active, its index points into the queue. */
    predicate Valid()
      reads this
    {
      active ==> index < |queue|
    }

    constructor(exercises: seq<Exercise>)
      ensures Valid() && !active
      ensures this.exercises == exercises && queue == [] && index == 0 && results == [] && current == ResultPlaying
    {
      this.exercises := exercises;
      queue := [];
      index := 0;
      active := false;
      results := [];
      current := ResultPlaying;
    }

    /** `startSession(count)`: nothing happens when no exercise is left to do. */
    method StartSession(count: nat)
      requires Valid()
      modifies this
      ensures Valid()
      ensures exercises == old(exercises)
      ensures SelectQueue(exercises, count) == [] ==>
        queue == old(queue) && index == old(index) && active == old(active)
        && results == old(results) && current == old(current)
      ensures SelectQueue(exercises, count) != [] ==>
        queue == SelectQueue(exercises, count) && index == 0 && results == [] && current == ResultPlaying && active
      ensures SelectQueue(exercises, count) != [] ==> !IsFinished()
    {
      var sorted := Take(SortByLoss(Uncompleted(exercises)), count);
      if |sorted| == 0 {
        return;
      }
      queue := sorted;
      index := 0;
      results := [];
      current := ResultPlaying;
      active := true;
    }

    /** `handleSolved` */
    method HandleSolved()
      requires Valid() && active
      modifies this
      ensures Valid()
      ensures results == old(results) + [SessionResult(old(queue[index]).id, true)]
      ensures IsFinished() <==> old(index) + 1 >= |old(queue)|
      ensures current == ResultSolved
      ensures exercises == old(exercises) && queue == old(queue) && index == old(index) && active == old(active)
    {
      var exercise := queue[index];
      current := ResultSolved;
      results := results + [SessionResult(exercise.id, true)];
    }

    /** `handleFailed` */
    method HandleFailed()
      requires Valid() && active
      modifies this
      ensures Valid()
      ensures results == old(results) + [SessionResult(old(queue[index]).id, false)]
      ensures IsFinished() <==> old(index) + 1 >= |old(queue)|
      ensures current == ResultFailed
      ensures exercises == old(exercises) && queue == old(queue) && index == old(index) && active == old(active)
    {
      var exercise := queue[index];
      current := ResultFailed;
      results := results + [SessionResult(exercise.id, false)];
    }

    /** `nextExercise`: the session ends after the last exercise; otherwise the next one starts. */
    method NextExercise()
      requires Valid()
      modifies this
      ensures Valid()
      ensures old(index) + 1 >= |queue| ==> !active && index == old(index) && current == old(current)
      ensures old(index) + 1 < |queue| ==> active == old(active) && index == old(index) + 1 && current == ResultPlaying
      ensures old(index) + 1 < |queue| ==> !IsFinished()
      ensures exercises == old(exercises) && queue == old(queue) && results == old(results)
    {
      if index + 1 >= |queue| {
        active := false;
        return;
      }
      index := index + 1;
      current := ResultPlaying;
    }

    /** `endSession` */
    method EndSession()
      requires Valid()
      modifies this
      ensures Valid() && !active
      ensures exercises == old(exercises) && queue == old(queue) && index == old(index)
      ensures results == old(results) && current == old(current)
    {
      active := false;
    }

    /** `isFinished`: the last exercise of the queue has a result. */
    predicate IsFinished(): (r: bool)
      reads this
      ensures r && Valid() && active ==> index == |queue| - 1 && current in {ResultSolved, ResultFailed}
    {
      index + 1 >= |queue| && current != ResultPlaying
    }
  }

  // ---- properties ----

  /** The label agrees with the classifier's tiers, boundaries included. */
  lemma SeverityLabelMatchesTier(loss: int)
    ensures SeverityLabel(loss) == "Blunder" <==> Analyzer.SeverityOf(loss) == BlunderTier
    ensures SeverityLabel(loss) == "Mistake" <==> Analyzer.SeverityOf(loss) == MistakeTier
    ensures SeverityLabel(loss) == "Inaccuracy" <==> Analyzer.SeverityOf(loss) == InaccuracyTier
  {
  }

  /** A move list, even an empty one, wins; a single move otherwise; nothing only when no field has a move. */
  lemma SolutionMovesFallback(e: Exercise)
    ensures e.solution.moves.Some? ==> SolutionMoves(e) == e.solution.moves.value
    ensures e.solution.moves.None? && Truthy(e.solution.bestMove) ==> SolutionMoves(e) == [e.solution.bestMove.value]
    ensures e.solution.moves.None? && !Truthy(e.solution.bestMove) && Truthy(e.solution.correctMove) ==>
      SolutionMoves(e) == [e.solution.correctMove.value]
    ensures SolutionMoves(e) == [] <==>
      (e.solution.moves == Some([]) ||
       (e.solution.moves.None? && !Truthy(e.solution.bestMove) && !Truthy(e.solution.correctMove)))
  {
  }

  /** Every exercise is either solved or still to do: the two lobby counters add up to the number of exercises. */
  lemma {:induction false} LobbyCountsAddUp(exercises: seq<Exercise>)
    ensures |Uncompleted(exercises)| + |Completed(exercises)| == |exercises|
  {
    if |exercises| > 0 {
      LobbyCountsAddUp(exercises[1..]);
    }
  }

  /** The session counters add up to the number of results. */
  lemma {:induction false} SessionCountsAddUp(results: seq<SessionResult>)
    ensures SolvedCount(results) + FailedCount(results) == |results|
  {
    if |results| > 0 {
      SessionCountsAddUp(results[..|results| - 1]);
    }
  }

  /** Each recorded result moves exactly one of the two counters. */
  lemma RecordedResultCounts(results: seq<SessionResult>, r: SessionResult)
    ensures SolvedCount(results + [r]) == SolvedCount(results) + (if r.solved then 1 else 0)
    ensures FailedCount(results + [r]) == FailedCount(results) + (if r.solved then 0 else 1)
  {
    assert (results + [r])[..|results|] == results;
  }

  /** The number of uncompleted exercises. */
  lemma {:induction false} UncompletedCount(exercises: seq<Exercise>)
    ensures |Uncompleted(exercises)| == |exercises| - |Completed(exercises)|
  {
    LobbyCountsAddUp(exercises);
  }

  /** A sequence is its prefix followed by the rest, as a multiset too. */
  lemma PrefixSplit<T>(s: seq<T>, k: nat)
    requires k <= |s|
    ensures multiset(s) == multiset(s[..k]) + multiset(s[k..])
  {
    assert s == s[..k] + s[k..];
  }

  /** Taking a prefix of a permutation away leaves the rest of it. */
  lemma PrefixRemoved<T>(a: seq<T>, s: seq<T>, k: nat)
    requires multiset(a) == multiset(s) && k <= |s|
    ensures multiset(a) - multiset(s[..k]) == multiset(s[k..])
  {
    PrefixSplit(s, k);
  }

  /** Every element of a sub-multiset occurs in the larger sequence. */
  lemma SubMultisetMembers<T>(a: seq<T>, b: seq<T>)
    requires multiset(a) <= multiset(b)
    ensures forall i :: 0 <= i < |a| ==> a[i] in b
  {
    forall i | 0 <= i < |a| ensures a[i] in b {
      assert a[i] in multiset(a);
    }
  }

  /** The queue draws on the uncompleted exercises, each at most as often as it is stored. */
  lemma QueueFromUncompleted(exercises: seq<Exercise>, count: nat)
    ensures var q := SelectQueue(exercises, count);
      && multiset(q) <= multiset(Uncompleted(exercises))
      && (forall i :: 0 <= i < |q| ==> !q[i].completed && q[i] in exercises)
  {
    var u := Uncompleted(exercises);
    var s := SortByLoss(u);
    var q := SelectQueue(exercises, count);
    SortByLossPermutes(u);
    PrefixSplit(s, |q|);
    assert multiset(q) <= multiset(u);
    UncompletedFromStored(exercises);
    SubMultisetMembers(q, exercises);
    SubMultisetMembers(q, u);
    forall i | 0 <= i < |q| ensures !q[i].completed {
      var j :| 0 <= j < |u| && u[j] == q[i];
    }
  }

  /**
   * The queue holds only uncompleted exercises, each at most as often as it is stored, largest
   * loss first, `min(count, #uncompleted)` of them.
   */
  lemma QueueContents(exercises: seq<Exercise>, count: nat)
    ensures var q := SelectQueue(exercises, count);
      && (forall i :: 0 <= i < |q| ==> !q[i].completed && q[i] in exercises)
      && multiset(q) <= multiset(Uncompleted(exercises))
      && SortedByLoss(q)
      && |q| == Min(count, |Uncompleted(exercises)|)
  {
    QueueFromUncompleted(exercises, count);
    var s := SortByLoss(Uncompleted(exercises));
    var q := SelectQueue(exercises, count);
    forall i, j | 0 <= i < j < |q| ensures Loss(q[i]) >= Loss(q[j]) {
      assert q[i] == s[i] && q[j] == s[j];
    }
  }

  /** In a list sorted by loss, nothing after position `k` has a larger loss than anything before it. */
  lemma SortedSplit(s: seq<Exercise>, k: nat)
    requires SortedByLoss(s) && k <= |s|
    ensures forall e, i :: e in multiset(s[k..]) && 0 <= i < k ==> Loss(e) <= Loss(s[i])
  {
    forall e, i | e in multiset(s[k..]) && 0 <= i < k ensures Loss(e) <= Loss(s[i]) {
      var j :| 0 <= j < |s[k..]| && s[k..][j] == e;
      assert s[k + j] == e;
    }
  }

  /** No uncompleted exercise left out of the queue has a larger loss than one taken. */
  lemma QueueTakesLargestLosses(exercises: seq<Exercise>, count: nat)
    ensures var q := SelectQueue(exercises, count);
      forall e, i :: e in multiset(Uncompleted(exercises)) - multiset(q) && 0 <= i < |q| ==> Loss(e) <= Loss(q[i])
  {
    var u := Uncompleted(exercises);
    var s := SortByLoss(u);
    var q := SelectQueue(exercises, count);
    SortByLossPermutes(u);
    assert q == s[..|q|];
    PrefixRemoved(u, s, |q|);
    SortedSplit(s, |q|);
    forall e, i | e in multiset(u) - multiset(q) && 0 <= i < |q| ensures Loss(e) <= Loss(q[i]) {
      assert q[i] == s[i];
    }
  }

  /** Blunders come first in the queue, then mistakes, then inaccuracies. */
  lemma QueueTiersOrdered(exercises: seq<Exercise>, count: nat, i: nat, j: nat)
    requires i < j < |SelectQueue(exercises, count)|
    ensures var q := SelectQueue(exercises, count);
      && (Analyzer.SeverityOf(Loss(q[j])) == BlunderTier ==> Analyzer.SeverityOf(Loss(q[i])) == BlunderTier)
      && (Analyzer.SeverityOf(Loss(q[j])) == MistakeTier ==> Analyzer.SeverityOf(Loss(q[i])) != InaccuracyTier)
  {
    var q := SelectQueue(exercises, count);
    QueueContents(exercises, count);
    Analyzer.SeverityMonotone(Loss(q[j]), Loss(q[i]));
  }

  /** A session starts exactly when an uncompleted exercise exists and at least one is asked for. */
  lemma {:induction false} SessionStartsIffWork(exercises: seq<Exercise>, count: nat)
    ensures SelectQueue(exercises, count) != [] <==> count > 0 && exists e :: e in exercises && !e.completed
  {
    var u := Uncompleted(exercises);
    if |u| > 0 {
      UncompletedFromStored(exercises);
      assert u[0] in multiset(exercises);
      assert u[0] in exercises && !u[0].completed;
    }
    if e :| e in exercises && !e.completed {
      UncompletedKeepsAll(exercises, e);
    }
    QueueContents(exercises, count);
  }
}
