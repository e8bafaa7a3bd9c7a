/** The game program: its own problem generator, and the session state that
    holds the tasks of one round and scores them. */
module MinutenMathe {
  import opened Wrappers
  import opened Problems
  import opened Draws

  /** `generate_problem`: the kind is drawn first; only an addition or a
      subtraction draws its hidden slot (`hidden` is ignored otherwise, as
      multiplication and division hide the result), then the operands are
      drawn in the order `KindDraws` lists them. */
  function GenerateProblem(kind: ProblemType, hidden: HiddenNumber, x: int, y: int, z: int)
    : (r: Result<Problem, RandError>)
    requires KindDraws(kind, x, y, z)
    ensures r.Err? <==> Raises(kind, x)
    ensures r.Err? ==> r.error == LowNotBelowHigh(1, 1)
    ensures r.Ok? ==> Generatable(r.value) && r.value.kind == kind
    ensures r.Ok? && (kind.Addition? || kind.Subtraction?) ==> r.value.hidden == hidden
  {
    var h := if kind.Addition? || kind.Subtraction? then hidden else C;
    match kind
    case Addition =>
      var a := RandInt(1, 1000, x).value;
      var b :- RandInt(1, 1000 - a, y);
      Ok(Problem(kind, h, a, b, a + b))
    case Subtraction =>
      var a := RandInt(1, 1000, x).value;
      var b :- RandInt(1, a, y);
      Ok(Problem(kind, h, a, b, a - b))
    case Multiplication =>
      var b := RandInt(1, 10, x).value;
      var a := RandInt(1, 20, y).value;
      var b' := if a > 10 then RandInt(1, 6, z).value else b;
      Ok(Problem(kind, h, a, b', a * b'))
    case Division =>
      var b := RandInt(1, 10, x).value;
      var c := RandInt(1, 10, y).value;
      Ok(Problem(kind, h, b * c, b, c))
  }

  /** Every problem the bounds allow is produced by some draws: the
      postcondition of `GenerateProblem` describes its range exactly. */
  lemma GenerateProblemOnto(p: Problem)
    requires Generatable(p)
    ensures exists x, y, z :: KindDraws(p.kind, x, y, z) && GenerateProblem(p.kind, p.hidden, x, y, z) == Ok(p)
  {
    match p.kind
    case Addition =>
      assert KindDraws(p.kind, p.a, p.b, 0) && GenerateProblem(p.kind, p.hidden, p.a, p.b, 0) == Ok(p);
    case Subtraction =>
      assert KindDraws(p.kind, p.a, p.b, 0) && GenerateProblem(p.kind, p.hidden, p.a, p.b, 0) == Ok(p);
    case Multiplication =>
      if p.a > 10 {
        assert KindDraws(p.kind, 1, p.a, p.b) && GenerateProblem(p.kind, p.hidden, 1, p.a, p.b) == Ok(p);
      } else {
        assert KindDraws(p.kind, p.b, p.a, 1) && GenerateProblem(p.kind, p.hidden, p.b, p.a, 1) == Ok(p);
      }
    case Division =>
      assert KindDraws(p.kind, p.b, p.c, 0) && GenerateProblem(p.kind, p.hidden, p.b, p.c, 0) == Ok(p);
  }

  /** The three numbers `stats` reports. */
  datatype Score = Score(correct: int, incorrect: int, total: int)

  /** How many of `ts` are solved (`np.sum` over the `solved()` flags). */
  function CountSolved(ts: seq<Task>): (n: nat)
    ensures n <= |ts|
    ensures (forall i :: 0 <= i < |ts| ==> ts[i].guess == None) ==> n == 0
  {
    if ts == [] then 0
    else CountSolved(ts[..|ts| - 1]) + (if Solved(ts[|ts| - 1]) then 1 else 0)
  }

  /** The score of a task list: `total` is `max(1, len - 1)`, `correct`
      counts solved tasks over the whole list, `incorrect` is the rest. */
  function StatsOf(ts: seq<Task>): (s: Score)
    ensures |ts| <= 1 ==> s.total == 1
    ensures |ts| >= 2 ==> s.total == |ts| - 1
    ensures s.correct == CountSolved(ts)
    ensures s.correct + s.incorrect == s.total
    ensures s.incorrect >= -1
  {
    var total := if |ts| - 1 > 1 then |ts| - 1 else 1;
    var correct := CountSolved(ts);
    Score(correct, total - correct, total)
  }

  /** The task list after the last task's guess is set to `g`. */
  function WithLastGuess(ts: seq<Task>, g: int): (r: seq<Task>)
    requires |ts| >= 1
    ensures |r| == |ts|
    ensures forall i :: 0 <= i < |ts| - 1 ==> r[i] == ts[i]
    ensures forall i :: 0 <= i < |ts| ==> r[i].problem == ts[i].problem
    ensures r[|ts| - 1].guess == Some(g)
  {
    ts[|ts| - 1 := ts[|ts| - 1].(guess := Some(g))]
  }

  /** Counting solved tasks splits over concatenation. */
  lemma {:induction false} CountSolvedConcat(s: seq<Task>, t: seq<Task>)
    ensures CountSolved(s + t) == CountSolved(s) + CountSolved(t)
    decreases |t|
  {
    if t == [] {
      assert s + t == s;
    } else {
      var t' := t[..|t| - 1];
      assert (s + t)[..|s + t| - 1] == s + t';
      CountSolvedConcat(s, t');
    }
  }

  /** Submitting a guess keeps the denominator and re-scores only the last
      task: it counts exactly when the guess passes its problem's check. */
  lemma StatsAfterGuess(ts: seq<Task>, g: int)
    requires |ts| >= 1
    ensures StatsOf(WithLastGuess(ts, g)).total == StatsOf(ts).total
    ensures StatsOf(WithLastGuess(ts, g)).correct
         == CountSolved(ts[..|ts| - 1]) + (if Check(ts[|ts| - 1].problem, Some(g)) then 1 else 0)
  {
    var r := WithLastGuess(ts, g);
    assert r[..|r| - 1] == ts[..|ts| - 1];
  }

  /** Only the latest of several guesses on the same task is kept. */
  lemma LatestGuessWins(ts: seq<Task>, g1: int, g2: int)
    requires |ts| >= 1
    ensures WithLastGuess(WithLastGuess(ts, g1), g2) == WithLastGuess(ts, g2)
  {
  }

  /** Appending a fresh task leaves `correct` unchanged and makes the
      denominator the number of tasks before the append. */
  lemma StatsAfterNewTask(ts: seq<Task>, p: Problem)
    requires |ts| >= 1
    ensures StatsOf(ts + [Task(p, None)]).correct == StatsOf(ts).correct
    ensures StatsOf(ts + [Task(p, None)]).total == |ts|
  {
    assert (ts + [Task(p, None)])[..|ts|] == ts;
  }

  /** While the last task is still unanswered, `incorrect` is never negative. */
  lemma PendingLastTaskScoresNonNegative(ts: seq<Task>)
    requires |ts| >= 1 && ts[|ts| - 1].guess == None
    ensures StatsOf(ts).incorrect >= 0
    ensures StatsOf(ts).correct == CountSolved(ts[..|ts| - 1])
  {
  }

  /** `correct` counts the whole list but the denominator leaves one task
      out, so answering every task, the last one included, drives
      `incorrect` to -1. */
  lemma AllSolvedScoresMinusOne(ts: seq<Task>)
    requires |ts| >= 2
    requires forall i :: 0 <= i < |ts| ==> Solved(ts[i])
    ensures StatsOf(ts) == Score(|ts|, -1, |ts| - 1)
  {
    AllSolvedCount(ts);
  }

  lemma {:induction false} AllSolvedCount(ts: seq<Task>)
    requires forall i :: 0 <= i < |ts| ==> Solved(ts[i])
    ensures CountSolved(ts) == |ts|
  {
    if ts != [] {
      AllSolvedCount(ts[..|ts| - 1]);
    }
  }

  /** The session: an append-only list of tasks, never empty, the last one
      being the task on screen. */
  class State {
    var tasks: seq<Task>

    /** The list is never empty and every task holds a generated problem. */
    ghost predicate Valid()
      reads this
    {
      |tasks| >= 1 && forall i :: 0 <= i < |tasks| ==> Generatable(tasks[i].problem)
    }

    /** A state whose list holds one fresh task for `first`. */
    constructor (first: Problem)
      requires Generatable(first)
      ensures Valid() && tasks == [Task(first, None)]
    {
      tasks := [Task(first, None)];
    }

    /** `State()`: generates the first problem and wraps it in a new state;
        a raising draw raises out of `State()` and no state is made. */
    static method Start(kind: ProblemType, hidden: HiddenNumber, x: int, y: int, z: int)
      returns (r: Result<State, RandError>)
      requires KindDraws(kind, x, y, z)
      ensures r.Err? <==> GenerateProblem(kind, hidden, x, y, z).Err?
      ensures r.Ok? ==> fresh(r.value) && r.value.Valid()
      ensures r.Ok? ==> r.value.tasks == [Task(GenerateProblem(kind, hidden, x, y, z).value, None)]
    {
      var p := GenerateProblem(kind, hidden, x, y, z);
      if p.Err? {
        return Err(p.error);
      }
      var s := new State(p.value);
      return Ok(s);
    }

    /** `current_task`: the last task of the list. */
    function CurrentTask(): (t: Task)
      reads this
      requires Valid()
      ensures t == tasks[|tasks| - 1] && Generatable(t.problem)
    {
      tasks[|tasks| - 1]
    }

    /** `new_task`: appends one fresh task for a newly generated problem; a
        raising draw leaves the list as it was. */
    method NewTask(kind: ProblemType, hidden: HiddenNumber, x: int, y: int, z: int)
      returns (r: Result<Task, RandError>)
      requires Valid() && KindDraws(kind, x, y, z)
      modifies this
      ensures Valid()
      ensures r.Err? <==> GenerateProblem(kind, hidden, x, y, z).Err?
      ensures r.Ok? ==> r.value == Task(GenerateProblem(kind, hidden, x, y, z).value, None)
      ensures r.Ok? ==> tasks == old(tasks) + [r.value]
      ensures r.Err? ==> tasks == old(tasks)
    {
      var p := GenerateProblem(kind, hidden, x, y, z);
      if p.Err? {
        return Err(p.error);
      }
      var t := Task(p.value, None);
      tasks := tasks + [t];
      return Ok(t);
    }

    /** `submit_guess`: overwrites the guess of the last task only. */
    method SubmitGuess(guess: int)
      requires Valid()
      modifies this
      ensures Valid()
      ensures tasks == WithLastGuess(old(tasks), guess)
    {
      tasks := tasks[|tasks| - 1 := tasks[|tasks| - 1].(guess := Some(guess))];
    }

    /** `stats`: counts the solved tasks one by one; reads the state only. */
    method Stats() returns (s: Score)
      requires Valid()
      ensures s == StatsOf(tasks)
    {
      var correct := 0;
      for i := 0 to |tasks|
        invariant correct == CountSolved(tasks[..i])
      {
        assert tasks[..i + 1][..i] == tasks[..i];
        if Solved(tasks[i]) {
          correct := correct + 1;
        }
      }
      assert tasks[..|tasks|] == tasks;
      var total := if |tasks| - 1 > 1 then |tasks| - 1 else 1;
      s := Score(correct, total - correct, total);
    }
  }
}
