/** The two programs carry separate copies of the generator; for the same
    draws they build the same problem. */
module Variants {
  import opened Wrappers
  import opened Problems
  import opened Draws
  import Tasks
  import MinutenMathe

  /** `generate_problem` agrees with the task module's generators, kind by
      kind, on every draw (including which draws raise). */
  lemma GeneratorsAgree(kind: ProblemType, hidden: HiddenNumber, x: int, y: int, z: int)
    requires KindDraws(kind, x, y, z)
    ensures kind.Addition? || kind.Subtraction? ==>
      var t := Tasks.GenerateAdditionSubtraction(hidden, kind, x, y);
      var p := MinutenMathe.GenerateProblem(kind, hidden, x, y, z);
      (p.Ok? <==> t.Ok?) && (p.Ok? ==> p.value == t.value.problem)
    ensures kind.Multiplication? || kind.Division? ==>
      MinutenMathe.GenerateProblem(kind, hidden, x, y, z)
        == Ok(Tasks.GenerateMultiplicationDivision(kind, x, y, z).problem)
  {
  }

  /** A round as the front end drives it: the first task is skipped with
      Enter, the next three are answered correctly, and the score reads
      three correct out of three. */
  method ScoredRound()
  {
    var r := MinutenMathe.State.Start(Division, C, 3, 4, 0);
    assert r.Ok?;
    var s := r.value;
    assert MinutenMathe.CountSolved(s.tasks) == 0;
    ghost var before := s.tasks;
    var t := s.NewTask(Addition, A, 5, 7, 0);
    assert t.Ok? && t.value.problem == Problem(Addition, A, 5, 7, 12);
    s.SubmitGuess(5);
    assert s.tasks[..|s.tasks| - 1] == before;
    assert MinutenMathe.CountSolved(s.tasks) == 1;
    before := s.tasks;
    t := s.NewTask(Multiplication, C, 2, 3, 0);
    assert t.Ok? && t.value.problem == Problem(Multiplication, C, 3, 2, 6);
    s.SubmitGuess(6);
    assert s.tasks[..|s.tasks| - 1] == before;
    assert MinutenMathe.CountSolved(s.tasks) == 2;
    before := s.tasks;
    t := s.NewTask(Subtraction, B, 9, 4, 0);
    assert t.Ok? && t.value.problem == Problem(Subtraction, B, 9, 4, 5);
    s.SubmitGuess(4);
    assert s.tasks[..|s.tasks| - 1] == before;
    var score := s.Stats();
    assert |s.tasks| == 4 && s.tasks[0].guess == None;
    assert score == MinutenMathe.Score(3, 0, 3);
  }
}
