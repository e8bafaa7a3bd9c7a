/** The generators of the task module: each builds a fresh `Task` (no guess)
    around an immutable problem from the numbers it draws. */
module Tasks {
  import opened Wrappers
  import opened Problems
  import opened Draws

  /** `generate_multiplication`: `b` from [1, 10), `a` from [1, 20), and a
      smaller `b` from [1, 6) when `a > 10`; the product is hidden. */
  function GenerateMultiplication(x: int, y: int, z: int): (t: Task)
    requires MultiplicationDraws(x, y, z)
    ensures FreshTask(t) && !Solved(t)
    ensures t.problem.kind == Multiplication && t.problem.hidden == C
    ensures t.problem.a == y
  {
    var b := if y > 10 then z else x;
    Task(Problem(Multiplication, C, y, b, y * b), None)
  }

  /** `generate_division`: divisor `b` and quotient `c` from [1, 10), the
      dividend `a = b * c`; the quotient is hidden. */
  function GenerateDivision(x: int, y: int): (t: Task)
    requires DivisionDraws(x, y)
    ensures FreshTask(t) && !Solved(t)
    ensures t.problem.kind == Division && t.problem.hidden == C
    ensures t.problem.b == x && t.problem.c == y
    ensures t.problem.a % t.problem.b == 0 && t.problem.a / t.problem.b == t.problem.c
  {
    var t := Task(Problem(Division, C, x * y, x, y), None);
    GeneratableFacts(t.problem);
    t
  }

  /** `generate_addition_subtraction`: the hidden slot and the kind are drawn
      first, then `a` and `b`. An addition with `a == 999` or a subtraction
      with `a == 1` asks for `randint(1, 1)` and raises. */
  function GenerateAdditionSubtraction(hidden: HiddenNumber, kind: ProblemType, x: int, y: int)
    : (r: Result<Task, RandError>)
    requires kind.Addition? || kind.Subtraction?
    requires KindDraws(kind, x, y, 0)
    ensures r.Err? <==> Raises(kind, x)
    ensures r.Err? ==> r.error == LowNotBelowHigh(1, 1)
    ensures r.Ok? ==> FreshTask(r.value) && !Solved(r.value)
    ensures r.Ok? ==> r.value.problem.kind == kind && r.value.problem.hidden == hidden
  {
    if kind.Addition? then
      var a := RandInt(1, 1000, x).value;
      var b :- RandInt(1, 1000 - a, y);
      Ok(Task(Problem(kind, hidden, a, b, a + b), None))
    else
      var a := RandInt(1, 1000, x).value;
      var b :- RandInt(1, a, y);
      Ok(Task(Problem(kind, hidden, a, b, a - b), None))
  }

  /** `generate_multiplication_division`: a multiplication or a division,
      as drawn, always asking for the result. */
  function GenerateMultiplicationDivision(kind: ProblemType, x: int, y: int, z: int): (t: Task)
    requires kind.Multiplication? || kind.Division?
    requires KindDraws(kind, x, y, z)
    ensures FreshTask(t) && !Solved(t)
    ensures t.problem.kind == kind && t.problem.hidden == C
  {
    if kind.Multiplication? then GenerateMultiplication(x, y, z) else GenerateDivision(x, y)
  }

  /** `generate_random_task`: a kind is drawn first; addition and subtraction
      both go to `generate_addition_subtraction`, which draws the kind again,
      so the first draw does not decide between the two. */
  function GenerateRandomTask(first: ProblemType, hidden: HiddenNumber, second: ProblemType,
                              x: int, y: int, z: int): (r: Result<Task, RandError>)
    requires first.Addition? || first.Subtraction? ==>
               (second.Addition? || second.Subtraction?) && KindDraws(second, x, y, 0)
    requires first.Multiplication? || first.Division? ==> KindDraws(first, x, y, z)
    ensures r.Err? <==> (first.Addition? || first.Subtraction?) && Raises(second, x)
    ensures r.Ok? ==> FreshTask(r.value) && !Solved(r.value)
    ensures r.Ok? && (first.Addition? || first.Subtraction?) ==> r.value.problem.kind == second
    ensures first.Multiplication? || first.Division? ==> r.Ok? && r.value.problem.kind == first
  {
    match first
    case Addition => GenerateAdditionSubtraction(hidden, second, x, y)
    case Subtraction => GenerateAdditionSubtraction(hidden, second, x, y)
    case Multiplication => Ok(GenerateMultiplication(x, y, z))
    case Division => Ok(GenerateDivision(x, y))
  }
}
