/** The value model shared by both programs: the hidden slot, the problem kind,
    the problem `a op b = c` with one slot hidden, and a task pairing a problem
    with the player's guess. Both programs give these the same fields and the
    same `check` and `solved`; one of them declares its problem frozen, the
    other leaves it mutable but never mutates it, so a datatype models both. */
module Problems {
  import opened Wrappers

  /** Which of the three numbers of `a op b = c` is hidden from the player. */
  datatype HiddenNumber = A | B | C

  datatype ProblemType = Addition | Subtraction | Multiplication | Division

  /** An immutable problem `a op b = c`; `hidden` names the slot to be guessed. */
  datatype Problem = Problem(kind: ProblemType, hidden: HiddenNumber, a: int, b: int, c: int) {

    /** The number standing in slot `s`. */
    function Slot(s: HiddenNumber): int {
      match s
      case A => a
      case B => b
      case C => c
    }

    /** This problem with the hidden slot replaced by `v`. */
    function Fill(v: int): Problem {
      match hidden
      case A => this.(a := v)
      case B => this.(b := v)
      case C => this.(c := v)
    }
  }

  /** A problem and the guess submitted for it so far (none yet: `None`). */
  datatype Task = Task(problem: Problem, guess: Option<int>)

  /** `Problem.check`: the guess is correct when it equals the hidden slot.
      A missing guess compares unequal to every integer. */
  function Check(p: Problem, guess: Option<int>): (ok: bool)
    ensures ok ==> guess.Some?
    ensures ok <==> guess == Some(p.Slot(p.hidden))
  {
    match p.hidden
    case A => guess == Some(p.a)
    case B => guess == Some(p.b)
    case C => guess == Some(p.c)
  }

  /** `Task.solved`: the stored guess passes the problem's check. */
  function Solved(t: Task): (r: bool)
    ensures t.guess == None ==> !r
    ensures r <==> t.guess == Some(t.problem.Slot(t.problem.hidden))
  {
    Check(t.problem, t.guess)
  }

  /** The arithmetic relation the four kinds of problem stand for; a division
      `a : b = c` holds when `a == b * c`. */
  predicate Holds(p: Problem) {
    match p.kind
    case Addition => p.a + p.b == p.c
    case Subtraction => p.a - p.b == p.c
    case Multiplication => p.a * p.b == p.c
    case Division => p.a == p.b * p.c
  }

  /** `v` written into the hidden slot makes the equation true. */
  predicate Solves(p: Problem, v: int) {
    Holds(p.Fill(v))
  }

  /** Multiplication and division always ask for the result. */
  predicate HiddenRule(p: Problem) {
    (p.kind.Multiplication? || p.kind.Division?) ==> p.hidden == C
  }

  /** The ranges the generators draw from, per kind. */
  predicate InBounds(p: Problem) {
    match p.kind
    case Addition => 1 <= p.a && 1 <= p.b && p.c <= 999
    case Subtraction => 1 <= p.b < p.a <= 999
    case Multiplication => 1 <= p.a <= 19 && 1 <= p.b <= 9 && (p.a > 10 ==> p.b <= 5)
    case Division => 1 <= p.b <= 9 && 1 <= p.c <= 9
  }

  /** Everything a generator guarantees of the problem it builds. */
  predicate Generatable(p: Problem) {
    Holds(p) && HiddenRule(p) && InBounds(p)
  }

  /** A task as a generator returns it: a generated problem, no guess yet. */
  predicate FreshTask(t: Task) {
    Generatable(t.problem) && t.guess == None
  }

  /** A freshly generated task is never solved. */
  lemma FreshTaskUnsolved(t: Task)
    requires FreshTask(t)
    ensures !Solved(t)
    ensures forall v :: Solved(t.(guess := Some(v))) <==> Solves(t.problem, v)
  {
    forall v ensures Solved(t.(guess := Some(v))) <==> Solves(t.problem, v) {
      CheckMeansSolves(t.problem, v);
    }
  }

  /** The numbers every generated problem carries: all three slots are
      positive, and each kind stays within its display range. */
  lemma GeneratableFacts(p: Problem)
    requires Generatable(p)
    ensures 1 <= p.a && 1 <= p.b && 1 <= p.c
    ensures p.kind.Addition? ==> p.a <= 998 && 2 <= p.c <= 999
    ensures p.kind.Subtraction? ==> 1 <= p.c <= 998
    ensures p.kind.Multiplication? ==> p.c <= 95
    ensures p.kind.Division? ==> p.a <= 81 && p.a % p.b == 0 && p.a / p.b == p.c
  {
    match p.kind
    case Addition =>
    case Subtraction =>
    case Multiplication =>
      if p.a > 10 {
        MulBound(p.a, 19, p.b, 5);
      } else {
        MulBound(p.a, 10, p.b, 9);
      }
      MulBound(1, p.a, 1, p.b);
    case Division =>
      MulBound(p.b, 9, p.c, 9);
      MulBound(1, p.b, 1, p.c);
      ExactQuotient(p.a, p.b, p.c);
  }

  /** For a generated problem, `check` accepts exactly the numbers that make
      the equation true when written into the hidden slot. */
  lemma CheckMeansSolves(p: Problem, v: int)
    requires Generatable(p)
    ensures Check(p, Some(v)) <==> Solves(p, v)
  {
    if p.kind.Division? && Solves(p, v) {
      assert p.b * v == p.b * p.c;
      CancelFactor(p.b, v, p.c);
    }
  }

  lemma MulBound(x: int, xMax: int, y: int, yMax: int)
    requires 0 <= x <= xMax && 0 <= y <= yMax
    ensures x * y <= xMax * yMax
  {
    calc {
      x * y;
    <= { MulMono(x, y, yMax); }
      x * yMax;
    <= { MulMono(yMax, x, xMax); }
      xMax * yMax;
    }
  }

  lemma MulMono(k: int, x: int, y: int)
    requires 0 <= k && x <= y
    ensures k * x <= k * y
  {
    assert k * y - k * x == k * (y - x);
  }

  lemma CancelFactor(k: int, x: int, y: int)
    requires k >= 1 && k * x == k * y
    ensures x == y
  {
    if x < y {
      assert k * (x + 1) == k * x + k;
      MulMono(k, x + 1, y);
    } else if y < x {
      assert k * (y + 1) == k * y + k;
      MulMono(k, y + 1, x);
    }
  }

  lemma ExactQuotient(a: int, b: int, c: int)
    requires b >= 1 && a == b * c
    ensures a % b == 0 && a / b == c
  {
    var q, r := a / b, a % b;
    assert a == b * q + r && 0 <= r < b;
    assert b * (c - q) == r;
    if c - q >= 1 {
      MulMono(b, 1, c - q);
    } else if c - q <= -1 {
      MulMono(b, c - q, -1);
    }
  }
}
