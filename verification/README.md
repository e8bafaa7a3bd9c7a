# Five-minute arithmetic drill: a Dafny model of its problem engine

The program shows the player one equation `a op b = c` at a time, with one of
the three numbers hidden. The player types a guess and presses Enter to get the
next equation, and the round is scored at the end. This project models the logic
beneath the window. That logic has three parts:

- **The problem value and its answer check.** A problem has a kind (addition,
  subtraction, multiplication or division) and three integers. It also names
  which slot (A, B or C) is hidden. `check(guess)` compares the guess with the
  hidden slot. A task pairs a problem with the guess typed so far.
- **The generators.** `generate_problem` lives in the game program. The task
  module has five `generate_*` functions. They draw bounded integers with
  numpy's `randint(low, high)`, which draws from `low <= x < high`. Then they
  build a problem whose relation holds exactly. Multiplication and division
  always hide the result. Addition and subtraction may hide any slot.
- **The session `State`.** It holds an append-only list of tasks and offers four
  operations: read the current (last) task, append a new task, overwrite the
  last task's guess, and compute the score `(correct, incorrect, total)`.

Files:

- `wrappers.dfy`: `Option` and `Result`.
- `problems.dfy`: the values both programs share: `HiddenNumber`,
  `ProblemType`, `Problem`, `Task`, `Check` and `Solved`. It also holds the
  problem properties: `Holds` (the arithmetic relation), `Solves`,
  `HiddenRule`, `InBounds` and `Generatable`, with the lemmas about them. In
  both source files the enums, the fields of `Problem` and `Task`, `check` and
  `solved` are identical. The task module's `Problem` is a frozen dataclass;
  the game's `Problem` is a plain mutable dataclass, but nothing mutates it.
  So one immutable datatype models both, and the rest is modelled once.
- `draws.dfy`: the randomness. Every drawn number is an argument to the
  generator. The `requires` clauses only constrain each number to the range of
  the `randint` call that draws it, in drawing order. `RandInt` also models the
  other half of numpy's contract: when `low >= high` the call raises
  `ValueError`. That case becomes an `Err` result.
- `tasks.dfy`: the task module's generators as pure functions.
- `minuten_mathe.dfy`: the game's `generate_problem` and the score functions.
  It also holds `State`, a class whose `tasks: seq<Task>` field its methods
  reassign.
- `variants.dfy`: a lemma that the two programs' generators build the same
  problem from the same draws. It also has a client round that checks the
  `State` contracts against a concrete four-task round.

Behaviour of the code worth knowing:

- A subtraction draws `b` from `[1, a)`, so its result is at least 1. It cannot
  be 0.
- An addition whose first draw is `a == 999` asks for `randint(1, 1)` and
  raises. So does a subtraction whose first draw is `a == 1`. The model gives
  `Err(LowNotBelowHigh(1, 1))` for both. For every other draw the generators
  succeed.
- The division problem `a : b = c` hides the quotient `c`.
- `stats` counts solved tasks over the whole list. Its denominator is
  `max(1, len - 1)`: 1 for a list of one task, and one less than the number of
  tasks once there are two or more tasks. So, once there are two or more
  tasks, `incorrect` is `-1` when every task, the last one included, has been
  answered correctly. It is never negative while the last task is unanswered.
- The game program has no idle, running or finished states, no fixed-batch mode
  and no stored generator mode. The only lifecycle is that the front end holds
  a `State` or none.

## Model

| member | source | states |
|---|---|---|
| `Problems.Check` | 5_minuten_mathe.py:41-47 | the guess is accepted exactly when it is present and equals the number in the hidden slot (A gives `a`, B gives `b`, C gives `c`); a missing guess is never accepted |
| `Problems.Solved` | 5_minuten_mathe.py:55-56 | a task is solved exactly when its stored guess equals the hidden number; a task without a guess is not solved |
| `Problems.CheckMeansSolves` | tasks.py:27-33 | for every generated problem, `check(v)` holds exactly when writing `v` into the hidden slot makes the equation true |
| `Problems.FreshTaskUnsolved` | tasks.py:36-42 | a task as generated, with no guess, is not solved; once it has guess `v`, it is solved exactly when `v` solves its equation |
| `Problems.GeneratableFacts` | 5_minuten_mathe.py:265-282 | every generated problem has all three numbers at least 1; an addition has `a <= 998` and `c <= 999`; a subtraction has `1 <= c <= 998`; a product is at most 95; a division has dividend at most 81, remainder 0 and quotient `c` |
| `Tasks.GenerateMultiplication` | tasks.py:53-64 | builds a fresh task with no guess: a multiplication with `c == a * b`, `1 <= a <= 19`, `1 <= b <= 9`, `a > 10` implying `b <= 5`, hidden slot C and `a` taken from the second draw |
| `Tasks.GenerateDivision` | tasks.py:67-76 | builds a fresh task with no guess: a division with divisor and quotient as drawn in `[1, 9]`, `a == b * c`, remainder 0 and hidden slot C |
| `Tasks.GenerateAdditionSubtraction` | tasks.py:79-96 | raises exactly for an addition with `a == 999` or a subtraction with `a == 1`, both as `randint(1, 1)`; otherwise builds a fresh task with the drawn kind and hidden slot whose relation and bounds hold |
| `Tasks.GenerateMultiplicationDivision` | tasks.py:99-104 | never raises; builds a fresh multiplication or division as drawn, always hiding slot C |
| `Tasks.GenerateRandomTask` | tasks.py:107-114 | raises only through the addition/subtraction path; otherwise gives a fresh task whose relation, bounds and hidden-slot rule hold; the kind is the first draw for multiplication and division, and the second draw for addition and subtraction |
| `MinutenMathe.GenerateProblem` | 5_minuten_mathe.py:259-284 | raises exactly for an addition with `a == 999` or a subtraction with `a == 1`; otherwise gives a problem of the drawn kind whose relation and bounds hold and which hides C for multiplication and division, or the drawn slot for addition and subtraction |
| `MinutenMathe.GenerateProblemOnto` | 5_minuten_mathe.py:265-282 | every problem satisfying the relation, the bounds and the hidden-slot rule is produced by some in-range draws, so `GenerateProblem`'s postcondition describes its range exactly |
| `MinutenMathe.CountSolved` | 5_minuten_mathe.py:86 | the number of solved tasks lies between 0 and the list length, and is 0 when no task has a guess |
| `MinutenMathe.StatsOf` | 5_minuten_mathe.py:84-88 | the total is `max(1, len - 1)`: 1 for at most one task and `len - 1` once there are two tasks; `correct` counts the solved tasks of the whole list; `correct + incorrect == total`; `incorrect >= -1` |
| `MinutenMathe.WithLastGuess` | 5_minuten_mathe.py:81-82 | setting the guess keeps the length, every earlier task and every problem, and puts `Some(g)` in the last guess |
| `MinutenMathe.CountSolvedConcat` | 5_minuten_mathe.py:86 | the solved count of a concatenation is the sum of the counts of its parts |
| `MinutenMathe.StatsAfterGuess` | 5_minuten_mathe.py:81-88 | submitting a guess leaves the total unchanged; `correct` becomes the count over the earlier tasks plus one when the guess passes the last problem's check |
| `MinutenMathe.LatestGuessWins` | 5_minuten_mathe.py:81-82 | submitting `g1` and then `g2` leaves the same list as submitting `g2` alone |
| `MinutenMathe.StatsAfterNewTask` | 5_minuten_mathe.py:78-79 | appending a fresh task leaves `correct` unchanged and makes the total the number of tasks before the append |
| `MinutenMathe.PendingLastTaskScoresNonNegative` | 5_minuten_mathe.py:84-88 | while the last task has no guess, `correct` counts only the earlier tasks and `incorrect >= 0` |
| `MinutenMathe.AllSolvedScoresMinusOne` | 5_minuten_mathe.py:84-88 | with two or more tasks all solved, the score is `(len, -1, len - 1)` |
| `MinutenMathe.State.constructor` | 5_minuten_mathe.py:73 | a state starts with exactly one task, holding the given generated problem and no guess |
| `MinutenMathe.State.Start` | 5_minuten_mathe.py:70-73 | `State()` gives a fresh, valid state with one unanswered task for the generated problem; it raises exactly when generating that problem raises |
| `MinutenMathe.State.CurrentTask` | 5_minuten_mathe.py:75-76 | the current task is the last one of the list, and its problem is a generated one |
| `MinutenMathe.State.NewTask` | 5_minuten_mathe.py:78-79 | appends exactly one task with no guess and leaves all earlier tasks unchanged; if the draw raises, the list is unchanged; the list stays non-empty and generated |
| `MinutenMathe.State.SubmitGuess` | 5_minuten_mathe.py:81-82 | the new list is the old one with only the last guess set to the submitted value |
| `MinutenMathe.State.Stats` | 5_minuten_mathe.py:84-88 | changes nothing and returns `StatsOf(tasks)`, so two calls with nothing between them give identical scores |
| `Variants.GeneratorsAgree` | 5_minuten_mathe.py:259-284 | for the same draws, `generate_problem` raises exactly when the task module's generator raises, and otherwise builds the same problem |

## Left out

- The window, fonts, theme, event loop, `main` and `draw_task` are left out. They are front-end plumbing.
- `write_result` is left out. It writes a YAML file under the home directory, named after the current time.
- `result_string` and the operator symbols are left out. They are presentation only.
- Timing is left out: `start_time`, `game_time`, `tick` and the `GameOver` exception. These use floating-point wall-clock time. In the source, the default for `start_time` is evaluated once, when the class is defined, so every `State()` shares that one start time. `game_time` is 25 seconds.
- The distribution of the random draws is left out. The drawn numbers, kinds and hidden slots are arguments constrained only by their ranges.
- The crash is left out. A raising draw is returned as `Err`, and the model stops there. In the source, the `ValueError` propagates out of the frame loop and ends the program.
- Aliasing is left out. `current_task` returns the same task object the list holds, and `submit_guess` mutates it in place. In the model, tasks are values, and `SubmitGuess` replaces the last element of the list. The front end reads only the problem of the task it holds, and the problem never changes.
- `MinutenMathe.State.constructor` requires a generated problem. The raising case of `State()` is modelled by `State.Start`.
