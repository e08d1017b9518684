/** The game's simulation state as a value, and each of its transitions as a
    function: treasure collection, reset, one replay tick and one input event.
    The class in module GameObject is proved to follow these functions. */
module GameRules {
  import opened Grid
  import opened RobotMotion

  /** Treasures placed per round; collecting all of them wins. */
  const TreasureCount := 5
  /** Milliseconds between two replayed commands. */
  const StepInterval := 800

  /** The tokens of the player's program. */
  datatype Command = Forward | Left | Right

  /** The keys the game reacts to; every other key is OtherKey. */
  datatype Key = Space | LeftArrow | RightArrow | Return | KeyR | Backspace | OtherKey

  /** A polled event: a key press, or anything else (release, mouse, quit). */
  datatype Event = KeyDown(key: Key) | OtherEvent

  /** Where a new robot stands, facing right. */
  const Home := Pose(0, 0, FacingRight)

  datatype GameState = GameState(
    pose: Pose,
    treasures: set<Cell>,
    score: nat,
    commands: seq<Command>,
    executing: bool,
    index: nat,
    timer: nat)

  /** What a finished treasure generation guarantees for a robot at `robotCell`. */
  predicate FreshTreasures(t: set<Cell>, robotCell: Cell) {
    |t| == TreasureCount && robotCell !in t && forall c | c in t :: InGrid(c)
  }

  /** The cells treasure generation may still pick: on the grid, not yet a
      treasure and not the robot's cell. */
  function FreeCells(taken: set<Cell>, robotCell: Cell): set<Cell> {
    set x: int, y: int | 0 <= x < GridWidth && 0 <= y < GridHeight && (x, y) !in taken && (x, y) != robotCell :: (x, y)
  }

  lemma {:induction false} SubsetSize<T>(a: set<T>, b: set<T>)
    requires a <= b
    ensures |a| <= |b|
  {
    if a != {} {
      var e :| e in a;
      SubsetSize(a - {e}, b - {e});
    }
  }

  /** While fewer than five treasures are placed, some cell is still free,
      so each draw of the generation loop can succeed. */
  lemma FreeCellExists(taken: set<Cell>, robotCell: Cell)
    requires |taken| < TreasureCount
    ensures FreeCells(taken, robotCell) != {}
  {
    var row: set<Cell> := {(0, 0), (1, 0), (2, 0), (3, 0), (4, 0), (5, 0)};
    var blocked := taken + {robotCell};
    assert |row| == 6;
    assert |blocked| <= |taken| + 1;
    if row <= blocked {
      SubsetSize(row, blocked);
      assert false;
    }
    var c :| c in row && c !in blocked;
    assert c in FreeCells(taken, robotCell);
  }

  /** The state right after start-up, with generated treasures `t`. */
  function Initial(t: set<Cell>): (s: GameState)
    ensures FreshTreasures(t, Home.At()) ==> Inv(s)
  {
    GameState(Home, t, 0, [], false, 0, 0)
  }

  /** Everything the game keeps true between frames, except that the robot
      may be standing on a treasure that has not been collected yet. */
  predicate Settled(s: GameState) {
    && PoseOk(s.pose)
    && (forall c | c in s.treasures :: InGrid(c))
    && s.treasures != {}
    && s.score + |s.treasures| == TreasureCount
    && (s.executing ==> s.commands != [] && s.index <= |s.commands|)
    && (!s.executing ==> s.index <= 1)
  }

  /** The invariant of the game between frames. */
  predicate Inv(s: GameState) {
    Settled(s) && s.pose.At() !in s.treasures
  }

  /** The robot stands on the last remaining treasure. */
  predicate Wins(s: GameState) {
    s.pose.At() in s.treasures && s.score + 1 == TreasureCount
  }

  /** Full reset with newly generated treasures `drawn`. The replay timer is
      not touched. */
  function Reset(s: GameState, drawn: set<Cell>): (r: GameState)
    ensures FreshTreasures(drawn, Home.At()) ==> Inv(r)
    ensures !r.executing && r.commands == [] && r.score == 0 && r.pose == Home && r.index == 0
    ensures r.treasures == drawn && r.timer == s.timer
  {
    s.(pose := Home, treasures := drawn, score := 0, commands := [], executing := false, index := 0)
  }

  /** Collect the treasure under the robot, if any; collecting the last one
      wins the round, which resets the game with treasures `drawn`. */
  function Collect(s: GameState, drawn: set<Cell>): (r: GameState)
    ensures s.pose.At() !in s.treasures ==> r == s
    ensures Settled(s) && (Wins(s) ==> FreshTreasures(drawn, Home.At())) ==> Inv(r)
  {
    var here := s.pose.At();
    if here in s.treasures then
      var taken := s.(treasures := s.treasures - {here}, score := s.score + 1);
      if taken.score == TreasureCount then Reset(taken, drawn) else taken
    else
      s
  }

  /** Landing on a treasure takes exactly that treasure and adds one to the score. */
  lemma CollectTakesExactlyOne(s: GameState, drawn: set<Cell>)
    requires s.pose.At() in s.treasures && !Wins(s)
    ensures var r := Collect(s, drawn);
      && r.treasures + {s.pose.At()} == s.treasures
      && s.pose.At() !in r.treasures
      && |r.treasures| == |s.treasures| - 1
      && r.score == s.score + 1
      && r == s.(treasures := r.treasures, score := r.score)
  {
  }

  /** Landing again on a cell already collected has no further effect. */
  lemma CollectIsIdempotent(s: GameState, drawn: set<Cell>)
    requires Wins(s) ==> FreshTreasures(drawn, Home.At())
    ensures Collect(Collect(s, drawn), drawn) == Collect(s, drawn)
  {
  }

  /** Collecting the last treasure brings the whole game back to its start. */
  lemma WinningResets(s: GameState, drawn: set<Cell>)
    requires Wins(s)
    ensures Collect(s, drawn) == Reset(s, drawn)
  {
  }

  /** The robot motion a command stands for. */
  function Apply(p: Pose, c: Command): (r: Pose)
    ensures PoseOk(p) ==> PoseOk(r)
  {
    match c
    case Forward => Advanced(p)
    case Left => TurnedLeft(p)
    case Right => TurnedRight(p)
  }

  /** The pose reached by applying the commands one after the other. */
  function Run(p: Pose, cs: seq<Command>): (r: Pose)
    ensures PoseOk(p) ==> PoseOk(r)
    decreases |cs|
  {
    if cs == [] then p else Run(Apply(p, cs[0]), cs[1..])
  }

  /** Replaying FORWARD, FORWARD, RIGHT, FORWARD from the start cell facing
      right ends on column 2, row 1, facing down. */
  lemma ExampleProgram()
    ensures Run(Home, [Forward, Forward, Right, Forward]) == Pose(2, 1, FacingDown)
  {
  }

  /** A tick that replays the last treasure's cell: it wins the round. */
  predicate TickWins(s: GameState, dt: nat) {
    && s.executing
    && s.commands != []
    && s.timer + dt >= StepInterval
    && s.index < |s.commands|
    && Wins(s.(pose := Apply(s.pose, s.commands[s.index])))
  }

  /** One frame of replay after `dt` milliseconds: at most one command is
      applied, once the accumulated time reaches the step interval. */
  function Tick(s: GameState, dt: nat, drawn: set<Cell>): (r: GameState)
    ensures Inv(s) && (TickWins(s, dt) ==> FreshTreasures(drawn, Home.At())) ==> Inv(r)
    ensures !s.executing || s.commands == [] ==> r == s
    ensures s.executing && s.commands != [] && s.timer + dt < StepInterval ==> r == s.(timer := s.timer + dt)
  {
    if !s.executing || s.commands == [] then
      s
    else
      var timer := s.timer + dt;
      if timer >= StepInterval then
        if s.index < |s.commands| then
          var moved := s.(pose := Apply(s.pose, s.commands[s.index]));
          var checked := Collect(moved, drawn);
          checked.(index := checked.index + 1, timer := 0)
        else
          s.(executing := false, index := 0, timer := timer)
      else
        s.(timer := timer)
  }

  /** A step applies exactly the command at the cursor, then moves the cursor
      on and restarts the timer; the program itself is untouched. */
  lemma TickAppliesOneCommand(s: GameState, dt: nat, drawn: set<Cell>)
    requires s.executing && s.timer + dt >= StepInterval && s.index < |s.commands|
    requires !TickWins(s, dt)
    ensures var r := Tick(s, dt, drawn);
      && r.pose == Apply(s.pose, s.commands[s.index])
      && r.index == s.index + 1 && r.timer == 0
      && r.commands == s.commands && r.executing
      && r.treasures == s.treasures - {r.pose.At()}
      && r.score == s.score + (if r.pose.At() in s.treasures then 1 else 0)
  {
  }

  /** The quirk of the victory path: the reset happens inside the step, and
      the step then still moves the cursor of the new, idle, empty program to 1. */
  lemma WinningTickLeavesCursorOne(s: GameState, dt: nat, drawn: set<Cell>)
    requires TickWins(s, dt)
    ensures var r := Tick(s, dt, drawn);
      && !r.executing && r.commands == [] && r.score == 0 && r.pose == Home
      && r.treasures == drawn && r.index == 1 && r.timer == 0
  {
  }

  /** While a program runs, it never changes, except that winning empties it. */
  lemma RunningProgramIsFrozen(s: GameState, dt: nat, drawn: set<Cell>)
    requires s.executing
    ensures var r := Tick(s, dt, drawn);
      r.commands == s.commands || (TickWins(s, dt) && r.commands == [])
  {
  }

  /** Replay stops exactly on a tick where the interval has elapsed and the
      cursor is past the last command, or when the round is won. Stopping at
      the end only clears the flag and the cursor; the timer keeps its sum. */
  lemma ReplayStopsOnlyAtEnd(s: GameState, dt: nat, drawn: set<Cell>)
    requires s.executing && s.commands != []
    ensures var r := Tick(s, dt, drawn);
      && (!r.executing <==> s.timer + dt >= StepInterval && (s.index >= |s.commands| || TickWins(s, dt)))
      && (s.timer + dt >= StepInterval && s.index >= |s.commands| ==>
            r == s.(executing := false, index := 0, timer := s.timer + dt))
  {
  }

  /** Ticks with the given frame times, one after the other. */
  function TickAll(s: GameState, dts: seq<nat>, drawn: set<Cell>): GameState
    decreases |dts|
  {
    if dts == [] then s else TickAll(Tick(s, dts[0], drawn), dts[1..], drawn)
  }

  /** An idle game stays as it is, however much time passes. */
  lemma {:induction false} IdleStaysIdle(s: GameState, dts: seq<nat>, drawn: set<Cell>)
    requires !s.executing
    ensures TickAll(s, dts, drawn) == s
    decreases |dts|
  {
    if dts != [] {
      IdleStaysIdle(Tick(s, dts[0], drawn), dts[1..], drawn);
    }
  }

  /** One tick of a running replay that is still running afterwards and did
      not win: either only time passed, or exactly the command at the cursor
      was applied and the cursor moved on by one. */
  lemma RunningTickStepsAtMostOnce(s: GameState, dt: nat, drawn: set<Cell>)
    requires s.executing && s.index <= |s.commands|
    requires Tick(s, dt, drawn).executing && !TickWins(s, dt)
    ensures var r := Tick(s, dt, drawn);
      && r.commands == s.commands
      && ((r.index == s.index && r.pose == s.pose)
          || (s.index < |s.commands| && r.index == s.index + 1 && r.pose == Apply(s.pose, s.commands[s.index])))
  {
  }

  /** Whatever the frame times, as long as the round is not won and the replay
      has not stopped, the cursor only moves forward within the program, the
      program stays as it is, and the robot stands where the commands before
      the cursor take it. */
  lemma {:induction false} ReplayFollowsProgram(s: GameState, dts: seq<nat>, drawn: set<Cell>)
    requires s.executing && s.index <= |s.commands|
    requires TickAll(s, dts, drawn).executing
    ensures var r := TickAll(s, dts, drawn);
      && r.commands == s.commands
      && s.index <= r.index <= |s.commands|
      && r.pose == Run(s.pose, s.commands[s.index..r.index])
    decreases |dts|
  {
    var cs := s.commands;
    if dts == [] {
      assert cs[s.index..s.index] == [];
    } else {
      var next := Tick(s, dts[0], drawn);
      if TickWins(s, dts[0]) {
        WinningTickLeavesCursorOne(s, dts[0], drawn);
        IdleStaysIdle(next, dts[1..], drawn);
        assert false;
      }
      if !next.executing {
        IdleStaysIdle(next, dts[1..], drawn);
        assert false;
      }
      RunningTickStepsAtMostOnce(s, dts[0], drawn);
      ReplayFollowsProgram(next, dts[1..], drawn);
      var r := TickAll(next, dts[1..], drawn);
      if next.index == s.index + 1 {
        var run := cs[s.index..r.index];
        assert run[0] == cs[s.index];
        assert run[1..] == cs[s.index + 1..r.index];
      }
    }
  }

  /** A replay started from the first command that stops without winning the
      round stops only after the whole program: the robot stands where the
      whole program takes it, idle, with the cursor back at 0. */
  lemma ReplayEndsAfterWholeProgram(s: GameState, dts: seq<nat>, dt: nat, drawn: set<Cell>)
    requires s.executing && s.commands != [] && s.index == 0
    requires TickAll(s, dts, drawn).executing
    requires !Tick(TickAll(s, dts, drawn), dt, drawn).executing
    requires !TickWins(TickAll(s, dts, drawn), dt)
    ensures var r := Tick(TickAll(s, dts, drawn), dt, drawn);
      && r.index == 0
      && r.commands == s.commands
      && r.pose == Run(s.pose, s.commands)
  {
    ReplayFollowsProgram(s, dts, drawn);
    var last := TickAll(s, dts, drawn);
    ReplayStopsOnlyAtEnd(last, dt, drawn);
    assert last.index == |s.commands|;
    assert s.commands[0..|s.commands|] == s.commands;
  }

  /** With frames at least one step interval long, every tick replays one
      command until the round is won or the program ends. */
  lemma {:induction false} LongFramesStepEveryTick(s: GameState, dts: seq<nat>, drawn: set<Cell>)
    requires s.executing && s.index + |dts| <= |s.commands|
    requires forall i | 0 <= i < |dts| :: dts[i] >= StepInterval
    requires TickAll(s, dts, drawn).executing
    ensures TickAll(s, dts, drawn).index == s.index + |dts|
    decreases |dts|
  {
    if dts != [] {
      var next := Tick(s, dts[0], drawn);
      if TickWins(s, dts[0]) {
        IdleStaysIdle(next, dts[1..], drawn);
        assert false;
      }
      TickAppliesOneCommand(s, dts[0], drawn);
      LongFramesStepEveryTick(next, dts[1..], drawn);
    }
  }

  /** Corollary for frames at least one step interval long: a program of n
      commands ends on tick n + 1, unless the round was won on the way. */
  lemma ReplayRunsWholeProgram(s: GameState, dts: seq<nat>, dt: nat, drawn: set<Cell>)
    requires s.executing && s.commands != [] && s.index == 0
    requires |dts| == |s.commands|
    requires forall i | 0 <= i < |dts| :: dts[i] >= StepInterval
    requires dt >= StepInterval
    requires TickAll(s, dts, drawn).executing
    ensures var r := Tick(TickAll(s, dts, drawn), dt, drawn);
      && !r.executing && r.index == 0
      && r.commands == s.commands
      && r.pose == Run(s.pose, s.commands)
  {
    LongFramesStepEveryTick(s, dts, drawn);
    ReplayFollowsProgram(s, dts, drawn);
    assert s.commands[0..|dts|] == s.commands;
  }

  /** One polled event. Every key is ignored while a program runs; when idle,
      the arrow keys and SPACE append a token, RETURN starts a non-empty
      program, R resets the game with treasures `drawn`, and BACKSPACE drops
      the last token of a non-empty program. */
  function Input(s: GameState, e: Event, drawn: set<Cell>): (r: GameState)
    ensures s.executing || !e.KeyDown? ==> r == s
    ensures Inv(s) && (e == KeyDown(KeyR) && !s.executing ==> FreshTreasures(drawn, Home.At())) ==> Inv(r)
    ensures !s.executing && e == KeyDown(KeyR) ==> r == Reset(s, drawn)
    ensures e == KeyDown(OtherKey) ==> r == s
  {
    if e.KeyDown? && !s.executing then
      match e.key
      case Space | LeftArrow | RightArrow => s.(commands := s.commands + [TokenOf(e.key)])
      case Return => if s.commands != [] then s.(executing := true, index := 0, timer := 0) else s
      case KeyR => Reset(s, drawn)
      case Backspace => if s.commands != [] then s.(commands := s.commands[..|s.commands| - 1]) else s
      case OtherKey => s
    else
      s
  }

  /** The token a key adds to the program, if any. */
  function TokenOf(k: Key): (c: Command)
    requires k == Space || k == LeftArrow || k == RightArrow
  {
    match k
    case Space => Forward
    case LeftArrow => Left
    case RightArrow => Right
  }

  /** While idle, SPACE and the arrow keys append exactly one token at the end
      of the program and change nothing else. */
  lemma EditKeyAppendsOneToken(s: GameState, k: Key, drawn: set<Cell>)
    requires !s.executing && (k == Space || k == LeftArrow || k == RightArrow)
    ensures var r := Input(s, KeyDown(k), drawn);
      && |r.commands| == |s.commands| + 1
      && r.commands[..|s.commands|] == s.commands
      && r.commands[|s.commands|] == TokenOf(k)
      && r == s.(commands := r.commands)
  {
  }

  /** While idle, BACKSPACE drops the last token of a non-empty program and
      leaves an empty one alone. */
  lemma BackspaceUndoesLastToken(s: GameState, drawn: set<Cell>)
    requires !s.executing
    ensures var r := Input(s, KeyDown(Backspace), drawn);
      && (s.commands == [] ==> r == s)
      && (s.commands != [] ==> r.commands + [s.commands[|s.commands| - 1]] == s.commands && r == s.(commands := r.commands))
  {
  }

  /** Appending a token and then pressing BACKSPACE gives back the program. */
  lemma BackspaceUndoesAppend(s: GameState, k: Key, drawn: set<Cell>)
    requires !s.executing && (k == Space || k == LeftArrow || k == RightArrow)
    ensures Input(Input(s, KeyDown(k), drawn), KeyDown(Backspace), drawn) == s
  {
    var r := Input(s, KeyDown(k), drawn);
    assert r.commands[..|r.commands| - 1] == s.commands;
  }

  /** RETURN starts replay exactly when the game is idle with a non-empty
      program, from the first command with a fresh timer. */
  lemma ReturnStartsOnlyNonEmptyProgram(s: GameState, drawn: set<Cell>)
    requires !s.executing
    ensures var r := Input(s, KeyDown(Return), drawn);
      && (r.executing <==> s.commands != [])
      && (r.executing ==> r.index == 0 && r.timer == 0)
      && r == s.(executing := r.executing, index := r.index, timer := r.timer)
      && (s.commands == [] ==> r == s)
  {
  }
}
