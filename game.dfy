/** The game object: its fields are updated in place by the frame loop's
    calls, and each method is proved to follow its transition in GameRules. */
module GameObject {
  import opened Grid
  import opened RobotMotion
  import opened GameRules

  class Game {
    var robot: Robot
    var treasures: set<Cell>
    var score: nat
    var commands: seq<Command>
    var executing: bool
    var commandIndex: nat
    /** Milliseconds accumulated since the last replayed command. */
    var executionTimer: nat

    /** The game's state as a value. */
    function Snapshot(): GameState
      reads this, robot
    {
      GameState(robot.Snapshot(), treasures, score, commands, executing, commandIndex, executionTimer)
    }

    predicate Valid()
      reads this, robot
    {
      Inv(Snapshot())
    }

    constructor ()
      ensures Valid() && fresh(robot)
      ensures FreshTreasures(treasures, Home.At())
      ensures Snapshot() == Initial(treasures)
    {
      robot := new Robot(0, 0);
      treasures := {};
      score := 0;
      commands := [];
      executing := false;
      commandIndex := 0;
      executionTimer := 0;
      new;
      GenerateTreasures();
    }

    /** Places five treasures on distinct free cells away from the robot.
        Each cell is a choice among the cells the random draws would accept. */
    method GenerateTreasures()
      modifies this`treasures
      ensures FreshTreasures(treasures, robot.Snapshot().At())
    {
      treasures := {};
      for i := 0 to TreasureCount
        invariant |treasures| == i
        invariant robot.Snapshot().At() !in treasures
        invariant forall c | c in treasures :: InGrid(c)
      {
        var here := (robot.x, robot.y);
        FreeCellExists(treasures, here);
        var c :| c in FreeCells(treasures, here);
        treasures := treasures + {c};
      }
    }

    method CheckTreasureCollection()
      modifies this
      ensures Snapshot() == Collect(old(Snapshot()), treasures)
      ensures Wins(old(Snapshot())) ==> fresh(robot) && FreshTreasures(treasures, Home.At())
      ensures !Wins(old(Snapshot())) ==> robot == old(robot)
    {
      var here := (robot.x, robot.y);
      if here in treasures {
        treasures := treasures - {here};
        score := score + 1;
        if score == TreasureCount {
          ShowVictory();
        }
      }
    }

    /** The victory banner is left out; what remains is the reset. */
    method ShowVictory()
      modifies this
      ensures fresh(robot) && FreshTreasures(treasures, Home.At())
      ensures Snapshot() == Reset(old(Snapshot()), treasures)
    {
      ResetGame();
    }

    method ResetGame()
      modifies this
      ensures fresh(robot) && FreshTreasures(treasures, Home.At())
      ensures Snapshot() == Reset(old(Snapshot()), treasures)
    {
      robot := new Robot(0, 0);
      score := 0;
      commands := [];
      executing := false;
      commandIndex := 0;
      GenerateTreasures();
    }

    /** One frame of replay, `dt` being the milliseconds since the last frame. */
    method ExecuteCommands(dt: nat)
      requires Valid()
      modifies this, robot
      ensures Valid()
      ensures Snapshot() == Tick(old(Snapshot()), dt, treasures)
    {
      if !executing || commands == [] {
        return;
      }
      executionTimer := executionTimer + dt;
      if executionTimer >= StepInterval {
        if commandIndex < |commands| {
          var command := commands[commandIndex];
          match command {
            case Forward => robot.MoveForward();
            case Left => robot.TurnLeft();
            case Right => robot.TurnRight();
          }
          CheckTreasureCollection();
          commandIndex := commandIndex + 1;
          executionTimer := 0;
        } else {
          executing := false;
          commandIndex := 0;
        }
      }
    }

    method HandleInput(e: Event)
      requires Valid()
      modifies this
      ensures Valid()
      ensures Snapshot() == Input(old(Snapshot()), e, treasures)
    {
      if e.KeyDown? && !executing {
        match e.key {
          case Space => commands := commands + [Forward];
          case LeftArrow => commands := commands + [Left];
          case RightArrow => commands := commands + [Right];
          case Return =>
            if commands != [] {
              executing := true;
              commandIndex := 0;
              executionTimer := 0;
            }
          case KeyR => ResetGame();
          case Backspace =>
            if commands != [] {
              commands := commands[..|commands| - 1];
            }
          case OtherKey =>
        }
      }
    }
  }
}
