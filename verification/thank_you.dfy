/** The reflex game on the thank-you page (components/ThankYou.tsx): a
    30-second round in which the visitor clicks a target that jumps around a
    10 x 6 grid, with a best score kept across visits. The clock
    (`Date.now`), the random source (`Math.random`), `Number` and storage are
    inputs; one `Tick` is one firing of the 100 ms interval. */
module ThankYou {
  import opened Wrappers
  import Text

  const GameDurationMs := 30000
  const GridCols := 10
  const GridRows := 6
  const GridCells := GridCols * GridRows

  datatype Phase = Idle | Running | Finished

  /** The component state, plus the start time captured by the running
      countdown interval (`None` when no interval is live). The best score is
      a number read back from storage, so it need not be a whole number. */
  datatype Game = Game(
    phase: Phase,
    score: nat,
    best: real,
    timeLeftMs: int,
    target: int,
    seed: nat,
    interval: Option<int>)

  /** The game state keeps: a target on the grid, a countdown within the
      round, a live interval exactly while running, and a finished phase
      exactly when the countdown has run out. */
  predicate Valid(g: Game) {
    0 <= g.target < GridCells
    && 0 <= g.timeLeftMs <= GameDurationMs
    && (g.interval.Some? <==> g.phase == Running)
    && (g.phase == Finished <==> g.timeLeftMs == 0)
  }

  /** `Number(stored)`: a finite number, or NaN/Infinity. */
  datatype JsNumber = Finite(value: real) | NonFinite

  /** The best score read on mount: missing, empty, non-finite or an
      unreadable storage all give 0. */
  function LoadBest(stored: Option<string>, storageFails: bool, toNumber: string -> JsNumber): (b: real)
    ensures storageFails || stored == None || stored == Some("") ==> b == 0.0
    ensures !storageFails && stored.Some? && stored.value != "" && toNumber(stored.value).Finite? ==>
      b == toNumber(stored.value).value
    ensures !storageFails && stored.Some? && toNumber(stored.value).NonFinite? ==> b == 0.0
  {
    if storageFails then 0.0
    else match stored
      case None => 0.0
      case Some(s) =>
        if s == "" then 0.0
        else match toNumber(s)
          case Finite(v) => v
          case NonFinite => 0.0
  }

  /** The page as first shown. */
  function Initial(best: real): (g: Game)
    ensures Valid(g) && g.phase == Idle
    ensures g.timeLeftMs == GameDurationMs && g.score == 0 && g.best == best
    ensures g.interval == None && g.target == 0 && g.seed == 0
  {
    Game(Idle, 0, best, GameDurationMs, 0, 0, None)
  }

  /** `moveTarget`: `Math.floor(Math.random() * GRID_CELLS)` for a random `u`
      in [0, 1), and a fresh key for the target. */
  function MoveTarget(g: Game, u: real): (r: Game)
    requires 0.0 <= u < 1.0
    ensures 0 <= r.target < GridCells
    ensures r.seed == g.seed + 1
    ensures r == g.(target := r.target, seed := r.seed)
  {
    var t := (u * GridCells as real).Floor;
    assert t < GridCells by {
      assert u * GridCells as real < GridCells as real;
    }
    g.(target := t, seed := g.seed + 1)
  }

  /** `startGame` as the component behaves: the state is reset, but when the
      game is already running ("Restart") the phase does not change, so the
      countdown effect is not re-run and the old interval keeps its start
      time. */
  function StartAsWritten(g: Game, now: int, u: real): (r: Game)
    requires 0.0 <= u < 1.0
    ensures r.phase == Running && r.score == 0 && r.timeLeftMs == GameDurationMs
    ensures g.phase == Running ==> r.interval == g.interval
    ensures g.phase != Running ==> r.interval == Some(now)
    ensures r.best == g.best
    ensures Valid(g) ==> Valid(r)
  {
    var interval := if g.phase == Running then g.interval else Some(now);
    MoveTarget(g.(phase := Running, score := 0, timeLeftMs := GameDurationMs, interval := interval), u)
  }

  /** `startGame` as intended: from any phase, a new round with score 0, the
      full 30 seconds and a countdown measured from now. */
  function StartGame(g: Game, now: int, u: real): (r: Game)
    requires 0.0 <= u < 1.0
    ensures r.phase == Running && r.score == 0 && r.timeLeftMs == GameDurationMs
    ensures r.interval == Some(now) && r.best == g.best
  {
    MoveTarget(g.(phase := Running, score := 0, timeLeftMs := GameDurationMs, interval := Some(now)), u)
  }

  /** `handleHit`: one point and a new target while running, nothing
      otherwise. */
  function HandleHit(g: Game, u: real): (r: Game)
    requires 0.0 <= u < 1.0
    ensures g.phase == Running ==> r.score == g.score + 1 && r.phase == Running
    ensures g.phase != Running ==> r == g
    ensures r.best == g.best && r.timeLeftMs == g.timeLeftMs && r.interval == g.interval
  {
    if g.phase != Running then g else MoveTarget(g.(score := g.score + 1), u)
  }

  /** The countdown after `elapsed` milliseconds, clamped at 0. */
  function Remaining(elapsed: int): (r: int)
    ensures r >= 0
    ensures elapsed >= 0 ==> r <= GameDurationMs
    ensures r == 0 <==> elapsed >= GameDurationMs
    ensures r > 0 ==> r + elapsed == GameDurationMs
  {
    if GameDurationMs - elapsed < 0 then 0 else GameDurationMs - elapsed
  }

  /** The countdown never goes up as time passes. */
  lemma RemainingIsMonotone(e1: int, e2: int)
    requires e1 <= e2
    ensures Remaining(e2) <= Remaining(e1)
  {
  }

  /** The best-score effect: a finished round with a higher score replaces the
      best. */
  function RecordBest(g: Game): (r: Game)
    ensures r.best >= g.best
    ensures g.phase == Finished ==> r.best >= g.score as real
    ensures r.best != g.best ==> g.phase == Finished && r.best == g.score as real
    ensures r == g.(best := r.best)
  {
    if g.phase == Finished && g.score as real > g.best then g.(best := g.score as real) else g
  }

  /** What the best-score effect writes to storage: `String(score)` when a
      finished round beats the best, nothing otherwise. A failing write is
      caught and ignored. */
  function SavedBest(g: Game): (r: Option<string>)
    ensures r.Some? <==> RecordBest(g).best != g.best
    ensures r.Some? ==> r.value != "" && r.value == Text.NatToString(g.score)
  {
    if g.phase == Finished && g.score as real > g.best then Some(Text.NatToString(g.score)) else None
  }

  /** A later visit remounts the page and reloads the stored best: when
      `Number` reads the decimal text back as its value, the reloaded best is
      the recorded one. */
  lemma RemountReloadsBest(g: Game, toNumber: string -> JsNumber)
    requires SavedBest(g).Some?
    requires toNumber(Text.NatToString(g.score)) == Finite(g.score as real)
    ensures LoadBest(SavedBest(g), false, toNumber) == RecordBest(g).best
  {
  }

  /** One firing of the interval at clock reading `now`, followed by the
      best-score effect. The interval only exists while running, and a clock
      that does not run backwards is assumed. */
  function Tick(g: Game, now: int): (r: Game)
    requires Valid(g)
    requires g.interval.Some? ==> now >= g.interval.value
    ensures Valid(r)
    ensures g.phase != Running ==> r == g
    ensures g.phase == Running ==>
      r.timeLeftMs == Remaining(now - g.interval.value) && r.score == g.score
      && (r.phase == Finished <==> r.timeLeftMs == 0)
  {
    match g.interval
    case None => g
    case Some(t) =>
      var remaining := Remaining(now - t);
      if remaining <= 0 then RecordBest(g.(timeLeftMs := remaining, phase := Finished, interval := None))
      else g.(timeLeftMs := remaining)
  }

  /** The seconds shown: `Math.max(0, Math.ceil(ms / 1000))`. */
  function TimeLeftLabel(ms: int): (s: int)
    ensures s >= 0
    ensures ms <= 0 ==> s == 0
    ensures ms > 0 ==> (s - 1) * 1000 < ms <= s * 1000
  {
    var up := -((-ms) / 1000);
    if up < 0 then 0 else up
  }

  /** The label of a live countdown reads between 1 and 30 seconds. */
  lemma LabelRange(g: Game)
    requires Valid(g) && g.phase == Running
    ensures 1 <= TimeLeftLabel(g.timeLeftMs) <= 30
  {
  }

  /** What can happen on the page. */
  datatype Event = Start(now: int, u: real) | Hit(u: real) | TickAt(now: int)

  /** An event the environment can deliver: random draws in [0, 1) and a
      clock that does not run backwards. */
  predicate Possible(g: Game, e: Event) {
    match e
    case Start(_, u) => 0.0 <= u < 1.0
    case Hit(u) => 0.0 <= u < 1.0
    case TickAt(now) => g.interval.Some? ==> now >= g.interval.value
  }

  /** One event as the page handles it; "Start" and "Restart" are the
      as-written `startGame`. */
  function Step(g: Game, e: Event): (r: Game)
    requires Valid(g) && Possible(g, e)
    ensures Valid(r)
    ensures r.best >= g.best
  {
    match e
    case Start(now, u) => StartAsWritten(g, now, u)
    case Hit(u) => HandleHit(g, u)
    case TickAt(now) => Tick(g, now)
  }

  /** Running a sequence of events, stopping at the first one the environment
      could not deliver. */
  function Run(g: Game, es: seq<Event>): (r: Game)
    requires Valid(g)
    ensures Valid(r)
    decreases |es|
  {
    if es == [] || !Possible(g, es[0]) then g else Run(Step(g, es[0]), es[1..])
  }

  /** The best score never goes down, over any sequence of events. */
  lemma {:induction false} BestNeverDecreases(g: Game, es: seq<Event>)
    requires Valid(g)
    ensures Run(g, es).best >= g.best
    decreases |es|
  {
    if es != [] && Possible(g, es[0]) {
      BestNeverDecreases(Step(g, es[0]), es[1..]);
    }
  }

  /** A hit only scores while the round is running. */
  lemma {:induction false} HitsOutsideRoundDoNothing(g: Game, us: seq<real>)
    requires g.phase != Running
    requires forall i :: 0 <= i < |us| ==> 0.0 <= us[i] < 1.0
    ensures HitAll(g, us) == g
  {
    if us != [] {
      HitsOutsideRoundDoNothing(g, us[1..]);
    }
  }

  function HitAll(g: Game, us: seq<real>): Game
    requires forall i :: 0 <= i < |us| ==> 0.0 <= us[i] < 1.0
    decreases |us|
  {
    if us == [] then g else HitAll(HandleHit(g, us[0]), us[1..])
  }

  /** While running, `n` hits score exactly `n` points. */
  lemma {:induction false} HitsCount(g: Game, us: seq<real>)
    requires g.phase == Running
    requires forall i :: 0 <= i < |us| ==> 0.0 <= us[i] < 1.0
    ensures HitAll(g, us).score == g.score + |us|
    decreases |us|
  {
    if us != [] {
      HitsCount(HandleHit(g, us[0]), us[1..]);
    }
  }

  /** Restart while running, as written: the countdown resumes from the first
      start. Starting at 0, restarting at 20000 and ticking at 20100 shows
      9900 ms left instead of 29900. */
  lemma RestartKeepsOldCountdown()
    ensures var g0 := Initial(0.0);
      var g1 := StartAsWritten(g0, 0, 0.5);
      var g2 := StartAsWritten(g1, 20000, 0.5);
      Tick(g2, 20100).timeLeftMs == 9900
    ensures Run(Initial(0.0), [Start(0, 0.5), Start(20000, 0.5), TickAt(20100)]).timeLeftMs == 9900
  {
    var es := [Start(0, 0.5), Start(20000, 0.5), TickAt(20100)];
    assert es[1..] == [Start(20000, 0.5), TickAt(20100)];
    assert es[1..][1..] == [TickAt(20100)];
    assert es[1..][1..][1..] == [];
  }

  /** Restart with the intended start: the countdown is measured from the
      restart, whatever ran before. */
  lemma RestartResetsCountdown(g: Game, now: int, u: real, later: int)
    requires Valid(g) && 0.0 <= u < 1.0
    requires now <= later
    ensures Tick(StartGame(g, now, u), later).timeLeftMs == Remaining(later - now)
  {
  }
}
