/** The Blinky Bird game's shared state (`game_manager.cs`): the score, the
    best score and the pause flag, all static in the game and modelled here
    as the fields of one object. Unity's `Time.timeScale` is a field of the
    same object. */
module BlinkyBird {
  import opened LittleEndian

  /** `Mathf.Max` on two integers. */
  function Max(a: int, b: int): (m: int)
    ensures m >= a && m >= b
    ensures m == a || m == b
  {
    if a >= b then a else b
  }

  /** The score after `AddScore(amount)`: the 32-bit sum, wrapped as C#
      wraps an unchecked `int` addition, then clamped at zero by the
      `Score` setter. */
  function ScoreAfterAdd(score: int, amount: int): (r: int)
    requires InInt32(score) && InInt32(amount)
    ensures 0 <= r < TwoTo31
    ensures r == 0 || (r - (score + amount)) % TwoTo32 == 0
  {
    Max(0, Wrap32(score + amount))
  }

  /** Without overflow, adding a points total gives the plain sum, never
      below zero. */
  lemma ScoreAfterAddExact(score: int, amount: int)
    requires InInt32(score) && InInt32(amount) && InInt32(score + amount)
    ensures ScoreAfterAdd(score, amount) == if score + amount < 0 then 0 else score + amount
  {
    Wrap32Identity(score + amount);
  }

  /** At the top of the range one more point wraps to a negative sum, which
      the setter turns into a score of zero. */
  lemma ScoreAfterAddOverflow()
    ensures ScoreAfterAdd(TwoTo31 - 1, 1) == 0
  {
    assert Wrap32(TwoTo31) == -TwoTo31 by {
      DivModUniqueSigned(TwoTo31, 0, TwoTo31);
    }
  }

  /** The time scale that `IsPaused` sets: 0 while paused, 1 otherwise. */
  function TimeScaleFor(paused: bool): (t: real)
    ensures paused <==> t == 0.0
    ensures !paused <==> t == 1.0
  {
    if paused then 0.0 else 1.0
  }

  class GameManager {
    var score: int
    var highscore: int
    var isPaused: bool
    /** Unity's `Time.timeScale`. */
    var timeScale: real

    /** Both scores are non-negative 32-bit integers, and the time scale
        follows the pause flag. */
    ghost predicate Valid()
      reads this
    {
      0 <= score < TwoTo31 && 0 <= highscore < TwoTo31 &&
      timeScale == TimeScaleFor(isPaused)
    }

    /** The static initialisers, with Unity's time scale at its default 1. */
    constructor ()
      ensures Valid()
      ensures score == 0 && highscore == 0 && !isPaused && timeScale == 1.0
    {
      score := 0;
      highscore := 0;
      isPaused := false;
      timeScale := 1.0;
    }

    /** The `Score` setter: negative values are stored as zero. */
    method SetScore(value: int)
      requires InInt32(value)
      modifies this
      ensures score == Max(0, value)
      ensures highscore == old(highscore) && isPaused == old(isPaused) && timeScale == old(timeScale)
    {
      score := Max(0, value);
    }

    /** The `Highscore` setter: negative values are stored as zero. */
    method SetHighscore(value: int)
      requires InInt32(value)
      modifies this
      ensures highscore == Max(0, value)
      ensures score == old(score) && isPaused == old(isPaused) && timeScale == old(timeScale)
    {
      highscore := Max(0, value);
    }

    /** The `IsPaused` setter, which also stops or restarts game time. */
    method SetIsPaused(value: bool)
      modifies this
      ensures isPaused == value && timeScale == TimeScaleFor(value)
      ensures score == old(score) && highscore == old(highscore)
    {
      isPaused := value;
      timeScale := TimeScaleFor(value);
    }

    /** `AddScore(amount)`: the score moves by `amount` (wrapping, then
        clamped at zero) and the best score catches up with it. */
    method AddScore(amount: int)
      requires Valid() && InInt32(amount)
      modifies this
      ensures Valid()
      ensures score == ScoreAfterAdd(old(score), amount)
      ensures highscore == Max(old(highscore), score)
      ensures highscore >= score && highscore >= old(highscore)
      ensures isPaused == old(isPaused) && timeScale == old(timeScale)
    {
      SetScore(Wrap32(score + amount));
      SetHighscore(Max(highscore, score));
    }

    /** `ResetGame()`: the score returns to zero and the game resumes; the
        best score is kept. */
    method ResetGame()
      requires Valid()
      modifies this
      ensures Valid()
      ensures score == 0 && highscore == old(highscore)
      ensures !isPaused && timeScale == 1.0
    {
      score := 0;
      SetIsPaused(false);
    }

    /** `TogglePause()`: flips the pause flag and the time scale with it. */
    method TogglePause()
      requires Valid()
      modifies this
      ensures Valid()
      ensures isPaused == !old(isPaused)
      ensures timeScale == if isPaused then 0.0 else 1.0
      ensures score == old(score) && highscore == old(highscore)
    {
      SetIsPaused(!isPaused);
    }
  }
}
