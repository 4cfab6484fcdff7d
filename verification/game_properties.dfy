/** Properties of single transitions of the game session and of the countdown. */
module GameProperties {
  import opened Options
  import opened Retry
  import opened Images
  import opened Constants
  import opened Game

  /** The level a level-starting event moves to. */
  function LevelTarget(s: Session, e: Event): int
  {
    if e.PressBack? then s.game.currentIndex - 1
    else if e.PressNext? then s.game.currentIndex + 1
    else s.game.currentIndex
  }

  /** Play, back, retry and next (before the last level) all run the first
      step of `startLevel`: the target level begins with a full countdown, no
      images, no error and nothing revealed, one more fetch is in flight (for
      the target), and the score is untouched. */
  lemma LevelStarts(s: Session, e: Event)
    requires Enabled(s, e)
    requires e.PressPlay? || e.PressBack? || e.PressRetry? || (e.PressNext? && s.game.currentIndex < N - 1)
    ensures var t := Step(s, e);
      && LevelBegun(t.game, LevelTarget(s, e))
      && t.game.score == s.game.score
      && t.view == Playing
      && t.inFlight == s.inFlight + [LevelTarget(s, e)]
  {
  }

  /** Next on the last level ends the game and changes nothing else. */
  lemma NextAfterLastEndsGame(s: Session)
    requires Enabled(s, PressNext)
    requires s.game.currentIndex >= N - 1
    ensures Step(s, PressNext) == s.(view := GameOver)
  {
  }

  /** When the fetch of a freshly begun level settles, the level is either
      failed (the error text, no images) or loaded (both images, non-empty, no
      error); never both, never neither, and no longer loading. */
  lemma SettleAfterBegin(s: Session, k: nat, skeleton: nat -> Attempt<Response>, living: nat -> Attempt<Response>)
    requires k < |s.inFlight|
    requires LevelBegun(s.game, s.game.currentIndex)
    ensures var o := GenerateAnimalImages(skeleton, living).outcome;
      var g := Step(s, FetchSettled(k, o)).game;
      && !g.loading
      && ((g.error == Some(LoadFailedMessage) && g.skeletonUrl.None? && g.animalUrl.None?)
          != (g.error.None? && g.skeletonUrl.Some? && g.animalUrl.Some?
              && g.skeletonUrl.value != "" && g.animalUrl.value != ""))
      && (g.error.None? <==> o.Returned?)
  {
    ServiceOutcomes(skeleton, living);
  }

  /** A tick only fires while the countdown runs; it then takes one second
      off, and the tick that would reach zero also reveals the animal. */
  lemma TickStep(s: Session)
    ensures !TickEnabled(s) ==> Step(s, TimerTick) == s
    ensures TickEnabled(s) && s.game.timeLeft > 1 ==>
              Step(s, TimerTick) == s.(game := s.game.(timeLeft := s.game.timeLeft - 1))
    ensures TickEnabled(s) && s.game.timeLeft <= 1 ==>
              Step(s, TimerTick) == s.(game := s.game.(timeLeft := 0, isRevealed := true))
  {
  }

  /** Outside a running countdown the time left is frozen: only an enabled
      tick or the start of a level (which refills it) changes it. */
  lemma TimeLeftChanges(s: Session, e: Event)
    ensures var t := Step(s, e);
      t.game.timeLeft != s.game.timeLeft ==>
        (e.TimerTick? && TickEnabled(s) && t.game.timeLeft == s.game.timeLeft - 1)
        || (t.game.timeLeft == TimerDuration && LevelBegun(t.game, t.game.currentIndex))
  {
  }

  /** `k` consecutive timer ticks. */
  function Ticks(k: nat): (es: seq<Event>)
    ensures |es| == k
    ensures forall j :: 0 <= j < k ==> es[j].TimerTick?
  {
    seq(k, _ => TimerTick)
  }

  /** A running countdown after `k` ticks: it shows `timeLeft - k` while that
      is positive; after `timeLeft` ticks it shows 0 and the animal is revealed,
      and further ticks do nothing. Nothing else changes. */
  lemma {:induction false} Countdown(s: Session, k: nat)
    requires TickEnabled(s)
    ensures var t := Run(s, Ticks(k));
      && t.game.timeLeft == (if k < s.game.timeLeft then s.game.timeLeft - k else 0)
      && (t.game.isRevealed <==> k >= s.game.timeLeft)
      && t.game.(timeLeft := s.game.timeLeft, isRevealed := false) == s.game
      && t.view == s.view && t.inFlight == s.inFlight
    decreases k
  {
    if k > 0 {
      assert Ticks(k)[1..] == Ticks(k - 1);
      var s' := Step(s, TimerTick);
      if s.game.timeLeft > 1 {
        Countdown(s', k - 1);
      } else {
        RevealedIsFrozen(s', k - 1);
      }
    }
  }

  /** Once revealed, ticks do nothing. */
  lemma {:induction false} RevealedIsFrozen(s: Session, k: nat)
    requires s.game.isRevealed
    ensures Run(s, Ticks(k)) == s
    decreases k
  {
    if k > 0 {
      assert Ticks(k)[1..] == Ticks(k - 1);
      RevealedIsFrozen(Step(s, TimerTick), k - 1);
    }
  }

  /** On a loaded level whose countdown started full, the hint appears after
      exactly `TimerDuration - HintThreshold` ticks and disappears with the
      reveal when the countdown runs out. */
  lemma HintTiming(s: Session, k: nat)
    requires TickEnabled(s)
    requires s.game.timeLeft == TimerDuration
    requires !ErrorShown(s.game)
    ensures HintShown(Run(s, Ticks(k))) <==> TimerDuration - HintThreshold <= k < TimerDuration
  {
    Countdown(s, k);
  }

  /** `handleReveal` twice is `handleReveal` once, whatever the second guess. */
  lemma RevealIdempotent(s: Session, first: bool, second: bool)
    ensures Step(Step(s, PressReveal(first)), PressReveal(second)) == Step(s, PressReveal(first))
  {
  }

  /** The score moves only on a reveal (by one, for a correct guess on an
      unrevealed level) and on restart (back to 0); every other event,
      including the ticks, the level starts and both fetch commits, keeps it. */
  lemma ScoreChanges(s: Session, e: Event)
    ensures var t := Step(s, e);
      && (e.PressReveal? ==>
            t.game.score == s.game.score + (if Enabled(s, e) && e.guessedCorrect then 1 else 0))
      && (e.PressRestart? && Enabled(s, e) ==> t.game.score == 0)
      && (!e.PressReveal? && !(e.PressRestart? && Enabled(s, e)) ==> t.game.score == s.game.score)
  {
  }

  /** Restart on the game-over view returns to the landing view at level 0
      with score 0; the rest of the game state is kept. */
  lemma RestartResets(s: Session)
    requires s.view == GameOver
    ensures Step(s, PressRestart) == s.(view := Landing, game := s.game.(currentIndex := 0, score := 0))
  {
  }

  /** Going home and playing again resumes the same level with the same score:
      neither the index nor the score is reset. */
  lemma HomeThenPlayResumes(s: Session)
    requires s.view == Playing
    ensures var t := Step(Step(s, PressHome), PressPlay);
      && t.view == Playing
      && LevelBegun(t.game, s.game.currentIndex)
      && t.game.score == s.game.score
  {
  }

  /** Back is possible exactly past the first level and while nothing loads,
      and it begins the previous level. */
  lemma BackNavigation(s: Session)
    requires Inv(s) && s.view == Playing
    ensures Enabled(s, PressBack) <==> s.game.currentIndex > 0 && !s.game.loading
    ensures Enabled(s, PressBack) ==>
              LevelBegun(Step(s, PressBack).game, s.game.currentIndex - 1)
              && 0 <= Step(s, PressBack).game.currentIndex < N
  {
  }

  /** Index moves: only level starts, next after the last level (no move) and
      restart (to 0) touch the index, and from a reachable session it stays
      within the animal list. */
  lemma IndexStaysInRange(s: Session, e: Event)
    requires Inv(s)
    ensures 0 <= Step(s, e).game.currentIndex < N
  {
    StepInv(s, e);
  }
}
