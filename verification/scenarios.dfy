/** Whole-session scenarios: full play-throughs, back navigation, and what a
    late fetch result does to the session. */
module Scenarios {
  import opened Options
  import opened Retry
  import opened Images
  import opened Constants
  import opened Game
  import opened GameProperties

  /** A provider response holding one inline image. */
  const ImageResponse := Response(Some([Candidate(Some(Content(Some([Part(Some(InlineData("iVBORw0KGgo")))]))))]))

  /** A request whose every attempt answers with an image. */
  const Answers: nat -> Attempt<Response> := (_: nat) => Ok(ImageResponse)

  /** A request whose every attempt is refused with status 403 and no message. */
  const Forbidden := Error("", Some(403))
  const Refuses: nat -> Attempt<Response> := (_: nat) => Err(Forbidden)

  /** The data URL of that image. */
  const ImageUrl := DataUrlPrefix + "iVBORw0KGgo"

  /** The two settlements the scenarios use. */
  const Loaded: Outcome<ImagePair> := Returned(ImagePair(ImageUrl, ImageUrl))
  const Failed: Outcome<ImagePair> := Threw(Error(GenericMessage, None))

  /** Answered requests load the image on the first attempt of each. */
  lemma AnsweredFetchSucceeds()
    ensures GenerateAnimalImages(Answers, Answers).outcome == Loaded
    ensures GenerateAnimalImages(Answers, Answers).skeletonCalls == 1
    ensures GenerateAnimalImages(Answers, Answers).livingCalls == 1
  {
    FirstSuccessReturned(Answers, DefaultMaxRetries, DefaultInitialDelay, 0);
    assert ExtractUrl(ImageResponse) == ImageUrl;
    SuccessIffBothImages(Answers, Answers);
  }

  /** A refused skeleton request fails the level with the generic message,
      and the living request is never made. */
  lemma RefusedFetchFails()
    ensures GenerateAnimalImages(Refuses, Refuses).outcome == Failed
    ensures GenerateAnimalImages(Refuses, Refuses).livingCalls == 0
  {
    assert !IsRetryable(Forbidden);
    FatalErrorRethrown(Refuses, DefaultMaxRetries, DefaultInitialDelay, 0);
  }

  /** Both settlements are results the service can give. */
  lemma ScenarioOutcomes()
    ensures ServiceOutcome(Loaded) && ServiceOutcome(Failed)
  {
    AnsweredFetchSucceeds();
    ServiceOutcomes(Answers, Answers);
    RefusedFetchFails();
    ServiceOutcomes(Refuses, Refuses);
  }

  /** Running two event sequences one after the other. */
  lemma {:induction false} RunAppend(s: Session, a: seq<Event>, b: seq<Event>)
    ensures Run(s, a + b) == Run(Run(s, a), b)
    decreases |a|
  {
    if |a| > 0 {
      assert (a + b)[1..] == a[1..] + b;
      RunAppend(Step(s, a[0]), a[1..], b);
    } else {
      assert a + b == b;
    }
  }

  /** One level played through once its fetch is issued: the images arrive,
      the animal is revealed either with the "¡LO SÉ!" button (which always
      passes `true`) or by letting the countdown run out, then next. */
  function LevelEvents(pressed: bool): seq<Event>
  {
    [FetchSettled(0, Loaded)] + Reveal(pressed) + [PressNext]
  }

  /** The reveal of one level: the button, or the whole countdown. */
  function Reveal(pressed: bool): seq<Event>
  {
    if pressed then [PressReveal(true)] else Ticks(TimerDuration)
  }

  function PlayEvents(presses: seq<bool>): seq<Event>
    decreases |presses|
  {
    if |presses| == 0 then [] else LevelEvents(presses[0]) + PlayEvents(presses[1..])
  }

  /** How many levels were revealed with the button. */
  function Count(presses: seq<bool>): nat
    decreases |presses|
  {
    if |presses| == 0 then 0 else (if presses[0] then 1 else 0) + Count(presses[1..])
  }

  /** One level: from a level just begun (its fetch the only one in flight),
      the level's events either begin the next level or, after the last,
      end the game; the score grows by one exactly when the button was used. */
  lemma OneLevel(s: Session, pressed: bool) returns (t: Session)
    requires s.view == Playing
    requires LevelBegun(s.game, s.game.currentIndex)
    requires s.inFlight == [s.game.currentIndex]
    requires 0 <= s.game.currentIndex < N
    ensures t == Run(s, LevelEvents(pressed))
    ensures t.game.score == s.game.score + (if pressed then 1 else 0)
    ensures s.game.currentIndex < N - 1 ==>
              t.view == Playing && LevelBegun(t.game, s.game.currentIndex + 1)
              && t.inFlight == [s.game.currentIndex + 1]
    ensures s.game.currentIndex == N - 1 ==> t.view == GameOver
  {
    var s2 := RevealLevel(s, pressed);
    t := NextAfterReveal(s2);
    LevelEventsSplit(s, pressed);
  }

  /** A level's events are its reveal prefix, then next. */
  lemma LevelEventsSplit(s: Session, pressed: bool)
    ensures Run(s, LevelEvents(pressed))
         == Run(Run(s, [FetchSettled(0, Loaded)] + Reveal(pressed)), [PressNext])
  {
    RunAppend(s, [FetchSettled(0, Loaded)] + Reveal(pressed), [PressNext]);
  }

  /** Next on a revealed level begins the following level, or ends the game
      after the last. */
  lemma NextAfterReveal(s: Session) returns (t: Session)
    requires s.view == Playing && s.game.isRevealed && !s.game.loading && s.inFlight == []
    requires 0 <= s.game.currentIndex < N
    ensures t == Run(s, [PressNext])
    ensures t.game.score == s.game.score
    ensures s.game.currentIndex < N - 1 ==>
              t.view == Playing && LevelBegun(t.game, s.game.currentIndex + 1)
              && t.inFlight == [s.game.currentIndex + 1]
    ensures s.game.currentIndex == N - 1 ==> t.view == GameOver
  {
    t := Step(s, PressNext);
    assert Run(s, [PressNext]) == Run(t, []);
  }

  /** The images of a level just begun arrive and the animal is revealed; the
      score grows by one exactly when the button was used. */
  lemma RevealLevel(s: Session, pressed: bool) returns (s2: Session)
    requires s.view == Playing
    requires LevelBegun(s.game, s.game.currentIndex)
    requires s.inFlight == [s.game.currentIndex]
    requires 0 <= s.game.currentIndex < N
    ensures s2 == Run(s, [FetchSettled(0, Loaded)] + Reveal(pressed))
    ensures s2.view == Playing && s2.game.isRevealed && !s2.game.loading
    ensures s2.game.currentIndex == s.game.currentIndex && s2.inFlight == []
    ensures s2.game.score == s.game.score + (if pressed then 1 else 0)
  {
    ScenarioOutcomes();
    var s1 := Step(s, FetchSettled(0, Loaded));
    assert s1.inFlight == [];
    assert s1.game.error.None? && !s1.game.loading && !s1.game.isRevealed;
    RunAppend(s, [FetchSettled(0, Loaded)], Reveal(pressed));
    assert Run(s, [FetchSettled(0, Loaded)]) == s1;
    s2 := Run(s1, Reveal(pressed));
    if pressed {
      assert s2 == Step(s1, PressReveal(true));
    } else {
      Countdown(s1, TimerDuration);
    }
  }

  /** The levels from the current one to the last. */
  lemma {:induction false} Levels(s: Session, presses: seq<bool>)
    requires s.view == Playing
    requires LevelBegun(s.game, s.game.currentIndex)
    requires s.inFlight == [s.game.currentIndex]
    requires 0 <= s.game.currentIndex < N
    requires s.game.currentIndex + |presses| == N
    ensures Run(s, PlayEvents(presses)).view == GameOver
    ensures Run(s, PlayEvents(presses)).game.score == s.game.score + Count(presses)
    decreases |presses|
  {
    var t := OneLevel(s, presses[0]);
    RunAppend(s, LevelEvents(presses[0]), PlayEvents(presses[1..]));
    if |presses| > 1 {
      Levels(t, presses[1..]);
    } else {
      assert PlayEvents(presses[1..]) == [];
    }
  }

  /** A whole game from the start: play, then every level. The game ends on
      the game-over view with a score of the number of levels revealed with
      the button. */
  lemma FullGame(presses: seq<bool>)
    requires |presses| == N
    ensures Run(Init, [PressPlay] + PlayEvents(presses)).view == GameOver
    ensures Run(Init, [PressPlay] + PlayEvents(presses)).game.score == Count(presses)
  {
    RunAppend(Init, [PressPlay], PlayEvents(presses));
    var s := Run(Init, [PressPlay]);
    assert s == Step(Init, PressPlay);
    Levels(s, presses);
  }

  lemma {:induction false} CountConstant(b: bool, n: nat)
    ensures Count(seq(n, _ => b)) == if b then n else 0
    decreases n
  {
    if n > 0 {
      assert seq(n, _ => b)[1..] == seq(n - 1, _ => b);
      CountConstant(b, n - 1);
    }
  }

  /** Never pressing the button scores 0 of 15; pressing it on every level
      scores 15 of 15. */
  lemma ZeroAndFullScores()
    ensures Run(Init, [PressPlay] + PlayEvents(seq(N, _ => false))).game.score == 0
    ensures Run(Init, [PressPlay] + PlayEvents(seq(N, _ => true))).game.score == 15
  {
    LevelCount();
    FullGame(seq(N, _ => false));
    CountConstant(false, N);
    FullGame(seq(N, _ => true));
    CountConstant(true, N);
  }

  /** Back from level index 3 (nothing loading) issues a fetch for the animal
      of level 2 and restarts the countdown. */
  lemma BackFromThree(s: Session)
    requires Inv(s) && s.view == Playing
    requires s.game.currentIndex == 3 && !s.game.loading
    ensures var t := Step(s, PressBack);
      && t.game.currentIndex == 2
      && t.game.timeLeft == TimerDuration
      && t.inFlight == s.inFlight + [2]
      && AnimalsList[t.inFlight[|t.inFlight| - 1]].name == "LEÓN"
  {
  }

  /** The commit does not check that its fetch is still current. Play, go
      home, and play again: two fetches are in flight for level 0. The first
      fails and shows the error; when the second then succeeds, its images
      are committed next to the error, which stays. */
  lemma LateSuccessKeepsError()
    ensures var t := Run(Init, [PressPlay, PressHome, PressPlay,
                                FetchSettled(0, Failed),
                                FetchSettled(0, Loaded)]);
      && t.game.error == Some(LoadFailedMessage)
      && t.game.skeletonUrl.Some? && t.game.animalUrl.Some?
  {
    var es := [PressPlay, PressHome, PressPlay,
               FetchSettled(0, Failed),
               FetchSettled(0, Loaded)];
    var s3 := TwoFetchesForLevelZero();
    assert Run(Init, es) == Run(s3, es[3..]) by {
      assert es == [PressPlay, PressHome, PressPlay] + es[3..];
      RunAppend(Init, [PressPlay, PressHome, PressPlay], es[3..]);
    }
    var s4 := FirstFetchFails(s3);
    assert Run(s3, es[3..]) == Run(s4, es[4..]);
    var s5 := LateSuccess(s4);
    assert Run(s4, es[4..]) == Run(s5, []);
  }

  /** Play, home, play: level 0 loading with two fetches in flight. */
  lemma TwoFetchesForLevelZero() returns (s3: Session)
    ensures s3 == Run(Init, [PressPlay, PressHome, PressPlay])
    ensures s3.view == Playing && s3.inFlight == [0, 0] && LevelBegun(s3.game, 0)
  {
    s3 := Step(Step(Step(Init, PressPlay), PressHome), PressPlay);
  }

  /** The older fetch fails: the error is shown and one fetch remains. */
  lemma FirstFetchFails(s: Session) returns (t: Session)
    requires s.view == Playing && s.inFlight == [0, 0] && LevelBegun(s.game, 0)
    ensures t == Step(s, FetchSettled(0, Failed))
    ensures t.view == Playing && t.inFlight == [0] && !t.game.loading && !t.game.isRevealed
    ensures t.game.currentIndex == 0 && t.game.error == Some(LoadFailedMessage)
    ensures t.game.skeletonUrl.None?
  {
    ScenarioOutcomes();
    assert s.inFlight[..0] + s.inFlight[1..] == [0];
    t := s.(game := SettleLevel(s.game, Failed), inFlight := [0]);
    assert t == Step(s, FetchSettled(0, Failed));
  }

  /** A successful settlement of the oldest fetch sets both images and keeps
      the error. */
  lemma LateSuccess(s: Session) returns (t: Session)
    requires |s.inFlight| > 0
    ensures t == Step(s, FetchSettled(0, Loaded))
    ensures t.inFlight == s.inFlight[1..] && !t.game.loading
    ensures t.game.skeletonUrl.Some? && t.game.animalUrl.Some?
    ensures t.game.error == s.game.error && t.game.currentIndex == s.game.currentIndex
  {
    ScenarioOutcomes();
    t := Step(s, FetchSettled(0, Loaded));
    assert s.inFlight[..0] + s.inFlight[1..] == s.inFlight[1..];
  }

  /** A fetch issued for level 0 that settles after the player moved on to
      level 1 ends level 1's loading with level 0's images, while level 1's
      own fetch is still in flight. */
  lemma LateImagesLandOnNextLevel()
    ensures var t := Run(Init, [PressPlay, PressHome, PressPlay,
                                FetchSettled(0, Failed),
                                PressReveal(true), PressNext,
                                FetchSettled(0, Loaded)]);
      && t.game.currentIndex == 1
      && !t.game.loading
      && t.game.skeletonUrl.Some?
      && t.inFlight == [1]
  {
    var es := [PressPlay, PressHome, PressPlay,
               FetchSettled(0, Failed),
               PressReveal(true), PressNext,
               FetchSettled(0, Loaded)];
    var s3 := TwoFetchesForLevelZero();
    assert Run(Init, es) == Run(s3, es[3..]) by {
      assert es == [PressPlay, PressHome, PressPlay] + es[3..];
      RunAppend(Init, [PressPlay, PressHome, PressPlay], es[3..]);
    }
    var s4 := FirstFetchFails(s3);
    assert Run(s3, es[3..]) == Run(s4, es[4..]);
    var s6 := RevealThenNext(s4);
    assert Run(s4, es[4..]) == Run(s6, es[6..]) by {
      assert es[4..] == [PressReveal(true), PressNext] + es[6..];
      RunAppend(s4, [PressReveal(true), PressNext], es[6..]);
    }
    var s7 := LateSuccess(s6);
    assert Run(s6, es[6..]) == Run(s7, []);
  }

  /** On level 0, unrevealed and no longer loading with one fetch in flight, a
      correct guess and next score one point and begin level 1, issuing its
      fetch after the one still in flight for level 0. */
  lemma RevealThenNext(s: Session) returns (t: Session)
    requires s.view == Playing && s.inFlight == [0] && !s.game.loading && !s.game.isRevealed
    requires s.game.currentIndex == 0
    ensures t == Run(s, [PressReveal(true), PressNext])
    ensures t.game.currentIndex == 1 && t.inFlight == [0, 1]
    ensures LevelBegun(t.game, 1) && t.game.score == s.game.score + 1
  {
    var s5 := Step(s, PressReveal(true));
    t := Step(s5, PressNext);
  }

  /** A failed level keeps playing: with the error panel shown and no images,
      the countdown still runs and a correct guess still scores. */
  lemma FailedLevelStillPlays() returns (s: Session)
    ensures s == Run(Init, [PressPlay, FetchSettled(0, Failed)])
    ensures ErrorShown(s.game) && s.game.skeletonUrl.None? && s.game.animalUrl.None?
    ensures TickEnabled(s) && Step(s, TimerTick).game.timeLeft == TimerDuration - 1
    ensures Enabled(s, PressReveal(true))
    ensures var t := Step(s, PressReveal(true));
      t.game.isRevealed && t.game.score == s.game.score + 1
  {
    ScenarioOutcomes();
    var s1 := Step(Init, PressPlay);
    assert s1.inFlight == [0] && s1.view == Playing && LevelBegun(s1.game, 0);
    s := Step(s1, FetchSettled(0, Failed));
    var es := [PressPlay, FetchSettled(0, Failed)];
    assert es[1..] == [FetchSettled(0, Failed)];
    assert Run(s1, es[1..]) == Run(s, []);
    assert s.inFlight == [] && s.game.timeLeft == TimerDuration;
  }
}
