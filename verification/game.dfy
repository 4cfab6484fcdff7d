/**
  The game session of `App`: the view, the game state record, and every
  handler as a pure transition. Asynchronous completions and timer ticks are
  explicit events.

  `startLevel` is split in two: the synchronous first update (a level begins
  and its fetch is issued) and the update made when that fetch settles. The
  session remembers, for every `startLevel` call whose fetch has not settled
  yet, the index it was issued for; any of them may settle next, in any view.
  The commit does not compare that index with the current one.
*/
module Game {
  import opened Options
  import opened Strings
  import opened Retry
  import opened Images
  import opened Constants

  /** `'landing' | 'game' | 'gameover'`. */
  datatype View = Landing | Playing | GameOver

  /** The `GameState` record; `null` fields are `None`. */
  datatype GameState = GameState(
    currentIndex: int,
    isRevealed: bool,
    score: int,
    loading: bool,
    error: Option<string>,
    skeletonUrl: Option<string>,
    animalUrl: Option<string>,
    timeLeft: int)

  /** The view, the game state, and the level index of each issued image
      fetch that has not settled yet, oldest first. */
  datatype Session = Session(view: View, game: GameState, inFlight: seq<int>)

  /** The one error text the game shows, whatever the service reported. */
  const LoadFailedMessage := "¡Oh no! No pudimos encontrar al animalito. ¿Probamos otra vez?"

  const InitialGame := GameState(0, false, 0, false, None, None, None, TimerDuration)

  /** The session when the app mounts: the landing view, nothing in flight. */
  const Init := Session(Landing, InitialGame, [])

  /** The user intents and the two asynchronous sources of change. */
  datatype Event =
    | PressPlay                  // "¡A JUGAR!" on the landing view
    | PressHome                  // the home button of the game view
    | PressRestart               // "¡OTRA VEZ!" on the game-over view
    | PressBack                  // the left arrow
    | PressRetry                 // "INTENTAR DE NUEVO" under an error
    | PressReveal(guessedCorrect: bool)  // `handleReveal(guessedCorrect)`
    | PressNext                  // the right arrow / "¡FIN!"
    | TimerTick                  // one firing of the one-second interval
    | FetchSettled(k: nat, outcome: Outcome<ImagePair>)
      // the k-th in-flight fetch completes: `generateAnimalImages` resolved or threw

  /** What `generateAnimalImages` can settle with: two data URLs, or one of
      the two user messages without a status. `ServiceOutcomes` shows every
      run of the service gives one of these, and `ServiceOutcomesReached`
      that every one of them is given by some run. */
  predicate ServiceOutcome(o: Outcome<ImagePair>)
  {
    match o
    case Returned(urls) =>
      && urls.skeleton != "" && urls.living != ""
      && StartsWith(urls.skeleton, DataUrlPrefix) && StartsWith(urls.living, DataUrlPrefix)
    case Threw(e) =>
      e.status.None? && (e.message == RateLimitMessage || e.message == GenericMessage)
  }

  /** Every run of the service settles with an outcome of that shape. */
  lemma ServiceOutcomes(skeleton: nat -> Attempt<Response>, living: nat -> Attempt<Response>)
    ensures ServiceOutcome(GenerateAnimalImages(skeleton, living).outcome)
  {
  }

  /** Every outcome of that shape is what some run of the service settles
      with, so settlements range over exactly the service's results. */
  lemma ServiceOutcomesReached(o: Outcome<ImagePair>)
    requires ServiceOutcome(o)
    ensures exists skeleton, living :: GenerateAnimalImages(skeleton, living).outcome == o
  {
    match o
    case Returned(urls) =>
      var skeleton := AnsweringWith(urls.skeleton);
      var living := AnsweringWith(urls.living);
      SuccessIffBothImages(skeleton, living);
      assert GenerateAnimalImages(skeleton, living).outcome == o;
    case Threw(e) =>
      if e.message == RateLimitMessage {
        var busy := Error("429", None);
        var fn: nat -> Attempt<Response> := _ => Err(busy);
        assert StartsWith(busy.message, "429");
        ExhaustedThrowsLast(fn, DefaultMaxRetries, DefaultInitialDelay);
        assert GenerateAnimalImages(fn, fn).outcome == o;
      } else {
        var refused := Error("", None);
        var fn: nat -> Attempt<Response> := _ => Err(refused);
        assert !IsRetryable(refused);
        FatalErrorRethrown(fn, DefaultMaxRetries, DefaultInitialDelay, 0);
        assert GenerateAnimalImages(fn, fn).outcome == o;
      }
  }

  /** A request whose first attempt answers with exactly the image `url`. */
  lemma AnsweringWith(url: string) returns (fn: nat -> Attempt<Response>)
    requires url != "" && StartsWith(url, DataUrlPrefix)
    ensures FetchWithRetry(fn, DefaultMaxRetries, DefaultInitialDelay).outcome.Returned?
    ensures ExtractUrl(FetchWithRetry(fn, DefaultMaxRetries, DefaultInitialDelay).outcome.value) == url
  {
    var data := url[|DataUrlPrefix|..];
    assert DataUrlPrefix + data == url;
    var r := Response(Some([Candidate(Some(Content(Some([Part(Some(InlineData(data)))]))))]));
    assert ExtractUrl(r) == url;
    fn := (_: nat) => Ok(r);
    FirstSuccessReturned(fn, DefaultMaxRetries, DefaultInitialDelay, 0);
  }

  // ---------------------------------------------------------------------------
  // Handlers on the game state

  /** The first, synchronous update of `startLevel(index)`. */
  function BeginLevel(g: GameState, index: int): GameState
  {
    g.(currentIndex := index, loading := true, error := None, skeletonUrl := None,
       animalUrl := None, isRevealed := false, timeLeft := TimerDuration)
  }

  /** A level that has just begun at `index` and is waiting for its images. */
  predicate LevelBegun(g: GameState, index: int)
  {
    && g.currentIndex == index
    && g.loading
    && g.error.None? && g.skeletonUrl.None? && g.animalUrl.None?
    && !g.isRevealed
    && g.timeLeft == TimerDuration
  }

  /** The update `startLevel` makes when its fetch settles: the images on
      success, the fixed error text on any failure. Nothing else is touched,
      in particular not the fields the other outcome would have set. */
  function SettleLevel(g: GameState, outcome: Outcome<ImagePair>): (r: GameState)
    ensures !r.loading
    ensures r.(loading := g.loading, error := g.error, skeletonUrl := g.skeletonUrl, animalUrl := g.animalUrl) == g
    ensures outcome.Returned? ==>
              r.skeletonUrl == Some(outcome.value.skeleton) && r.animalUrl == Some(outcome.value.living)
              && r.error == g.error
    ensures outcome.Threw? ==>
              r.error == Some(LoadFailedMessage)
              && r.skeletonUrl == g.skeletonUrl && r.animalUrl == g.animalUrl
  {
    match outcome
    case Returned(urls) => g.(loading := false, skeletonUrl := Some(urls.skeleton), animalUrl := Some(urls.living))
    case Threw(_) => g.(loading := false, error := Some(LoadFailedMessage))
  }

  /** One firing of the countdown interval. */
  function Tick(g: GameState): (r: GameState)
    ensures g.timeLeft > 0 ==> r.timeLeft == g.timeLeft - 1
    ensures r.timeLeft >= 0
    ensures r.isRevealed <==> g.isRevealed || g.timeLeft <= 1
    ensures r.timeLeft == 0 ==> r.isRevealed
    ensures r.(timeLeft := g.timeLeft, isRevealed := g.isRevealed) == g
  {
    if g.timeLeft <= 1 then g.(timeLeft := 0, isRevealed := true)
    else g.(timeLeft := g.timeLeft - 1)
  }

  /** `handleReveal(guessedCorrect)`. */
  function HandleReveal(g: GameState, guessedCorrect: bool): (r: GameState)
    ensures r.isRevealed
    ensures g.isRevealed ==> r == g
    ensures !g.isRevealed ==> r.score == g.score + (if guessedCorrect then 1 else 0)
    ensures r.(isRevealed := g.isRevealed, score := g.score) == g
  {
    if g.isRevealed then g
    else g.(isRevealed := true, score := if guessedCorrect then g.score + 1 else g.score)
  }

  /** The condition of the hint overlay. */
  predicate HintCondition(g: GameState)
  {
    g.timeLeft <= HintThreshold && !g.isRevealed
  }

  /** The hint is on screen: the game view shows the images (neither the
      loading nor the error panel) and the hint condition holds. */
  predicate HintShown(s: Session)
  {
    s.view == Playing && !s.game.loading && !ErrorShown(s.game) && HintCondition(s.game)
  }

  /** A truthy `error`: present and not the empty string. */
  predicate ErrorShown(g: GameState)
  {
    g.error.Some? && g.error.value != ""
  }

  // ---------------------------------------------------------------------------
  // Handlers on the session

  /** `startLevel(index)` up to its `await`: the level begins and a fetch for
      `index` is issued. */
  function StartLevel(s: Session, index: int): Session
  {
    s.(game := BeginLevel(s.game, index), inFlight := s.inFlight + [index])
  }

  /** `handleNext`: the following level, or the game-over view after the last. */
  function HandleNext(s: Session): Session
  {
    if s.game.currentIndex < N - 1 then StartLevel(s, s.game.currentIndex + 1)
    else s.(view := GameOver)
  }

  /** The interval runs exactly while this holds. */
  predicate TickEnabled(s: Session)
  {
    s.view == Playing && !s.game.loading && !s.game.isRevealed && s.game.timeLeft > 0
  }

  /** Whether the event can happen in this session: the control is on screen
      and not disabled, the interval is running, or a fetch is in flight. The
      reveal button always passes `true`; `PressReveal(false)` is allowed too,
      which over-approximates the screen. A settlement carries an outcome the
      service can give. */
  predicate Enabled(s: Session, e: Event)
  {
    match e
    case PressPlay => s.view == Landing
    case PressHome => s.view == Playing
    case PressRestart => s.view == GameOver
    case PressBack => s.view == Playing && !(s.game.currentIndex == 0 || s.game.loading)
    case PressRetry => s.view == Playing && !s.game.loading && ErrorShown(s.game)
    case PressReveal(_) => s.view == Playing && !(s.game.loading || s.game.isRevealed)
    case PressNext => s.view == Playing && !(s.game.loading || !s.game.isRevealed)
    case TimerTick => TickEnabled(s)
    case FetchSettled(k, o) => k < |s.inFlight| && ServiceOutcome(o)
  }

  /** The effect of an enabled event. Play switches to the game view, whose
      effect starts the level at the current index. */
  function Apply(s: Session, e: Event): Session
  {
    match e
    case PressPlay => StartLevel(s.(view := Playing), s.game.currentIndex)
    case PressHome => s.(view := Landing)
    case PressRestart => s.(view := Landing, game := s.game.(currentIndex := 0, score := 0))
    case PressBack => StartLevel(s, s.game.currentIndex - 1)
    case PressRetry => StartLevel(s, s.game.currentIndex)
    case PressReveal(correct) => s.(game := HandleReveal(s.game, correct))
    case PressNext => HandleNext(s)
    case TimerTick => s.(game := Tick(s.game))
    case FetchSettled(k, o) =>
      if k < |s.inFlight| then
        s.(game := SettleLevel(s.game, o), inFlight := s.inFlight[..k] + s.inFlight[k + 1..])
      else s
  }

  /** One event: a disabled one changes nothing. */
  function Step(s: Session, e: Event): Session
  {
    if Enabled(s, e) then Apply(s, e) else s
  }

  /** A sequence of events, in order. */
  function Run(s: Session, es: seq<Event>): Session
    decreases |es|
  {
    if |es| == 0 then s else Run(Step(s, es[0]), es[1..])
  }

  // ---------------------------------------------------------------------------
  // The invariant of every reachable session

  predicate Inv(s: Session)
  {
    var g := s.game;
    && 0 <= g.currentIndex < N
    && 0 <= g.timeLeft <= TimerDuration
    && (g.timeLeft == 0 ==> g.isRevealed)
    && 0 <= g.score
    && (forall j :: 0 <= j < |s.inFlight| ==> 0 <= s.inFlight[j] < N)
    && (g.loading ==>
          && |s.inFlight| > 0 && s.inFlight[|s.inFlight| - 1] == g.currentIndex
          && LevelBegun(g, g.currentIndex))
    && (s.view == GameOver ==> !g.loading)
    && (g.error.Some? ==> g.error.value == LoadFailedMessage)
    && (g.skeletonUrl.Some? <==> g.animalUrl.Some?)
    && (g.skeletonUrl.Some? ==> g.skeletonUrl.value != "" && g.animalUrl.value != "")
  }

  lemma InitInv()
    ensures Inv(Init)
  {
  }

  lemma StepInv(s: Session, e: Event)
    requires Inv(s)
    ensures Inv(Step(s, e))
  {
    if Enabled(s, e) && e.FetchSettled? {
      var k := e.k;
      var rest := s.inFlight[..k] + s.inFlight[k + 1..];
      assert forall j :: 0 <= j < |rest| ==> rest[j] in s.inFlight;
    }
  }

  /** Every session reachable from `s` by any events keeps the invariant. */
  lemma {:induction false} RunInv(s: Session, es: seq<Event>)
    requires Inv(s)
    ensures Inv(Run(s, es))
    decreases |es|
  {
    if |es| > 0 {
      StepInv(s, es[0]);
      RunInv(Step(s, es[0]), es[1..]);
    }
  }

  /** From the start, whatever happens: the level index is a valid index of
      the animal list, the countdown is between 0 and its full duration, and
      it never shows 0 on an unrevealed level. */
  lemma Reachable(es: seq<Event>)
    ensures var s := Run(Init, es);
      && 0 <= s.game.currentIndex < N
      && 0 <= s.game.timeLeft <= TimerDuration
      && (s.game.timeLeft == 0 ==> s.game.isRevealed)
      && 0 <= s.game.score
  {
    InitInv();
    RunInv(Init, es);
  }
}
