/**
  The image-guessing game ("Bottle Whisperer"): four fixed rounds, each
  showing a photograph and offering every display name as an option. A
  12-second countdown starts only once the round's image has loaded, and a
  correct answer earns 120 XP plus a bonus for the time left.

  Image loading (`new Image()` with `onload` / `onerror`) becomes the
  `ImageLoaded` / `ImageFailed` events, and each `setInterval` firing is a
  `Tick`. A change of the current question runs the round-entry effect,
  modelled as `EnterRound` applied by the handlers that change it.
 */
module ImageGame {
  import opened Collections
  import opened Random
  import opened Dataset

  const RoundDuration: int := 12
  const BaseXP: int := 120

  datatype GameImage = GameImage(imageUrl: string, targetName: string, displayName: string)

  const GameImages: seq<GameImage> := [
    GameImage("https://house.suntory.com/sites/default/files/styles/card_9_16/public/2025-02/CDP_Haku_Lychee_Product.jpg.webp?itok=7Piv2iib",
      "Classic Vodka Martini", "Haku Lychee Martini"),
    GameImage("https://house.suntory.com/sites/default/files/styles/card_9_16/public/2025-04/New%20Project%20%282%29.png.webp?itok=emCCghoC",
      "Lemondrop Martini", "Yuzu Martin-ish with Haku"),
    GameImage("https://house.suntory.com/sites/default/files/2024-03/ROKU_SAKURA_APERITIF_LTO_SERVE_sRGB_0.jpg",
      "French 75", "Roku Sakura Aperitif"),
    GameImage("https://house.suntory.com/sites/default/files/2022-09/SDP_OntheRocks.jpg",
      "Japanese Highball", "Japanese Whisky on the Rocks")
  ]

  datatype Round = Round(id: nat, imageUrl: string, target: Cocktail, options: seq<string>, displayName: string)

  /** The display name of every image entry, in table order. */
  function DisplayNames(images: seq<GameImage>): (r: seq<string>)
    ensures |r| == |images|
    ensures forall k :: 0 <= k < |images| ==> r[k] == images[k].displayName
  {
    seq(|images|, k requires 0 <= k < |images| => images[k].displayName)
  }

  // ---------------------------------------------------------------------------
  // Building the rounds
  // ---------------------------------------------------------------------------

  /** The position of the first cocktail with that name, or none (the
      page's `find` by name). */
  function FindByName(cocktails: seq<Cocktail>, name: string): (r: Option<nat>)
    ensures r.Some? ==> r.value < |cocktails| && cocktails[r.value].recipe.name == name
    ensures r.Some? ==> forall j :: 0 <= j < r.value ==> cocktails[j].recipe.name != name
    ensures r.None? <==> forall j :: 0 <= j < |cocktails| ==> cocktails[j].recipe.name != name
  {
    if |cocktails| == 0 then None
    else if cocktails[0].recipe.name == name then Some(0)
    else
      match FindByName(cocktails[1..], name)
      case None => None
      case Some(i) => Some(i + 1)
  }

  /** What one round consumes from `Math.random`: the fallback pick and the
      draws of the options shuffle. */
  datatype RoundDraws = RoundDraws(pick: real, options: Rng)

  ghost predicate ValidDraws(draws: seq<RoundDraws>) {
    forall k :: 0 <= k < |draws| ==> 0.0 <= draws[k].pick < 1.0 && Uniform(draws[k].options)
  }

  /** The target of a round: the named cocktail, or a random one when the
      dataset has none of that name. */
  function PickTarget(cocktails: seq<Cocktail>, name: string, pick: real): (c: Cocktail)
    requires |cocktails| > 0 && 0.0 <= pick < 1.0
    ensures c in cocktails
    ensures FindByName(cocktails, name).Some? ==> c == cocktails[FindByName(cocktails, name).value]
  {
    match FindByName(cocktails, name)
    case Some(i) => cocktails[i]
    case None => cocktails[Draw(pick, |cocktails|)]
  }

  /** The round for entry `images[k]`. */
  function MakeRound(cocktails: seq<Cocktail>, pool: seq<string>, image: GameImage, k: nat, d: RoundDraws): (r: Round)
    requires |cocktails| > 0 && 0.0 <= d.pick < 1.0 && Uniform(d.options)
    ensures r.id == k + 1 && r.imageUrl == image.imageUrl && r.displayName == image.displayName
    ensures multiset(r.options) == multiset(pool)
  {
    Round(k + 1, image.imageUrl, PickTarget(cocktails, image.targetName, d.pick),
          Shuffle(pool, d.options), image.displayName)
  }

  /** `buildRounds(cocktails)` over the entries `images`, every round
      shuffling the same pool `names` of all display names. */
  function BuildRounds(cocktails: seq<Cocktail>, names: seq<string>, images: seq<GameImage>, draws: seq<RoundDraws>): (r: seq<Round>)
    requires |cocktails| > 0 && |draws| == |images| && ValidDraws(draws)
    ensures |r| == |images|
    ensures forall k :: 0 <= k < |r| ==> r[k].id == k + 1
    ensures forall k :: 0 <= k < |r| ==> r[k].imageUrl == images[k].imageUrl && r[k].displayName == images[k].displayName
    ensures forall k :: 0 <= k < |r| ==> multiset(r[k].options) == multiset(names)
    ensures forall k :: 0 <= k < |r| ==> r[k].target in cocktails
    ensures forall k :: 0 <= k < |r| && FindByName(cocktails, images[k].targetName).Some? ==>
              r[k].target == cocktails[FindByName(cocktails, images[k].targetName).value]
  {
    seq(|images|, k requires 0 <= k < |images| => MakeRound(cocktails, names, images[k], k, draws[k]))
  }

  /** Every round offers its own answer, because its options are a
      permutation of all display names. */
  lemma {:induction false} AnswerOffered(cocktails: seq<Cocktail>, images: seq<GameImage>, draws: seq<RoundDraws>, k: nat)
    requires |cocktails| > 0 && |draws| == |images| && ValidDraws(draws) && k < |images|
    ensures var rounds := BuildRounds(cocktails, DisplayNames(images), images, draws);
            rounds[k].displayName in rounds[k].options
  {
    var rounds := BuildRounds(cocktails, DisplayNames(images), images, draws);
    var names := DisplayNames(images);
    assert names[k] == rounds[k].displayName;
    assert rounds[k].displayName in multiset(names);
    assert rounds[k].displayName in multiset(rounds[k].options);
  }

  // ---------------------------------------------------------------------------
  // Session
  // ---------------------------------------------------------------------------

  datatype GameState = Playing | Completed

  datatype Session = Session(
    rounds: seq<Round>,
    current: nat,
    xp: int,
    selected: Option<string>,
    answered: bool,
    state: GameState,
    imageLoaded: bool,
    imageError: bool,
    loadingStatus: string,
    timeLeft: int,
    timerActive: bool)

  /** The page at mount, before `startGame` runs. */
  const Initial: Session :=
    Session([], 0, 0, None, false, Playing, false, false, "Loading cocktail...", RoundDuration, false)

  /** The round-entry effect: it runs whenever the current question changes
      and there is one. */
  function EnterRound(s: Session): (r: Session)
    ensures s.current >= |s.rounds| ==> r == s
    ensures s.current < |s.rounds| ==>
              && r.selected.None? && !r.answered && r.timeLeft == RoundDuration && !r.timerActive
              && !r.imageLoaded && !r.imageError && r.loadingStatus == "Loading cocktail..."
              && r.rounds == s.rounds && r.current == s.current && r.xp == s.xp && r.state == s.state
  {
    if s.current >= |s.rounds| then s
    else s.(imageLoaded := false, imageError := false, loadingStatus := "Loading cocktail...",
            selected := None, answered := false, timeLeft := RoundDuration, timerActive := false)
  }

  /** `img.onload`: the image is shown and the countdown starts. */
  function ImageLoaded(s: Session): (r: Session)
    ensures r.imageLoaded && r.timerActive && r.loadingStatus == "Ready"
    ensures r == s.(imageLoaded := true, loadingStatus := "Ready", timerActive := true)
  {
    s.(imageLoaded := true, loadingStatus := "Ready", timerActive := true)
  }

  /** `img.onerror`: the failure is shown and the countdown stays off. */
  function ImageFailed(s: Session): (r: Session)
    ensures r.imageError && r.timerActive == s.timerActive && r.timeLeft == s.timeLeft
    ensures r == s.(imageError := true, loadingStatus := "Failed to load image.")
  {
    s.(imageError := true, loadingStatus := "Failed to load image.")
  }

  /** The countdown effect's expiry branch: at zero the round counts as
      answered, with no XP. */
  function TimerEffect(s: Session): (r: Session)
    ensures s.timerActive && !s.answered && s.timeLeft <= 0 ==>
              r == s.(timerActive := false, answered := true)
    ensures !(s.timerActive && !s.answered && s.timeLeft <= 0) ==> r == s
    ensures r.xp == s.xp && r.selected == s.selected
  {
    if s.timerActive && !s.answered && s.timeLeft <= 0 then s.(timerActive := false, answered := true)
    else s
  }

  /** One interval firing: the interval exists only while the countdown is
      active, unanswered and above zero. */
  function Tick(s: Session): (r: Session)
    ensures s.timerActive && !s.answered && s.timeLeft > 0 ==> r.timeLeft == s.timeLeft - 1
    ensures !(s.timerActive && !s.answered && s.timeLeft > 0) ==> r == s
    ensures r.xp == s.xp && r.current == s.current && r.rounds == s.rounds
  {
    if s.timerActive && !s.answered && s.timeLeft > 0 then TimerEffect(s.(timeLeft := s.timeLeft - 1))
    else s
  }

  /** The time bonus: the whole percentage of the round's time still left,
      rounded down, computed in integers. */
  function TimeBonus(timeLeft: int): int {
    (timeLeft * 100) / RoundDuration
  }

  /** `handleAnswer(answer)`: ignored once the round is answered; otherwise
      the answer is recorded, the countdown stops, and a correct answer
      earns the base XP plus the time bonus. */
  function Answer(s: Session, answer: string): (r: Session)
    requires s.current < |s.rounds|
    ensures s.answered ==> r == s
    ensures !s.answered ==> r.answered && !r.timerActive && r.selected == Some(answer)
    ensures !s.answered && answer == s.rounds[s.current].displayName ==>
              r.xp == s.xp + BaseXP + TimeBonus(s.timeLeft)
    ensures answer != s.rounds[s.current].displayName ==> r.xp == s.xp
    ensures r.current == s.current && r.rounds == s.rounds && r.timeLeft == s.timeLeft
  {
    if s.answered then s
    else
      var gain := if answer == s.rounds[s.current].displayName then BaseXP + TimeBonus(s.timeLeft) else 0;
      s.(selected := Some(answer), answered := true, timerActive := false, xp := s.xp + gain)
  }

  /** The "Clear Selection" button: the chosen answer is forgotten and
      nothing else about the round changes. */
  function ClearSelection(s: Session): (r: Session)
    ensures r.selected.None?
    ensures && r.rounds == s.rounds && r.current == s.current && r.xp == s.xp
            && r.answered == s.answered && r.state == s.state && r.timeLeft == s.timeLeft
            && r.timerActive == s.timerActive && r.imageLoaded == s.imageLoaded
  {
    s.(selected := None)
  }

  /** `handleNextRound()`: the next round while one remains, otherwise the
      game is completed. */
  function NextRound(s: Session): (r: Session)
    ensures s.current < |s.rounds| - 1 ==> r.current == s.current + 1 && r.state == s.state
    ensures s.current >= |s.rounds| - 1 ==> r == s.(state := Completed)
    ensures r.xp == s.xp && r.rounds == s.rounds
  {
    if s.current < |s.rounds| - 1 then EnterRound(s.(current := s.current + 1))
    else s.(state := Completed)
  }

  /** `startGame()` (also "Play Again"): fresh rounds from the first, with no
      XP. It does nothing before the dataset has loaded. */
  function StartGame(s: Session, cocktails: seq<Cocktail>, draws: seq<RoundDraws>): (r: Session)
    requires |draws| == |GameImages| && ValidDraws(draws)
    ensures |cocktails| == 0 ==> r == s
    ensures |cocktails| > 0 ==>
              && r.current == 0 && r.xp == 0 && r.state == Playing && |r.rounds| == |GameImages|
              && !r.answered && r.timeLeft == RoundDuration && !r.timerActive
  {
    if |cocktails| == 0 then s
    else
      var rounds := BuildRounds(cocktails, DisplayNames(GameImages), GameImages, draws);
      EnterRound(s.(rounds := rounds, current := 0, xp := 0, state := Playing))
  }

  datatype Event =
    | Restart(draws: seq<RoundDraws>)
    | LoadEvent
    | ErrorEvent
    | TickEvent
    | AnswerEvent(answer: string)
    | ClearEvent
    | NextEvent

  ghost predicate ValidEvent(e: Event) {
    e.Restart? ==> |e.draws| == |GameImages| && ValidDraws(e.draws)
  }

  function Step(cocktails: seq<Cocktail>, s: Session, e: Event): Session
    requires ValidEvent(e) && s.current < |s.rounds|
  {
    match e
    case Restart(draws) => StartGame(s, cocktails, draws)
    case LoadEvent => ImageLoaded(s)
    case ErrorEvent => ImageFailed(s)
    case TickEvent => Tick(s)
    case AnswerEvent(a) => Answer(s, a)
    case ClearEvent => if s.answered then s else ClearSelection(s) // the button is shown only before answering
    case NextEvent => NextRound(s)
  }

  // ---------------------------------------------------------------------------
  // Properties
  // ---------------------------------------------------------------------------

  /** The integer time bonus is the exact floor of the real quotient, so it
      agrees with the page's arithmetic. */
  lemma TimeBonusIsFloor(t: int)
    requires 0 <= t <= RoundDuration
    ensures TimeBonus(t) as real <= (t as real / RoundDuration as real) * 100.0 < TimeBonus(t) as real + 1.0
  {
    var b := TimeBonus(t);
    assert b * 12 <= t * 100 < b * 12 + 12;
    assert (t as real / 12.0) * 100.0 == (t * 100) as real / 12.0;
  }

  /** A correct answer with ten seconds left earns 203 XP, and any correct
      answer earns between 120 and 220. */
  lemma CorrectAnswerXp(t: int)
    requires 0 <= t <= RoundDuration
    ensures BaseXP + TimeBonus(10) == 203
    ensures BaseXP <= BaseXP + TimeBonus(t) <= BaseXP + 100
  {
  }

  /** What every state after `startGame` satisfies: the round is in range,
      the clock in 0..12, the countdown runs only over a loaded image, every
      round offers exactly the display names, and the XP is at most 220 per
      round reached, counting the current one once it is answered. */
  ghost predicate Valid(s: Session) {
    && |s.rounds| == |GameImages|
    && s.current < |s.rounds|
    && 0 <= s.timeLeft <= RoundDuration
    && (s.timerActive ==> s.imageLoaded)
    && (forall k :: 0 <= k < |s.rounds| ==> multiset(s.rounds[k].options) == multiset(DisplayNames(GameImages)))
    && 0 <= s.xp <= (BaseXP + 100) * (s.current + if s.answered then 1 else 0)
  }

  lemma StartValid(s: Session, cocktails: seq<Cocktail>, draws: seq<RoundDraws>)
    requires |cocktails| > 0 && |draws| == |GameImages| && ValidDraws(draws)
    ensures Valid(StartGame(s, cocktails, draws))
  {
  }

  /** Every event keeps the invariant. */
  lemma StepPreservesValid(cocktails: seq<Cocktail>, s: Session, e: Event)
    requires ValidEvent(e) && Valid(s)
    ensures Valid(Step(cocktails, s, e))
  {
    match e
    case AnswerEvent(a) =>
      if !s.answered && a == s.rounds[s.current].displayName {
        CorrectAnswerXp(s.timeLeft);
      }
    case _ =>
  }

  /** Only a successful image load starts the countdown: no other event
      turns a stopped timer on. */
  lemma OnlyLoadStartsTimer(cocktails: seq<Cocktail>, s: Session, e: Event)
    requires ValidEvent(e) && Valid(s)
    ensures !s.timerActive && Step(cocktails, s, e).timerActive ==> e.LoadEvent?
  {
  }

  /** Over a whole game the XP never exceeds 220 per round. */
  lemma XpBound(s: Session)
    requires Valid(s)
    ensures s.xp <= (BaseXP + 100) * |GameImages|
  {
    var k := s.current + if s.answered then 1 else 0;
    assert k <= |GameImages|;
    assert (BaseXP + 100) * k <= (BaseXP + 100) * |GameImages|;
  }

  /** An answer is taken once: a second answer in the same round changes
      nothing, whatever it is. */
  lemma AnswerOnce(s: Session, a: string, b: string)
    requires s.current < |s.rounds|
    ensures Answer(Answer(s, a), b) == Answer(s, a)
  {
  }

  /** When the image fails to load, ticks never move the clock: the round can
      only end by an answer. */
  lemma FailedImageFreezesClock(s: Session, n: nat)
    requires !s.timerActive
    ensures Ticks(ImageFailed(s), n) == ImageFailed(s)
  {
    if n > 0 {
      FailedImageFreezesClock(s, n - 1);
    }
  }

  function Ticks(s: Session, n: nat): Session {
    if n == 0 then s else Tick(Ticks(s, n - 1))
  }

  /** Once the image has loaded, twelve unanswered ticks run the clock out:
      the round ends answered, with no selection and no XP gained. */
  lemma {:induction false} ClockRunsOut(s: Session)
    requires s.timeLeft == RoundDuration && !s.answered && s.selected.None?
    ensures var r := Ticks(ImageLoaded(s), RoundDuration as nat);
            r.answered && !r.timerActive && r.xp == s.xp && r.selected.None? && r.timeLeft == 0
  {
    var l := ImageLoaded(s);
    var k: nat := 0;
    while k < RoundDuration
      invariant 0 <= k <= RoundDuration
      invariant Ticks(l, k) == l.(timeLeft := RoundDuration - k, timerActive := k < RoundDuration, answered := k == RoundDuration)
    {
      k := k + 1;
    }
  }
}
