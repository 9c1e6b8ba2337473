/**
  The ingredient-matching game ("Mixology Rush"): a cocktail is drawn at
  random, and its ingredients are dealt into a grid padded with ingredients
  of other recipes: up to twelve cards, more when the recipe alone has more
  ingredients, and fewer when too few other ingredients exist. The player
  selects cards against a 40-second countdown.

  Each handler is followed by `Settle`, the two effects React runs after the
  render the handler causes: the countdown effect, which times a round out
  when no time is left, and the evaluation effect, which judges a selection
  as soon as it holds as many cards as the recipe has ingredients. Both read
  the same rendered state. A 900 ms or 700 ms `setTimeout` armed by the
  evaluation is recorded in `pending` and fires as the `TimerFires` event.
  `SettleAsWritten` is the page as written, whose re-render cancels that
  timer before it can fire.
 */
module IngredientGame {
  import opened Collections
  import opened Random
  import opened StringHash
  import opened Dataset

  const RoundTime: int := 40
  const GridSize: int := 12

  datatype Palette = Palette(name: string, base: string, glow: string, accent: string, overlay: string)

  const Palettes: seq<Palette> := [
    Palette("Midnight Citrus", "#0f3d3e", "rgba(231, 194, 122, 0.45)", "#e7c27a",
      "linear-gradient(145deg, rgba(7, 24, 26, 0.8) 10%, rgba(20, 72, 78, 0.6) 55%, rgba(231, 194, 122, 0.2) 100%)"),
    Palette("Ruby Velvet", "#2f1b2b", "rgba(233, 117, 94, 0.45)", "#f3a36b",
      "linear-gradient(145deg, rgba(24, 10, 22, 0.85) 10%, rgba(63, 30, 46, 0.7) 55%, rgba(243, 163, 107, 0.2) 100%)"),
    Palette("Sapphire Mist", "#102639", "rgba(104, 192, 228, 0.4)", "#69d2e7",
      "linear-gradient(145deg, rgba(8, 20, 31, 0.85) 10%, rgba(20, 59, 83, 0.7) 55%, rgba(105, 210, 231, 0.25) 100%)"),
    Palette("Golden Hour", "#3a2b1b", "rgba(255, 199, 120, 0.45)", "#f7c46c",
      "linear-gradient(145deg, rgba(24, 17, 9, 0.85) 10%, rgba(73, 48, 22, 0.7) 55%, rgba(247, 196, 108, 0.2) 100%)"),
    Palette("Verdant Smoke", "#183129", "rgba(141, 206, 144, 0.45)", "#9be29d",
      "linear-gradient(145deg, rgba(9, 19, 15, 0.85) 10%, rgba(30, 75, 55, 0.7) 55%, rgba(155, 226, 157, 0.2) 100%)")
  ]

  const ImagePool: seq<string> := [
    "https://house.suntory.com/sites/default/files/styles/card_9_16/public/2025-02/CDP_Haku_Lychee_Product.jpg.webp?itok=7Piv2iib",
    "https://house.suntory.com/sites/default/files/styles/card_9_16/public/2025-04/New%20Project%20%282%29.png.webp?itok=emCCghoC",
    "https://house.suntory.com/sites/default/files/2024-03/ROKU_SAKURA_APERITIF_LTO_SERVE_sRGB_0.jpg",
    "https://house.suntory.com/sites/default/files/2022-09/SDP_OntheRocks.jpg",
    "https://www.suntoryglobalspirits.com/sites/default/files/styles/style_28_9/public/2025-04/On-The-Rocks-Premium-Cocktails-and-The-House-of-Suntory-Debut-The-Harmony-Collection.jpg.webp?itok=QjLDFkvM"
  ]

  function Min(a: int, b: int): int { if a <= b then a else b }
  function Max(a: int, b: int): int { if a >= b then a else b }

  // ---------------------------------------------------------------------------
  // Building a round
  // ---------------------------------------------------------------------------

  /** The cocktail of the round, dressed for display. */
  datatype Target = Target(cocktail: Cocktail, id: string, palette: Palette, image: string, correctItems: seq<string>)

  datatype RoundSetup = RoundSetup(target: Target, deck: seq<string>)

  /** The three `Math.random` sources one `buildRound` consumes: the value
      that picks the cocktail and the draws of the two shuffles. */
  datatype Draws = Draws(pick: real, fillers: Rng, deck: Rng)

  ghost predicate ValidDraws(d: Draws) {
    0.0 <= d.pick < 1.0 && Uniform(d.fillers) && Uniform(d.deck)
  }

  /** Every ingredient item of every cocktail, in dataset order. */
  function AllItems(cocktails: seq<Cocktail>): (r: seq<string>)
    ensures forall i, x :: 0 <= i < |cocktails| && x in Items(cocktails[i].recipe) ==> x in r
  {
    if |cocktails| == 0 then []
    else
      var rest := AllItems(cocktails[1..]);
      assert forall i :: 1 <= i < |cocktails| ==> cocktails[i] == cocktails[1..][i - 1];
      Items(cocktails[0].recipe) + rest
  }

  /** `ingredientPool`: the distinct items of the dataset that are not
      ingredients of the target, in first-occurrence order. */
  function Pool(cocktails: seq<Cocktail>, correct: seq<string>): (r: seq<string>)
    ensures NoDup(r)
    ensures forall x :: x in r <==> x in AllItems(cocktails) && x !in correct
  {
    var p := (x: string) => x !in correct;
    var all := Dedup(AllItems(cocktails));
    FilterNoDup(all, p);
    PoolMembers(all, p);
    Filter(all, p)
  }

  lemma PoolMembers(all: seq<string>, p: string -> bool)
    ensures forall x :: x in Filter(all, p) <==> x in all && p(x)
  {
    forall x ensures x in Filter(all, p) <==> x in all && p(x) {
      FilterMembership(all, p, x);
    }
  }

  /** Enough fillers to bring the grid up to twelve cards (none when the
      recipe alone fills it), but no more than the pool holds. */
  function FillerCount(correct: seq<string>, pool: seq<string>): nat {
    Min(Max(GridSize - |correct|, 0), |pool|)
  }

  /** The first `FillerCount` items of the shuffled pool. */
  function Fillers(pool: seq<string>, correct: seq<string>, rng: Rng): (r: seq<string>)
    requires Uniform(rng) && NoDup(pool)
    ensures |r| == FillerCount(correct, pool)
    ensures NoDup(r)
    ensures forall x :: x in r ==> x in pool
  {
    var shuffled := Shuffle(pool, rng);
    PermutationNoDup(pool, shuffled);
    PrefixNoDup(shuffled, FillerCount(correct, pool));
    ShuffledPrefixMembers(pool, rng, FillerCount(correct, pool));
    shuffled[..FillerCount(correct, pool)]
  }

  lemma ShuffledPrefixMembers(pool: seq<string>, rng: Rng, n: nat)
    requires Uniform(rng) && n <= |pool|
    ensures forall x :: x in Shuffle(pool, rng)[..n] ==> x in pool
  {
    forall x | x in Shuffle(pool, rng)[..n] ensures x in pool {
      ShuffleMembers(pool, rng, x);
    }
  }

  /** The seed that picks the palette and the image. */
  function Seed(c: Cocktail): int {
    HashString(c.recipe.name + "-" + c.categoryName)
  }

  /** `buildRound(cocktails)`. The pick needs a non-empty dataset: the page
      starts a round only once the dataset has loaded. */
  function BuildRound(cocktails: seq<Cocktail>, d: Draws): (r: RoundSetup)
    requires |cocktails| > 0 && ValidDraws(d)
    ensures r.target.cocktail in cocktails
    ensures r.target.id == r.target.cocktail.categoryName + "-" + r.target.cocktail.recipe.name
    ensures NoDup(r.target.correctItems)
    ensures forall x :: x in r.target.correctItems <==> x in Items(r.target.cocktail.recipe)
    ensures NoDup(r.deck)
    ensures forall x :: x in r.target.correctItems ==> x in r.deck
    ensures forall x :: x in r.deck && x !in r.target.correctItems ==> x in AllItems(cocktails)
    ensures |r.deck| == |r.target.correctItems|
                        + Min(Max(GridSize - |r.target.correctItems|, 0), |Pool(cocktails, r.target.correctItems)|)
    ensures r.target.palette in Palettes && r.target.image in ImagePool
  {
    var target := cocktails[Draw(d.pick, |cocktails|)];
    var correct := Dedup(Items(target.recipe));
    var pool := Pool(cocktails, correct);
    var fillers := Fillers(pool, correct, d.fillers);
    ConcatNoDup(correct, fillers);
    var deck := Shuffle(correct + fillers, d.deck);
    PermutationNoDup(correct + fillers, deck);
    DeckMembers(correct, fillers, d.deck);
    var seed := Seed(target);
    RoundSetup(
      Target(target, target.categoryName + "-" + target.recipe.name,
             Palettes[JsRem(seed, |Palettes|)], ImagePool[JsRem(seed, |ImagePool|)], correct),
      deck)
  }

  lemma DeckMembers(correct: seq<string>, fillers: seq<string>, rng: Rng)
    requires Uniform(rng)
    ensures forall x :: x in Shuffle(correct + fillers, rng) <==> x in correct || x in fillers
  {
    forall x ensures x in Shuffle(correct + fillers, rng) <==> x in correct || x in fillers {
      ShuffleMembers(correct + fillers, rng, x);
    }
  }

  /** Distinct fillers come only from other recipes: none is an ingredient
      of the target. */
  lemma {:induction false} FillersDisjoint(pool: seq<string>, correct: seq<string>, cocktails: seq<Cocktail>, rng: Rng)
    requires Uniform(rng) && pool == Pool(cocktails, correct)
    ensures forall x :: x in Fillers(pool, correct, rng) ==> x !in correct && x in AllItems(cocktails)
  {
  }

  /** The palette and image indices are in bounds because the seed is never
      negative: under JavaScript's truncating `%` a negative seed would give
      a negative index, and a non-negative one gives the Euclidean remainder,
      in 0..4. */
  lemma SeedIndices(c: Cocktail)
    ensures Seed(c) >= 0
    ensures 0 <= JsRem(Seed(c), |Palettes|) < |Palettes| && JsRem(Seed(c), |Palettes|) == Seed(c) % |Palettes|
    ensures 0 <= JsRem(Seed(c), |ImagePool|) < |ImagePool| && JsRem(Seed(c), |ImagePool|) == Seed(c) % |ImagePool|
  {
    JsRemOfNonNegative(Seed(c), |Palettes|);
    JsRemOfNonNegative(Seed(c), |ImagePool|);
  }

  // ---------------------------------------------------------------------------
  // Game state
  // ---------------------------------------------------------------------------

  datatype Status = Loading | Playing | Success | Error | Timeout

  /** A `setTimeout` armed by the evaluation effect and not yet fired. */
  datatype Pending = NoTimer | NextRoundTimer(next: nat) | PenaltyTimer

  datatype Game = Game(
    round: nat,
    target: Option<Target>,
    deck: seq<string>,
    selected: seq<string>,
    score: int,
    streak: nat,
    status: Status,
    timeLeft: int,
    pending: Pending)

  /** The page at mount, before the first round is dealt. */
  const Initial: Game := Game(1, None, [], [], 0, 0, Loading, RoundTime, NoTimer)

  /** `startRound(nextRound)`: deal a new round with the full time. */
  function StartRound(g: Game, next: nat, setup: RoundSetup): (r: Game)
    ensures r.round == next && r.target == Some(setup.target) && r.deck == setup.deck
    ensures r.selected == [] && r.timeLeft == RoundTime && r.status == Playing && r.pending == NoTimer
    ensures r.score == g.score && r.streak == g.streak
  {
    g.(round := next, target := Some(setup.target), deck := setup.deck, selected := [],
       timeLeft := RoundTime, status := Playing, pending := NoTimer)
  }

  /** One second of the countdown, which runs only while playing with time left. */
  function Tick(g: Game): (r: Game)
    ensures g.status == Playing && g.timeLeft > 0 ==> r == g.(timeLeft := g.timeLeft - 1)
    ensures !(g.status == Playing && g.timeLeft > 0) ==> r == g
  {
    if g.status == Playing && g.timeLeft > 0 then g.(timeLeft := g.timeLeft - 1) else g
  }

  /** The selection without `item` (every copy of it). */
  function Remove(s: seq<string>, item: string): (r: seq<string>)
    ensures forall x :: x in r <==> x in s && x != item
    ensures NoDup(s) ==> NoDup(r)
  {
    var p := (x: string) => x != item;
    PoolMembers(s, p);
    if NoDup(s) then FilterNoDup(s, p); Filter(s, p) else Filter(s, p)
  }

  /** `toggleIngredient(item)`: ignored unless playing; otherwise the item's
      membership in the selection flips. */
  function Toggle(g: Game, item: string): (r: Game)
    ensures g.status != Playing ==> r == g
    ensures g.status == Playing ==>
              && (forall x :: x in r.selected <==> (x in g.selected) != (x == item))
              && (NoDup(g.selected) ==> NoDup(r.selected))
              && r == g.(selected := r.selected)
    ensures g.status == Playing && item !in g.selected ==> r.selected == g.selected + [item]
  {
    if g.status != Playing then g
    else if item in g.selected then g.(selected := Remove(g.selected, item))
    else
      AppendNoDup(g.selected, item);
      g.(selected := g.selected + [item])
  }

  /** Every correct item has been selected. */
  predicate AllSelected(correct: seq<string>, selected: seq<string>) {
    forall i :: 0 <= i < |correct| ==> correct[i] in selected
  }

  /** The countdown effect's timeout branch. */
  predicate TimerFires(g: Game) {
    g.status == Playing && g.timeLeft <= 0
  }

  /** The evaluation effect's guard. */
  predicate EvaluationFires(g: Game) {
    g.target.Some? && g.status == Playing && |g.selected| == |g.target.value.correctItems|
  }

  /** Both effects after a render, both reading the rendered state `g`. The
      countdown effect runs first; the evaluation's functional streak update
      then applies on top of its reset, while the score bonus reads the
      rendered streak. */
  function Settle(g: Game): (r: Game)
    ensures !TimerFires(g) && !EvaluationFires(g) ==> r == g
    ensures TimerFires(g) && !EvaluationFires(g) ==> r == g.(status := Timeout, streak := 0)
    ensures EvaluationFires(g) && AllSelected(g.target.value.correctItems, g.selected) ==>
              && r.status == Success
              && r.score == g.score + 100 + g.timeLeft * 5 + g.streak * 15
              && r.streak == (if TimerFires(g) then 1 else g.streak + 1)
              && r.pending == NextRoundTimer(g.round + 1)
    ensures EvaluationFires(g) && !AllSelected(g.target.value.correctItems, g.selected) ==>
              r.status == Error && r.streak == 0 && r.score == g.score && r.pending == PenaltyTimer
    ensures r.round == g.round && r.target == g.target && r.deck == g.deck
    ensures r.selected == g.selected && r.timeLeft == g.timeLeft
  {
    var g1 := if TimerFires(g) then g.(status := Timeout, streak := 0) else g;
    if !EvaluationFires(g) then g1
    else if AllSelected(g.target.value.correctItems, g.selected) then
      g1.(score := g.score + 100 + g.timeLeft * 5 + g.streak * 15, streak := g1.streak + 1,
          status := Success, pending := NextRoundTimer(g.round + 1))
    else g1.(status := Error, streak := 0, pending := PenaltyTimer)
  }

  /** The page as written: the evaluation effect lists `status` among its
      dependencies and changes it, so the re-render runs the cleanup of the
      run that armed the timer, and `clearTimeout` cancels it. */
  function SettleAsWritten(g: Game): (r: Game)
    ensures EvaluationFires(g) ==> r.pending == NoTimer && r.status in {Success, Error}
    ensures !EvaluationFires(g) ==> r == Settle(g)
  {
    if EvaluationFires(g) then Settle(g).(pending := NoTimer) else Settle(g)
  }

  /** `shuffleDeck()`: with cards dealt, reshuffle them, clear the selection
      and play on; the status change also cancels any armed timer. */
  function ShuffleDeck(g: Game, rng: Rng): (r: Game)
    requires Uniform(rng)
    ensures |g.deck| == 0 ==> r == g
    ensures |g.deck| > 0 ==>
              && multiset(r.deck) == multiset(g.deck)
              && r.selected == [] && r.status == Playing && r.pending == NoTimer
              && r.round == g.round && r.score == g.score && r.streak == g.streak
              && r.timeLeft == g.timeLeft && r.target == g.target
  {
    if |g.deck| == 0 then g
    else g.(deck := Shuffle(g.deck, rng), selected := [], status := Playing, pending := NoTimer)
  }

  /** `skipRound()`: lose the streak and deal the next round. */
  function SkipRound(g: Game, setup: RoundSetup): (r: Game)
    ensures r.streak == 0 && r.round == g.round + 1 && r.score == g.score
    ensures r.status == Playing && r.selected == [] && r.timeLeft == RoundTime
  {
    StartRound(g.(streak := 0), g.round + 1, setup)
  }

  /** `resetGame()`: score and streak to zero, back to round 1. */
  function ResetGame(g: Game, setup: RoundSetup): (r: Game)
    ensures r.score == 0 && r.streak == 0 && r.round == 1
    ensures r.status == Playing && r.selected == [] && r.timeLeft == RoundTime
  {
    StartRound(g.(score := 0, streak := 0), 1, setup)
  }

  /** The 700 ms penalty callback: empty selection, five seconds off (never
      below zero), playing again in the same round. */
  function Penalty(g: Game): (r: Game)
    ensures r.selected == [] && r.status == Playing && r.pending == NoTimer
    ensures r.timeLeft == (if g.timeLeft >= 5 then g.timeLeft - 5 else 0)
    ensures r.round == g.round && r.score == g.score && r.streak == g.streak
    ensures r.target == g.target && r.deck == g.deck
  {
    g.(selected := [], timeLeft := Max(g.timeLeft - 5, 0), status := Playing, pending := NoTimer)
  }

  datatype Event =
    | TickEvent
    | ToggleEvent(item: string)
    | ShuffleEvent(rng: Rng)
    | SkipEvent(d: Draws)
    | ResetEvent(d: Draws)
    | TimerEvent(d: Draws)

  ghost predicate ValidEvent(e: Event) {
    match e
    case ShuffleEvent(rng) => Uniform(rng)
    case SkipEvent(d) => ValidDraws(d)
    case ResetEvent(d) => ValidDraws(d)
    case TimerEvent(d) => ValidDraws(d)
    case _ => true
  }

  /** The handler or timer callback an event runs, before the effects. */
  function Handle(cocktails: seq<Cocktail>, g: Game, e: Event): Game
    requires |cocktails| > 0 && ValidEvent(e)
  {
    match e
    case TickEvent => Tick(g)
    case ToggleEvent(item) => Toggle(g, item)
    case ShuffleEvent(rng) => ShuffleDeck(g, rng)
    case SkipEvent(d) => SkipRound(g, BuildRound(cocktails, d))
    case ResetEvent(d) => ResetGame(g, BuildRound(cocktails, d))
    case TimerEvent(d) =>
      match g.pending
      case NoTimer => g
      case PenaltyTimer => Penalty(g)
      case NextRoundTimer(next) => StartRound(g, next, BuildRound(cocktails, d))
  }

  /** The page once the mount effect has dealt round 1. */
  function Start(cocktails: seq<Cocktail>, d: Draws): Game
    requires |cocktails| > 0 && ValidDraws(d)
  {
    Settle(StartRound(Initial, 1, BuildRound(cocktails, d)))
  }

  function Step(cocktails: seq<Cocktail>, g: Game, e: Event): Game
    requires |cocktails| > 0 && ValidEvent(e)
  {
    Settle(Handle(cocktails, g, e))
  }

  function StepAsWritten(cocktails: seq<Cocktail>, g: Game, e: Event): Game
    requires |cocktails| > 0 && ValidEvent(e)
  {
    SettleAsWritten(Handle(cocktails, g, e))
  }

  // ---------------------------------------------------------------------------
  // Invariant
  // ---------------------------------------------------------------------------

  /** What holds between events once a round is dealt: the clock stays in
      0..40 and is positive while playing; selection, deck and recipe have no
      duplicates; every ingredient of the recipe is on the table; a selection
      being played never reaches the recipe's size (it is judged the moment
      it does); and an armed timer matches the status it was armed in. */
  ghost predicate Inv(g: Game) {
    && g.target.Some?
    && g.status != Loading
    && 0 <= g.timeLeft <= RoundTime
    && NoDup(g.selected) && NoDup(g.deck) && NoDup(g.target.value.correctItems)
    && (forall x :: x in g.target.value.correctItems ==> x in g.deck)
    && g.score >= 0
    && (g.status == Playing ==> g.timeLeft > 0 && |g.selected| < |g.target.value.correctItems|)
    && (g.pending == PenaltyTimer ==> g.status == Error)
    && (g.pending.NextRoundTimer? ==> g.status == Success && g.pending.next == g.round + 1)
  }

  /** The weaker condition the handlers leave for the effects to restore. */
  ghost predicate PreInv(g: Game) {
    && g.target.Some?
    && g.status != Loading
    && 0 <= g.timeLeft <= RoundTime
    && NoDup(g.selected) && NoDup(g.deck) && NoDup(g.target.value.correctItems)
    && (forall x :: x in g.target.value.correctItems ==> x in g.deck)
    && g.score >= 0
    && (g.status == Playing ==> |g.selected| <= |g.target.value.correctItems| && g.pending == NoTimer)
    && (g.pending == PenaltyTimer ==> g.status == Error)
    && (g.pending.NextRoundTimer? ==> g.status == Success && g.pending.next == g.round + 1)
  }

  lemma SettleRestoresInv(g: Game)
    requires PreInv(g)
    ensures Inv(Settle(g)) && Inv(SettleAsWritten(g))
  {
  }

  lemma BuildRoundPreInv(g: Game, next: nat, cocktails: seq<Cocktail>, d: Draws)
    requires |cocktails| > 0 && ValidDraws(d) && g.score >= 0
    ensures PreInv(StartRound(g, next, BuildRound(cocktails, d)))
  {
  }

  lemma StartInv(cocktails: seq<Cocktail>, d: Draws)
    requires |cocktails| > 0 && ValidDraws(d)
    ensures Inv(Start(cocktails, d))
  {
    BuildRoundPreInv(Initial, 1, cocktails, d);
  }

  lemma {:induction false} HandlePreInv(cocktails: seq<Cocktail>, g: Game, e: Event)
    requires |cocktails| > 0 && ValidEvent(e) && Inv(g)
    ensures PreInv(Handle(cocktails, g, e))
  {
    match e
    case TickEvent =>
    case ToggleEvent(item) =>
    case ShuffleEvent(rng) =>
      if |g.deck| > 0 {
        var r := ShuffleDeck(g, rng);
        PermutationNoDup(g.deck, r.deck);
        forall x | x in g.target.value.correctItems ensures x in r.deck {
          ShuffleMembers(g.deck, rng, x);
        }
      }
    case SkipEvent(d) => BuildRoundPreInv(g.(streak := 0), g.round + 1, cocktails, d);
    case ResetEvent(d) => BuildRoundPreInv(g.(score := 0, streak := 0), 1, cocktails, d);
    case TimerEvent(d) =>
      match g.pending
      case NoTimer =>
      case PenaltyTimer =>
      case NextRoundTimer(next) => BuildRoundPreInv(g, next, cocktails, d);
  }

  /** Every event keeps the invariant, in the corrected page and as written;
      in particular the clock never goes negative. */
  lemma StepPreservesInv(cocktails: seq<Cocktail>, g: Game, e: Event)
    requires |cocktails| > 0 && ValidEvent(e) && Inv(g)
    ensures Inv(Step(cocktails, g, e))
    ensures Inv(StepAsWritten(cocktails, g, e))
    ensures Step(cocktails, g, e).timeLeft >= 0
  {
    HandlePreInv(cocktails, g, e);
    SettleRestoresInv(Handle(cocktails, g, e));
  }

  /** A full selection of distinct cards is judged correct exactly when it
      holds the recipe's ingredients, in any order. */
  lemma JudgedCorrectIffPermutation(g: Game)
    requires g.target.Some? && NoDup(g.selected) && NoDup(g.target.value.correctItems)
    requires |g.selected| == |g.target.value.correctItems|
    ensures AllSelected(g.target.value.correctItems, g.selected)
            <==> multiset(g.selected) == multiset(g.target.value.correctItems)
  {
    if AllSelected(g.target.value.correctItems, g.selected) {
      SameSizeCover(g.target.value.correctItems, g.selected);
    }
    if multiset(g.selected) == multiset(g.target.value.correctItems) {
      forall i | 0 <= i < |g.target.value.correctItems|
        ensures g.target.value.correctItems[i] in g.selected
      {
        assert g.target.value.correctItems[i] in multiset(g.target.value.correctItems);
      }
    }
  }

  /** Settling twice is settling once: after the effects have run, the page
      is stable until the next event. */
  lemma SettleIdempotent(g: Game)
    requires PreInv(g)
    ensures Settle(Settle(g)) == Settle(g)
    ensures SettleAsWritten(SettleAsWritten(g)) == SettleAsWritten(g)
  {
  }

  // ---------------------------------------------------------------------------
  // The cancelled timers
  // ---------------------------------------------------------------------------

  /** As written, no reachable state ever has a timer armed. */
  lemma {:induction false} AsWrittenNeverArms(cocktails: seq<Cocktail>, g: Game, e: Event)
    requires |cocktails| > 0 && ValidEvent(e) && Inv(g) && g.pending == NoTimer
    ensures StepAsWritten(cocktails, g, e).pending == NoTimer
  {
    match e
    case TimerEvent(d) =>
    case _ =>
  }

  /** As written, a wrong full selection leaves the page on 'error' for good:
      the penalty never lands, and ticks, card clicks and timer events change
      nothing. Only shuffle, skip or reset leave that state. */
  lemma WrongSelectionStuck(cocktails: seq<Cocktail>, g: Game, e: Event)
    requires |cocktails| > 0 && ValidEvent(e)
    requires EvaluationFires(g) && !AllSelected(g.target.value.correctItems, g.selected)
    requires e.TickEvent? || e.ToggleEvent? || e.TimerEvent?
    ensures SettleAsWritten(g).status == Error
    ensures StepAsWritten(cocktails, SettleAsWritten(g), e) == SettleAsWritten(g)
  {
  }

  /** As written, a solved round stays on 'success': the next round is never
      dealt by the timer. */
  lemma SolvedRoundStuck(cocktails: seq<Cocktail>, g: Game, e: Event)
    requires |cocktails| > 0 && ValidEvent(e)
    requires EvaluationFires(g) && AllSelected(g.target.value.correctItems, g.selected)
    requires e.TickEvent? || e.ToggleEvent? || e.TimerEvent?
    ensures SettleAsWritten(g).status == Success
    ensures StepAsWritten(cocktails, SettleAsWritten(g), e) == SettleAsWritten(g)
  {
  }

  /** Corrected: 700 ms after a wrong full selection the selection is
      cleared, five seconds are taken off (floored at 0) and play resumes in
      the same round with the streak lost. */
  lemma WrongSelectionPenalised(cocktails: seq<Cocktail>, g: Game, d: Draws)
    requires |cocktails| > 0 && ValidDraws(d) && PreInv(g) && g.timeLeft > 5
    requires EvaluationFires(g) && !AllSelected(g.target.value.correctItems, g.selected)
    ensures var r := Step(cocktails, Settle(g), TimerEvent(d));
            && r.status == Playing && r.selected == [] && r.timeLeft == g.timeLeft - 5
            && r.round == g.round && r.streak == 0 && r.score == g.score
  {
  }

  /** Corrected: 900 ms after a solved round the callback deals the next
      round, keeping the score and the raised streak. */
  lemma SolvedRoundAdvances(cocktails: seq<Cocktail>, g: Game, d: Draws)
    requires |cocktails| > 0 && ValidDraws(d) && g.timeLeft > 0
    requires EvaluationFires(g) && AllSelected(g.target.value.correctItems, g.selected)
    ensures var r := Handle(cocktails, Settle(g), TimerEvent(d));
            && r.round == g.round + 1 && r.status == Playing && r.selected == []
            && r.timeLeft == RoundTime && r.streak == g.streak + 1
            && r.score == g.score + 100 + g.timeLeft * 5 + g.streak * 15
  {
    var s := Settle(g);
    assert s.pending == NextRoundTimer(g.round + 1);
  }
}
