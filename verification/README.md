# Cocktail app core, modelled in Dafny

This project models the logic under the React pages of a cocktail web app.
The app has six pieces of logic:

- **Recipe tagger and recommender.** `useCocktailRecommendation` tags every recipe with a base spirit and
  taste profiles, then filters the tagged list by mood and base.
- **Hangman trivia game.** The player guesses letters of an answer, with five wrong guesses allowed per
  question.
- **Ingredient-matching game.** A random cocktail's ingredients are dealt, with filler ingredients, into a
  grid. The grid has up to twelve cards, or more when the recipe alone has more ingredients. The player
  picks the recipe's cards against a 40-second countdown, with a time and streak bonus for each solved round.
- **Image-guessing game.** There are four fixed rounds. Each shows a photograph and offers every display
  name as an option. A 12-second countdown starts once the image has loaded.
- **Search page.** It filters recipes by substring and category. It also computes a category hue and a badge
  label.
- **Recommendation wizard.** It asks four questions and then shows one random match or "none".

Every page is a state value and a set of pure transition functions, one per user action, timer firing or
image event. A handler that changes state is followed by the page's effects, which run on the rendered
state. `Math.random` becomes an explicit oracle (`Random.Rng`, a map from draw number to a real in [0, 1)).
Timers and image loading become events. The recipe and trivia data are parameters.

Modules:

| module | file | what it is |
|---|---|---|
| `Text` | `text.dfy` | ASCII case mapping, substring containment (`includes`), `join`, `trim` |
| `Collections` | `collections.dfy` | `Option`, `filter`, insertion-ordered de-duplication (`Array.from(new Set(..))`), duplicate-freedom |
| `Random` | `random.dfy` | the random oracle, `Math.floor(Math.random() * n)`, the Fisher–Yates `shuffle` |
| `StringHash` | `hash.dfy` | `hashString` with JavaScript's 32-bit integer semantics written out |
| `Dataset` | `dataset.dfy` | recipes and categories, and the flattening every page does |
| `Labels` | `labels.dfy` | `getSpiritLabel` |
| `Recommendation` | `recommendation.dfy` | `analyzeProfile`, `allCocktails`, `getRecommendations` |
| `Hangman` | `hangman.dfy` | the trivia session |
| `IngredientGame` | `finder.dfy` | the ingredient-matching round and its timers |
| `ImageGame` | `bottle.dfy` | the image multiple-choice session |
| `Search` | `search.dfy` | search strings, the filter, categories, hue, badge |
| `Wizard` | `wizard.dfy` | the five-step recommendation wizard |

## Model

| member | source | states |
|---|---|---|
| `Recommendation.AnalyzeBaseIsFirstRule` | src/hooks/useCocktailRecommendation.js:11-18 | The base-spirit if/else chain is the first rule that fires, in the fixed priority vodka > gin > tequila or mezcal > bourbon, whiskey, whisky or rye > rum. When no rule fires the base is `other`. |
| `Recommendation.AnalyzeBaseOther` | src/hooks/useCocktailRecommendation.js:11-18 | The base stays `other` exactly when no keyword of any rule occurs in the lower-cased category. |
| `Recommendation.ProfilesFrom` | src/hooks/useCocktailRecommendation.js:21-40 | The pushed list is never empty and has no duplicates. Each of refreshing, fruity and strong is present iff its rule fired. `balanced` is present iff no rule fired, and then it stands alone. Otherwise the tags are in the order refreshing, fruity, strong. |
| `Recommendation.AnalyzeProfiles` | src/hooks/useCocktailRecommendation.js:21-40 | The same five facts, stated with the three rules over the recipe's ingredient names. |
| `Recommendation.SomeMentions` | src/hooks/useCocktailRecommendation.js:24-31 | `some(i => i.includes(w1) \|\| ...)` holds iff some ingredient contains one of the words. |
| `Recommendation.SomeJuiceWithoutLime` | src/hooks/useCocktailRecommendation.js:34 | The sour exclusion holds iff some ingredient contains "juice" and not "lime". |
| `Recommendation.RulesOnLowered` | src/hooks/useCocktailRecommendation.js:6-37 | Each rule applied to the lower-cased ingredient list is the rule as stated. Refreshing and fruity need a substring match. Strong needs an ingredient exactly equal to "vermouth" or "bitters" and no juice without lime. |
| `Recommendation.AllCocktails` | src/hooks/useCocktailRecommendation.js:48-56 | There is one tagged record per flattened recipe, in dataset order, each tagged from its own recipe. |
| `Recommendation.AllCocktailsFromSource` | src/hooks/useCocktailRecommendation.js:48-56 | Recipe `j` of category `ci` is tagged record `Offset(ci) + j`. It carries its category's name and the base derived from that name. |
| `Recommendation.GetRecommendations` | src/hooks/useCocktailRecommendation.js:61-65 | The result is exactly the records matching base (`any` or equal) and mood (`surprise` or a member of the profiles). Each record keeps its multiplicity, in dataset order. |
| `Recommendation.AnySurpriseIsEverything` | src/hooks/useCocktailRecommendation.js:62-64 | Base `any` with mood `surprise` returns the whole tagged dataset. |
| `Recommendation.RefilterUnchanged` | src/hooks/useCocktailRecommendation.js:61-65 | Filtering a result again with the same preferences leaves it unchanged. |
| `Recommendation.OccasionAndGlassIgnored` | src/hooks/useCocktailRecommendation.js:61-65 | The occasion and glass answers never change the result. |
| `Hangman.Normalize` | src/pages/ExpertGamePage.jsx:11-16 | The prompt comes from the spaced key unless that key is missing or empty. The answer is upper-cased. |
| `Hangman.NormalizeLetters` | src/pages/ExpertGamePage.jsx:11-16 | After normalising, the letters to guess are exactly the capitals of the raw answer's ASCII letters, in either case, and nothing else. |
| `Hangman.SolvedIffLettersGuessed` | src/pages/ExpertGamePage.jsx:33-35 | A level is solved iff every A–Z letter of the answer has been guessed. Other characters never need guessing. |
| `Hangman.HandleGuess` | src/pages/ExpertGamePage.jsx:45-55 | A guess does nothing unless the state is playing and the letter is new. A new letter is added to the guessed set. The wrong count rises by one iff the answer lacks the letter. |
| `Hangman.MissesAdd` | src/pages/ExpertGamePage.jsx:48-54 | Adding a new letter adds it to the missed letters iff the answer lacks it. |
| `Hangman.CheckOutcome` | src/pages/ExpertGamePage.jsx:30-43 | The solved check comes first. A solved level becomes `won_level` and scores 100 + (5 − wrong)·20. An unsolved level with wrong ≥ 5 becomes `game_over`. Any other state is left alone. |
| `Hangman.HandleNextLevel` | src/pages/ExpertGamePage.jsx:57-66 | While a question remains, the index advances with a clean slate. Otherwise the state becomes `completed`. The index stays below the question count. |
| `Hangman.HandleRestart` | src/pages/ExpertGamePage.jsx:68-74 | Restart resets the index, guesses, wrong count and score, and sets playing. |
| `Hangman.StartValid` | src/pages/ExpertGamePage.jsx:18-43 | The mounted page satisfies the session invariant. |
| `Hangman.StepPreservesValid` | src/pages/ExpertGamePage.jsx:30-74 | Every action keeps the invariant. The index stays in range. The wrong count always equals the number of guessed letters absent from the answer, and stays at most 5. A level still in play is neither solved nor lost. The score is never negative. |
| `Hangman.RunKeepsLevelInv` | src/pages/ExpertGamePage.jsx:30-55 | Through any sequence of guesses on one question, the guessed set is the set of letters tried and the wrong count equals the misses. |
| `Hangman.GuessKeepsLevelInv` | src/pages/ExpertGamePage.jsx:30-55 | One guess followed by the outcome effect keeps the level invariant, with the letter added to those tried. |
| `Hangman.FiveMissesEndGame` | src/pages/ExpertGamePage.jsx:24-55 | On a fresh question, guesses that include five distinct letters absent from the answer end in `game_over`, in any order, as long as some letter of the answer stays unguessed. |
| `Hangman.StepScore` | src/pages/ExpertGamePage.jsx:37-39 | A step either keeps the score or wins a level for between 100 and 200 points. A restart starts again from 0. |
| `Random.Shuffle` | src/pages/CocktailFinderGame.jsx:76-83 | `shuffle` returns a permutation of its input: same length, same multiset. |
| `Random.FisherYates` | src/pages/CocktailFinderGame.jsx:78-81 | The swap loop from the last index down preserves length and multiset. |
| `Random.ShuffleMembers` | src/pages/BottleWhispererPage.jsx:32-39 | A shuffled list has exactly the members of its input. |
| `Random.Draw` | src/pages/CocktailFinderGame.jsx:79 | `Math.floor(Math.random() * n)` is an index below `n`. |
| `StringHash.ToInt32` | src/pages/CocktailFinderGame.jsx:70-71 | The 32-bit wrap gives a signed 32-bit value congruent to its input modulo 2^32. |
| `StringHash.HashStepIsTimes31` | src/pages/CocktailFinderGame.jsx:70-71 | `(hash << 5) - hash + code`, wrapped, is `31·hash + code` wrapped once. |
| `StringHash.HashString` | src/pages/CocktailFinderGame.jsx:67-74 | The hash is non-negative and at most 2^31. |
| `StringHash.JsRem` | src/pages/CocktailFinderGame.jsx:103-105 | JavaScript's `%` gives a remainder with the dividend's sign and a magnitude below the divisor. It completes the quotient truncated toward zero. |
| `StringHash.JsRemOfNonNegative` | src/pages/CocktailFinderGame.jsx:103-105 | On a non-negative dividend JavaScript's `%` equals the Euclidean remainder and is a valid index below the divisor. |
| `StringHash.JsRemOfNegative` | src/pages/CocktailFinderGame.jsx:103-105 | On a negative dividend the two remainders differ: `-7 % 5` is `-2` in JavaScript, so a negative hash would give a negative index. |
| `Labels.LeadingRun` | src/pages/BottleWhispererPage.jsx:43 | The match of `/^[A-Za-z ]+/` is the longest prefix of letters and spaces. |
| `Labels.SpiritLabel` | src/pages/BottleWhispererPage.jsx:41-45 | A missing or empty name gives "Spirit". A name not starting with a letter or space is returned whole. Otherwise the label is the trimmed maximal leading run of letters and spaces. |
| `Text.ContainsIff` | src/hooks/useCocktailRecommendation.js:24-26 | `includes` holds exactly when the needle occurs at some position of the string. |
| `Text.Trim` | src/pages/BottleWhispererPage.jsx:44 | `trim` strips only leading and trailing white space, and the result neither starts nor ends with white space. |
| `Dataset.FlattenIndex` | src/pages/CocktailFinderGame.jsx:121-128 | Recipe `j` of category `ci` sits at position `Offset(ci) + j` of the flattened list, labelled with its category. |
| `Dataset.FlattenOrigin` | src/pages/CocktailFinderGame.jsx:121-128 | Every flattened record is some recipe of some category, carrying that category's name. |
| `IngredientGame.Pool` | src/pages/CocktailFinderGame.jsx:94-98 | The ingredient pool is duplicate-free. It holds exactly the dataset's items that are not correct items. |
| `IngredientGame.Fillers` | src/pages/CocktailFinderGame.jsx:100-101 | There are min(max(12 − \|correct\|, 0), \|pool\|) fillers, all distinct, all from the pool. |
| `IngredientGame.FillersDisjoint` | src/pages/CocktailFinderGame.jsx:94-101 | No filler is a correct item, and every filler is an item of the dataset. |
| `IngredientGame.BuildRound` | src/pages/CocktailFinderGame.jsx:91-117 | The target is a dataset cocktail. Its correct items are its distinct ingredient names. The deck has no duplicates and contains every correct item, and its other cards are dataset items. The deck size is \|correct\| + min(max(12 − \|correct\|, 0), \|pool\|). The palette and image come from the fixed tables. |
| `IngredientGame.SeedIndices` | src/pages/CocktailFinderGame.jsx:103-105 | The seed is never negative, so JavaScript's `seed % 5` equals the Euclidean remainder. It is a valid index into both the palette table and the image table. |
| `IngredientGame.StartRound` | src/pages/CocktailFinderGame.jsx:139-149 | A new round has the dealt target and deck, an empty selection, 40 seconds and playing status. Score and streak are kept. |
| `IngredientGame.Tick` | src/pages/CocktailFinderGame.jsx:157-166 | A second passes only while playing with time left, and takes exactly one second off. |
| `IngredientGame.Toggle` | src/pages/CocktailFinderGame.jsx:168-175 | Nothing changes unless playing. Otherwise exactly the item's membership flips: a new item is appended, and a present one is removed with all its copies. Duplicate-freedom is kept. |
| `IngredientGame.Settle` | src/pages/CocktailFinderGame.jsx:157-200 | Evaluation fires only on a full selection while playing. A full match adds 100 + timeLeft·5 + streak·15, using the pre-increment streak, raises the streak and sets `success`. A wrong one sets `error` and zeroes the streak. At 0 seconds without a full selection the round times out and the streak is zeroed. |
| `IngredientGame.JudgedCorrectIffPermutation` | src/pages/CocktailFinderGame.jsx:179-181 | A full selection of distinct cards is judged correct iff it is a permutation of the correct items. |
| `IngredientGame.Penalty` | src/pages/CocktailFinderGame.jsx:194-198 | The penalty clears the selection, takes 5 seconds off (floored at 0) and resumes play. The round, score and streak stay. |
| `IngredientGame.ShuffleDeck` | src/pages/CocktailFinderGame.jsx:202-207 | With cards dealt, the deck keeps its multiset, the selection is cleared and play resumes. With no cards nothing changes. |
| `IngredientGame.SkipRound` | src/pages/CocktailFinderGame.jsx:209-212 | Skip zeroes the streak and advances the round by one, keeping the score. |
| `IngredientGame.ResetGame` | src/pages/CocktailFinderGame.jsx:214-218 | Reset zeroes score and streak and deals round 1. |
| `IngredientGame.StartInv` | src/pages/CocktailFinderGame.jsx:151-155 | The page after the mount effect satisfies the game invariant. |
| `IngredientGame.StepPreservesInv` | src/pages/CocktailFinderGame.jsx:139-218 | Every event keeps the invariant, both in the corrected page and as written. The clock stays in 0..40 and is positive while playing. Selection and deck stay duplicate-free and the deck holds every correct item. A selection in play stays below the recipe's size. |
| `IngredientGame.SettleIdempotent` | src/pages/CocktailFinderGame.jsx:157-200 | Running the effects again on a settled state changes nothing. |
| `IngredientGame.SettleAsWritten` | src/pages/CocktailFinderGame.jsx:177-200 | As written, any evaluation ends with no timer armed, in `success` or `error`. |
| `IngredientGame.AsWrittenNeverArms` | src/pages/CocktailFinderGame.jsx:177-200 | As written, no event leaves a timer armed. |
| `IngredientGame.WrongSelectionStuck` | src/pages/CocktailFinderGame.jsx:192-199 | As written, after a wrong full selection, ticks, card clicks and timer events change nothing. The page stays on `error`. |
| `IngredientGame.SolvedRoundStuck` | src/pages/CocktailFinderGame.jsx:182-189 | As written, after a correct selection, ticks, card clicks and timer events change nothing. The page stays on `success`. |
| `IngredientGame.WrongSelectionPenalised` | src/pages/CocktailFinderGame.jsx:192-198 | Corrected: the penalty timer clears the selection and takes 5 seconds off. Play resumes in the same round with the streak lost. |
| `IngredientGame.SolvedRoundAdvances` | src/pages/CocktailFinderGame.jsx:182-189 | Corrected: the next-round timer deals round + 1 with a full clock. It keeps the increased score and raised streak. |
| `ImageGame.FindByName` | src/pages/BottleWhispererPage.jsx:50-52 | `find` yields the first cocktail with the name, or none iff no cocktail has it. |
| `ImageGame.PickTarget` | src/pages/BottleWhispererPage.jsx:50-52 | The target is the first cocktail with the entry's name when one exists, and always a dataset cocktail. |
| `ImageGame.BuildRounds` | src/pages/BottleWhispererPage.jsx:47-63 | There is one round per image entry, with ids 1..n and the entry's image and display name. Each round's options are a permutation of all display names. |
| `ImageGame.AnswerOffered` | src/pages/BottleWhispererPage.jsx:48-53 | Every round offers its own correct answer. |
| `ImageGame.EnterRound` | src/pages/BottleWhispererPage.jsx:104-126 | Entering a round clears the selection and the answered flag, sets the clock to 12 and leaves the timer inactive. |
| `ImageGame.ImageLoaded` | src/pages/BottleWhispererPage.jsx:116-120 | A successful load shows the image, sets the status to "Ready" and starts the countdown. |
| `ImageGame.OnlyLoadStartsTimer` | src/pages/BottleWhispererPage.jsx:104-140 | No event other than a successful image load turns a stopped countdown on. |
| `ImageGame.ImageFailed` | src/pages/BottleWhispererPage.jsx:121-124 | A load error leaves the timer as it was and the clock untouched. |
| `ImageGame.TimerEffect` | src/pages/BottleWhispererPage.jsx:128-134 | At zero, an active unanswered round becomes answered with the timer off. XP and selection are unchanged. |
| `ImageGame.Tick` | src/pages/BottleWhispererPage.jsx:128-140 | The clock moves only while active, unanswered and positive, by exactly one second. XP is unchanged. |
| `ImageGame.Answer` | src/pages/BottleWhispererPage.jsx:142-155 | An answer is ignored once the round is answered. Otherwise it is recorded and the timer stops. A correct answer adds 120 + the time bonus, and a wrong one adds nothing. |
| `ImageGame.AnswerOnce` | src/pages/BottleWhispererPage.jsx:142-147 | A second answer in the same round changes nothing. |
| `ImageGame.TimeBonusIsFloor` | src/pages/BottleWhispererPage.jsx:152 | The integer bonus is the exact floor of (timeLeft / 12)·100. |
| `ImageGame.CorrectAnswerXp` | src/pages/BottleWhispererPage.jsx:149-154 | A correct answer with 10 seconds left earns 203. Any correct answer earns between 120 and 220. |
| `ImageGame.ClearSelection` | src/pages/BottleWhispererPage.jsx:385-392 | Clearing forgets the chosen answer and leaves the round, XP, clock and timer unchanged. The step offers it only before the round is answered, as the button is shown. |
| `ImageGame.NextRound` | src/pages/BottleWhispererPage.jsx:157-163 | The round advances until the last one. After that the game is completed. XP is kept. |
| `ImageGame.StartGame` | src/pages/BottleWhispererPage.jsx:90-96 | Start resets the current round to 0 and XP to 0 with fresh rounds, and does nothing before the dataset loads. |
| `ImageGame.StartValid` | src/pages/BottleWhispererPage.jsx:90-126 | A started game satisfies the session invariant. |
| `ImageGame.StepPreservesValid` | src/pages/BottleWhispererPage.jsx:90-167 | Every event keeps the invariant. The round stays in range and the clock in 0..12. The timer runs only over a loaded image. Options stay permutations of the names. XP is at most 220 per round reached. |
| `ImageGame.XpBound` | src/pages/BottleWhispererPage.jsx:142-163 | Total XP never exceeds 220 per round. |
| `ImageGame.FailedImageFreezesClock` | src/pages/BottleWhispererPage.jsx:121-140 | After a load error, any number of ticks leaves the state unchanged. |
| `ImageGame.ClockRunsOut` | src/pages/BottleWhispererPage.jsx:116-140 | After a load, twelve ticks end the round answered, with no selection and no XP. |
| `Search.RawHasFields` | src/pages/SearchPage.jsx:31-36 | A term that occurs, in any letter case, in the name, the category, an ingredient item or a history fact is found in the lower-cased search string. |
| `Search.MakeEntry` | src/pages/SearchPage.jsx:26-38 | Each record keeps its recipe. Every term naming a piece of one of its fields, in any letter case, is found in its search string once the term is lower-cased. |
| `Search.AllEntries` | src/pages/SearchPage.jsx:26-38 | There is one entry per flattened recipe, in dataset order, each built from its own recipe. |
| `Search.FilteredCocktails` | src/pages/SearchPage.jsx:46-52 | A recipe is shown iff its search string contains the lower-cased term and the category is `All` or equal. The result is an order-preserving subsequence. |
| `Search.EmptySearchShowsAll` | src/pages/SearchPage.jsx:48-49 | The empty term with `All` shows every recipe. |
| `Search.SearchFindsFields` | src/pages/SearchPage.jsx:31-52 | Searching any piece of a recipe's name, category, ingredient items or history, in any case, finds it. |
| `Search.MixedCaseFound` | src/pages/SearchPage.jsx:46-52 | The term "MOJITO" finds the recipe named "Mojito". |
| `Search.LongerTermFewerResults` | src/pages/SearchPage.jsx:46-52 | When t1 occurs in t2, the results for t2 are an order-preserving part of the results for t1. |
| `Search.CategoryNarrows` | src/pages/SearchPage.jsx:49 | Choosing a category keeps exactly that category's recipes among those the term finds. |
| `Search.Categories` | src/pages/SearchPage.jsx:41-44 | The list is `All` followed by the distinct category names, and no name is missing. |
| `Search.CategoriesSnoc` | src/pages/SearchPage.jsx:42 | Names keep first-occurrence order: a new category appends its name, and a repeated one adds nothing. |
| `Search.CategoryHue` | src/pages/SearchPage.jsx:16-19 | JavaScript's `hash % 360` lies in [0, 360) and equals the Euclidean remainder, because the hash is never negative. |
| `Search.SameHueIffHashesAgreeMod360` | src/pages/SearchPage.jsx:16-19 | Two categories share a hue exactly when their hashes differ by a multiple of 360. |
| `Search.SplitHeadIsLeftmostMatch` | src/pages/SearchPage.jsx:147 | The first piece of the split ends where the leftmost match of white space, dash, white space begins. With no dash it is the whole name. |
| `Search.BadgeIsTextBeforeDash` | src/pages/SearchPage.jsx:147 | The badge is the trimmed text before the first `-` or en dash. |
| `Wizard.SelectMood` | src/pages/FindDrinkPage.jsx:72-75 | Records the mood and sets step 1, keeping the other answers. |
| `Wizard.SelectBase` | src/pages/FindDrinkPage.jsx:77-80 | Records the base and sets step 2. |
| `Wizard.SelectOccasion` | src/pages/FindDrinkPage.jsx:82-85 | Records the occasion and sets step 3. |
| `Wizard.SelectGlass` | src/pages/FindDrinkPage.jsx:87-100 | Records the glass and sets step 4. The result is `none` iff the recommendations are empty. Otherwise it is a matching recipe of the dataset. |
| `Wizard.ResetQuiz` | src/pages/FindDrinkPage.jsx:102-106 | Reset restores step 0, all-null answers and a null result. |
| `Wizard.FreshValid` | src/pages/FindDrinkPage.jsx:10-12 | The initial wizard satisfies the invariant. |
| `Wizard.StepPreservesValid` | src/pages/FindDrinkPage.jsx:72-106 | The step stays in 0..4 and every earlier question is answered. A result exists exactly at step 4. `none` means no recipe matched, and a pick is one of the matches. |
| `Wizard.OutcomeIgnoresOccasionAndGlass` | src/pages/FindDrinkPage.jsx:92 | Quizzes that agree on mood and base reach the same result with the same random pick. |
| `Wizard.SurpriseAnyFinds` | src/pages/FindDrinkPage.jsx:92-99 | `surprise` with `any` always picks a recipe when the dataset is not empty. |

## Left out

- Rendering is not modelled: JSX markup, animations, styling classes and icons. Navigation, `App.jsx` routing, the
  Tailwind configuration and the offline spreadsheet conversion script are left out too; none of them is runtime logic.
- `toLowerCase` / `toUpperCase` are modelled as ASCII case mapping. Unicode case mapping is not modelled.
- White space for `trim` and for the `\s` class is a fixed set: the ASCII white space, no-break space, the line and
  paragraph separators and the byte-order mark. The other Unicode space separators are not listed.
- `StringHash.HashString`: each Dafny character counts as one UTF-16 code unit. A character outside the Basic
  Multilingual Plane, which JavaScript sees as two surrogate units, is hashed as one unit.
- Floating point: the time bonus `Math.floor((t / 12) * 100)` is the integer `(t * 100) / 12`. `ImageGame.TimeBonusIsFloor`
  proves this equals the floor of the exact quotient for t in 0..12.
- `Math.random` gives each call site its own oracle: the cocktail pick, each shuffle, each round of the image
  game, the wizard's pick. One shared random stream is not modelled. Only the range [0, 1) of each value matters.
- Real time is not modelled. Each `setTimeout` / `setInterval` firing is a discrete event. The 700 ms and 900 ms
  delays are the `TimerEvent` of the ingredient game, and the relative timing of competing timers is left out.
- Image loading is reduced to load and error events for the round on screen. A late event from an earlier
  round's image, and the "Retry" button's page reload, are left out.
- Display-only state is left out: the progress bar, the hint ingredients, the rarity map, the `hsl(...)` colour
  string (only its hue is modelled) and the text of the palette, loading status and badge markup.
- `Hangman.Start`, `Hangman.Step`: the page reads the first question on mount, so an empty question list is
  excluded by a precondition, where the page would fail.
- `IngredientGame.BuildRound`: picking a cocktail from an empty dataset fails in the page. The page deals a round
  only once the dataset is non-empty, so the model requires a non-empty dataset.
- `ImageGame.Answer`: the page reads the current round's answer, which exists whenever the options are on screen,
  so the model requires a current round.
- `Recommendation.AnalyzeProfiles`: `analyzeProfile` also lower-cases the recipe's method (the `preparation` field), but never uses it.
  A recipe without a method makes the page fail, and that failure is not modelled.
- `Wizard.Step`: an event is accepted only when its button is on screen. The handlers themselves are unconditional
  and are modelled as such.

## Findings

| source | as written | input that shows it | evidently intended | confidence | as-written member | corrected member |
|---|---|---|---|---|---|---|
| src/pages/CocktailFinderGame.jsx:192-199 | The evaluation effect depends on `status` and sets `status` to `error` itself. The re-render that causes runs the effect's cleanup, which cancels the 700 ms penalty timer before it fires. | Any wrong full selection, e.g. a one-ingredient recipe with a different card selected. | 700 ms later the selection is cleared, 5 seconds are taken off and play resumes. | high; not executed | `IngredientGame.WrongSelectionStuck` | `IngredientGame.WrongSelectionPenalised` |
| src/pages/CocktailFinderGame.jsx:182-189 | The same dependency cancels the 900 ms next-round timer after `status` becomes `success`. | Any correct full selection. | 900 ms later the next round is dealt. | high; not executed | `IngredientGame.SolvedRoundStuck` | `IngredientGame.SolvedRoundAdvances` |

Under both rows the page stays on `error` or `success` until the player shuffles, skips or resets.
`IngredientGame.Step` is the corrected page, and it keeps the armed timer until it fires.
`IngredientGame.StepAsWritten` cancels the timer, as the page does.
