/**
  The recommendation wizard: four questions (mood, base spirit, occasion,
  glass), one per step, then a reward screen showing one random match or
  "none". Each step's buttons are shown only at that step, and "Reset" from
  step 1 on.
 */
module Wizard {
  import opened Collections
  import opened Random
  import opened Recommendation

  /** `result`: `null` before the last answer, `'none'` when nothing
      matched, otherwise the picked recipe. */
  datatype Outcome = NoResult | NoneFound | Picked(choice: Tagged)

  datatype Quiz = Quiz(step: nat, prefs: Preferences, result: Outcome)

  const NoPreferences: Preferences := Preferences(None, None, None, None)

  /** The page at mount and after `resetQuiz`. */
  const Fresh: Quiz := Quiz(0, NoPreferences, NoResult)

  function SelectMood(q: Quiz, id: string): (r: Quiz)
    ensures r.step == 1 && r.prefs == q.prefs.(mood := Some(id)) && r.result == q.result
  {
    q.(prefs := q.prefs.(mood := Some(id)), step := 1)
  }

  function SelectBase(q: Quiz, id: string): (r: Quiz)
    ensures r.step == 2 && r.prefs == q.prefs.(base := Some(id)) && r.result == q.result
  {
    q.(prefs := q.prefs.(base := Some(id)), step := 2)
  }

  function SelectOccasion(q: Quiz, id: string): (r: Quiz)
    ensures r.step == 3 && r.prefs == q.prefs.(occasion := Some(id)) && r.result == q.result
  {
    q.(prefs := q.prefs.(occasion := Some(id)), step := 3)
  }

  /** `handleGlassSelect(id)`: record the glass, run the filter on the final
      answers and pick one match at random, or report none. */
  function SelectGlass(all: seq<Tagged>, q: Quiz, id: string, pick: real): (r: Quiz)
    requires 0.0 <= pick < 1.0
    ensures r.step == 4 && r.prefs == q.prefs.(glass := Some(id))
    ensures r.result == NoneFound <==> GetRecommendations(all, r.prefs) == []
    ensures r.result.Picked? <==> GetRecommendations(all, r.prefs) != []
    ensures r.result.Picked? ==> r.result.choice in all && Matches(r.result.choice, r.prefs)
  {
    var prefs := q.prefs.(glass := Some(id));
    var recs := GetRecommendations(all, prefs);
    if |recs| > 0 then
      q.(prefs := prefs, result := Picked(recs[Draw(pick, |recs|)]), step := 4)
    else q.(prefs := prefs, result := NoneFound, step := 4)
  }

  /** `resetQuiz()`. */
  function ResetQuiz(q: Quiz): (r: Quiz)
    ensures r.step == 0 && r.prefs == NoPreferences && r.result == NoResult
  {
    Fresh
  }

  datatype Event =
    | MoodEvent(id: string)
    | BaseEvent(id: string)
    | OccasionEvent(id: string)
    | GlassEvent(id: string, pick: real)
    | ResetEvent

  /** The button for an event is on screen. */
  predicate Enabled(q: Quiz, e: Event) {
    match e
    case MoodEvent(_) => q.step == 0
    case BaseEvent(_) => q.step == 1
    case OccasionEvent(_) => q.step == 2
    case GlassEvent(_, pick) => q.step == 3 && 0.0 <= pick < 1.0
    case ResetEvent => q.step >= 1
  }

  function Step(all: seq<Tagged>, q: Quiz, e: Event): Quiz
    requires Enabled(q, e)
  {
    match e
    case MoodEvent(id) => SelectMood(q, id)
    case BaseEvent(id) => SelectBase(q, id)
    case OccasionEvent(id) => SelectOccasion(q, id)
    case GlassEvent(id, pick) => SelectGlass(all, q, id, pick)
    case ResetEvent => ResetQuiz(q)
  }

  /** What the wizard keeps true: the step is 0..4, every question before the
      current step is answered, and a result exists exactly at the last step,
      where it is 'none' when nothing matches and a match otherwise. */
  ghost predicate Valid(all: seq<Tagged>, q: Quiz) {
    && q.step <= 4
    && (q.step >= 1 ==> q.prefs.mood.Some?)
    && (q.step >= 2 ==> q.prefs.base.Some?)
    && (q.step >= 3 ==> q.prefs.occasion.Some?)
    && (q.step == 4 <==> q.result != NoResult)
    && (q.step == 4 ==> q.prefs.glass.Some?)
    && (q.result == NoneFound ==> GetRecommendations(all, q.prefs) == [])
    && (q.result.Picked? ==> q.result.choice in GetRecommendations(all, q.prefs))
  }

  lemma FreshValid(all: seq<Tagged>)
    ensures Valid(all, Fresh)
  {
  }

  /** Every enabled event keeps the wizard valid. */
  lemma StepPreservesValid(all: seq<Tagged>, q: Quiz, e: Event)
    requires Valid(all, q) && Enabled(q, e)
    ensures Valid(all, Step(all, q, e))
  {
  }

  /** The reward depends only on the mood and base answers: two quizzes that
      agree on those, whatever their occasion and glass, reach the same
      result with the same random pick. */
  lemma OutcomeIgnoresOccasionAndGlass(all: seq<Tagged>, q1: Quiz, q2: Quiz, g1: string, g2: string, pick: real)
    requires 0.0 <= pick < 1.0
    requires q1.prefs.mood == q2.prefs.mood && q1.prefs.base == q2.prefs.base
    ensures SelectGlass(all, q1, g1, pick).result == SelectGlass(all, q2, g2, pick).result
  {
    var p1 := q1.prefs.(glass := Some(g1));
    var p2 := q2.prefs.(glass := Some(g2));
    OccasionAndGlassIgnored(all, p1, p2.occasion, p2.glass);
    assert p1.(occasion := p2.occasion, glass := p2.glass) == p2;
  }

  /** Answering "surprise" and "any" always finds a recipe when the dataset
      has one. */
  lemma SurpriseAnyFinds(all: seq<Tagged>, q: Quiz, g: string, pick: real)
    requires 0.0 <= pick < 1.0 && |all| > 0
    requires q.prefs.mood == Some("surprise") && q.prefs.base == Some("any")
    ensures SelectGlass(all, q, g, pick).result.Picked?
  {
    AnySurpriseIsEverything(all, q.prefs.(glass := Some(g)));
  }
}
