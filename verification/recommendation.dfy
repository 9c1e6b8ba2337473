/**
  The recommendation hook: every recipe is tagged with a base spirit (from its
  category name) and a list of taste profiles (from its ingredient names), and
  `getRecommendations` filters the tagged list by a base and a mood.
 */
module Recommendation {
  import opened Text
  import opened Collections
  import opened Dataset

  datatype Base = Vodka | Gin | Agave | Whisky | Rum | Other {
    /** The tag string the page stores in `base`. */
    function Name(): string {
      match this
      case Vodka => "vodka"
      case Gin => "gin"
      case Agave => "agave"
      case Whisky => "whisky"
      case Rum => "rum"
      case Other => "other"
    }
  }

  datatype Profile = Refreshing | Fruity | Strong | Balanced {
    function Name(): string {
      match this
      case Refreshing => "refreshing"
      case Fruity => "fruity"
      case Strong => "strong"
      case Balanced => "balanced"
    }
  }

  /** A flattened recipe with its two derived tags. */
  datatype Tagged = Tagged(cocktail: Cocktail, base: Base, profiles: seq<Profile>)

  /** The answers the wizard collects; `null` is `None`. Only `mood` and
      `base` take part in the filter. */
  datatype Preferences = Preferences(
    mood: Option<string>,
    base: Option<string>,
    occasion: Option<string>,
    glass: Option<string>)

  // ---------------------------------------------------------------------------
  // Keyword tables
  // ---------------------------------------------------------------------------

  const AgaveWords: seq<string> := ["tequila", "mezcal"]
  const WhiskyWords: seq<string> := ["bourbon", "whiskey", "whisky", "rye"]

  /** The base rules in the order they are tried; the first that fires wins. */
  const BaseRules: seq<(seq<string>, Base)> :=
    [(["vodka"], Vodka), (["gin"], Gin), (AgaveWords, Agave), (WhiskyWords, Whisky), (["rum"], Rum)]

  const RefreshingWords: seq<string> := ["lime", "lemon", "soda", "tonic", "ginger beer"]
  const FruityWords: seq<string> := ["juice", "syrup", "grenadine", "cassis", "cream"]
  /** Matched by exact equality with a whole ingredient name, not by substring. */
  const StrongNames: seq<string> := ["vermouth", "bitters"]

  /** `s` contains at least one of `words` (a chain of `includes` joined by `||`). */
  predicate MentionsAny(s: string, words: seq<string>) {
    exists w :: w in words && Contains(s, w)
  }

  // ---------------------------------------------------------------------------
  // Base spirit
  // ---------------------------------------------------------------------------

  /** The base-spirit branch of `analyzeProfile`, as the if/else-if chain of the
      hook. No rule firing leaves `Other`; so does an empty category. */
  function AnalyzeBase(category: string): Base {
    var c := Lower(category);
    if category == "" then Other
    else if Contains(c, "vodka") then Vodka
    else if Contains(c, "gin") then Gin
    else if Contains(c, "tequila") || Contains(c, "mezcal") then Agave
    else if Contains(c, "bourbon") || Contains(c, "whiskey") || Contains(c, "whisky") || Contains(c, "rye") then Whisky
    else if Contains(c, "rum") then Rum
    else Other
  }

  /** Reference reading of the rule table: the base of the first rule that
      fires, or `Other`. */
  function FirstRule(rules: seq<(seq<string>, Base)>, c: string): Base {
    if |rules| == 0 then Other
    else if MentionsAny(c, rules[0].0) then rules[0].1
    else FirstRule(rules[1..], c)
  }

  /** The if/else chain is exactly "first rule of the table that fires". */
  lemma AnalyzeBaseIsFirstRule(category: string)
    ensures AnalyzeBase(category) == FirstRule(BaseRules, Lower(category))
  {
    var c := Lower(category);
    assert MentionsAny(c, ["vodka"]) <==> Contains(c, "vodka");
    assert MentionsAny(c, ["gin"]) <==> Contains(c, "gin");
    assert MentionsAny(c, AgaveWords) <==> Contains(c, "tequila") || Contains(c, "mezcal");
    assert MentionsAny(c, WhiskyWords)
      <==> Contains(c, "bourbon") || Contains(c, "whiskey") || Contains(c, "whisky") || Contains(c, "rye");
    assert MentionsAny(c, ["rum"]) <==> Contains(c, "rum");
    var r1 := BaseRules[1..];
    var r2 := r1[1..];
    var r3 := r2[1..];
    var r4 := r3[1..];
    assert r4 == [(["rum"], Rum)] && r4[1..] == [];
    assert FirstRule(r4, c) == if Contains(c, "rum") then Rum else Other;
    assert FirstRule(r3, c) == if MentionsAny(c, WhiskyWords) then Whisky else FirstRule(r4, c);
    assert FirstRule(r2, c) == if MentionsAny(c, AgaveWords) then Agave else FirstRule(r3, c);
    assert FirstRule(r1, c) == if Contains(c, "gin") then Gin else FirstRule(r2, c);
    assert FirstRule(BaseRules, c) == if Contains(c, "vodka") then Vodka else FirstRule(r1, c);
  }

  /** The base stays `Other` exactly when no keyword of any rule occurs in the
      lower-cased category name. */
  lemma AnalyzeBaseOther(category: string)
    ensures AnalyzeBase(category) == Other
        <==> forall k :: 0 <= k < |BaseRules| ==> !MentionsAny(Lower(category), BaseRules[k].0)
  {
    AnalyzeBaseIsFirstRule(category);
    FirstRuleOther(BaseRules, Lower(category));
  }

  lemma {:induction false} FirstRuleOther(rules: seq<(seq<string>, Base)>, c: string)
    requires forall k :: 0 <= k < |rules| ==> rules[k].1 != Other
    ensures FirstRule(rules, c) == Other <==> forall k :: 0 <= k < |rules| ==> !MentionsAny(c, rules[k].0)
  {
    if |rules| > 0 {
      FirstRuleOther(rules[1..], c);
      assert forall k :: 1 <= k < |rules| ==> rules[k] == rules[1..][k - 1];
    }
  }

  // ---------------------------------------------------------------------------
  // Taste profiles
  // ---------------------------------------------------------------------------

  /** Some ingredient contains at least one of `words`, scanning left to right. */
  function SomeMentions(ings: seq<string>, words: seq<string>): (b: bool)
    ensures b <==> exists i :: 0 <= i < |ings| && MentionsAny(ings[i], words)
  {
    if |ings| == 0 then false
    else MentionsAny(ings[0], words) || SomeMentions(ings[1..], words)
  }

  /** Some ingredient contains "juice" but not "lime" (the sour exclusion). */
  function SomeJuiceWithoutLime(ings: seq<string>): (b: bool)
    ensures b <==> exists i :: 0 <= i < |ings| && Contains(ings[i], "juice") && !Contains(ings[i], "lime")
  {
    if |ings| == 0 then false
    else (Contains(ings[0], "juice") && !Contains(ings[0], "lime")) || SomeJuiceWithoutLime(ings[1..])
  }

  predicate RefreshingRule(items: seq<string>) {
    exists i :: 0 <= i < |items| && MentionsAny(Lower(items[i]), RefreshingWords)
  }

  predicate FruityRule(items: seq<string>) {
    exists i :: 0 <= i < |items| && MentionsAny(Lower(items[i]), FruityWords)
  }

  /** Some ingredient is exactly "vermouth" or "bitters" (after lower-casing),
      and no ingredient mentions "juice" without also mentioning "lime". */
  predicate StrongRule(items: seq<string>) {
    && (exists i :: 0 <= i < |items| && Lower(items[i]) in StrongNames)
    && !(exists i :: 0 <= i < |items| && Contains(Lower(items[i]), "juice") && !Contains(Lower(items[i]), "lime"))
  }

  /** The pushes of `analyzeProfile`: "refreshing", "fruity", "strong" in that
      order for the rules that fired, or "balanced" alone when none did. */
  function ProfilesFrom(refreshing: bool, fruity: bool, strong: bool): (r: seq<Profile>)
    ensures |r| > 0 && NoDup(r)
    ensures Refreshing in r <==> refreshing
    ensures Fruity in r <==> fruity
    ensures Strong in r <==> strong
    ensures Balanced in r <==> !refreshing && !fruity && !strong
    ensures Balanced in r <==> r == [Balanced]
    ensures r == [Balanced] || IsSubseq(r, [Refreshing, Fruity, Strong])
  {
    var profiles :=
      (if refreshing then [Refreshing] else [])
      + (if fruity then [Fruity] else [])
      + (if strong then [Strong] else []);
    if |profiles| == 0 then [Balanced] else profiles
  }

  /** The profile branch of `analyzeProfile`, over the lower-cased ingredient names. */
  function AnalyzeProfiles(items: seq<string>): (r: seq<Profile>)
    ensures |r| > 0 && NoDup(r)
    ensures Refreshing in r <==> RefreshingRule(items)
    ensures Fruity in r <==> FruityRule(items)
    ensures Strong in r <==> StrongRule(items)
    ensures Balanced in r <==> !RefreshingRule(items) && !FruityRule(items) && !StrongRule(items)
    ensures Balanced in r <==> r == [Balanced]
    ensures r == [Balanced] || IsSubseq(r, [Refreshing, Fruity, Strong])
  {
    var ings := LowerAll(items);
    var refreshing := SomeMentions(ings, RefreshingWords);
    var fruity := SomeMentions(ings, FruityWords);
    var strong := ("vermouth" in ings || "bitters" in ings) && !SomeJuiceWithoutLime(ings);
    RulesOnLowered(items);
    ProfilesFrom(refreshing, fruity, strong)
  }

  /** The three rules, evaluated on the lower-cased list the hook builds. */
  lemma RulesOnLowered(items: seq<string>)
    ensures SomeMentions(LowerAll(items), RefreshingWords) <==> RefreshingRule(items)
    ensures SomeMentions(LowerAll(items), FruityWords) <==> FruityRule(items)
    ensures (("vermouth" in LowerAll(items) || "bitters" in LowerAll(items)) && !SomeJuiceWithoutLime(LowerAll(items)))
            <==> StrongRule(items)
  {
    var ings := LowerAll(items);
    assert ("vermouth" in ings || "bitters" in ings) <==> exists i :: 0 <= i < |items| && Lower(items[i]) in StrongNames by {
      if "vermouth" in ings || "bitters" in ings {
        var i :| 0 <= i < |ings| && ings[i] in StrongNames;
        assert Lower(items[i]) in StrongNames;
      }
    }
  }

  // ---------------------------------------------------------------------------
  // Tagging the dataset
  // ---------------------------------------------------------------------------

  /** A flattened recipe with the base and profiles derived from its
      ingredients and its category's name. */
  function Tag(c: Cocktail): (t: Tagged)
    ensures t.cocktail == c
  {
    Tagged(c, AnalyzeBase(c.categoryName), AnalyzeProfiles(Items(c.recipe)))
  }

  /** `allCocktails`: the flattened dataset, tagged. */
  function AllCocktails(cats: seq<Category>): (r: seq<Tagged>)
    ensures |r| == |Flatten(cats)|
    ensures forall k :: 0 <= k < |r| ==> r[k] == Tag(Flatten(cats)[k])
  {
    var flat := Flatten(cats);
    seq(|flat|, k requires 0 <= k < |flat| => Tag(flat[k]))
  }

  /** There is one tagged record per source recipe, and recipe `j` of category
      `ci` is tagged from its own category name. */
  lemma AllCocktailsFromSource(cats: seq<Category>, ci: nat, j: nat)
    requires ci < |cats| && j < |cats[ci].cocktails|
    ensures |AllCocktails(cats)| == Total(cats)
    ensures Offset(cats, ci) + j < |AllCocktails(cats)|
    ensures var t := AllCocktails(cats)[Offset(cats, ci) + j];
            && t.cocktail.recipe == cats[ci].cocktails[j]
            && t.cocktail.categoryName == cats[ci].category
            && t.base == AnalyzeBase(cats[ci].category)
  {
    FlattenIndex(cats, ci, j);
  }

  // ---------------------------------------------------------------------------
  // Filtering
  // ---------------------------------------------------------------------------

  predicate MatchBase(t: Tagged, prefs: Preferences) {
    prefs.base == Some("any") || prefs.base == Some(t.base.Name())
  }

  predicate MatchMood(t: Tagged, prefs: Preferences) {
    prefs.mood == Some("surprise")
    || (prefs.mood.Some? && exists p :: p in t.profiles && p.Name() == prefs.mood.value)
  }

  predicate Matches(t: Tagged, prefs: Preferences) {
    MatchBase(t, prefs) && MatchMood(t, prefs)
  }

  /** `getRecommendations(prefs)`: the matching tagged recipes, each kept as
      often as it occurs, in dataset order. */
  function GetRecommendations(all: seq<Tagged>, prefs: Preferences): (r: seq<Tagged>)
    ensures forall t :: multiset(r)[t] == if Matches(t, prefs) then multiset(all)[t] else 0
    ensures forall t :: t in r <==> t in all && Matches(t, prefs)
    ensures IsSubseq(r, all)
  {
    var r := Filter(all, t => Matches(t, prefs));
    assert forall t :: t in r <==> t in multiset(r);
    assert forall t :: t in all <==> t in multiset(all);
    r
  }

  /** No preference on either axis returns the whole dataset. */
  lemma AnySurpriseIsEverything(all: seq<Tagged>, prefs: Preferences)
    requires prefs.base == Some("any") && prefs.mood == Some("surprise")
    ensures GetRecommendations(all, prefs) == all
  {
    FilterAll(all, t => Matches(t, prefs));
  }

  /** Filtering a result again with the same preferences changes nothing. */
  lemma RefilterUnchanged(all: seq<Tagged>, prefs: Preferences)
    ensures GetRecommendations(GetRecommendations(all, prefs), prefs) == GetRecommendations(all, prefs)
  {
    FilterIdempotent(all, t => Matches(t, prefs));
  }

  /** The occasion and glass answers never influence the result. */
  lemma OccasionAndGlassIgnored(all: seq<Tagged>, prefs: Preferences, occasion: Option<string>, glass: Option<string>)
    ensures GetRecommendations(all, prefs.(occasion := occasion, glass := glass)) == GetRecommendations(all, prefs)
  {
    var other := prefs.(occasion := occasion, glass := glass);
    FilterCongruent(all, t => Matches(t, other), t => Matches(t, prefs));
  }
}
