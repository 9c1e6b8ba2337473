/**
  The recipe search page: every recipe carries a lower-cased search string
  made of its name, category, ingredient items and history facts; the list
  shows the recipes whose search string contains the lower-cased term and
  whose category matches the selected one ("All" matches every category).
  Each card is coloured by a hue taken from a hash of its category and
  labelled with the category name up to its first dash.
 */
module Search {
  import opened Text
  import opened Collections
  import opened StringHash
  import opened Dataset

  const AllCategories: string := "All"

  // ---------------------------------------------------------------------------
  // Search strings
  // ---------------------------------------------------------------------------

  /** Indentation inside the template literal that builds the search string. */
  const FieldIndent: string := "                "
  const ClosingIndent: string := "            "

  /** The history facts joined by spaces, or nothing when there are none. */
  function HistoryText(history: Option<seq<string>>): string {
    match history
    case None => ""
    case Some(facts) => Join(facts, " ")
  }

  /** Concatenation of a list of strings. */
  function Concat(parts: seq<string>): string {
    if |parts| == 0 then "" else parts[0] + Concat(parts[1..])
  }

  /** A needle found in one piece is found in the concatenation. */
  lemma {:induction false} ContainsPiece(parts: seq<string>, k: nat, t: string)
    requires k < |parts| && Contains(parts[k], t)
    ensures Contains(Concat(parts), t)
  {
    if k == 0 {
      ContainsInConcat(parts[0], Concat(parts[1..]), t);
    } else {
      ContainsPiece(parts[1..], k - 1, t);
      ContainsInConcat(parts[0], Concat(parts[1..]), t);
    }
  }

  /** The pieces of the template literal: one line per field, each indented
      and followed by a space, with a newline at both ends. */
  function TemplatePieces(r: Recipe, category: string): seq<string> {
    [ "\n" + FieldIndent, r.name,
      " \n" + FieldIndent, category,
      " \n" + FieldIndent, Join(Items(r), " "),
      " \n" + FieldIndent, HistoryText(r.history),
      "\n" + ClosingIndent ]
  }

  /** The search string before lower-casing. */
  function RawSearchText(r: Recipe, category: string): string {
    Concat(TemplatePieces(r, category))
  }

  /** Lower-casing a concatenation lower-cases each piece. */
  lemma {:induction false} LowerConcat(parts: seq<string>)
    ensures Lower(Concat(parts)) == Concat(LowerAll(parts))
  {
    if |parts| > 0 {
      LowerAppend(parts[0], Concat(parts[1..]));
      LowerConcat(parts[1..]);
      assert LowerAll(parts)[1..] == LowerAll(parts[1..]);
    }
  }

  /** A term is found in a field when it occurs there ignoring letter case,
      the way the page compares lower-cased text with a lower-cased term. */
  predicate Mentions(field: string, t: string) {
    Contains(Lower(field), Lower(t))
  }

  /** The parts of a recipe a search can hit. */
  predicate FieldHas(r: Recipe, category: string, t: string) {
    || Mentions(r.name, t)
    || Mentions(category, t)
    || (exists i :: 0 <= i < |r.ingredients| && Mentions(Items(r)[i], t))
    || (r.history.Some? && exists j :: 0 <= j < |r.history.value| && Mentions(r.history.value[j], t))
  }

  /** A term found in a field of the recipe, in any letter case, is found in
      the lower-cased search string. */
  lemma RawHasFields(r: Recipe, category: string, t: string)
    requires FieldHas(r, category, t)
    ensures Contains(Lower(RawSearchText(r, category)), Lower(t))
  {
    var pieces := TemplatePieces(r, category);
    var lowered := LowerAll(pieces);
    LowerConcat(pieces);
    if Mentions(r.name, t) {
      ContainsPiece(lowered, 1, Lower(t));
    } else if Mentions(category, t) {
      ContainsPiece(lowered, 3, Lower(t));
    } else if exists i :: 0 <= i < |r.ingredients| && Mentions(Items(r)[i], t) {
      var i :| 0 <= i < |r.ingredients| && Mentions(Items(r)[i], t);
      JoinContainsPart(Items(r), " ", i);
      ContainsLower(pieces[5], Items(r)[i]);
      ContainsTransitive(lowered[5], Lower(Items(r)[i]), Lower(t));
      ContainsPiece(lowered, 5, Lower(t));
    } else {
      var j :| 0 <= j < |r.history.value| && Mentions(r.history.value[j], t);
      JoinContainsPart(r.history.value, " ", j);
      ContainsLower(pieces[7], r.history.value[j]);
      ContainsTransitive(lowered[7], Lower(r.history.value[j]), Lower(t));
      ContainsPiece(lowered, 7, Lower(t));
    }
  }

  /** A flattened recipe with its search string. */
  datatype Entry = Entry(cocktail: Cocktail, searchString: string)

  /** The search string of a recipe: every term that names a piece of its
      name, category, ingredient items or history, in any letter case, is
      found in it once lower-cased, as the filter lower-cases the term. */
  function MakeEntry(c: Cocktail): (e: Entry)
    ensures e.cocktail == c
    ensures forall t :: FieldHas(c.recipe, c.categoryName, t) ==> Contains(e.searchString, Lower(t))
  {
    var e := Entry(c, Lower(RawSearchText(c.recipe, c.categoryName)));
    forall t | FieldHas(c.recipe, c.categoryName, t) ensures Contains(e.searchString, Lower(t)) {
      RawHasFields(c.recipe, c.categoryName, t);
    }
    e
  }

  /** The dataset flattened, each record with its search string, in order. */
  function AllEntries(cats: seq<Category>): (r: seq<Entry>)
    ensures |r| == |Flatten(cats)|
    ensures forall k :: 0 <= k < |r| ==> r[k] == MakeEntry(Flatten(cats)[k])
  {
    var flat := Flatten(cats);
    seq(|flat|, k requires 0 <= k < |flat| => MakeEntry(flat[k]))
  }

  // ---------------------------------------------------------------------------
  // Filtering
  // ---------------------------------------------------------------------------

  /** The two tests a card must pass. */
  predicate Shown(e: Entry, term: string, category: string) {
    Contains(e.searchString, Lower(term)) && (category == AllCategories || e.cocktail.categoryName == category)
  }

  /** `filteredCocktails`: the entries passing both tests, in dataset order. */
  function FilteredCocktails(entries: seq<Entry>, term: string, category: string): (r: seq<Entry>)
    ensures forall e :: e in r <==> e in entries && Shown(e, term, category)
    ensures forall e :: multiset(r)[e] == if Shown(e, term, category) then multiset(entries)[e] else 0
    ensures IsSubseq(r, entries)
  {
    var p := (e: Entry) => Shown(e, term, category);
    FilterShown(entries, p);
    Filter(entries, p)
  }

  lemma FilterShown(entries: seq<Entry>, p: Entry -> bool)
    ensures forall e :: e in Filter(entries, p) <==> e in entries && p(e)
  {
    forall e ensures e in Filter(entries, p) <==> e in entries && p(e) {
      FilterMembership(entries, p, e);
    }
  }

  /** With an empty term and "All", every recipe is shown. */
  lemma EmptySearchShowsAll(entries: seq<Entry>)
    ensures FilteredCocktails(entries, "", AllCategories) == entries
  {
    forall i | 0 <= i < |entries| ensures Shown(entries[i], "", AllCategories) {
      ContainsEmpty(entries[i].searchString);
    }
    FilterAll(entries, (e: Entry) => Shown(e, "", AllCategories));
  }

  /** Searching for any piece of a recipe's name, category, ingredient items
      or history facts, in any letter case, finds that recipe. */
  lemma SearchFindsFields(entries: seq<Entry>, c: Cocktail, term: string)
    requires MakeEntry(c) in entries
    requires FieldHas(c.recipe, c.categoryName, term)
    ensures MakeEntry(c) in FilteredCocktails(entries, term, AllCategories)
    ensures MakeEntry(c) in FilteredCocktails(entries, term, c.categoryName)
  {
  }

  /** The search ignores letter case: "MOJITO" finds the recipe "Mojito". */
  lemma MixedCaseFound(entries: seq<Entry>, c: Cocktail)
    requires MakeEntry(c) in entries && c.recipe.name == "Mojito"
    ensures MakeEntry(c) in FilteredCocktails(entries, "MOJITO", AllCategories)
  {
    assert Lower("MOJITO") == Lower("Mojito");
    assert Lower(c.recipe.name)[..|Lower("MOJITO")|] == Lower("MOJITO");
    SearchFindsFields(entries, c, "MOJITO");
  }

  /** Lengthening the term can only shrink the results: when `t1` occurs in
      `t2`, what `t2` shows is an order-preserving part of what `t1` shows. */
  lemma LongerTermFewerResults(entries: seq<Entry>, t1: string, t2: string, category: string)
    requires Contains(t2, t1)
    ensures forall e :: e in FilteredCocktails(entries, t2, category) ==> e in FilteredCocktails(entries, t1, category)
    ensures IsSubseq(FilteredCocktails(entries, t2, category), FilteredCocktails(entries, t1, category))
  {
    ContainsLower(t2, t1);
    var p := (e: Entry) => Shown(e, t1, category);
    var q := (e: Entry) => Shown(e, t2, category);
    forall e | q(e) ensures p(e) {
      ContainsTransitive(e.searchString, Lower(t2), Lower(t1));
    }
    FilterStronger(entries, p, q);
  }

  /** Selecting a category shows exactly that category's recipes among
      those the term finds. */
  lemma CategoryNarrows(entries: seq<Entry>, term: string, category: string)
    ensures IsSubseq(FilteredCocktails(entries, term, category), FilteredCocktails(entries, term, AllCategories))
    ensures forall e :: e in FilteredCocktails(entries, term, category) <==>
              e in FilteredCocktails(entries, term, AllCategories)
              && (category == AllCategories || e.cocktail.categoryName == category)
  {
    FilterStronger(entries, (e: Entry) => Shown(e, term, AllCategories), (e: Entry) => Shown(e, term, category));
  }

  // ---------------------------------------------------------------------------
  // Categories, colours and badges
  // ---------------------------------------------------------------------------

  function CategoryNames(cats: seq<Category>): (r: seq<string>)
    ensures |r| == |cats|
    ensures forall i :: 0 <= i < |cats| ==> r[i] == cats[i].category
  {
    seq(|cats|, i requires 0 <= i < |cats| => cats[i].category)
  }

  lemma CategoryNamesSnoc(cats: seq<Category>, c: Category)
    ensures CategoryNames(cats + [c]) == CategoryNames(cats) + [c.category]
  {
    assert forall i :: 0 <= i < |cats| ==> (cats + [c])[i] == cats[i];
  }

  /** "All" followed by the distinct category names in first-occurrence order. */
  function Categories(cats: seq<Category>): (r: seq<string>)
    ensures |r| > 0 && r[0] == AllCategories
    ensures NoDup(r[1..])
    ensures forall x :: x in r[1..] <==> exists i :: 0 <= i < |cats| && cats[i].category == x
  {
    var d := Dedup(CategoryNames(cats));
    assert ([AllCategories] + d)[1..] == d;
    [AllCategories] + d
  }

  /** The set keeps first-occurrence order: one more category adds its name at
      the end exactly when it is new. */
  lemma CategoriesSnoc(cats: seq<Category>, c: Category)
    ensures Categories(cats + [c])
            == if c.category in CategoryNames(cats) then Categories(cats) else Categories(cats) + [c.category]
  {
    var names := CategoryNames(cats);
    CategoryNamesSnoc(cats, c);
    DedupSnoc(names, c.category);
    assert Categories(cats + [c]) == [AllCategories] + Dedup(names + [c.category]);
    assert Categories(cats) == [AllCategories] + Dedup(names);
    if c.category !in names {
      assert [AllCategories] + (Dedup(names) + [c.category]) == ([AllCategories] + Dedup(names)) + [c.category];
    }
  }

  /** The hue of a category's colour: its hash modulo 360, with JavaScript's
      truncating `%`. The hue is a valid angle because the hash is never
      negative. */
  function CategoryHue(category: string): (hue: int)
    ensures 0 <= hue < 360
    ensures hue == HashString(category) % 360
  {
    JsRemOfNonNegative(HashString(category), 360);
    JsRem(HashString(category), 360)
  }

  /** Two categories whose hashes differ by a multiple of 360 share a colour;
      the hue ignores everything about the name but its hash. */
  lemma SameHueIffHashesAgreeMod360(a: string, b: string)
    ensures CategoryHue(a) == CategoryHue(b) <==> (HashString(a) - HashString(b)) % 360 == 0
  {
    SameRemainder(HashString(a), HashString(b));
  }

  lemma SameRemainder(x: int, y: int)
    ensures x % 360 == y % 360 <==> (x - y) % 360 == 0
  {
    var qx, qy := x / 360, y / 360;
    assert x == qx * 360 + x % 360 && y == qy * 360 + y % 360;
    assert x - y == (qx - qy) * 360 + (x % 360 - y % 360);
  }

  /** The separators of the badge split: `-` and the en dash. */
  predicate IsDash(c: char) { c == '-' || c == '\U{2013}' }

  function FirstDash(s: string): (d: nat)
    ensures d <= |s|
    ensures forall i :: 0 <= i < d ==> !IsDash(s[i])
    ensures d < |s| ==> IsDash(s[d])
  {
    if |s| == 0 || IsDash(s[0]) then 0 else 1 + FirstDash(s[1..])
  }

  /** The start of the run of white space that ends at position `d`. */
  function SpaceRunStart(s: string, d: nat): (p: nat)
    requires d <= |s|
    ensures p <= d && AllSpace(s[p..d])
    ensures p > 0 ==> !IsSpace(s[p - 1])
  {
    if d > 0 && IsSpace(s[d - 1]) then
      var p := SpaceRunStart(s, d - 1);
      assert s[p..d] == s[p..d - 1] + [s[d - 1]];
      p
    else d
  }

  /** The first piece of a `split` on the pattern `\s*[-–]\s*` (white
      space, a dash, white space): the text before the leftmost match of the
      separator, or all of `s` when there is none. */
  function SplitHead(s: string): string {
    var d := FirstDash(s);
    if d == |s| then s else s[..SpaceRunStart(s, d)]
  }

  /** A separator match `\s*[-–]\s*` can begin at position `p`. */
  ghost predicate MatchAt(s: string, p: nat) {
    exists e :: p <= e < |s| && IsDash(s[e]) && AllSpace(s[p..e])
  }

  /** `SplitHead` cuts at the leftmost position where the separator matches,
      which is how `split` finds its first piece. */
  lemma SplitHeadIsLeftmostMatch(s: string)
    ensures FirstDash(s) == |s| ==> SplitHead(s) == s && forall p: nat :: p <= |s| ==> !MatchAt(s, p)
    ensures FirstDash(s) < |s| ==>
              var p := SpaceRunStart(s, FirstDash(s));
              && SplitHead(s) == s[..p]
              && MatchAt(s, p)
              && forall q: nat :: q < p ==> !MatchAt(s, q)
  {
    var d := FirstDash(s);
    if d < |s| {
      var p := SpaceRunStart(s, d);
      assert IsDash(s[d]) && AllSpace(s[p..d]);
      forall q: nat, e | q < p && q <= e < |s| && IsDash(s[e]) ensures !AllSpace(s[q..e]) {
        assert s[q..e][p - 1 - q] == s[p - 1];
      }
    } else {
      forall p: nat | p <= |s| ensures !MatchAt(s, p) {
      }
    }
  }

  /** The badge label: the trimmed text before the first dash separator. */
  function BadgeLabel(categoryName: string): string {
    Trim(SplitHead(categoryName))
  }

  /** The badge is the trimmed text before the first dash, or the whole
      trimmed name when it has none. */
  lemma BadgeIsTextBeforeDash(s: string)
    ensures BadgeLabel(s) == Trim(s[..FirstDash(s)])
  {
    var d := FirstDash(s);
    if d < |s| {
      var p := SpaceRunStart(s, d);
      assert s[..d] == s[..p] + s[p..d];
      TrimAppendSpace(s[..p], s[p..d]);
    } else {
      assert s[..d] == s;
    }
  }
}
