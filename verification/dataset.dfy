/**
  The recipe dataset every page loads: a list of categories, each holding an
  ordered list of recipes. Every page flattens it the same way: the recipes
  of each category in turn, each copied with its category's name attached.
  `Flatten` models that.
 */
module Dataset {
  import opened Collections

  datatype Ingredient = Ingredient(item: string, amount: string)

  datatype Recipe = Recipe(
    name: string,
    ingredients: seq<Ingredient>,
    preparation: string, // the recipe's `method` field; `method` is a Dafny keyword
    glass: Option<string>,
    garnish: Option<string>,
    history: Option<seq<string>>)

  datatype Category = Category(category: string, cocktails: seq<Recipe>)

  /** A recipe together with the name of the category it was listed under. */
  datatype Cocktail = Cocktail(recipe: Recipe, categoryName: string)

  /** The ingredient names of a recipe, in recipe order. */
  function Items(r: Recipe): (items: seq<string>)
    ensures |items| == |r.ingredients|
  {
    seq(|r.ingredients|, i requires 0 <= i < |r.ingredients| => r.ingredients[i].item)
  }

  /** Number of recipes over all categories. */
  function Total(cats: seq<Category>): nat {
    if |cats| == 0 then 0 else |cats[0].cocktails| + Total(cats[1..])
  }

  /** Position in the flattened list at which category `ci` starts. */
  function Offset(cats: seq<Category>, ci: nat): nat
    requires ci <= |cats|
  {
    if ci == 0 then 0 else |cats[0].cocktails| + Offset(cats[1..], ci - 1)
  }

  /** One category's recipes, each labelled with the category name. */
  function Label(cat: Category): (r: seq<Cocktail>)
    ensures |r| == |cat.cocktails|
  {
    seq(|cat.cocktails|, i requires 0 <= i < |cat.cocktails| => Cocktail(cat.cocktails[i], cat.category))
  }

  /** The flattened dataset: one record per recipe, in category order. */
  function Flatten(cats: seq<Category>): (r: seq<Cocktail>)
    ensures |r| == Total(cats)
  {
    if |cats| == 0 then [] else Label(cats[0]) + Flatten(cats[1..])
  }

  /** Recipe `j` of category `ci` sits at `Offset(cats, ci) + j`, labelled
      with its own category name. */
  lemma {:induction false} FlattenIndex(cats: seq<Category>, ci: nat, j: nat)
    requires ci < |cats| && j < |cats[ci].cocktails|
    ensures Offset(cats, ci) + j < |Flatten(cats)|
    ensures Flatten(cats)[Offset(cats, ci) + j] == Cocktail(cats[ci].cocktails[j], cats[ci].category)
  {
    if ci > 0 {
      FlattenIndex(cats[1..], ci - 1, j);
    }
  }

  /** Recipe `j` of category `ci` is the `k`-th flattened record. */
  predicate Source(cats: seq<Category>, ci: nat, j: nat, k: nat) {
    ci < |cats| && j < |cats[ci].cocktails| && Offset(cats, ci) + j == k
  }

  /** Conversely, every flattened record is some recipe of some category,
      carrying that category's name. */
  lemma {:induction false} FlattenOrigin(cats: seq<Category>, k: nat)
    requires k < |Flatten(cats)|
    ensures exists ci: nat, j: nat :: Source(cats, ci, j, k)
              && Flatten(cats)[k] == Cocktail(cats[ci].cocktails[j], cats[ci].category)
  {
    var ci: nat, j: nat;
    if k < |cats[0].cocktails| {
      ci, j := 0, k;
    } else {
      FlattenOrigin(cats[1..], k - |cats[0].cocktails|);
      var ci': nat, j': nat :| Source(cats[1..], ci', j', k - |cats[0].cocktails|);
      ci, j := ci' + 1, j';
      assert cats[1..][ci'] == cats[ci];
    }
    assert Source(cats, ci, j, k);
    FlattenIndex(cats, ci, j);
  }
}
