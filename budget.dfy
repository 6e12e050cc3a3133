/**
 * The budget meal planner: validate the form, ask the language model for a
 * plan and a shopping list, and resolve the shopping list against the
 * catalog, exact name first and a case-insensitive "name contains" lookup
 * second, keeping each product once and summing the prices.
 *
 * Amounts are integer cents: a budget of $1 is 100.  The model's answer, the
 * catalog read and the database's "contains" lookup are inputs.
 */
module BudgetPlanner {
  import opened Wrappers
  import opened Storage

  // ---------------------------------------------------------------------
  // Validation
  // ---------------------------------------------------------------------

  /** The messages of the schema's failed checks, per field (none for a field that passed). */
  datatype FieldErrors = FieldErrors(budget: seq<string>, days: seq<string>, people: seq<string>)

  /** What the schema reports for a form value that is not a number. */
  const NotANumber: string := "Expected number, received nan"

  /** Budget errors; `None` is a form value that did not convert to a number. */
  function BudgetErrors(budgetCents: Option<int>): (errs: seq<string>)
    ensures errs == [] <==> budgetCents.Some? && budgetCents.value >= 100
  {
    match budgetCents
    case None => [NotANumber]
    case Some(b) => if b < 100 then ["Budget must be at least $1"] else []
  }

  function DaysErrors(days: Option<int>): (errs: seq<string>)
    ensures errs == [] <==> days.Some? && 1 <= days.value <= 30
  {
    match days
    case None => [NotANumber]
    case Some(d) => (if d < 1 then ["Days must be at least 1"] else []) + (if d > 30 then ["Max 30 days"] else [])
  }

  function PeopleErrors(people: Option<int>): (errs: seq<string>)
    ensures errs == [] <==> people.Some? && people.value >= 1
  {
    match people
    case None => [NotANumber]
    case Some(p) => if p < 1 then ["People must be at least 1"] else []
  }

  predicate InRange(budgetCents: Option<int>, days: Option<int>, people: Option<int>) {
    && budgetCents.Some? && budgetCents.value >= 100
    && days.Some? && 1 <= days.value <= 30
    && people.Some? && people.value >= 1
  }

  /** `budgetSchema.safeParse`: no errors, or the errors of every field. */
  function Validate(budgetCents: Option<int>, days: Option<int>, people: Option<int>): (r: Option<FieldErrors>)
    ensures r.None? <==> InRange(budgetCents, days, people)
    ensures r.Some? ==> r.value.budget != [] || r.value.days != [] || r.value.people != []
  {
    var errs := FieldErrors(BudgetErrors(budgetCents), DaysErrors(days), PeopleErrors(people));
    if errs.budget == [] && errs.days == [] && errs.people == [] then None else Some(errs)
  }

  // ---------------------------------------------------------------------
  // Name matching
  // ---------------------------------------------------------------------

  /** ASCII lower case. */
  function LowerChar(c: char): char {
    if 'A' <= c <= 'Z' then (c as int + 32) as char else c
  }

  function Lower(s: string): (r: string)
    ensures |r| == |s| && forall i | 0 <= i < |s| :: r[i] == LowerChar(s[i])
  {
    seq(|s|, i requires 0 <= i < |s| => LowerChar(s[i]))
  }

  /** `needle` occurs in `hay` at offset `k`. */
  predicate InfixAt(needle: string, hay: string, k: int) {
    0 <= k && k + |needle| <= |hay| && hay[k..k + |needle|] == needle
  }

  predicate IsInfix(needle: string, hay: string) {
    exists k | 0 <= k <= |hay| - |needle| :: InfixAt(needle, hay, k)
  }

  /**
   * `name: { contains: needle, mode: 'insensitive' }`.  A name that contains
   * the needle as it is spelled matches too, and no needle longer than the
   * name does.
   */
  predicate ContainsInsensitive(hay: string, needle: string)
    ensures IsInfix(needle, hay) ==> ContainsInsensitive(hay, needle)
    ensures |needle| > |hay| ==> !ContainsInsensitive(hay, needle)
  {
    LowerKeepsInfix(needle, hay);
    IsInfix(Lower(needle), Lower(hay))
  }

  lemma LowerKeepsInfix(needle: string, hay: string)
    ensures IsInfix(needle, hay) ==> IsInfix(Lower(needle), Lower(hay))
  {
    if IsInfix(needle, hay) {
      var k :| 0 <= k <= |hay| - |needle| && InfixAt(needle, hay, k);
      forall i | 0 <= i < |needle| ensures Lower(hay)[k..k + |needle|][i] == Lower(needle)[i] {
        assert hay[k..k + |needle|][i] == needle[i];
      }
      assert InfixAt(Lower(needle), Lower(hay), k);
    }
  }

  /** `availableProducts.find(p => p.name === name)`: the first product with exactly this name. */
  function ExactMatch(catalog: seq<Product>, name: string): (r: Option<Product>)
    ensures r.Some? ==> exists k | 0 <= k < |catalog| :: catalog[k] == r.value && forall j | 0 <= j < k :: catalog[j].name != name
    ensures r.Some? ==> r.value in catalog && r.value.name == name
    ensures r.None? ==> forall p | p in catalog :: p.name != name
  {
    if catalog == [] then None
    else if catalog[0].name == name then Some(catalog[0])
    else ExactMatch(catalog[1..], name)
  }

  /** The outcome of a database lookup: a product, none, or a thrown error. */
  datatype Lookup = Found(product: Product) | Missing | LookupError

  /**
   * The database's case-insensitive lookup, as the model sees it: `fuzzy(name)`
   * is the row `findFirst` returns.  Which of several matching rows it picks is
   * not specified, so only this agreement with the catalog is assumed of it.
   */
  ghost predicate FuzzyAgrees(catalog: seq<Product>, fuzzy: string -> Lookup) {
    forall name :: match fuzzy(name)
                   case Found(p) => p in catalog && ContainsInsensitive(p.name, name)
                   case Missing => forall p | p in catalog :: !ContainsInsensitive(p.name, name)
                   case LookupError => true
  }

  /** One shopping-list name: the exact match, or else the fuzzy lookup. */
  function Resolve(catalog: seq<Product>, fuzzy: string -> Lookup, name: string): (r: Lookup)
    ensures (exists p | p in catalog :: p.name == name) ==> r.Found? && r.product in catalog && r.product.name == name
  {
    match ExactMatch(catalog, name)
    case Some(p) => Found(p)
    case None => fuzzy(name)
  }

  predicate HasId(products: seq<Product>, id: Id) {
    exists p | p in products :: p.id == id
  }

  /**
   * The matched products for a shopping list, `None` when a lookup throws.
   * Each resolved product is pushed unless one with its id is already there.
   */
  function Matched(catalog: seq<Product>, fuzzy: string -> Lookup, list: seq<string>): (r: Option<seq<Product>>)
    ensures r.Some? ==> |r.value| <= |list|
    decreases |list|
  {
    if list == [] then Some([])
    else
      match Matched(catalog, fuzzy, list[..|list| - 1])
      case None => None
      case Some(m) =>
        match Resolve(catalog, fuzzy, list[|list| - 1])
        case LookupError => None
        case Missing => Some(m)
        case Found(p) => if HasId(m, p.id) then Some(m) else Some(m + [p])
  }

  function PriceSum(products: seq<Product>): (total: int)
    ensures total >= 0
    decreases |products|
  {
    if products == [] then 0
    else PriceSum(products[..|products| - 1]) + products[|products| - 1].priceCents
  }

  /**
   * The loop over the shopping list.  On a lookup that throws it stops with
   * `failed`; otherwise it yields the matched products and their total.
   */
  method MatchShoppingList(catalog: seq<Product>, fuzzy: string -> Lookup, list: seq<string>)
    returns (matched: seq<Product>, totalCost: int, failed: bool)
    ensures failed <==> Matched(catalog, fuzzy, list).None?
    ensures !failed ==> matched == Matched(catalog, fuzzy, list).value && totalCost == PriceSum(matched)
  {
    matched, totalCost, failed := [], 0, false;
    var i := 0;
    while i < |list|
      invariant 0 <= i <= |list|
      invariant Matched(catalog, fuzzy, list[..i]) == Some(matched)
      invariant totalCost == PriceSum(matched)
    {
      MatchedStep(catalog, fuzzy, list, i);
      var itemName := list[i];
      var product := ExactMatch(catalog, itemName);
      var found: Lookup;
      if product.Some? {
        found := Found(product.value);
      } else {
        found := fuzzy(itemName);
      }
      assert found == Resolve(catalog, fuzzy, itemName);
      if found.LookupError? {
        MatchedStaysFailed(catalog, fuzzy, list[..i + 1], list[i + 1..]);
        assert list[..i + 1] + list[i + 1..] == list;
        return [], 0, true;
      }
      if found.Found? && !HasId(matched, found.product.id) {
        assert (matched + [found.product])[..|matched|] == matched;
        matched := matched + [found.product];
        totalCost := totalCost + found.product.priceCents;
      }
      i := i + 1;
    }
    assert list[..i] == list;
  }

  // ---------------------------------------------------------------------
  // The action
  // ---------------------------------------------------------------------

  datatype Meal = Meal(day: int, mealType: string, name: string, ingredients: seq<string>)

  /** The language model's structured answer. */
  datatype AiResponse = AiResponse(meals: seq<Meal>, shoppingList: seq<string>)

  datatype Plan = Plan(meals: seq<Meal>, matchedProducts: seq<Product>, totalCostCents: int, remainingBudgetCents: int)

  datatype BudgetState = BudgetState(success: bool, message: string, error: Option<FieldErrors>, plan: Option<Plan>)

  /** The action returns a state, or throws when the catalog read fails (it is outside the try block). */
  datatype PlanOutcome = Returned(state: BudgetState) | CatalogReadThrew

  const ValidationFailed: string := "Validation failed"
  const PlanGenerated: string := "Plan generated successfully!"
  const GenerationFailed: string := "Failed to generate plan. Please check your API key and try again."

  /**
   * `createBudgetPlan` for the converted form values.  `catalog` is the
   * product table (`None` when reading it throws), `ai` the model's answer
   * (`None` when the call throws) and `fuzzy` the database's lookup.
   */
  function BudgetPlan(budgetCents: Option<int>, days: Option<int>, people: Option<int>,
                      catalog: Option<seq<Product>>, ai: Option<AiResponse>, fuzzy: string -> Lookup): (r: PlanOutcome)
    ensures r.CatalogReadThrew? <==> InRange(budgetCents, days, people) && catalog.None?
    ensures r.Returned? ==> (r.state.success <==> r.state.plan.Some?)
    ensures r.Returned? ==> (r.state.error.Some? <==> r.state.message == ValidationFailed)
  {
    match Validate(budgetCents, days, people)
    case Some(errs) => Returned(BudgetState(false, ValidationFailed, Some(errs), None))
    case None =>
      if catalog.None? then CatalogReadThrew
      else if ai.None? then Returned(BudgetState(false, GenerationFailed, None, None))
      else
        match Matched(catalog.value, fuzzy, ai.value.shoppingList)
        case None => Returned(BudgetState(false, GenerationFailed, None, None))
        case Some(m) =>
          var total := PriceSum(m);
          Returned(BudgetState(true, PlanGenerated, None, Some(Plan(ai.value.meals, m, total, budgetCents.value - total))))
  }

  method CreateBudgetPlan(budgetCents: Option<int>, days: Option<int>, people: Option<int>,
                          catalog: Option<seq<Product>>, ai: Option<AiResponse>, fuzzy: string -> Lookup)
    returns (r: PlanOutcome)
    ensures r == BudgetPlan(budgetCents, days, people, catalog, ai, fuzzy)
  {
    var validation := Validate(budgetCents, days, people);
    if validation.Some? {
      return Returned(BudgetState(false, ValidationFailed, validation, None));
    }
    if catalog.None? {
      return CatalogReadThrew;
    }
    if ai.None? {
      return Returned(BudgetState(false, GenerationFailed, None, None));
    }
    var matched, totalCost, failed := MatchShoppingList(catalog.value, fuzzy, ai.value.shoppingList);
    if failed {
      return Returned(BudgetState(false, GenerationFailed, None, None));
    }
    r := Returned(BudgetState(true, PlanGenerated, None,
                              Some(Plan(ai.value.meals, matched, totalCost, budgetCents.value - totalCost))));
  }

  // ---------------------------------------------------------------------
  // Properties
  // ---------------------------------------------------------------------

  /** One more name: the loop's step. */
  lemma MatchedStep(catalog: seq<Product>, fuzzy: string -> Lookup, list: seq<string>, i: int)
    requires 0 <= i < |list|
    ensures Matched(catalog, fuzzy, list[..i + 1])
            == match Matched(catalog, fuzzy, list[..i])
               case None => None
               case Some(m) =>
                 match Resolve(catalog, fuzzy, list[i])
                 case LookupError => None
                 case Missing => Some(m)
                 case Found(p) => if HasId(m, p.id) then Some(m) else Some(m + [p])
  {
    assert list[..i + 1][..i] == list[..i];
  }

  lemma {:induction false} MatchedStaysFailed(catalog: seq<Product>, fuzzy: string -> Lookup, list: seq<string>, more: seq<string>)
    requires Matched(catalog, fuzzy, list).None?
    ensures Matched(catalog, fuzzy, list + more).None?
    decreases |more|
  {
    if more == [] {
      assert list + more == list;
    } else {
      var front := more[..|more| - 1];
      MatchedStaysFailed(catalog, fuzzy, list, front);
      assert (list + more)[..|list + more| - 1] == list + front;
    }
  }

  /** Input out of range: the validation failure is returned before the catalog or the model is used. */
  lemma ValidationComesFirst(budgetCents: Option<int>, days: Option<int>, people: Option<int>,
                             catalog: Option<seq<Product>>, ai: Option<AiResponse>, fuzzy: string -> Lookup)
    ensures var r := BudgetPlan(budgetCents, days, people, catalog, ai, fuzzy);
            && (!InRange(budgetCents, days, people) <==> r.Returned? && r.state.message == ValidationFailed)
            && (!InRange(budgetCents, days, people) ==>
                  r == BudgetPlan(budgetCents, days, people, None, None, fuzzy)
                  && !r.state.success && r.state.error.Some? && r.state.plan.None?)
  {
  }

  /** A budget of $0 or 31 days are refused. */
  lemma EdgeValuesRefused(budgetCents: Option<int>, days: Option<int>, people: Option<int>)
    ensures Validate(Some(0), days, people).Some? && Validate(Some(0), days, people).value.budget == ["Budget must be at least $1"]
    ensures Validate(budgetCents, Some(31), people).Some? && Validate(budgetCents, Some(31), people).value.days == ["Max 30 days"]
    ensures Validate(Some(100), Some(30), Some(1)).None?
  {
  }

  /** Matched products have pairwise distinct ids. */
  lemma {:induction false} MatchedDistinct(catalog: seq<Product>, fuzzy: string -> Lookup, list: seq<string>)
    requires Matched(catalog, fuzzy, list).Some?
    ensures var m := Matched(catalog, fuzzy, list).value;
            forall i, j | 0 <= i < j < |m| :: m[i].id != m[j].id
    decreases |list|
  {
    if list != [] {
      MatchedDistinct(catalog, fuzzy, list[..|list| - 1]);
      var m0 := Matched(catalog, fuzzy, list[..|list| - 1]).value;
      var m := Matched(catalog, fuzzy, list).value;
      if m != m0 {
        forall i | 0 <= i < |m0| ensures m0[i].id != m[|m0|].id {
          assert m0[i] in m0;
        }
      }
    }
  }

  /**
   * Every matched product is the resolution of some name in the list, and the
   * resolution of every name is matched (by id).
   */
  lemma {:induction false} MatchedCoversResolutions(catalog: seq<Product>, fuzzy: string -> Lookup, list: seq<string>)
    requires Matched(catalog, fuzzy, list).Some?
    ensures var m := Matched(catalog, fuzzy, list).value;
            && (forall p | p in m :: exists i | 0 <= i < |list| :: Resolve(catalog, fuzzy, list[i]) == Found(p))
            && (forall i | 0 <= i < |list| :: Resolve(catalog, fuzzy, list[i]).Found? ==>
                  HasId(m, Resolve(catalog, fuzzy, list[i]).product.id))
    decreases |list|
  {
    if list != [] {
      var front := list[..|list| - 1];
      MatchedCoversResolutions(catalog, fuzzy, front);
      var m0 := Matched(catalog, fuzzy, front).value;
      var m := Matched(catalog, fuzzy, list).value;
      forall p | p in m ensures exists i | 0 <= i < |list| :: Resolve(catalog, fuzzy, list[i]) == Found(p) {
        if p in m0 {
          var i :| 0 <= i < |front| && Resolve(catalog, fuzzy, front[i]) == Found(p);
          assert list[i] == front[i];
        } else {
          assert Resolve(catalog, fuzzy, list[|list| - 1]) == Found(p);
        }
      }
      forall i | 0 <= i < |list| && Resolve(catalog, fuzzy, list[i]).Found?
        ensures HasId(m, Resolve(catalog, fuzzy, list[i]).product.id)
      {
        if i < |front| {
          assert list[i] == front[i];
          var q :| q in m0 && q.id == Resolve(catalog, fuzzy, front[i]).product.id;
          assert q in m;
        } else {
          var p := Resolve(catalog, fuzzy, list[i]).product;
          if !HasId(m0, p.id) {
            assert p in m;
          }
        }
      }
    }
  }

  /**
   * The products matched for a list come first, in the same order, in the
   * products matched for any longer list: products follow the order in which
   * their names first resolve.
   */
  lemma {:induction false} MatchedGrowsAtTheEnd(catalog: seq<Product>, fuzzy: string -> Lookup, list: seq<string>, more: seq<string>)
    requires Matched(catalog, fuzzy, list + more).Some?
    ensures Matched(catalog, fuzzy, list).Some?
    ensures var m := Matched(catalog, fuzzy, list).value;
            var m' := Matched(catalog, fuzzy, list + more).value;
            |m| <= |m'| && m'[..|m|] == m
    decreases |more|
  {
    if more == [] {
      assert list + more == list;
    } else {
      var front := more[..|more| - 1];
      assert (list + more)[..|list + more| - 1] == list + front;
      MatchedGrowsAtTheEnd(catalog, fuzzy, list, front);
    }
  }

  /**
   * The resolution policy: an exact, case-sensitive name match wins; only
   * without one is a product whose name contains the item name, ignoring
   * case, used; with neither, the name resolves to nothing.
   */
  lemma ResolutionPolicy(catalog: seq<Product>, fuzzy: string -> Lookup, name: string)
    requires FuzzyAgrees(catalog, fuzzy)
    ensures var r := Resolve(catalog, fuzzy, name);
            && ((exists p | p in catalog :: p.name == name) ==> r.Found? && r.product.name == name && r.product in catalog)
            && (r.Found? ==> r.product in catalog
                             && (r.product.name == name
                                 || ((forall p | p in catalog :: p.name != name) && ContainsInsensitive(r.product.name, name))))
            && (r.Missing? <==> (forall p | p in catalog :: p.name != name && !ContainsInsensitive(p.name, name))
                                && !fuzzy(name).LookupError?)
  {
    match fuzzy(name)
    case Found(p) =>
    case Missing =>
    case LookupError =>
  }

  /** With a lookup that agrees with the catalog, every matched product is a catalog row. */
  lemma MatchedFromCatalog(catalog: seq<Product>, fuzzy: string -> Lookup, list: seq<string>)
    requires FuzzyAgrees(catalog, fuzzy) && Matched(catalog, fuzzy, list).Some?
    ensures forall p | p in Matched(catalog, fuzzy, list).value :: p in catalog
  {
    MatchedCoversResolutions(catalog, fuzzy, list);
    forall p | p in Matched(catalog, fuzzy, list).value ensures p in catalog {
      var i :| 0 <= i < |list| && Resolve(catalog, fuzzy, list[i]) == Found(p);
      ResolutionPolicy(catalog, fuzzy, list[i]);
    }
  }

  /** A name that resolves to nothing adds nothing. */
  lemma UnmatchedNameIsDropped(catalog: seq<Product>, fuzzy: string -> Lookup, list: seq<string>, name: string)
    requires Resolve(catalog, fuzzy, name).Missing?
    ensures Matched(catalog, fuzzy, list + [name]) == Matched(catalog, fuzzy, list)
  {
    assert (list + [name])[..|list|] == list;
  }

  /**
   * A successful plan carries the matched products, their total price, and
   * the budget minus that total, negative when the plan overspends.
   */
  lemma SuccessfulPlan(budgetCents: Option<int>, days: Option<int>, people: Option<int>,
                       catalog: Option<seq<Product>>, ai: Option<AiResponse>, fuzzy: string -> Lookup)
    ensures var r := BudgetPlan(budgetCents, days, people, catalog, ai, fuzzy);
            && (r.Returned? && r.state.success <==>
                  InRange(budgetCents, days, people) && catalog.Some? && ai.Some?
                  && Matched(catalog.value, fuzzy, ai.value.shoppingList).Some?)
            && (r.Returned? && r.state.success ==>
                  && r.state.plan.Some?
                  && var plan := r.state.plan.value;
                  && plan.meals == ai.value.meals
                  && plan.matchedProducts == Matched(catalog.value, fuzzy, ai.value.shoppingList).value
                  && plan.totalCostCents == PriceSum(plan.matchedProducts)
                  && plan.remainingBudgetCents == budgetCents.value - plan.totalCostCents)
            && (r.Returned? && !r.state.success ==> r.state.plan.None?)
  {
  }

  /** A failing model call or lookup yields `success: false` with no plan. */
  lemma GenerationFailureHasNoPlan(budgetCents: Option<int>, days: Option<int>, people: Option<int>,
                                   catalog: seq<Product>, ai: Option<AiResponse>, fuzzy: string -> Lookup)
    requires InRange(budgetCents, days, people)
    requires ai.None? || Matched(catalog, fuzzy, ai.value.shoppingList).None?
    ensures BudgetPlan(budgetCents, days, people, Some(catalog), ai, fuzzy)
         == Returned(BudgetState(false, GenerationFailed, None, None))
  {
  }

  /** The remaining budget is not clamped: one $5 product against a $1 budget leaves -$4. */
  lemma OverspendIsReported(fuzzy: string -> Lookup)
    ensures var apples := Product(1, "Apples", 500, "apples.png");
            var r := BudgetPlan(Some(100), Some(1), Some(1), Some([apples]), Some(AiResponse([], ["Apples"])), fuzzy);
            r.Returned? && r.state.success && r.state.plan.value.remainingBudgetCents == -400
  {
    var apples := Product(1, "Apples", 500, "apples.png");
    assert ["Apples"][..0] == [];
    assert PriceSum([apples]) == 500 by {
      assert [apples][..0] == [];
    }
  }

  /**
   * The fallback is a substring test, not a spelling-tolerant one: the typo
   * "Organc Apples" does not reach "Organic Apples", however the lookup picks.
   */
  lemma TypoIsNotMatched(fuzzy: string -> Lookup)
    requires FuzzyAgrees([Product(1, "Organic Apples", 499, "apples.png")], fuzzy)
    ensures !Resolve([Product(1, "Organic Apples", 499, "apples.png")], fuzzy, "Organc Apples").Found?
  {
    var hay := Lower("Organic Apples");
    var needle := Lower("Organc Apples");
    forall k | 0 <= k <= |hay| - |needle| ensures !InfixAt(needle, hay, k) {
      if k == 0 {
        assert hay[k..k + |needle|][5] == hay[5] == 'i' && needle[5] == 'c';
      } else {
        assert hay[k..k + |needle|][0] == hay[1] == 'r' && needle[0] == 'o';
      }
    }
  }
}
