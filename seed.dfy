/**
 * The seeding script: insert the categories of one input list, keyed by
 * slug, and the products of another, keyed by name, each only when no row
 * with that key exists yet.  Reading and parsing the two JSON files is left
 * to the caller: a category file that cannot be read is `None`.
 */
module Seed {
  import opened Wrappers
  import opened Storage

  datatype CategoryInput = CategoryInput(name: string, slug: string)
  datatype ProductInput = ProductInput(name: string, priceCents: nat, image: string)

  /** `category.findFirst({ where: { slug } })` finds a row. */
  predicate HasSlug(categories: seq<Category>, slug: string) {
    exists g | g in categories :: g.slug == slug
  }

  /** `product.findFirst({ where: { name } })` finds a row. */
  predicate HasName(products: seq<Product>, name: string) {
    exists p | p in products :: p.name == name
  }

  /** The category loop over `input`, one entry after another. */
  function SeededCategories(t: Tables, input: seq<CategoryInput>): Tables
    decreases |input|
  {
    if input == [] then t
    else
      var t1 := SeededCategories(t, input[..|input| - 1]);
      var c := input[|input| - 1];
      if HasSlug(t1.categories, c.slug) then t1 else AddCategory(t1, c.name, c.slug)
  }

  /** The product loop over `input`, one entry after another. */
  function SeededProducts(t: Tables, input: seq<ProductInput>): Tables
    decreases |input|
  {
    if input == [] then t
    else
      var t1 := SeededProducts(t, input[..|input| - 1]);
      var p := input[|input| - 1];
      if HasName(t1.products, p.name) then t1 else AddProduct(t1, p.name, p.priceCents, p.image)
  }

  /** `main`: a failure of the category phase is caught and the products are seeded regardless. */
  function SeedEffect(t: Tables, categories: Option<seq<CategoryInput>>, products: seq<ProductInput>): Tables {
    var t1 := if categories.Some? then SeededCategories(t, categories.value) else t;
    SeededProducts(t1, products)
  }

  // ---------------------------------------------------------------------
  // The script, as the database calls it issues
  // ---------------------------------------------------------------------

  method SeedCategories(db: Database, input: seq<CategoryInput>)
    requires db.Valid()
    modifies db
    ensures db.Valid()
    ensures db.State() == SeededCategories(old(db.State()), input)
  {
    ghost var start := db.State();
    SeededCategoriesKeepsValid(start, input);
    for i := 0 to |input|
      invariant db.State() == SeededCategories(start, input[..i])
    {
      assert input[..i + 1][..i] == input[..i];
      var category := input[i];
      var existing := HasSlug(db.categories, category.slug);
      if !existing {
        db.CreateCategory(category.name, category.slug);
      }
    }
    assert input[..|input|] == input;
  }

  method SeedProducts(db: Database, input: seq<ProductInput>)
    requires db.Valid()
    modifies db
    ensures db.Valid()
    ensures db.State() == SeededProducts(old(db.State()), input)
  {
    ghost var start := db.State();
    SeededProductsKeepsValid(start, input);
    for i := 0 to |input|
      invariant db.State() == SeededProducts(start, input[..i])
    {
      assert input[..i + 1][..i] == input[..i];
      var product := input[i];
      var existing := HasName(db.products, product.name);
      if !existing {
        db.CreateProduct(product.name, product.priceCents, product.image);
      }
    }
    assert input[..|input|] == input;
  }

  method SeedAll(db: Database, categories: Option<seq<CategoryInput>>, products: seq<ProductInput>)
    requires db.Valid()
    modifies db
    ensures db.Valid()
    ensures db.State() == SeedEffect(old(db.State()), categories, products)
  {
    if categories.Some? {
      SeedCategories(db, categories.value);
    }
    SeedProducts(db, products);
  }

  // ---------------------------------------------------------------------
  // Properties of the category loop
  // ---------------------------------------------------------------------

  lemma {:induction false} SeededCategoriesKeepsValid(t: Tables, input: seq<CategoryInput>)
    requires ValidTables(t)
    ensures ValidTables(SeededCategories(t, input))
    decreases |input|
  {
    if input != [] {
      var t1 := SeededCategories(t, input[..|input| - 1]);
      SeededCategoriesKeepsValid(t, input[..|input| - 1]);
      AddCategoryKeepsValid(t1, input[|input| - 1].name, input[|input| - 1].slug);
    }
  }

  /** Only the category table and the id counter change, and the existing categories stay as they were, first. */
  lemma {:induction false} CategoriesOnlyAppended(t: Tables, input: seq<CategoryInput>)
    ensures var r := SeededCategories(t, input);
            && r == t.(categories := r.categories, nextId := r.nextId)
            && |t.categories| <= |r.categories|
            && r.categories[..|t.categories|] == t.categories
    decreases |input|
  {
    if input != [] {
      var t1 := SeededCategories(t, input[..|input| - 1]);
      CategoriesOnlyAppended(t, input[..|input| - 1]);
      var r := SeededCategories(t, input);
      assert r.categories[..|t1.categories|] == t1.categories;
      assert r.categories[..|t.categories|] == t1.categories[..|t.categories|];
    }
  }

  /** After the loop every input slug has a category. */
  lemma {:induction false} CategoriesCoverInput(t: Tables, input: seq<CategoryInput>)
    ensures forall i | 0 <= i < |input| :: HasSlug(SeededCategories(t, input).categories, input[i].slug)
    decreases |input|
  {
    if input != [] {
      var front := input[..|input| - 1];
      var t1 := SeededCategories(t, front);
      CategoriesCoverInput(t, front);
      var r := SeededCategories(t, input);
      forall i | 0 <= i < |input| ensures HasSlug(r.categories, input[i].slug) {
        if i < |front| {
          assert input[i] == front[i];
          var g :| g in t1.categories && g.slug == front[i].slug;
          assert g in r.categories;
        } else if !HasSlug(t1.categories, input[i].slug) {
          assert r.categories[|r.categories| - 1].slug == input[i].slug;
        }
      }
    }
  }

  /** Entry `i` is the first of `input` with its slug. */
  ghost predicate FirstWithSlug(input: seq<CategoryInput>, i: int)
    requires 0 <= i < |input|
  {
    forall j | 0 <= j < i :: input[j].slug != input[i].slug
  }

  /** Row `g` was made from the first input entry with its slug. */
  ghost predicate FromFirstSlugEntry(input: seq<CategoryInput>, g: Category) {
    exists i | 0 <= i < |input| :: input[i] == CategoryInput(g.name, g.slug) && FirstWithSlug(input, i)
  }

  /** Each inserted category has a slug no earlier row has: slugs are never duplicated. */
  lemma {:induction false} CategoriesInsertedFresh(t: Tables, input: seq<CategoryInput>)
    ensures var r := SeededCategories(t, input);
            forall k | |t.categories| <= k < |r.categories| :: !HasSlug(r.categories[..k], r.categories[k].slug)
    decreases |input|
  {
    if input != [] {
      var front := input[..|input| - 1];
      var t1 := SeededCategories(t, front);
      var r := SeededCategories(t, input);
      CategoriesInsertedFresh(t, front);
      CategoriesOnlyAppended(t, front);
      if r != t1 {
        forall k | |t.categories| <= k < |r.categories| ensures !HasSlug(r.categories[..k], r.categories[k].slug) {
          if k < |t1.categories| {
            assert r.categories[..k] == t1.categories[..k] && r.categories[k] == t1.categories[k];
          } else {
            assert r.categories[..k] == t1.categories;
          }
        }
      }
    }
  }

  /**
   * Each inserted category is the first input entry with its slug: a
   * repeated slug is inserted once, from its first occurrence.
   */
  lemma {:induction false} CategoriesFromFirstOccurrence(t: Tables, input: seq<CategoryInput>)
    ensures var r := SeededCategories(t, input);
            forall k | |t.categories| <= k < |r.categories| :: FromFirstSlugEntry(input, r.categories[k])
    decreases |input|
  {
    if input != [] {
      var front := input[..|input| - 1];
      var t1 := SeededCategories(t, front);
      var r := SeededCategories(t, input);
      CategoriesFromFirstOccurrence(t, front);
      CategoriesOnlyAppended(t, front);
      forall k | |t.categories| <= k < |r.categories| ensures FromFirstSlugEntry(input, r.categories[k]) {
        if k < |t1.categories| {
          var g := t1.categories[k];
          var i :| 0 <= i < |front| && front[i] == CategoryInput(g.name, g.slug) && FirstWithSlug(front, i);
          assert input[i] == front[i];
          assert FirstWithSlug(input, i);
        } else {
          LastIsFirstWithSlug(t, input);
        }
      }
    }
  }

  lemma LastIsFirstWithSlug(t: Tables, input: seq<CategoryInput>)
    requires input != []
    requires !HasSlug(SeededCategories(t, input[..|input| - 1]).categories, input[|input| - 1].slug)
    ensures FirstWithSlug(input, |input| - 1)
  {
    var front := input[..|input| - 1];
    CategoriesCoverInput(t, front);
    forall j | 0 <= j < |input| - 1 ensures input[j].slug != input[|input| - 1].slug {
      assert input[j] == front[j];
    }
  }

  /** When every input slug already has a category, the loop changes nothing. */
  lemma {:induction false} CategoriesPresentChangeNothing(t: Tables, input: seq<CategoryInput>)
    requires forall i | 0 <= i < |input| :: HasSlug(t.categories, input[i].slug)
    ensures SeededCategories(t, input) == t
    decreases |input|
  {
    if input != [] {
      CategoriesPresentChangeNothing(t, input[..|input| - 1]);
    }
  }

  /** Seeding the categories a second time adds nothing. */
  lemma CategoriesIdempotent(t: Tables, input: seq<CategoryInput>)
    ensures SeededCategories(SeededCategories(t, input), input) == SeededCategories(t, input)
  {
    CategoriesCoverInput(t, input);
    CategoriesPresentChangeNothing(SeededCategories(t, input), input);
  }

  // ---------------------------------------------------------------------
  // Properties of the product loop
  // ---------------------------------------------------------------------

  lemma {:induction false} SeededProductsKeepsValid(t: Tables, input: seq<ProductInput>)
    requires ValidTables(t)
    ensures ValidTables(SeededProducts(t, input))
    decreases |input|
  {
    if input != [] {
      var t1 := SeededProducts(t, input[..|input| - 1]);
      SeededProductsKeepsValid(t, input[..|input| - 1]);
      var p := input[|input| - 1];
      AddProductKeepsValid(t1, p.name, p.priceCents, p.image);
    }
  }

  /** Only the product table and the id counter change, and the existing products stay as they were, first. */
  lemma {:induction false} ProductsOnlyAppended(t: Tables, input: seq<ProductInput>)
    ensures var r := SeededProducts(t, input);
            && r == t.(products := r.products, nextId := r.nextId)
            && |t.products| <= |r.products|
            && r.products[..|t.products|] == t.products
    decreases |input|
  {
    if input != [] {
      var t1 := SeededProducts(t, input[..|input| - 1]);
      ProductsOnlyAppended(t, input[..|input| - 1]);
      var r := SeededProducts(t, input);
      assert r.products[..|t1.products|] == t1.products;
      assert r.products[..|t.products|] == t1.products[..|t.products|];
    }
  }

  /** After the loop every input name has a product. */
  lemma {:induction false} ProductsCoverInput(t: Tables, input: seq<ProductInput>)
    ensures forall i | 0 <= i < |input| :: HasName(SeededProducts(t, input).products, input[i].name)
    decreases |input|
  {
    if input != [] {
      var front := input[..|input| - 1];
      var t1 := SeededProducts(t, front);
      ProductsCoverInput(t, front);
      var r := SeededProducts(t, input);
      forall i | 0 <= i < |input| ensures HasName(r.products, input[i].name) {
        if i < |front| {
          assert input[i] == front[i];
          var p :| p in t1.products && p.name == front[i].name;
          assert p in r.products;
        } else if !HasName(t1.products, input[i].name) {
          assert r.products[|r.products| - 1].name == input[i].name;
        }
      }
    }
  }

  /** Entry `i` is the first of `input` with its name. */
  ghost predicate FirstWithName(input: seq<ProductInput>, i: int)
    requires 0 <= i < |input|
  {
    forall j | 0 <= j < i :: input[j].name != input[i].name
  }

  /** Row `g` was made from the first input entry with its name. */
  ghost predicate FromFirstNameEntry(input: seq<ProductInput>, g: Product) {
    exists i | 0 <= i < |input| :: input[i] == ProductInput(g.name, g.priceCents, g.image) && FirstWithName(input, i)
  }

  /** Each inserted product has a slug no earlier row has: names are never duplicated. */
  lemma {:induction false} ProductsInsertedFresh(t: Tables, input: seq<ProductInput>)
    ensures var r := SeededProducts(t, input);
            forall k | |t.products| <= k < |r.products| :: !HasName(r.products[..k], r.products[k].name)
    decreases |input|
  {
    if input != [] {
      var front := input[..|input| - 1];
      var t1 := SeededProducts(t, front);
      var r := SeededProducts(t, input);
      ProductsInsertedFresh(t, front);
      ProductsOnlyAppended(t, front);
      if r != t1 {
        forall k | |t.products| <= k < |r.products| ensures !HasName(r.products[..k], r.products[k].name) {
          if k < |t1.products| {
            assert r.products[..k] == t1.products[..k] && r.products[k] == t1.products[k];
          } else {
            assert r.products[..k] == t1.products;
          }
        }
      }
    }
  }

  /**
   * Each inserted product is the first input entry with its name: a
   * repeated name is inserted once, from its first occurrence.
   */
  lemma {:induction false} ProductsFromFirstOccurrence(t: Tables, input: seq<ProductInput>)
    ensures var r := SeededProducts(t, input);
            forall k | |t.products| <= k < |r.products| :: FromFirstNameEntry(input, r.products[k])
    decreases |input|
  {
    if input != [] {
      var front := input[..|input| - 1];
      var t1 := SeededProducts(t, front);
      var r := SeededProducts(t, input);
      ProductsFromFirstOccurrence(t, front);
      ProductsOnlyAppended(t, front);
      forall k | |t.products| <= k < |r.products| ensures FromFirstNameEntry(input, r.products[k]) {
        if k < |t1.products| {
          var g := t1.products[k];
          var i :| 0 <= i < |front| && front[i] == ProductInput(g.name, g.priceCents, g.image) && FirstWithName(front, i);
          assert input[i] == front[i];
          assert FirstWithName(input, i);
        } else {
          LastIsFirstWithName(t, input);
        }
      }
    }
  }

  lemma LastIsFirstWithName(t: Tables, input: seq<ProductInput>)
    requires input != []
    requires !HasName(SeededProducts(t, input[..|input| - 1]).products, input[|input| - 1].name)
    ensures FirstWithName(input, |input| - 1)
  {
    var front := input[..|input| - 1];
    ProductsCoverInput(t, front);
    forall j | 0 <= j < |input| - 1 ensures input[j].name != input[|input| - 1].name {
      assert input[j] == front[j];
    }
  }

  /** When every input name already has a product, the loop changes nothing. */
  lemma {:induction false} ProductsPresentChangeNothing(t: Tables, input: seq<ProductInput>)
    requires forall i | 0 <= i < |input| :: HasName(t.products, input[i].name)
    ensures SeededProducts(t, input) == t
    decreases |input|
  {
    if input != [] {
      ProductsPresentChangeNothing(t, input[..|input| - 1]);
    }
  }

  // ---------------------------------------------------------------------
  // The whole script
  // ---------------------------------------------------------------------

  /**
   * After seeding every input slug and every input name is present; running
   * the script a second time with the same input adds nothing.
   */
  lemma SeedIsIdempotent(t: Tables, categories: Option<seq<CategoryInput>>, products: seq<ProductInput>)
    ensures var r := SeedEffect(t, categories, products);
            && (categories.Some? ==> forall i | 0 <= i < |categories.value| :: HasSlug(r.categories, categories.value[i].slug))
            && (forall i | 0 <= i < |products| :: HasName(r.products, products[i].name))
            && SeedEffect(r, categories, products) == r
  {
    var t1 := if categories.Some? then SeededCategories(t, categories.value) else t;
    var r := SeededProducts(t1, products);
    ProductsOnlyAppended(t1, products);
    ProductsCoverInput(t1, products);
    if categories.Some? {
      CategoriesCoverInput(t, categories.value);
      assert r.categories == t1.categories;
      CategoriesPresentChangeNothing(r, categories.value);
    }
    ProductsPresentChangeNothing(r, products);
  }

  /** A category file that cannot be read leaves the categories alone; the products are still seeded. */
  lemma CategoryFailureStillSeedsProducts(t: Tables, products: seq<ProductInput>)
    ensures SeedEffect(t, None, products).categories == t.categories
    ensures forall i | 0 <= i < |products| :: HasName(SeedEffect(t, None, products).products, products[i].name)
  {
    ProductsOnlyAppended(t, products);
    ProductsCoverInput(t, products);
  }
}
