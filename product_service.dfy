/** The mock persistence layer and the pure helpers of `services/productService.ts`.
    Browser storage is the `Store` class: one optional slot per collection, where
    an absent slot means the collection was never written and the seed applies. */
module ProductService {
  import opened Wrappers
  import opened Seqs
  import opened Text
  import opened Catalog

  // ---------------------------------------------------------------------------
  // Seed data

  const SeedCategories: seq<Category> := [
    Category("cat1", "Ropa", "https://images.unsplash.com/photo-1515886657613-9f3515b0c78f?w=400&h=400&fit=crop"),
    Category("cat2", "Zapatos", "https://images.unsplash.com/photo-1549298916-b41d501d3772?w=400&h=400&fit=crop"),
    Category("cat3", "Hogar", "https://images.unsplash.com/photo-1583847268964-b28dc8f51f92?w=400&h=400&fit=crop"),
    Category("cat4", "Tech", "https://images.unsplash.com/photo-1496181133206-80ce9b88a853?w=400&h=400&fit=crop"),
    Category("cat5", "Belleza", "https://images.unsplash.com/photo-1596462502278-27bfdd403348?w=400&h=400&fit=crop"),
    Category("cat6", "Juguetes", "https://images.unsplash.com/photo-1596461404969-9ae70f2830c1?w=400&h=400&fit=crop")
  ]

  /** The seed categories have distinct ids. */
  lemma SeedCategoriesUnique()
    ensures UniqueKeys(SeedCategories, CategoryId)
  {
    var s := SeedCategories;
    assert s[0].id[3] == '1' && s[1].id[3] == '2' && s[2].id[3] == '3';
    assert s[3].id[3] == '4' && s[4].id[3] == '5' && s[5].id[3] == '6';
  }

  /** `name` is the name of one of the seed categories. */
  predicate SeedCategoryName(name: string) {
    exists k :: 0 <= k < |SeedCategories| && SeedCategories[k].nombre == name
  }

  /** The category name given to the generated seed product number `i`. */
  function GeneratedCategory(i: nat): (name: string)
    ensures SeedCategoryName(name)
  {
    SeedCategories[i % |SeedCategories|].nombre
  }

  // ---------------------------------------------------------------------------
  // What the repository operations do to a whole collection

  const ProductNotFound := "Product not found"
  const CategoryNotFound := "Category not found"

  /** `products.filter(p => p.estado !== 'eliminado')`: the listing shown to shoppers and to the admin. */
  function Listed(ps: seq<Product>): seq<Product> {
    Filter(IsListed, ps)
  }

  /** The collection after `deleteProduct(id)`: the first record with that id is marked `Eliminado`. */
  function SoftDeleted(ps: seq<Product>, id: string): seq<Product> {
    var i := FindIndex(ps, ProductId, id);
    if i == -1 then ps else ps[i := ps[i].(estado := Eliminado)]
  }

  /** The collection after `toggleProductLike(id)`: the first record with that id has one more like. */
  function Liked(ps: seq<Product>, id: string): seq<Product> {
    var i := FindIndex(ps, ProductId, id);
    if i == -1 then ps else ps[i := ps[i].(likes := ps[i].likes + 1)]
  }

  /** The categories after `deleteCategory(id)`. */
  function WithoutCategory(cats: seq<Category>, id: string): seq<Category> {
    Filter((c: Category) => c.id != id, cats)
  }

  /** Soft delete keeps every record and the length; it changes only the `estado` of
      the first record with the id, and nothing at all when the id is absent. */
  lemma SoftDeletedFrame(ps: seq<Product>, id: string)
    ensures |SoftDeleted(ps, id)| == |ps|
    ensures FindIndex(ps, ProductId, id) == -1 ==> SoftDeleted(ps, id) == ps
    ensures var i := FindIndex(ps, ProductId, id);
      i != -1 ==>
        && SoftDeleted(ps, id)[i] == ps[i].(estado := Eliminado)
        && forall j :: 0 <= j < |ps| && j != i ==> SoftDeleted(ps, id)[j] == ps[j]
    ensures FindIndex(SoftDeleted(ps, id), ProductId, id) == FindIndex(ps, ProductId, id)
  {
    var i := FindIndex(ps, ProductId, id);
    if i != -1 {
      var r := SoftDeleted(ps, id);
      assert r[i].id == id;
      var k := FindIndex(r, ProductId, id);
      assert forall j :: 0 <= j < i ==> r[j].id != id;
    }
  }

  /** When ids are unique, a soft-deleted id no longer appears in the listing. */
  lemma SoftDeletedHidden(ps: seq<Product>, id: string)
    requires UniqueKeys(ps, ProductId)
    ensures forall k :: 0 <= k < |Listed(SoftDeleted(ps, id))| ==> Listed(SoftDeleted(ps, id))[k].id != id
  {
    var r := SoftDeleted(ps, id);
    var i := FindIndex(ps, ProductId, id);
    forall k | 0 <= k < |Listed(r)| ensures Listed(r)[k].id != id {
      var p := Listed(r)[k];
      var j :| 0 <= j < |r| && r[j] == p;
      if i != -1 && j != i {
        assert ps[j] == r[j];
        assert p.id != id by {
          if p.id == id {
            UniqueFindIndex(ps, ProductId, id, j);
          }
        }
      }
    }
  }

  /** A like changes only the `likes` of the first record with the id, by one. */
  lemma LikedFrame(ps: seq<Product>, id: string)
    ensures |Liked(ps, id)| == |ps|
    ensures FindIndex(ps, ProductId, id) == -1 ==> Liked(ps, id) == ps
    ensures var i := FindIndex(ps, ProductId, id);
      i != -1 ==>
        && Liked(ps, id)[i] == ps[i].(likes := ps[i].likes + 1)
        && forall j :: 0 <= j < |ps| && j != i ==> Liked(ps, id)[j] == ps[j]
    ensures FindIndex(Liked(ps, id), ProductId, id) == FindIndex(ps, ProductId, id)
  {
    var i := FindIndex(ps, ProductId, id);
    if i != -1 {
      var r := Liked(ps, id);
      assert r[i].id == id;
      assert forall j :: 0 <= j < i ==> r[j].id != id;
    }
  }

  /** Two likes on a present id add two to its count. */
  lemma LikedTwice(ps: seq<Product>, id: string)
    requires FindIndex(ps, ProductId, id) != -1
    ensures var i := FindIndex(ps, ProductId, id);
      Liked(Liked(ps, id), id)[i].likes == ps[i].likes + 2
  {
    LikedFrame(ps, id);
    LikedFrame(Liked(ps, id), id);
  }

  /** Deleting a category removes every category with the id and keeps the others, in order. */
  lemma WithoutCategorySpec(cats: seq<Category>, id: string)
    ensures forall k :: 0 <= k < |WithoutCategory(cats, id)| ==> WithoutCategory(cats, id)[k].id != id
    ensures forall k :: 0 <= k < |cats| && cats[k].id != id ==> cats[k] in WithoutCategory(cats, id)
    ensures IsSubsequence(WithoutCategory(cats, id), cats)
    ensures (forall k :: 0 <= k < |cats| ==> cats[k].id != id) ==> WithoutCategory(cats, id) == cats
  {
    FilterIsSubsequence((c: Category) => c.id != id, cats);
    if forall k :: 0 <= k < |cats| ==> cats[k].id != id {
      FilterAll((c: Category) => c.id != id, cats);
    }
  }

  // ---------------------------------------------------------------------------
  // The store and the repository operations

  class Store {
    /** The products written on first access (`SEED_PRODUCTS`). */
    const seedProducts: seq<Product>
    /** The `miarys_products` slot; `None` until written. */
    var products: Option<seq<Product>>
    /** The `miarys_categories` slot; `None` until written. */
    var categories: Option<seq<Category>>

    /** The products a load returns: the slot, or the seed when the slot is empty. */
    function StoredProducts(): seq<Product>
      reads this
    {
      if products.Some? then products.value else seedProducts
    }

    /** The categories a load returns: the slot, or the seed when the slot is empty. */
    function StoredCategories(): seq<Category>
      reads this
    {
      if categories.Some? then categories.value else SeedCategories
    }

    /** Ids are unique in both collections, and in the product seed. */
    ghost predicate Valid()
      reads this
    {
      && UniqueKeys(seedProducts, ProductId)
      && UniqueKeys(StoredProducts(), ProductId)
      && UniqueKeys(StoredCategories(), CategoryId)
    }

    /** A store over browser storage that holds `storedProducts` and `storedCategories`
        (each `None` when never written). */
    constructor (seed: seq<Product>, storedProducts: Option<seq<Product>>, storedCategories: Option<seq<Category>>)
      requires UniqueKeys(seed, ProductId)
      requires forall k, c :: 0 <= k < |seed| && c in seed[k].categorias ==> SeedCategoryName(c)
      requires storedProducts.Some? ==> UniqueKeys(storedProducts.value, ProductId)
      requires storedCategories.Some? ==> UniqueKeys(storedCategories.value, CategoryId)
      ensures Valid()
      ensures seedProducts == seed && products == storedProducts && categories == storedCategories
    {
      seedProducts := seed;
      products := storedProducts;
      categories := storedCategories;
      SeedCategoriesUnique();
    }

    /** `getStoredProducts`: an empty slot is seeded and the seed returned; otherwise
        the slot's contents are returned. Afterwards the slot holds what was returned. */
    method GetStoredProducts() returns (ps: seq<Product>)
      requires Valid()
      modifies this
      ensures Valid()
      ensures old(products).None? ==> ps == seedProducts
      ensures old(products).Some? ==> ps == old(products).value
      ensures products == Some(ps) && categories == old(categories)
    {
      if products.None? {
        products := Some(seedProducts);
        ps := seedProducts;
      } else {
        ps := products.value;
      }
    }

    /** `saveStoredProducts`: overwrites the slot. */
    method SaveStoredProducts(ps: seq<Product>)
      modifies this
      ensures products == Some(ps) && categories == old(categories)
    {
      products := Some(ps);
    }

    /** `getStoredCategories`, as `GetStoredProducts`. */
    method GetStoredCategories() returns (cs: seq<Category>)
      requires Valid()
      modifies this
      ensures Valid()
      ensures old(categories).None? ==> cs == SeedCategories
      ensures old(categories).Some? ==> cs == old(categories).value
      ensures categories == Some(cs) && products == old(products)
    {
      if categories.None? {
        categories := Some(SeedCategories);
        cs := SeedCategories;
      } else {
        cs := categories.value;
      }
    }

    /** `saveStoredCategories`: overwrites the slot. */
    method SaveStoredCategories(cs: seq<Category>)
      modifies this
      ensures categories == Some(cs) && products == old(products)
    {
      categories := Some(cs);
    }

    /** `getActiveProducts`: the stored products that are not soft-deleted, in stored order. */
    method GetActiveProducts() returns (r: seq<Product>)
      requires Valid()
      modifies this
      ensures Valid()
      ensures r == Listed(old(StoredProducts()))
      ensures products == Some(old(StoredProducts())) && categories == old(categories)
    {
      var ps := GetStoredProducts();
      r := Filter(IsListed, ps);
    }

    /** `getAllProductsAdmin`: the same filter as the public listing. */
    method GetAllProductsAdmin() returns (r: seq<Product>)
      requires Valid()
      modifies this
      ensures Valid()
      ensures r == Listed(old(StoredProducts()))
      ensures products == Some(old(StoredProducts())) && categories == old(categories)
    {
      var ps := GetStoredProducts();
      r := Filter(IsListed, ps);
    }

    /** `getCategories`: every stored category. */
    method GetCategories() returns (r: seq<Category>)
      requires Valid()
      modifies this
      ensures Valid()
      ensures r == old(StoredCategories())
      ensures categories == Some(r) && products == old(products)
    {
      r := GetStoredCategories();
    }

    /** `createProduct`: completes the draft with the id (not yet used) and the time,
        and puts the new product in front of the stored ones. */
    method CreateProduct(draft: Draft, id: string, now: string) returns (p: Product)
      requires Valid()
      requires FindIndex(StoredProducts(), ProductId, id) == -1
      modifies this
      ensures Valid()
      ensures p == FromDraft(draft, id, now)
      ensures products == Some([p] + old(StoredProducts())) && categories == old(categories)
    {
      p := FromDraft(draft, id, now);
      var ps := GetStoredProducts();
      UniquePrepend(p, ps, ProductId);
      ps := [p] + ps;
      SaveStoredProducts(ps);
    }

    /** `updateProduct`: replaces the first stored product with the same id, or fails
        with "Product not found" and leaves the stored products as they were. */
    method UpdateProduct(product: Product) returns (r: Result<Product, string>)
      requires Valid()
      modifies this
      ensures Valid()
      ensures var i := FindIndex(old(StoredProducts()), ProductId, product.id);
        if i == -1 then
          r == Failure(ProductNotFound) && products == Some(old(StoredProducts()))
        else
          r == Success(product) && products == Some(old(StoredProducts())[i := product])
      ensures categories == old(categories)
    {
      var ps := GetStoredProducts();
      var index := FindIndex(ps, ProductId, product.id);
      if index != -1 {
        UniqueReplace(ps, index, product, ProductId);
        ps := ps[index := product];
        SaveStoredProducts(ps);
        r := Success(product);
      } else {
        r := Failure(ProductNotFound);
      }
    }

    /** `deleteProduct`: soft-deletes the first product with the id; nothing happens
        to the stored products when the id is absent. */
    method DeleteProduct(id: string)
      requires Valid()
      modifies this
      ensures Valid()
      ensures products == Some(SoftDeleted(old(StoredProducts()), id)) && categories == old(categories)
    {
      var ps := GetStoredProducts();
      var index := FindIndex(ps, ProductId, id);
      if index != -1 {
        UniqueReplace(ps, index, ps[index].(estado := Eliminado), ProductId);
        ps := ps[index := ps[index].(estado := Eliminado)];
        SaveStoredProducts(ps);
      }
    }

    /** `toggleProductLike`: adds one like to the first product with the id and returns
        its new count; returns 0 and changes nothing when the id is absent. */
    method ToggleProductLike(id: string) returns (n: int)
      requires Valid()
      modifies this
      ensures Valid()
      ensures products == Some(Liked(old(StoredProducts()), id)) && categories == old(categories)
      ensures var i := FindIndex(old(StoredProducts()), ProductId, id);
        n == if i == -1 then 0 else old(StoredProducts())[i].likes + 1
    {
      var ps := GetStoredProducts();
      var index := FindIndex(ps, ProductId, id);
      if index != -1 {
        UniqueReplace(ps, index, ps[index].(likes := ps[index].likes + 1), ProductId);
        ps := ps[index := ps[index].(likes := ps[index].likes + 1)];
        SaveStoredProducts(ps);
        n := ps[index].likes;
      } else {
        n := 0;
      }
    }

    /** `createCategory`: a new category with the id (not yet used), appended at the end. */
    method CreateCategory(nombre: string, imagen: string, id: string) returns (c: Category)
      requires Valid()
      requires FindIndex(StoredCategories(), CategoryId, id) == -1
      modifies this
      ensures Valid()
      ensures c == Category(id, nombre, imagen)
      ensures categories == Some(old(StoredCategories()) + [c]) && products == old(products)
    {
      c := Category(id, nombre, imagen);
      var cats := GetStoredCategories();
      UniqueAppend(cats, c, CategoryId);
      cats := cats + [c];
      SaveStoredCategories(cats);
    }

    /** `updateCategory`: replaces the first category with the same id, or fails with
        "Category not found" and leaves the categories as they were. */
    method UpdateCategory(category: Category) returns (r: Result<Category, string>)
      requires Valid()
      modifies this
      ensures Valid()
      ensures var i := FindIndex(old(StoredCategories()), CategoryId, category.id);
        if i == -1 then
          r == Failure(CategoryNotFound) && categories == Some(old(StoredCategories()))
        else
          r == Success(category) && categories == Some(old(StoredCategories())[i := category])
      ensures products == old(products)
    {
      var cats := GetStoredCategories();
      var index := FindIndex(cats, CategoryId, category.id);
      if index != -1 {
        UniqueReplace(cats, index, category, CategoryId);
        cats := cats[index := category];
        SaveStoredCategories(cats);
        r := Success(category);
      } else {
        r := Failure(CategoryNotFound);
      }
    }

    /** `deleteCategory`: removes every category with the id. The products are not
        touched, so products naming that category keep the name. */
    method DeleteCategory(id: string)
      requires Valid()
      modifies this
      ensures Valid()
      ensures categories == Some(WithoutCategory(old(StoredCategories()), id))
      ensures products == old(products)
    {
      var cats := GetStoredCategories();
      UniqueFilter((c: Category) => c.id != id, cats, CategoryId);
      cats := Filter((c: Category) => c.id != id, cats);
      SaveStoredCategories(cats);
    }
  }

  // ---------------------------------------------------------------------------
  // Pure helpers

  /** The product's name, description or one of its category names contains the
      (already lower-cased) query, compared in lower case. */
  predicate MatchesQuery(p: Product, lowerQuery: string) {
    || Contains(Lower(p.nombre), lowerQuery)
    || Contains(Lower(p.descripcion), lowerQuery)
    || exists c :: c in p.categorias && Contains(Lower(c), lowerQuery)
  }

  /** `searchProducts`: the empty query returns the list unchanged; otherwise the
      products matching the lower-cased query, in their original order. */
  function SearchProducts(ps: seq<Product>, query: string): (r: seq<Product>)
    ensures query == [] ==> r == ps
    ensures query != [] ==> forall k :: 0 <= k < |r| ==> r[k] in ps && MatchesQuery(r[k], Lower(query))
    ensures query != [] ==> forall k :: 0 <= k < |ps| && MatchesQuery(ps[k], Lower(query)) ==> ps[k] in r
  {
    if query == [] then ps
    else
      var lowerQuery := Lower(query);
      Filter((p: Product) => MatchesQuery(p, lowerQuery), ps)
  }

  /** Search keeps the order of the products: its result is a subsequence of its input. */
  lemma SearchIsSubsequence(ps: seq<Product>, query: string)
    ensures IsSubsequence(SearchProducts(ps, query), ps)
  {
    if query == [] {
      FilterAll((p: Product) => true, ps);
      FilterIsSubsequence((p: Product) => true, ps);
    } else {
      var lowerQuery := Lower(query);
      FilterIsSubsequence((p: Product) => MatchesQuery(p, lowerQuery), ps);
    }
  }

  /** A non-empty search keeps every occurrence of a matching product and nothing else. */
  lemma SearchCounts(ps: seq<Product>, query: string)
    requires query != []
    ensures forall p :: multiset(SearchProducts(ps, query))[p] == (if MatchesQuery(p, Lower(query)) then multiset(ps)[p] else 0)
  {
    var lowerQuery := Lower(query);
    FilterCounts((p: Product) => MatchesQuery(p, lowerQuery), ps);
  }

  /** Matching ignores case on the product side too: "zapa" finds a product named "Zapatos". */
  lemma SearchZapatos(p: Product)
    requires p.nombre == "Zapatos"
    ensures SearchProducts([p], "zapa") == [p]
  {
    assert Lower("zapa") == "zapa";
    assert Lower(p.nombre) == "zapatos";
    assert "zapa" <= "zapatos";
    assert MatchesQuery(p, "zapa");
  }

  /** Search does not see the case of the query's ASCII letters. */
  lemma SearchIgnoresQueryCase(ps: seq<Product>, query: string)
    ensures SearchProducts(ps, Lower(query)) == SearchProducts(ps, query)
  {
    LowerIdempotent(query);
  }

  /** Searching the concatenation of two lists searches each. */
  lemma SearchConcat(a: seq<Product>, b: seq<Product>, query: string)
    ensures SearchProducts(a + b, query) == SearchProducts(a, query) + SearchProducts(b, query)
  {
    if query != [] {
      var lowerQuery := Lower(query);
      FilterConcat((p: Product) => MatchesQuery(p, lowerQuery), a, b);
    }
  }

  const WhatsAppBaseUrl := "https://wa.me/"
  const Greeting := "Hola \U{1F44B}, vi esto en Miarys Variedades:"
  const BuyClause := "Quiero comprarlo."
  const AskPriceClause := "\U{BF}Me das el precio, por favor?"

  /** The message text of `generateWhatsAppLink`, before URL encoding. */
  function WhatsAppText(p: Product): string {
    Greeting + " *" + p.nombre + "*. " + (if p.mostrar_precio then BuyClause else AskPriceClause)
  }

  /** The greeting comes first, then the bold name, and the message ends with the
      purchase clause exactly when the price is shown. */
  lemma WhatsAppTextShape(p: Product)
    ensures Greeting <= WhatsAppText(p)
    ensures var t := WhatsAppText(p);
      t[|Greeting|..|Greeting| + |p.nombre| + 3] == " *" + p.nombre + "*"
    ensures var t := WhatsAppText(p);
      (|t| >= |BuyClause| && t[|t| - |BuyClause|..] == BuyClause) <==> p.mostrar_precio
    ensures var t := WhatsAppText(p);
      !p.mostrar_precio ==> t[|t| - |AskPriceClause|..] == AskPriceClause
  {
    var t := WhatsAppText(p);
    var clause := if p.mostrar_precio then BuyClause else AskPriceClause;
    assert t == Greeting + (" *" + p.nombre + "*") + (". " + clause);
    assert t[|t| - |clause|..] == clause;
    if !p.mostrar_precio {
      assert t[|t| - 1] == '?';
      assert BuyClause[|BuyClause| - 1] == '.';
    }
  }

  /** `generateWhatsAppLink`; URL encoding is the parameter `encode`. */
  function WhatsAppLink(p: Product, phone: string, encode: string -> string): string {
    WhatsAppBaseUrl + phone + "?text=" + encode(WhatsAppText(p))
  }

  const VideoPlaceholder := "https://placehold.co/600x600/101622/FFF?text=Video+Disponible"

  /** `getOptimizedImageUrl`: the placeholder for a missing or blank url, the url itself otherwise. */
  function GetOptimizedImageUrl(url: Option<string>): (r: string)
    ensures url.None? || IsBlank(url.value) ==> r == VideoPlaceholder
    ensures url.Some? && !IsBlank(url.value) ==> r == url.value
  {
    if url.None? || url.value == [] then VideoPlaceholder
    else
      TrimEmptyIff(url.value);
      if Trim(url.value) == [] then VideoPlaceholder else url.value
  }
}
