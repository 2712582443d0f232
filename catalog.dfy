/** The product catalog's records and the pure parts of its service
    (apps/api/src/products/products.service.ts): lookup by id, partial
    update, search and category filtering, distinct categories. */
module Catalog {
  import opened Wrappers
  import Sorting

  /** One row of the product table; money in cents, `createdAt` in ms. */
  datatype Product = Product(
    id: string,
    barcode: string,
    name: string,
    description: Option<string>,
    price: int,
    cost: Option<int>,
    category: Option<string>,
    imageUrl: Option<string>,
    isActive: bool,
    trackInventory: bool,
    supplierId: Option<string>,
    createdAt: int)

  /** UpdateProductDto: every field of CreateProductDto made optional, plus
      `isActive`. `None` is a field absent from the request. */
  datatype ProductPatch = ProductPatch(
    barcode: Option<string>,
    name: Option<string>,
    description: Option<string>,
    price: Option<int>,
    cost: Option<int>,
    category: Option<string>,
    imageUrl: Option<string>,
    trackInventory: Option<bool>,
    supplierId: Option<string>,
    isActive: Option<bool>)

  const EmptyPatch := ProductPatch(None, None, None, None, None, None, None, None, None, None)

  function Pick<T>(field: Option<T>, current: T): T {
    if field.Some? then field.value else current
  }

  function PickOptional<T>(field: Option<T>, current: Option<T>): Option<T> {
    if field.Some? then field else current
  }

  /** What `prisma.product.update({ data: patch })` writes into the row. */
  function ApplyPatch(p: Product, patch: ProductPatch): (r: Product)
    ensures r.id == p.id && r.createdAt == p.createdAt
    ensures patch == EmptyPatch ==> r == p
  {
    p.(barcode := Pick(patch.barcode, p.barcode),
       name := Pick(patch.name, p.name),
       description := PickOptional(patch.description, p.description),
       price := Pick(patch.price, p.price),
       cost := PickOptional(patch.cost, p.cost),
       category := PickOptional(patch.category, p.category),
       imageUrl := PickOptional(patch.imageUrl, p.imageUrl),
       trackInventory := Pick(patch.trackInventory, p.trackInventory),
       supplierId := PickOptional(patch.supplierId, p.supplierId),
       isActive := Pick(patch.isActive, p.isActive))
  }

  /** An update keeps the identity of the row and changes exactly the fields
      present in the patch. */
  lemma PatchChangesOnlyPresentFields(p: Product, patch: ProductPatch)
    ensures ApplyPatch(p, patch).id == p.id && ApplyPatch(p, patch).createdAt == p.createdAt
    ensures ApplyPatch(p, patch).name == (if patch.name.Some? then patch.name.value else p.name)
    ensures ApplyPatch(p, patch).barcode == (if patch.barcode.Some? then patch.barcode.value else p.barcode)
    ensures ApplyPatch(p, patch).price == (if patch.price.Some? then patch.price.value else p.price)
    ensures ApplyPatch(p, patch).isActive == (if patch.isActive.Some? then patch.isActive.value else p.isActive)
    ensures ApplyPatch(p, patch).trackInventory == (if patch.trackInventory.Some? then patch.trackInventory.value else p.trackInventory)
    ensures ApplyPatch(p, patch).description == (if patch.description.Some? then patch.description else p.description)
    ensures ApplyPatch(p, patch).cost == (if patch.cost.Some? then patch.cost else p.cost)
    ensures ApplyPatch(p, patch).category == (if patch.category.Some? then patch.category else p.category)
    ensures ApplyPatch(p, patch).imageUrl == (if patch.imageUrl.Some? then patch.imageUrl else p.imageUrl)
    ensures ApplyPatch(p, patch).supplierId == (if patch.supplierId.Some? then patch.supplierId else p.supplierId)
  {
  }

  /** Sending the same patch twice writes the same row as sending it once. */
  lemma PatchIdempotent(p: Product, patch: ProductPatch)
    ensures ApplyPatch(ApplyPatch(p, patch), patch) == ApplyPatch(p, patch)
  {
  }

  /** The position of the row with primary key `id` (the `findUnique`). */
  function IndexOf(products: seq<Product>, id: string): (r: Option<nat>)
    ensures r.Some? ==> r.value < |products| && products[r.value].id == id
    ensures r.None? <==> forall k :: 0 <= k < |products| ==> products[k].id != id
    decreases |products|
  {
    if products == [] then None
    else if products[|products| - 1].id == id then Some(|products| - 1)
    else IndexOf(products[..|products| - 1], id)
  }

  /** `findOne`: the row, or NotFoundException when there is none. */
  function FindOne(products: seq<Product>, id: string): (r: Result<Product, Error>)
    ensures r.Failure? <==> forall k :: 0 <= k < |products| ==> products[k].id != id
    ensures r.Failure? ==> r.error == NotFound(id)
    ensures r.Success? ==> r.value in products && r.value.id == id
  {
    match IndexOf(products, id)
    case None => Failure(NotFound(id))
    case Some(i) => Success(products[i])
  }

  // ------------------------------------------------------------ searching

  /** Case folding of the letters A-Z (what ILIKE does for ASCII text). */
  function LowerChar(c: char): char {
    if 'A' <= c <= 'Z' then (c as int + 32) as char else c
  }

  /** Folds `s` to lower case: no capital A-Z is left, and every other
      character is kept in place. */
  function Lower(s: string): (r: string)
    ensures |r| == |s|
    ensures forall k :: 0 <= k < |r| ==> !('A' <= r[k] <= 'Z')
    ensures forall k :: 0 <= k < |s| && !('A' <= s[k] <= 'Z') ==> r[k] == s[k]
  {
    seq(|s|, k requires 0 <= k < |s| => LowerChar(s[k]))
  }

  /** Folding is idempotent, so a search term typed in lower case finds the
      same rows as the same term in any mix of cases. */
  lemma LowerIdempotent(s: string, haystack: string)
    ensures Lower(Lower(s)) == Lower(s)
    ensures ContainsInsensitive(haystack, Lower(s)) == ContainsInsensitive(haystack, s)
  {
    assert Lower(Lower(s)) == Lower(s);
  }

  predicate OccursAt(haystack: string, needle: string, i: int) {
    0 <= i <= |haystack| - |needle| && haystack[i..i + |needle|] == needle
  }

  predicate Contains(haystack: string, needle: string) {
    exists i :: 0 <= i <= |haystack| - |needle| && OccursAt(haystack, needle, i)
  }

  /** `contains` with `mode: 'insensitive'`. */
  predicate ContainsInsensitive(haystack: string, needle: string) {
    Contains(Lower(haystack), Lower(needle))
  }

  /** The `where` of `findAll`: an empty or absent search or category is no
      filter (both are tested for truthiness). */
  predicate MatchesQuery(p: Product, search: Option<string>, category: Option<string>) {
    && (search.None? || search.value == ""
        || ContainsInsensitive(p.name, search.value) || ContainsInsensitive(p.barcode, search.value))
    && (category.None? || category.value == "" || p.category == category)
  }

  function FilterQuery(products: seq<Product>, search: Option<string>, category: Option<string>): (r: seq<Product>)
    ensures Sorting.IsSubsequence(r, products)
    ensures forall p :: p in r <==> p in products && MatchesQuery(p, search, category)
    decreases |products|
  {
    if products == [] then []
    else
      var init, last := products[..|products| - 1], products[|products| - 1];
      var earlier := FilterQuery(init, search, category);
      assert products == init + [last];
      Sorting.SubsequenceSnoc(earlier, products);
      if MatchesQuery(last, search, category) then earlier + [last] else earlier
  }

  function NewestFirst(p: Product): int { -p.createdAt }

  /** `findAll(search, category)`: the matching rows, newest first. */
  function FindAll(products: seq<Product>, search: Option<string>, category: Option<string>): (r: seq<Product>)
    ensures multiset(r) == multiset(FilterQuery(products, search, category))
    ensures forall p :: p in r <==> p in products && MatchesQuery(p, search, category)
    ensures forall i, j :: 0 <= i < j < |r| ==> r[i].createdAt >= r[j].createdAt
  {
    var sorted := Sorting.SortBy(FilterQuery(products, search, category), NewestFirst);
    assert forall i, j :: 0 <= i < j < |sorted| ==> NewestFirst(sorted[i]) <= NewestFirst(sorted[j]);
    sorted
  }

  /** With a search term, every row found has the term in its name or its
      barcode, case-insensitively; with a category, every row found has
      exactly that category. */
  lemma FindAllHonoursFilters(products: seq<Product>, search: Option<string>, category: Option<string>, p: Product)
    requires p in FindAll(products, search, category)
    ensures p in products
    ensures search.Some? && search.value != "" ==>
      ContainsInsensitive(p.name, search.value) || ContainsInsensitive(p.barcode, search.value)
    ensures category.Some? && category.value != "" ==> p.category == category
  {
  }

  // ----------------------------------------------------------- categories

  predicate Distinct(s: seq<string>) {
    forall i, j :: 0 <= i < j < |s| ==> s[i] != s[j]
  }

  /** `getCategories`: the distinct non-null categories in table order
      (first occurrence kept), with the empty string dropped by
      `.filter(Boolean)`. */
  function Categories(products: seq<Product>): (r: seq<string>)
    ensures Distinct(r)
    ensures forall c :: c in r ==> c != ""
    ensures forall c :: c in r <==> c != "" && exists k :: 0 <= k < |products| && products[k].category == Some(c)
    decreases |products|
  {
    if products == [] then []
    else
      var init, last := products[..|products| - 1], products[|products| - 1];
      var earlier := Categories(init);
      assert forall c :: (exists k :: 0 <= k < |products| && products[k].category == Some(c)) <==>
        (exists k :: 0 <= k < |init| && init[k].category == Some(c)) || last.category == Some(c) by {
        forall c | exists k :: 0 <= k < |products| && products[k].category == Some(c)
          ensures (exists k :: 0 <= k < |init| && init[k].category == Some(c)) || last.category == Some(c)
        {
          var k :| 0 <= k < |products| && products[k].category == Some(c);
          if k < |init| { assert init[k] == products[k]; }
        }
        forall c | exists k :: 0 <= k < |init| && init[k].category == Some(c)
          ensures exists k :: 0 <= k < |products| && products[k].category == Some(c)
        {
          var k :| 0 <= k < |init| && init[k].category == Some(c);
          assert products[k] == init[k];
        }
        assert last == products[|products| - 1];
      }
      if last.category.Some? && last.category.value != "" && last.category.value !in earlier then
        earlier + [last.category.value]
      else earlier
  }
}
