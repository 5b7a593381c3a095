/** ProductService over its product store: creation stamped with the caller as
    seller, update and delete guarded by existence and then ownership, and the
    choice of store query behind filterProducts. The store maps each id to the
    saved product document; `saveLog` records every document
    ProductRepository.save returns, with the id it carries once saved. */
module Products {
  import opened Common

  /** A price is a Java double; the service only carries it, so it is kept as
      the double's bit pattern and never computed on. */
  datatype Price = Price(bits: bv64)

  /** A product document; a client-supplied body may leave any field null. */
  datatype Product = Product(
    id: Option<string>,
    name: Option<string>,
    description: Option<string>,
    price: Price,
    sellerId: Option<string>,
    imageUrls: Option<seq<string>>)

  const ProductNotFound := StatusFault(NotFound, "Product not found")
  const UpdateForbidden := StatusFault(Forbidden, "Unauthorized to update this product")
  const DeleteForbidden := StatusFault(Forbidden, "Unauthorized to delete this product")

  // ---------------------------------------------------------------------------
  // filterProducts

  /** The characters String.trim drops: every code point up to the space. */
  predicate Blank(c: char) {
    c <= ' '
  }

  predicate AllBlank(s: string) {
    forall i :: 0 <= i < |s| ==> Blank(s[i])
  }

  /** String.trim, leading side: the longest blank prefix is dropped. */
  function TrimLeading(s: string): (r: string)
    ensures |r| <= |s| && r == s[|s| - |r|..]
    ensures forall i :: 0 <= i < |s| - |r| ==> Blank(s[i])
    ensures r == [] || !Blank(r[0])
  {
    if s != [] && Blank(s[0]) then
      var r := TrimLeading(s[1..]);
      assert forall i :: 1 <= i < |s| ==> s[i] == s[1..][i - 1];
      r
    else s
  }

  /** String.trim, trailing side: the longest blank suffix is dropped. */
  function TrimTrailing(s: string): (r: string)
    ensures |r| <= |s| && r == s[..|r|]
    ensures forall i :: |r| <= i < |s| ==> Blank(s[i])
    ensures r == [] || !Blank(r[|r| - 1])
  {
    if s != [] && Blank(s[|s| - 1]) then
      var r := TrimTrailing(s[..|s| - 1]);
      assert forall i :: 0 <= i < |s| - 1 ==> s[i] == s[..|s| - 1][i];
      r
    else s
  }

  /** String.trim: the result neither starts nor ends with a blank, and
      TrimKeepsMiddle says that only blanks around it are dropped. */
  function Trim(s: string): (r: string)
    ensures |r| <= |s|
    ensures r == [] || (!Blank(r[0]) && !Blank(r[|r| - 1]))
  {
    var t := TrimLeading(s);
    var r := TrimTrailing(t);
    assert r == [] || r[0] == t[0];
    r
  }

  /** What trim keeps is the run of the input starting at the returned position
      k, and everything it drops on either side of that run is blank. */
  lemma TrimKeepsMiddle(s: string) returns (k: nat)
    ensures k + |Trim(s)| <= |s| && Trim(s) == s[k..k + |Trim(s)|]
    ensures forall i :: 0 <= i < k ==> Blank(s[i])
    ensures forall i :: k + |Trim(s)| <= i < |s| ==> Blank(s[i])
  {
    var t := TrimLeading(s);
    var r := TrimTrailing(t);
    k := |s| - |t|;
    RunOfSuffix(s, t, r);
  }

  /** A prefix r of a suffix t of s, with only blanks after r in t, is a run of s
      followed only by blanks. */
  lemma RunOfSuffix(s: string, t: string, r: string)
    requires |t| <= |s| && t == s[|s| - |t|..]
    requires |r| <= |t| && r == t[..|r|]
    requires forall i :: |r| <= i < |t| ==> Blank(t[i])
    ensures r == s[|s| - |t|..|s| - |t| + |r|]
    ensures forall i :: |s| - |t| + |r| <= i < |s| ==> Blank(s[i])
  {
    var k := |s| - |t|;
    assert forall i :: k <= i < |s| ==> s[i] == t[i - k];
  }

  lemma {:induction false} TrimLeadingEmpty(s: string)
    ensures TrimLeading(s) == [] <==> AllBlank(s)
  {
    if s != [] && Blank(s[0]) {
      TrimLeadingEmpty(s[1..]);
      assert AllBlank(s) <==> AllBlank(s[1..]) by {
        forall i | 0 <= i < |s[1..]| ensures s[1..][i] == s[i + 1] {}
      }
    }
  }

  /** A string trims to nothing exactly when every character is blank. */
  lemma TrimEmptyIffBlank(s: string)
    ensures Trim(s) == [] <==> AllBlank(s)
  {
    TrimLeadingEmpty(s);
    var t := TrimLeading(s);
    if t != [] {
      assert TrimTrailing(t) != [] by {
        if TrimTrailing(t) == [] {
          TrimTrailingKeepsFirst(t);
        }
      }
    }
  }

  /** Trailing trimming never eats a non-blank first character. */
  lemma {:induction false} TrimTrailingKeepsFirst(s: string)
    requires s != [] && !Blank(s[0])
    ensures TrimTrailing(s) != []
  {
    if Blank(s[|s| - 1]) {
      assert |s| > 1;
      TrimTrailingKeepsFirst(s[..|s| - 1]);
    }
  }

  /** The repository query filterProducts runs: a case-insensitive name regex
      within a price range, or the price range alone. The bounds are the
      BigDecimal arguments. */
  datatype ProductQuery =
    | NameAndPriceRange(name: string, minPrice: real, maxPrice: real)
    | PriceRange(minPrice: real, maxPrice: real)

  /** filterProducts: a null bound fails when it is converted. */
  function FilterProducts(query: Option<string>, minPrice: Option<real>, maxPrice: Option<real>): (r: Result<ProductQuery, Fault>)
    ensures r.Failure? <==> minPrice.None? || maxPrice.None?
    ensures r.Failure? ==> r.error == NullPointerFault
    ensures r.Success? ==> r.value.minPrice == minPrice.value && r.value.maxPrice == maxPrice.value
    ensures r.Success? ==> (r.value.NameAndPriceRange? <==> query.Some? && !AllBlank(query.value))
    ensures r.Success? && r.value.NameAndPriceRange? ==> r.value.name == query.value
  {
    TrimEmptyIffBlank(query.GetOr(""));
    if minPrice.None? || maxPrice.None? then Failure(NullPointerFault)
    else if query.Some? && Trim(query.value) != [] then Success(NameAndPriceRange(query.value, minPrice.value, maxPrice.value))
    else Success(PriceRange(minPrice.value, maxPrice.value))
  }

  // ---------------------------------------------------------------------------
  // updateProduct

  /** The document updateProduct saves: the stored product with the request's
      name, description, price and image list. */
  function Revised(existing: Product, request: Product): (p: Product)
    ensures p.id == existing.id && p.sellerId == existing.sellerId
    ensures p.name == request.name && p.description == request.description
    ensures p.price == request.price && p.imageUrls == request.imageUrls
  {
    existing.(name := request.name, description := request.description, price := request.price, imageUrls := request.imageUrls)
  }

  /** The request cannot move the product or hand it to another seller: its id
      and sellerId are ignored, and revising twice is revising once. */
  lemma RevisedIgnoresIdentity(existing: Product, request: Product, id: Option<string>, sellerId: Option<string>)
    ensures Revised(existing, request.(id := id, sellerId := sellerId)) == Revised(existing, request)
    ensures Revised(Revised(existing, request), request) == Revised(existing, request)
  {
  }

  /** The ownership check of update and delete: the stored product's sellerId must
      equal the caller's (a stored product without one fails on String.equals). */
  function OwnershipCheck(existing: Product, sellerId: string, refusal: Fault): (r: Option<Fault>)
    ensures r.None? <==> existing.sellerId == Some(sellerId)
    ensures r.Some? ==> r.value == (if existing.sellerId.None? then NullPointerFault else refusal)
  {
    if existing.sellerId.None? then Some(NullPointerFault)
    else if existing.sellerId.value != sellerId then Some(refusal)
    else None
  }

  // ---------------------------------------------------------------------------
  // The service

  class ProductService {
    var products: map<string, Product>
    ghost var saveLog: seq<Product>

    /** Every stored document carries its key as id. */
    ghost predicate Valid()
      reads this
    {
      forall id :: id in products ==> products[id].id == Some(id)
    }

    constructor ()
      ensures Valid() && products == map[] && saveLog == []
    {
      products := map[];
      saveLog := [];
    }

    /** ProductRepository.save: a product without an id gets a fresh one; one
        with an id is written under it, replacing whatever is stored there. */
    method Save(product: Product) returns (saved: Product)
      requires Valid()
      modifies this
      ensures Valid() && saved.id.Some?
      ensures product.id.Some? ==> saved == product
      ensures product.id.None? ==> saved == product.(id := saved.id) && saved.id.value !in old(products)
      ensures products == old(products)[saved.id.value := saved]
      ensures saveLog == old(saveLog) + [saved]
    {
      saved := product;
      if saved.id.None? {
        var id := FreshKey(products);
        saved := saved.(id := Some(id));
      }
      products := products[saved.id.value := saved];
      saveLog := saveLog + [saved];
    }

    /** createProduct: the caller becomes the seller whatever the body said; the
        body's own id, when it has one, is kept, so the save replaces any product
        stored under it. */
    method CreateProduct(product: Product, sellerId: string) returns (saved: Product)
      requires Valid()
      modifies this
      ensures Valid()
      ensures saved.sellerId == Some(sellerId) && saved.id.Some?
      ensures saved == product.(sellerId := Some(sellerId), id := saved.id)
      ensures product.id.Some? ==> saved.id == product.id
      ensures product.id.None? ==> saved.id.value !in old(products)
      ensures products == old(products)[saved.id.value := saved]
      ensures saveLog == old(saveLog) + [saved]
    {
      var stamped := product.(sellerId := Some(sellerId));
      saved := Save(stamped);
    }

    /** createProduct with the body's id discarded: every creation inserts a new
        product, and no stored product changes. */
    method CreateProductFresh(product: Product, sellerId: string) returns (saved: Product)
      requires Valid()
      modifies this
      ensures Valid()
      ensures saved == product.(sellerId := Some(sellerId), id := saved.id) && saved.id.Some?
      ensures saved.id.value !in old(products)
      ensures products == old(products)[saved.id.value := saved]
      ensures forall id :: id in old(products) ==> id in products && products[id] == old(products)[id]
      ensures saveLog == old(saveLog) + [saved]
    {
      var stamped := product.(sellerId := Some(sellerId), id := None);
      saved := Save(stamped);
    }

    /** updateProduct: NOT_FOUND before FORBIDDEN; only the owner's request is
        applied, and only to the four editable fields. */
    method UpdateProduct(id: string, product: Product, sellerId: string) returns (r: Result<Product, Fault>)
      requires Valid()
      modifies this
      ensures Valid()
      ensures id !in old(products) ==> r == Failure(ProductNotFound)
      ensures id in old(products) && old(products)[id].sellerId != Some(sellerId) ==>
        r == Failure(OwnershipCheck(old(products)[id], sellerId, UpdateForbidden).value)
      ensures r.Failure? ==> products == old(products) && saveLog == old(saveLog)
      ensures id in old(products) && old(products)[id].sellerId == Some(sellerId) ==>
        && r == Success(Revised(old(products)[id], product))
        && products == old(products)[id := r.value]
        && saveLog == old(saveLog) + [r.value]
    {
      if id !in products {
        return Failure(ProductNotFound);
      }
      var existing := products[id];
      var refusal := OwnershipCheck(existing, sellerId, UpdateForbidden);
      if refusal.Some? {
        return Failure(refusal.value);
      }
      existing := existing.(name := product.name);
      existing := existing.(description := product.description);
      existing := existing.(price := product.price);
      existing := existing.(imageUrls := product.imageUrls);
      var saved := Save(existing);
      r := Success(saved);
    }

    /** deleteProduct: NOT_FOUND before FORBIDDEN; the owner's call removes that id only. */
    method DeleteProduct(id: string, sellerId: string) returns (r: Result<(), Fault>)
      requires Valid()
      modifies this
      ensures Valid() && saveLog == old(saveLog)
      ensures id !in old(products) ==> r == Failure(ProductNotFound)
      ensures id in old(products) && old(products)[id].sellerId != Some(sellerId) ==>
        r == Failure(OwnershipCheck(old(products)[id], sellerId, DeleteForbidden).value)
      ensures r.Failure? ==> products == old(products)
      ensures id in old(products) && old(products)[id].sellerId == Some(sellerId) ==>
        r == Success(()) && products == old(products) - {id}
    {
      if id !in products {
        return Failure(ProductNotFound);
      }
      var refusal := OwnershipCheck(products[id], sellerId, DeleteForbidden);
      if refusal.Some? {
        return Failure(refusal.value);
      }
      products := products - {id};
      r := Success(());
    }
  }

  /** createProduct on a body that names another seller's stored product: the
      save replaces that product, which now belongs to the caller. */
  method CreateOverwritesForeignProduct(s: ProductService, body: Product) returns (saved: Product)
    requires s.Valid()
    requires "p1" in s.products && s.products["p1"].sellerId == Some("alice")
    requires body.id == Some("p1")
    modifies s
    ensures "p1" in s.products && s.products["p1"] == saved
    ensures saved.sellerId == Some("mallory") && saved != old(s.products["p1"])
  {
    saved := s.CreateProduct(body, "mallory");
    assert "alice" != "mallory" by { assert "alice"[0] != "mallory"[0]; }
  }
}
