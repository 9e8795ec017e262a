/** The products repository
    (emporia-api/repositories/database/db_product_repo.py) over the
    `products` table. */
module ProductRepo {
  import opened Common
  import opened Tables

  /** The `WHERE` clause of a listing query. */
  datatype ProductFilter = AnyProduct | InCategory(categoryId: int) | OfSeller(sellerId: int)

  predicate Matches(p: Product, f: ProductFilter)
  {
    match f
    case AnyProduct => true
    case InCategory(c) => p.categoryId == c
    case OfSeller(s) => p.sellerId == s
  }

  /** The matching rows with ids in `[lo, hi)`, in id order. */
  function ListRange(products: map<int, Product>, f: ProductFilter, lo: int, hi: int): seq<(int, Product)>
    decreases hi - lo
  {
    if hi <= lo then []
    else
      ListRange(products, f, lo, hi - 1)
      + (if hi - 1 in products && Matches(products[hi - 1], f) then [(hi - 1, products[hi - 1])] else [])
  }

  /** The rows a `SELECT ... FROM products [WHERE ...]` returns, in id order. */
  function Listing(t: Tables, f: ProductFilter): seq<(int, Product)>
  {
    ListRange(t.products, f, 1, t.nextProductId)
  }

  lemma {:induction false} ListRangeMembers(products: map<int, Product>, f: ProductFilter,
                                            lo: int, hi: int, id: int, p: Product)
    ensures (id, p) in ListRange(products, f, lo, hi) <==>
              lo <= id < hi && id in products && products[id] == p && Matches(p, f)
    decreases hi - lo
  {
    if lo < hi {
      ListRangeMembers(products, f, lo, hi - 1, id, p);
    }
  }

  lemma {:induction false} ListRangeAscending(products: map<int, Product>, f: ProductFilter, lo: int, hi: int)
    ensures forall i, j :: 0 <= i < j < |ListRange(products, f, lo, hi)| ==>
              ListRange(products, f, lo, hi)[i].0 < ListRange(products, f, lo, hi)[j].0
    decreases hi - lo
  {
    if lo < hi {
      ListRangeAscending(products, f, lo, hi - 1);
      var s := ListRange(products, f, lo, hi - 1);
      forall k | 0 <= k < |s| ensures s[k].0 < hi - 1 {
        assert s[k] in s;
        ListRangeMembers(products, f, lo, hi - 1, s[k].0, s[k].1);
      }
    }
  }

  /** `get_all_products`, `get_by_category` and `get_by_seller` return
      exactly the rows of the table whose column has the asked value, each
      once, in id order. */
  lemma ListingExact(t: Tables, f: ProductFilter, id: int, p: Product)
    requires Valid(t)
    ensures (id, p) in Listing(t, f) <==> id in t.products && t.products[id] == p && Matches(p, f)
    ensures forall i, j :: 0 <= i < j < |Listing(t, f)| ==> Listing(t, f)[i].0 < Listing(t, f)[j].0
  {
    ListRangeMembers(t.products, f, 1, t.nextProductId, id, p);
    ListRangeAscending(t.products, f, 1, t.nextProductId);
  }

  /** `LIMIT limit OFFSET offset` on a list of rows. */
  function Page<T>(rows: seq<T>, limit: nat, offset: nat): (r: seq<T>)
    ensures |r| <= limit
    ensures offset + |r| <= |rows| || r == []
    ensures forall i :: 0 <= i < |r| ==> r[i] == rows[offset + i]
    ensures offset + limit <= |rows| ==> |r| == limit
    ensures offset <= |rows| <= offset + limit ==> |r| == |rows| - offset
  {
    if offset >= |rows| then []
    else if offset + limit <= |rows| then rows[offset..offset + limit]
    else rows[offset..]
  }

  /** MySQL refuses a negative `LIMIT` or `OFFSET`; the text of its error is
      not modelled. */
  const NegativePage := "Error fetching products: negative LIMIT or OFFSET"

  /** The phrases the product routes look for in an error's text. */
  const NotFoundPhrase := "not found"
  const NotBelongPhrase := "does not belong to seller"

  function ProductNotFound(id: int): string
  {
    "Product with ID " + IntToString(id) + " " + NotFoundPhrase
  }

  function NotSellers(id: int, sellerId: int): string
  {
    "Product with ID " + IntToString(id) + " exists but " + NotBelongPhrase + " " + IntToString(sellerId)
  }

  /** `update`: the row whose id and seller both match takes every column of
      `p` but the seller. A row that matches gets the category foreign key
      checked; a matching row that already holds exactly these values is not
      counted by `rowcount`, which counts changed rows, so it is reported
      as missing; with no matching row the repository tells a row owned by
      another seller from a missing one. */
  function ProductUpdate(t: Tables, id: int, p: Product): (r: Result<Tables>)
  {
    if id in t.products && t.products[id].sellerId == p.sellerId then
      if p.categoryId !in t.categories then Err("Invalid category ID: " + IntToString(p.categoryId))
      else if t.products[id] == p then Err("Product update failed: " + ProductNotFound(id))
      else Ok(t.(products := t.products[id := p]))
    else if id in t.products then Err("Product update failed: " + NotSellers(id, p.sellerId))
    else Err("Product update failed: " + ProductNotFound(id))
  }

  /** An update succeeds exactly when the row exists, belongs to the seller
      named in `p`, the new category exists and the row changes; it changes
      that row only, never its seller, and keeps the tables valid. Writing a
      row's own values back fails as if the row were missing. */
  lemma ProductUpdateSpec(t: Tables, id: int, p: Product)
    requires Valid(t)
    ensures ProductUpdate(t, id, p).Ok? <==>
              id in t.products && t.products[id].sellerId == p.sellerId && p.categoryId in t.categories &&
              t.products[id] != p
    ensures id in t.products && t.products[id] == p ==>
              ProductUpdate(t, id, p) == Err("Product update failed: " + ProductNotFound(id))
    ensures ProductUpdate(t, id, p).Ok? ==>
              var u := ProductUpdate(t, id, p).value;
              Valid(u) && u.products.Keys == t.products.Keys && u.products[id] == p &&
              u.products[id].sellerId == t.products[id].sellerId &&
              (forall k :: k in t.products && k != id ==> u.products[k] == t.products[k]) &&
              u == t.(products := u.products)
  {
  }

  /** `delete`: with a seller id only that seller's row goes, with the same
      two failures as `update`; without one (an administrator) any existing
      row goes. */
  function ProductDelete(t: Tables, id: int, sellerId: Option<int>): (r: Result<Tables>)
  {
    if id !in t.products then Err("Product deletion failed: " + ProductNotFound(id))
    else if sellerId.Some? && t.products[id].sellerId != sellerId.value then
      Err("Product deletion failed: " + NotSellers(id, sellerId.value))
    else Ok(t.(products := t.products - {id}))
  }

  /** A deletion removes exactly the one row and keeps the tables valid; it
      fails only for a missing row or, for a seller, a row of someone else. */
  lemma ProductDeleteSpec(t: Tables, id: int, sellerId: Option<int>)
    requires Valid(t)
    ensures ProductDelete(t, id, sellerId).Ok? <==>
              id in t.products && (sellerId == None || t.products[id].sellerId == sellerId.value)
    ensures ProductDelete(t, id, sellerId).Ok? ==>
              var u := ProductDelete(t, id, sellerId).value;
              Valid(u) && u.products.Keys == t.products.Keys - {id} &&
              (forall k :: k in u.products ==> u.products[k] == t.products[k]) &&
              u == t.(products := u.products)
  {
  }

  class DBProductRepo {
    const db: Database

    constructor (db: Database)
      ensures this.db == db
    {
      this.db := db;
    }

    /** `create`: the product gets the next id. A missing seller or
        category fails the foreign key (the seller is checked first) and
        nothing is written. */
    method Create(p: Product) returns (r: Result<int>)
      requires Valid(db.tables)
      modifies db
      ensures Valid(db.tables)
      ensures p.sellerId !in old(db.tables.sellers) ==>
                r == Err("Invalid seller ID: " + IntToString(p.sellerId)) && db.tables == old(db.tables)
      ensures p.sellerId in old(db.tables.sellers) && p.categoryId !in old(db.tables.categories) ==>
                r == Err("Invalid category ID: " + IntToString(p.categoryId)) && db.tables == old(db.tables)
      ensures r.Ok? ==>
                r.value == old(db.tables.nextProductId) && r.value !in old(db.tables.products) &&
                db.tables == old(db.tables).(products := old(db.tables.products)[r.value := p],
                                             nextProductId := r.value + 1)
      ensures r.Ok? <==> p.sellerId in old(db.tables.sellers) && p.categoryId in old(db.tables.categories)
    {
      var t := db.tables;
      if p.sellerId !in t.sellers {
        return Err("Invalid seller ID: " + IntToString(p.sellerId));
      }
      if p.categoryId !in t.categories {
        return Err("Invalid category ID: " + IntToString(p.categoryId));
      }
      var id := t.nextProductId;
      db.tables := t.(products := t.products[id := p], nextProductId := id + 1);
      r := Ok(id);
    }

    /** The loop over the fetched rows that builds the product list. */
    method Fetch(f: ProductFilter) returns (rows: seq<(int, Product)>)
      ensures rows == Listing(db.tables, f)
    {
      var t := db.tables;
      rows := [];
      var k := 1;
      while k < t.nextProductId
        invariant k <= t.nextProductId || k == 1
        invariant rows == ListRange(t.products, f, 1, k)
        decreases t.nextProductId - k
      {
        if k in t.products && Matches(t.products[k], f) {
          rows := rows + [(k, t.products[k])];
        }
        k := k + 1;
      }
      if t.nextProductId < 1 {
        assert ListRange(t.products, f, 1, t.nextProductId) == [];
      }
    }

    /** `get_all_products(limit, offset)`; a negative `LIMIT` or `OFFSET`
        is rejected by MySQL. */
    method GetAllProducts(limit: int, offset: int) returns (r: Result<seq<(int, Product)>>)
      ensures limit < 0 || offset < 0 ==> r == Err(NegativePage)
      ensures limit >= 0 && offset >= 0 ==> r == Ok(Page(Listing(db.tables, AnyProduct), limit, offset))
    {
      if limit < 0 || offset < 0 {
        return Err(NegativePage);
      }
      var rows := Fetch(AnyProduct);
      r := Ok(Page(rows, limit, offset));
    }

    method GetById(id: int) returns (r: Option<Product>)
      ensures r.Some? <==> id in db.tables.products
      ensures r.Some? ==> r.value == db.tables.products[id]
    {
      if id in db.tables.products {
        r := Some(db.tables.products[id]);
      } else {
        r := None;
      }
    }

    method GetByCategory(categoryId: int) returns (rows: seq<(int, Product)>)
      ensures rows == Listing(db.tables, InCategory(categoryId))
    {
      rows := Fetch(InCategory(categoryId));
    }

    method GetBySeller(sellerId: int) returns (rows: seq<(int, Product)>)
      ensures rows == Listing(db.tables, OfSeller(sellerId))
    {
      rows := Fetch(OfSeller(sellerId));
    }

    /** `update(product)`: writes back `ProductUpdate` when it succeeds and
        leaves the table alone when it fails. */
    method Update(id: int, p: Product) returns (r: Result<Product>)
      requires Valid(db.tables)
      modifies db
      ensures Valid(db.tables)
      ensures ProductUpdate(old(db.tables), id, p).Ok? ==>
                r == Ok(p) && db.tables == ProductUpdate(old(db.tables), id, p).value
      ensures ProductUpdate(old(db.tables), id, p).Err? ==>
                r == Err(ProductUpdate(old(db.tables), id, p).msg) && db.tables == old(db.tables)
    {
      ProductUpdateSpec(db.tables, id, p);
      match ProductUpdate(db.tables, id, p)
      case Ok(u) =>
        db.tables := u;
        r := Ok(p);
      case Err(m) =>
        r := Err(m);
    }

    /** `delete(product_id, seller_id)`. */
    method Delete(id: int, sellerId: Option<int>) returns (r: Result<bool>)
      requires Valid(db.tables)
      modifies db
      ensures Valid(db.tables)
      ensures ProductDelete(old(db.tables), id, sellerId).Ok? ==>
                r == Ok(true) && db.tables == ProductDelete(old(db.tables), id, sellerId).value
      ensures ProductDelete(old(db.tables), id, sellerId).Err? ==>
                r == Err(ProductDelete(old(db.tables), id, sellerId).msg) && db.tables == old(db.tables)
    {
      ProductDeleteSpec(db.tables, id, sellerId);
      match ProductDelete(db.tables, id, sellerId)
      case Ok(u) =>
        db.tables := u;
        r := Ok(true);
      case Err(m) =>
        r := Err(m);
    }
  }
}
