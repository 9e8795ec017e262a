/** The product service (emporia-api/services/product_services.py):
    validation of the request data, the ownership check of updates, and the
    wrapping of every failure into "Failed to ...: <inner message>". */
module ProductService {
  import opened Common
  import opened Tables
  import opened ProductRepo

  /** The JSON body of a create or update request; `None` when the key is
      absent. */
  datatype ProductData = ProductData(
    name: Option<string>, categoryId: Option<int>, price: Option<real>,
    stock: Option<int>, description: Option<string>, image: Option<string>)

  /** The dictionary `_convert_to_dict` builds. */
  datatype ProductDict = ProductDict(
    id: int, sellerId: int, categoryId: int, name: string,
    description: string, price: real, stock: int, image: string)

  /** `_convert_to_dict`: the row id becomes `id`, the other seven columns
      are copied. */
  function ToDict(id: int, p: Product): (d: ProductDict)
  {
    ProductDict(id, p.sellerId, p.categoryId, p.name, p.description, p.price, p.stock, p.image)
  }

  function FromDict(d: ProductDict): (int, Product)
  {
    (d.id, Product(d.sellerId, d.categoryId, d.name, d.description, d.image, d.price, d.stock))
  }

  /** The dictionary loses nothing: the row and its id can be read back. */
  lemma DictRoundTrip(id: int, p: Product)
    ensures FromDict(ToDict(id, p)) == (id, p)
  {
  }

  function Dicts(rows: seq<(int, Product)>): (r: seq<ProductDict>)
    ensures |r| == |rows|
    ensures forall i :: 0 <= i < |rows| ==> r[i] == ToDict(rows[i].0, rows[i].1)
  {
    seq(|rows|, i requires 0 <= i < |rows| => ToDict(rows[i].0, rows[i].1))
  }

  /** Python's rendering of an optional id in a message. */
  function IdText(id: Option<int>): string
  {
    if id.None? then "None" else IntToString(id.value)
  }

  /** The first failing check of `create_product`, in the order the source
      makes them: the four required keys, then price, then stock. */
  function CreateCheck(data: ProductData): (r: Option<string>)
    ensures r == None <==>
              data.name.Some? && data.categoryId.Some? && data.price.Some? && data.stock.Some? &&
              data.price.value > 0.0 && data.stock.value >= 0
  {
    if data.name == None then Some("Missing required field: name")
    else if data.categoryId == None then Some("Missing required field: category_id")
    else if data.price == None then Some("Missing required field: price")
    else if data.stock == None then Some("Missing required field: stock")
    else if data.price.value <= 0.0 then Some("Price must be greater than zero")
    else if data.stock.value < 0 then Some("Stock cannot be negative")
    else None
  }

  /** The product `create_product` builds: description and image default
      to the empty string. */
  function NewProduct(data: ProductData, sellerId: int): (p: Product)
    requires CreateCheck(data) == None
    ensures p.price > 0.0 && p.stock >= 0 && p.sellerId == sellerId
    ensures data.description == None ==> p.description == ""
    ensures data.image == None ==> p.image == ""
  {
    Product(sellerId, data.categoryId.value, data.name.value,
            if data.description.Some? then data.description.value else "",
            if data.image.Some? then data.image.value else "",
            data.price.value, data.stock.value)
  }

  /** The fields `update_product` overwrites: only the keys present in the
      body, each validated as on creation; the seller never changes. */
  function Patched(p: Product, data: ProductData): (r: Result<Product>)
    ensures r.Ok? ==> r.value.sellerId == p.sellerId
    ensures r.Ok? ==>
              r.value.name == (if data.name.Some? then data.name.value else p.name) &&
              r.value.description == (if data.description.Some? then data.description.value else p.description) &&
              r.value.categoryId == (if data.categoryId.Some? then data.categoryId.value else p.categoryId) &&
              r.value.price == (if data.price.Some? then data.price.value else p.price) &&
              r.value.stock == (if data.stock.Some? then data.stock.value else p.stock) &&
              r.value.image == (if data.image.Some? then data.image.value else p.image)
    ensures r.Err? <==> (data.price.Some? && data.price.value <= 0.0) || (data.stock.Some? && data.stock.value < 0)
    ensures r.Err? ==>
              r.msg == (if data.price.Some? && data.price.value <= 0.0 then "Price must be greater than zero"
                        else "Stock cannot be negative")
  {
    var p1 := if data.name.Some? then p.(name := data.name.value) else p;
    var p2 := if data.description.Some? then p1.(description := data.description.value) else p1;
    var p3 := if data.categoryId.Some? then p2.(categoryId := data.categoryId.value) else p2;
    if data.price.Some? && data.price.value <= 0.0 then Err("Price must be greater than zero")
    else
      var p4 := if data.price.Some? then p3.(price := data.price.value) else p3;
      if data.stock.Some? && data.stock.value < 0 then Err("Stock cannot be negative")
      else
        var p5 := if data.stock.Some? then p4.(stock := data.stock.value) else p4;
        Ok(if data.image.Some? then p5.(image := data.image.value) else p5)
  }

  /** An empty body changes nothing. */
  lemma EmptyPatchIsIdentity(p: Product)
    ensures Patched(p, ProductData(None, None, None, None, None, None)) == Ok(p)
  {
  }

  /** So the owner's update with an empty body writes the row back as it
      is, and the repository reports the product as missing. */
  lemma EmptyUpdateNotFound(t: Tables, id: int)
    requires Valid(t) && id in t.products
    ensures ServiceUpdate(t, id, ProductData(None, None, None, None, None, None), Some(t.products[id].sellerId)) ==
              Err("Failed to update product: " + ("Product update failed: " + ProductNotFound(id)))
  {
    EmptyPatchIsIdentity(t.products[id]);
    ServiceUpdateSpec(t, id, ProductData(None, None, None, None, None, None), Some(t.products[id].sellerId));
  }

  /** The service's own ownership message: unlike the repository's, it
      has no "exists but". */
  function NotOwned(id: int, sellerId: Option<int>): string
  {
    "Product with ID " + IntToString(id) + " " + NotBelongPhrase + " " + IdText(sellerId)
  }

  /** What `update_product` does to the tables: a missing product and a
      product of another seller are refused before anything is written; then
      the present fields are validated, and the repository writes the row. */
  function ServiceUpdate(t: Tables, id: int, data: ProductData, sellerId: Option<int>): (r: Result<Tables>)
  {
    if id !in t.products then Err("Failed to update product: " + ProductNotFound(id))
    else if Some(t.products[id].sellerId) != sellerId then
      Err("Failed to update product: " + NotOwned(id, sellerId))
    else match Patched(t.products[id], data)
      case Err(m) => Err("Failed to update product: " + m)
      case Ok(q) =>
        match ProductUpdate(t, id, q)
        case Err(m) => Err("Failed to update product: " + m)
        case Ok(u) => Ok(u)
  }

  /** An update goes through exactly when the product exists, belongs to the
      caller, the new price and stock are acceptable, the new category
      exists and some column changes; then only that row changes, its seller
      stays, and its columns are the body's values where the body has them
      and the old ones elsewhere. A body that changes no column is reported
      as a missing product. */
  lemma ServiceUpdateSpec(t: Tables, id: int, data: ProductData, sellerId: Option<int>)
    requires Valid(t)
    ensures ServiceUpdate(t, id, data, sellerId).Ok? <==>
              id in t.products && Some(t.products[id].sellerId) == sellerId &&
              Patched(t.products[id], data).Ok? &&
              Patched(t.products[id], data).value.categoryId in t.categories &&
              Patched(t.products[id], data).value != t.products[id]
    ensures id in t.products && Some(t.products[id].sellerId) == sellerId &&
            Patched(t.products[id], data) == Ok(t.products[id]) ==>
              ServiceUpdate(t, id, data, sellerId) ==
                Err("Failed to update product: " + ("Product update failed: " + ProductNotFound(id)))
    ensures ServiceUpdate(t, id, data, sellerId).Ok? ==>
              var u := ServiceUpdate(t, id, data, sellerId).value;
              Valid(u) && u == t.(products := t.products[id := Patched(t.products[id], data).value]) &&
              u.products[id].sellerId == t.products[id].sellerId
  {
    if id in t.products && Some(t.products[id].sellerId) == sellerId && Patched(t.products[id], data).Ok? {
      ProductUpdateSpec(t, id, Patched(t.products[id], data).value);
    }
  }

  /** What the server reports, through the repository's `Database error`,
      for a `NULL` in the `NOT NULL` seller column. */
  const NullSeller := "Database error: 1048 (23000): Column 'seller_id' cannot be null"

  class ProductServiceImpl {
    const repo: DBProductRepo

    constructor (repo: DBProductRepo)
      ensures this.repo == repo
    {
      this.repo := repo;
    }

    /** `create_product(product_data, seller_id)`. A `None` seller id
        reaches the `NOT NULL` seller column and fails there. */
    method CreateProduct(data: ProductData, sellerId: Option<int>) returns (r: Result<(int, Product)>)
      requires Valid(repo.db.tables)
      modifies repo.db
      ensures Valid(repo.db.tables)
      ensures CreateCheck(data).Some? ==>
                r == Err("Failed to create product: " + CreateCheck(data).value) &&
                repo.db.tables == old(repo.db.tables)
      ensures CreateCheck(data) == None && sellerId == None ==>
                r == Err("Failed to create product: " + NullSeller) &&
                repo.db.tables == old(repo.db.tables)
      ensures r.Ok? ==>
                CreateCheck(data) == None && sellerId.Some? &&
                r.value.1 == NewProduct(data, sellerId.value) &&
                r.value.0 == old(repo.db.tables.nextProductId) &&
                repo.db.tables == old(repo.db.tables).(
                  products := old(repo.db.tables.products)[r.value.0 := r.value.1],
                  nextProductId := r.value.0 + 1)
      ensures r.Err? ==> repo.db.tables == old(repo.db.tables)
      ensures CreateCheck(data) == None && sellerId.Some? ==>
                (r.Ok? <==> sellerId.value in old(repo.db.tables.sellers) &&
                            data.categoryId.value in old(repo.db.tables.categories))
    {
      var check := CreateCheck(data);
      if check.Some? {
        return Err("Failed to create product: " + check.value);
      }
      if sellerId.None? {
        return Err("Failed to create product: " + NullSeller);
      }
      var p := NewProduct(data, sellerId.value);
      var created := repo.Create(p);
      match created
      case Err(m) =>
        r := Err("Failed to create product: " + m);
      case Ok(id) =>
        r := Ok((id, p));
    }

    method GetAllProducts(limit: int, offset: int) returns (r: Result<seq<ProductDict>>)
      ensures limit >= 0 && offset >= 0 ==>
                r == Ok(Dicts(Page(Listing(repo.db.tables, AnyProduct), limit, offset)))
      ensures limit < 0 || offset < 0 ==>
                r == Err("Failed to fetch products: " + NegativePage)
    {
      var rows := repo.GetAllProducts(limit, offset);
      match rows
      case Err(m) =>
        r := Err("Failed to fetch products: " + m);
      case Ok(list) =>
        r := Ok(Dicts(list));
    }

    method GetProductById(id: int) returns (r: Result<ProductDict>)
      ensures id in repo.db.tables.products ==> r == Ok(ToDict(id, repo.db.tables.products[id]))
      ensures id !in repo.db.tables.products ==>
                r == Err("Failed to fetch product: " + ProductNotFound(id))
    {
      var p := repo.GetById(id);
      if p.None? {
        return Err("Failed to fetch product: " + ProductNotFound(id));
      }
      r := Ok(ToDict(id, p.value));
    }

    method GetProductsByCategory(categoryId: int) returns (r: seq<ProductDict>)
      ensures r == Dicts(Listing(repo.db.tables, InCategory(categoryId)))
    {
      var rows := repo.GetByCategory(categoryId);
      r := Dicts(rows);
    }

    method GetProductsBySeller(sellerId: int) returns (r: seq<ProductDict>)
      ensures r == Dicts(Listing(repo.db.tables, OfSeller(sellerId)))
    {
      var rows := repo.GetBySeller(sellerId);
      r := Dicts(rows);
    }

    /** `update_product(product_id, product_data, seller_id)`. */
    method UpdateProduct(id: int, data: ProductData, sellerId: Option<int>) returns (r: Result<ProductDict>)
      requires Valid(repo.db.tables)
      modifies repo.db
      ensures Valid(repo.db.tables)
      ensures var u := ServiceUpdate(old(repo.db.tables), id, data, sellerId);
              if u.Ok? then r == Ok(ToDict(id, u.value.products[id])) && repo.db.tables == u.value
              else r == Err(u.msg) && repo.db.tables == old(repo.db.tables)
    {
      ServiceUpdateSpec(repo.db.tables, id, data, sellerId);
      var existing := repo.GetById(id);
      if existing.None? {
        return Err("Failed to update product: " + ProductNotFound(id));
      }
      var p := existing.value;
      if Some(p.sellerId) != sellerId {
        return Err("Failed to update product: " + NotOwned(id, sellerId));
      }
      var patched := Patched(p, data);
      if patched.Err? {
        return Err("Failed to update product: " + patched.msg);
      }
      var updated := repo.Update(id, patched.value);
      match updated
      case Err(m) =>
        r := Err("Failed to update product: " + m);
      case Ok(q) =>
        r := Ok(ToDict(id, q));
    }

    /** `delete_product(product_id, seller_id)`: no seller id means an
        administrator. */
    method DeleteProduct(id: int, sellerId: Option<int>) returns (r: Result<bool>)
      requires Valid(repo.db.tables)
      modifies repo.db
      ensures Valid(repo.db.tables)
      ensures ProductDelete(old(repo.db.tables), id, sellerId).Ok? ==>
                r == Ok(true) && repo.db.tables == ProductDelete(old(repo.db.tables), id, sellerId).value
      ensures ProductDelete(old(repo.db.tables), id, sellerId).Err? ==>
                r == Err("Failed to delete product: " + ProductDelete(old(repo.db.tables), id, sellerId).msg) &&
                repo.db.tables == old(repo.db.tables)
    {
      var d := repo.Delete(id, sellerId);
      match d
      case Err(m) =>
        r := Err("Failed to delete product: " + m);
      case Ok(b) =>
        r := Ok(b);
    }
  }
}
