/** The product endpoints (emporia-api/routes/products/product_routes.py): query
    defaults, the seller id taken from the token, the role dispatch of
    deletion, and the status code chosen from the text of an error. The
    user service's seller lookup is a parameter. */
module ProductRoutes {
  import opened Common
  import opened Tables
  import opened ProductRepo
  import opened ProductService
  import opened AuthDecorators

  datatype Body =
    | Message(text: string)
    | OneProduct(product: ProductDict)
    | Products(products: seq<ProductDict>)
    | WithProduct(text: string, product: ProductDict)

  datatype Response = Response(status: int, body: Body)

  /** `user_service.get_seller_by_user_id`: the seller id of a user. */
  type SellerLookup = int -> Option<int>

  /** Python truthiness of a claim. */
  predicate Truthy(c: Claim)
  {
    match c
    case Null => false
    case Num(n) => n != 0
    case Str(s) => s != ""
    case Bool(b) => b
  }

  /** `current_user.get('seller_id') or current_user.get('user_id')`. */
  function SellerClaim(u: CurrentUser): (c: Claim)
    ensures Truthy(u.sellerId) ==> c == u.sellerId
    ensures !Truthy(u.sellerId) ==> c == u.userId
  {
    if Truthy(u.sellerId) then u.sellerId else u.userId
  }

  /** The seller id handed to the service: claims of this server are
      integers or missing. */
  function ClaimId(c: Claim): (r: Option<int>)
    ensures r.Some? <==> c.Num?
  {
    if c.Num? then Some(c.n) else None
  }

  function SellerId(u: CurrentUser): Option<int>
  {
    ClaimId(SellerClaim(u))
  }

  /** A seller id claim of 0 counts as absent and the user id is used. */
  lemma ZeroSellerIdFallsBack(userId: int, role: Claim, customerId: Claim)
    ensures SellerId(CurrentUser(Num(userId), role, customerId, Num(0))) == Some(userId)
  {
  }

  /** The status of a `ValueError` in `update_product` and
      `delete_product`. */
  function ErrorStatus(msg: string): (status: int)
    ensures status in {400, 403, 404}
  {
    if Contains(msg, NotBelongPhrase) then 403
    else if Contains(msg, NotFoundPhrase) then 404
    else 400
  }

  /** An integer rendering holds neither letter `b` nor letter `f`. */
  lemma IdTextLetters(id: int)
    ensures 'b' !in IntToString(id) && 'f' !in IntToString(id)
  {
    if 'b' in IntToString(id) {
      IntToStringChars(id, 'b');
    }
    if 'f' in IntToString(id) {
      IntToStringChars(id, 'f');
    }
  }

  /** The not-found text holds its phrase and no letter `b`. */
  lemma NotFoundHasPhrase(id: int)
    ensures Contains(ProductNotFound(id), NotFoundPhrase) && 'b' !in ProductNotFound(id)
  {
    IdTextLetters(id);
    var head := "Product with ID " + IntToString(id) + " ";
    ContainsAtEnd(head, NotFoundPhrase);
    assert 'b' !in head && 'b' !in NotFoundPhrase;
  }

  lemma NotFoundStatus(prefix: string, id: int)
    requires 'b' !in prefix
    ensures ErrorStatus(prefix + ProductNotFound(id)) == 404
  {
    NotFoundHasPhrase(id);
    ContainsInSuffix(prefix, ProductNotFound(id), NotFoundPhrase);
    assert NotBelongPhrase[9] == 'b';
    AbsentCharNotContained(prefix + ProductNotFound(id), NotBelongPhrase, 'b');
  }

  lemma NotOwnedStatus(id: int, sellerId: Option<int>)
    ensures ErrorStatus("Failed to update product: " + NotOwned(id, sellerId)) == 403
  {
    ContainsBetween("Product with ID " + IntToString(id) + " ", NotBelongPhrase, " ", IdText(sellerId));
    ContainsInSuffix("Failed to update product: ", NotOwned(id, sellerId), NotBelongPhrase);
  }

  lemma PriceTextSplit()
    ensures "Failed to update product: " + "Price must be greater than zero" ==
            ("Failed to update product: " + "Price must ") + ['b'] + "e greater than zero"
  {
    assert "Price must be greater than zero" == "Price must " + ['b'] + "e greater than zero";
  }

  lemma PriceNotOwnership()
    ensures !Contains("Failed to update product: " + "Price must be greater than zero", NotBelongPhrase)
  {
    PriceTextSplit();
    PinnedCharNotContained("Failed to update product: " + "Price must ", 'b', "e greater than zero", NotBelongPhrase, 9, 11);
  }

  lemma StockTextSplit()
    ensures "Failed to update product: " + "Stock cannot be negative" ==
            ("Failed to update product: " + "Stock cannot ") + ['b'] + "e negative"
  {
    assert "Stock cannot be negative" == "Stock cannot " + ['b'] + "e negative";
  }

  lemma StockNotOwnership()
    ensures !Contains("Failed to update product: " + "Stock cannot be negative", NotBelongPhrase)
  {
    StockTextSplit();
    PinnedCharNotContained("Failed to update product: " + "Stock cannot ", 'b', "e negative", NotBelongPhrase, 9, 11);
  }

  /** The two field checks of an update are plain 400s. */
  lemma FieldCheckStatus(m: string)
    requires m == "Price must be greater than zero" || m == "Stock cannot be negative"
    ensures ErrorStatus("Failed to update product: " + m) == 400
  {
    assert 'f' !in "Failed to update product: ";
    assert 'f' !in m;
    assert NotFoundPhrase[4] == 'f';
    AbsentCharNotContained("Failed to update product: " + m, NotFoundPhrase, 'f');
    if m == "Price must be greater than zero" {
      PriceNotOwnership();
    } else {
      StockNotOwnership();
    }
  }

  lemma CategoryTextLetters(c: int)
    ensures var msg := "Failed to update product: " + ("Invalid category ID: " + IntToString(c));
            'b' !in msg && 'f' !in msg
  {
    IdTextLetters(c);
    var a := "Failed to update product: ";
    var b := "Invalid category ID: ";
    assert 'b' !in a && 'b' !in b && 'f' !in a && 'f' !in b;
  }

  lemma CategoryStatus(c: int)
    ensures ErrorStatus("Failed to update product: " + ("Invalid category ID: " + IntToString(c))) == 400
  {
    var msg := "Failed to update product: " + ("Invalid category ID: " + IntToString(c));
    CategoryTextLetters(c);
    assert NotBelongPhrase[9] == 'b' && NotFoundPhrase[4] == 'f';
    AbsentCharNotContained(msg, NotBelongPhrase, 'b');
    AbsentCharNotContained(msg, NotFoundPhrase, 'f');
  }

  /** Which failures of `update_product` the route reports as 404 (no such
      product, or a body that changes no column), 403 (someone else's
      product) and 400 (bad field values or a missing category). */
  lemma UpdateErrorStatus(t: Tables, id: int, data: ProductData, sellerId: Option<int>)
    requires Valid(t)
    requires ServiceUpdate(t, id, data, sellerId).Err?
    ensures ErrorStatus(ServiceUpdate(t, id, data, sellerId).msg) ==
              if id !in t.products then 404
              else if Some(t.products[id].sellerId) != sellerId then 403
              else if Patched(t.products[id], data) == Ok(t.products[id]) then 404
              else 400
  {
    if id !in t.products {
      NotFoundStatus("Failed to update product: ", id);
    } else if Some(t.products[id].sellerId) != sellerId {
      NotOwnedStatus(id, sellerId);
    } else if Patched(t.products[id], data).Err? {
      FieldCheckStatus(Patched(t.products[id], data).msg);
    } else if Patched(t.products[id], data) == Ok(t.products[id]) {
      ServiceUpdateSpec(t, id, data, sellerId);
      UnchangedStatus(id);
    } else {
      ServiceUpdateSpec(t, id, data, sellerId);
      CategoryStatus(Patched(t.products[id], data).value.categoryId);
    }
  }

  lemma UnchangedStatus(id: int)
    ensures ErrorStatus("Failed to update product: " + ("Product update failed: " + ProductNotFound(id))) == 404
  {
    assert 'b' !in "Failed to update product: " && 'b' !in "Product update failed: ";
    NestedNotFoundStatus("Failed to update product: ", "Product update failed: ", id);
  }

  lemma NestedNotFoundStatus(outer: string, inner: string, id: int)
    requires 'b' !in outer && 'b' !in inner
    ensures ErrorStatus(outer + (inner + ProductNotFound(id))) == 404
  {
    assert outer + (inner + ProductNotFound(id)) == (outer + inner) + ProductNotFound(id);
    NotFoundStatus(outer + inner, id);
  }

  /** Which failures of `delete_product` the route reports as 404 and 403;
      deletion has no other failure. */
  lemma DeleteErrorStatus(t: Tables, id: int, sellerId: Option<int>)
    requires Valid(t)
    requires ProductDelete(t, id, sellerId).Err?
    ensures ErrorStatus("Failed to delete product: " + ProductDelete(t, id, sellerId).msg) ==
              if id !in t.products then 404 else 403
  {
    if id !in t.products {
      DeleteNotFoundStatus(id);
    } else {
      NotSellersStatus(id, sellerId.value);
    }
  }

  lemma DeleteNotFoundStatus(id: int)
    ensures ErrorStatus("Failed to delete product: " + ("Product deletion failed: " + ProductNotFound(id))) == 404
  {
    var a := "Failed to delete product: ";
    var b := "Product deletion failed: ";
    var n := ProductNotFound(id);
    assert 'b' !in a && 'b' !in b;
    NotFoundHasPhrase(id);
    ContainsInSuffix(b, n, NotFoundPhrase);
    ContainsInSuffix(a, b + n, NotFoundPhrase);
    assert 'b' !in b + n;
    assert NotBelongPhrase[9] == 'b';
    AbsentCharNotContained(a + (b + n), NotBelongPhrase, 'b');
  }

  lemma NotSellersHasPattern(id: int, sellerId: int)
    ensures Contains(NotSellers(id, sellerId), NotBelongPhrase)
  {
    ContainsBetween("Product with ID " + IntToString(id) + " exists but ", NotBelongPhrase, " ", IntToString(sellerId));
  }

  lemma NotSellersStatus(id: int, sellerId: int)
    ensures ErrorStatus("Failed to delete product: " + ("Product deletion failed: " + NotSellers(id, sellerId))) == 403
  {
    var pat := NotBelongPhrase;
    var n := NotSellers(id, sellerId);
    NotSellersHasPattern(id, sellerId);
    ContainsInSuffix("Product deletion failed: ", n, pat);
    ContainsInSuffix("Failed to delete product: ", "Product deletion failed: " + n, pat);
  }

  /** A caller with role `seller` whose token holds no numeric seller id and
      no numeric user id reaches the service with no seller id, which is the
      administrator's path: any product can be deleted. */
  lemma SellerWithoutIdDeletesAny(t: Tables, id: int, u: CurrentUser)
    requires Valid(t) && id in t.products
    requires u.role == Str("seller") && !SellerClaim(u).Num?
    ensures ProductDelete(t, id, SellerId(u)).Ok?
  {
  }

  /** The role dispatch of `delete_product`: administrators delete without a
      seller id, sellers with theirs, anyone else gets `None` (refused). */
  function DeleteSellerArg(u: CurrentUser): (r: Option<Option<int>>)
    ensures r == None <==> u.role != Str("admin") && u.role != Str("seller")
  {
    if u.role == Str("admin") then Some(None)
    else if u.role == Str("seller") then Some(SellerId(u))
    else None
  }

  class ProductRoutesImpl {
    const service: ProductServiceImpl

    constructor (service: ProductServiceImpl)
      ensures this.service == service
    {
      this.service := service;
    }

    /** `GET /products/`: `limit` and `offset` default to 100 and 0 when
        absent or not integers. */
    method GetAllProducts(limitArg: Option<int>, offsetArg: Option<int>) returns (resp: Response)
      ensures var limit := if limitArg.Some? then limitArg.value else 100;
              var offset := if offsetArg.Some? then offsetArg.value else 0;
              if limit >= 0 && offset >= 0 then
                resp == Response(200, Products(Dicts(Page(Listing(service.repo.db.tables, AnyProduct), limit, offset))))
              else
                resp == Response(500, Message("Error retrieving products: " + ("Failed to fetch products: " + NegativePage)))
    {
      var limit := if limitArg.Some? then limitArg.value else 100;
      var offset := if offsetArg.Some? then offsetArg.value else 0;
      var r := service.GetAllProducts(limit, offset);
      match r
      case Err(m) =>
        resp := Response(500, Message("Error retrieving products: " + m));
      case Ok(ps) =>
        resp := Response(200, Products(ps));
    }

    /** `GET /products/<id>`: a missing product is 404. */
    method GetProduct(id: int) returns (resp: Response)
      ensures id in service.repo.db.tables.products ==>
                resp == Response(200, OneProduct(ToDict(id, service.repo.db.tables.products[id])))
      ensures id !in service.repo.db.tables.products ==>
                resp == Response(404, Message("Failed to fetch product: " + ProductNotFound(id)))
    {
      var r := service.GetProductById(id);
      match r
      case Err(m) =>
        resp := Response(404, Message(m));
      case Ok(p) =>
        resp := Response(200, OneProduct(p));
    }

    method GetProductsByCategory(categoryId: int) returns (resp: Response)
      ensures resp == Response(200, Products(Dicts(Listing(service.repo.db.tables, InCategory(categoryId)))))
    {
      var ps := service.GetProductsByCategory(categoryId);
      resp := Response(200, Products(ps));
    }

    /** `GET /products/seller/<user_id>`: the path holds a user id, which is
        first turned into a seller id. */
    method GetProductsBySeller(userId: int, sellerOf: SellerLookup) returns (resp: Response)
      ensures sellerOf(userId).None? ==> resp == Response(404, Message("Seller not found"))
      ensures sellerOf(userId).Some? ==>
                resp == Response(200, Products(Dicts(Listing(service.repo.db.tables, OfSeller(sellerOf(userId).value)))))
    {
      var seller := sellerOf(userId);
      if seller.None? {
        return Response(404, Message("Seller not found"));
      }
      var ps := service.GetProductsBySeller(seller.value);
      resp := Response(200, Products(ps));
    }

    /** `POST /products/` behind `role_required('seller')`; `body` is
        `None` for a missing or empty JSON object. */
    method CreateProduct(req: Request, verify: Verifier, body: Option<ProductData>) returns (resp: Response)
      requires Valid(service.repo.db.tables)
      modifies req`currentUser, service.repo.db
      ensures Valid(service.repo.db.tables)
      ensures var o := RoleDecision(req.authorization, verify, "seller");
              o.Reject? ==> resp == Response(o.status, Message(o.message))
      ensures RoleDecision(req.authorization, verify, "seller").Proceed? && body.None? ==>
                resp == Response(400, Message("No data provided"))
      ensures resp.status == 201 <==>
                RoleDecision(req.authorization, verify, "seller").Proceed? && body.Some? &&
                CreateCheck(body.value) == None &&
                SellerId(RoleDecision(req.authorization, verify, "seller").user).Some? &&
                SellerId(RoleDecision(req.authorization, verify, "seller").user).value in old(service.repo.db.tables.sellers) &&
                body.value.categoryId.value in old(service.repo.db.tables.categories)
      ensures resp.status == 201 ==>
                var id := old(service.repo.db.tables.nextProductId);
                var p := NewProduct(body.value, SellerId(RoleDecision(req.authorization, verify, "seller").user).value);
                resp == Response(201, WithProduct("Product created successfully", ToDict(id, p))) &&
                service.repo.db.tables == old(service.repo.db.tables).(
                  products := old(service.repo.db.tables.products)[id := p], nextProductId := id + 1)
      ensures resp.status != 201 ==>
                resp.status in {400, 401, 403} && service.repo.db.tables == old(service.repo.db.tables)
    {
      var o := req.RoleRequired("seller", verify);
      if o.Reject? {
        RoleDecisionCases(req.authorization, verify, "seller");
        return Response(o.status, Message(o.message));
      }
      if body.None? {
        return Response(400, Message("No data provided"));
      }
      var sellerId := SellerId(o.user);
      var r := service.CreateProduct(body.value, sellerId);
      match r
      case Err(m) =>
        resp := Response(400, Message(m));
      case Ok(created) =>
        resp := Response(201, WithProduct("Product created successfully", ToDict(created.0, created.1)));
    }

    /** `PUT /products/<id>` behind `role_required('seller')`. */
    method UpdateProduct(req: Request, verify: Verifier, id: int, body: Option<ProductData>) returns (resp: Response)
      requires Valid(service.repo.db.tables)
      modifies req`currentUser, service.repo.db
      ensures Valid(service.repo.db.tables)
      ensures var o := RoleDecision(req.authorization, verify, "seller");
              o.Reject? ==> resp == Response(o.status, Message(o.message))
      ensures RoleDecision(req.authorization, verify, "seller").Proceed? && body.None? ==>
                resp == Response(400, Message("No data provided"))
      ensures var o := RoleDecision(req.authorization, verify, "seller");
              o.Proceed? && body.Some? ==>
                var u := ServiceUpdate(old(service.repo.db.tables), id, body.value, SellerId(o.user));
                if u.Ok? then
                  resp == Response(200, WithProduct("Product updated successfully", ToDict(id, u.value.products[id]))) &&
                  service.repo.db.tables == u.value
                else
                  resp == Response(ErrorStatus(u.msg), Message(u.msg))
      ensures resp.status != 200 ==> service.repo.db.tables == old(service.repo.db.tables)
    {
      var o := req.RoleRequired("seller", verify);
      if o.Reject? {
        RoleDecisionCases(req.authorization, verify, "seller");
        return Response(o.status, Message(o.message));
      }
      if body.None? {
        return Response(400, Message("No data provided"));
      }
      var r := service.UpdateProduct(id, body.value, SellerId(o.user));
      match r
      case Err(m) =>
        resp := Response(ErrorStatus(m), Message(m));
      case Ok(p) =>
        resp := Response(200, WithProduct("Product updated successfully", p));
    }

    /** `DELETE /products/<id>` behind `token_required`. */
    method DeleteProduct(req: Request, verify: Verifier, id: int) returns (resp: Response)
      requires Valid(service.repo.db.tables)
      modifies req`currentUser, service.repo.db
      ensures Valid(service.repo.db.tables)
      ensures var o := TokenDecision(req.authorization, verify);
              o.Reject? ==> resp == Response(o.status, Message(o.message))
      ensures var o := TokenDecision(req.authorization, verify);
              o.Proceed? && DeleteSellerArg(o.user).None? ==>
                resp == Response(403, Message("Only sellers or admins can delete products"))
      ensures var o := TokenDecision(req.authorization, verify);
              o.Proceed? && DeleteSellerArg(o.user).Some? ==>
                var d := ProductDelete(old(service.repo.db.tables), id, DeleteSellerArg(o.user).value);
                if d.Ok? then
                  resp == Response(200, Message("Product with ID " + IntToString(id) + " deleted successfully")) &&
                  service.repo.db.tables == d.value
                else
                  resp == Response(ErrorStatus("Failed to delete product: " + d.msg),
                                   Message("Failed to delete product: " + d.msg))
      ensures resp.status != 200 ==> service.repo.db.tables == old(service.repo.db.tables)
    {
      var o := req.TokenRequired(verify);
      if o.Reject? {
        return Response(o.status, Message(o.message));
      }
      var arg := DeleteSellerArg(o.user);
      if arg.None? {
        return Response(403, Message("Only sellers or admins can delete products"));
      }
      var r := service.DeleteProduct(id, arg.value);
      match r
      case Err(m) =>
        resp := Response(ErrorStatus(m), Message(m));
      case Ok(_) =>
        resp := Response(200, Message("Product with ID " + IntToString(id) + " deleted successfully"));
    }
  }
}
