/** The categories repository
    (emporia-api/repositories/database/db_category_repo.py). Category names
    are unique (MySQL error 1062 on a duplicate). */
module CategoryRepo {
  import opened Common
  import opened Tables
  import opened ProductRepo

  /** String order of `ORDER BY name`, on code points. */
  predicate NameLt(a: string, b: string)
  {
    if a == [] then b != []
    else if b == [] then false
    else a[0] < b[0] || (a[0] == b[0] && NameLt(a[1..], b[1..]))
  }

  predicate NameLe(a: string, b: string) { a == b || NameLt(a, b) }

  lemma {:induction false} NameLtTotal(a: string, b: string)
    ensures NameLt(a, b) || a == b || NameLt(b, a)
  {
    if a != [] && b != [] && a[0] == b[0] {
      NameLtTotal(a[1..], b[1..]);
      if a[1..] == b[1..] {
        assert a == [a[0]] + a[1..] && b == [b[0]] + b[1..];
      }
    }
  }

  lemma {:induction false} NameLtTransitive(a: string, b: string, c: string)
    requires NameLt(a, b) && NameLt(b, c)
    ensures NameLt(a, c)
  {
    if a != [] && a[0] == b[0] && b[0] == c[0] {
      NameLtTransitive(a[1..], b[1..], c[1..]);
    }
  }

  lemma NameLeTransitive(a: string, b: string, c: string)
    requires NameLe(a, b) && NameLe(b, c)
    ensures NameLe(a, c)
  {
    if NameLt(a, b) && NameLt(b, c) {
      NameLtTransitive(a, b, c);
    }
  }

  predicate SortedByName(s: seq<(int, Category)>)
  {
    forall i, j :: 0 <= i < j < |s| ==> NameLe(s[i].1.name, s[j].1.name)
  }

  /** Places a row in front of the first row whose name is not smaller. */
  function InsertByName(x: (int, Category), s: seq<(int, Category)>): seq<(int, Category)>
  {
    if s == [] then [x]
    else if NameLe(x.1.name, s[0].1.name) then [x] + s
    else [s[0]] + InsertByName(x, s[1..])
  }

  /** The result of `ORDER BY name ASC` over rows taken in id order. */
  function OrderByName(rows: seq<(int, Category)>): seq<(int, Category)>
  {
    if rows == [] then [] else InsertByName(rows[0], OrderByName(rows[1..]))
  }

  lemma {:induction false} InsertByNameMembers(x: (int, Category), s: seq<(int, Category)>)
    ensures multiset(InsertByName(x, s)) == multiset(s) + multiset{x}
  {
    if s != [] && !NameLe(x.1.name, s[0].1.name) {
      InsertByNameMembers(x, s[1..]);
      assert s == [s[0]] + s[1..];
    }
  }

  lemma SortedCons(x: (int, Category), s: seq<(int, Category)>)
    requires SortedByName(s)
    requires forall k :: 0 <= k < |s| ==> NameLe(x.1.name, s[k].1.name)
    ensures SortedByName([x] + s)
  {
    var r := [x] + s;
    forall i, j | 0 <= i < j < |r| ensures NameLe(r[i].1.name, r[j].1.name)
    {
      if i > 0 {
        assert r[i] == s[i - 1] && r[j] == s[j - 1];
      } else {
        assert r[j] == s[j - 1];
      }
    }
  }

  lemma FrontBelowAll(x: (int, Category), s: seq<(int, Category)>)
    requires SortedByName(s) && s != [] && NameLe(x.1.name, s[0].1.name)
    ensures forall k :: 0 <= k < |s| ==> NameLe(x.1.name, s[k].1.name)
  {
    forall k | 0 <= k < |s| ensures NameLe(x.1.name, s[k].1.name)
    {
      if k > 0 {
        NameLeTransitive(x.1.name, s[0].1.name, s[k].1.name);
      }
    }
  }

  lemma HeadBelowInserted(x: (int, Category), s: seq<(int, Category)>)
    requires SortedByName(s) && s != [] && NameLt(s[0].1.name, x.1.name)
    ensures forall k :: 0 <= k < |InsertByName(x, s[1..])| ==>
              NameLe(s[0].1.name, InsertByName(x, s[1..])[k].1.name)
  {
    var tail := s[1..];
    var r := InsertByName(x, tail);
    InsertByNameMembers(x, tail);
    forall k | 0 <= k < |r| ensures NameLe(s[0].1.name, r[k].1.name)
    {
      assert r[k] in multiset(r);
      if r[k] != x {
        assert r[k] in multiset(tail);
        var m :| 0 <= m < |tail| && tail[m] == r[k];
        assert s[1 + m] == r[k];
      }
    }
  }

  lemma {:induction false} InsertByNameSpec(x: (int, Category), s: seq<(int, Category)>)
    requires SortedByName(s)
    ensures SortedByName(InsertByName(x, s))
    ensures multiset(InsertByName(x, s)) == multiset(s) + multiset{x}
  {
    InsertByNameMembers(x, s);
    if s == [] {
    } else if NameLe(x.1.name, s[0].1.name) {
      FrontBelowAll(x, s);
      SortedCons(x, s);
    } else {
      NameLtTotal(x.1.name, s[0].1.name);
      InsertByNameSpec(x, s[1..]);
      HeadBelowInserted(x, s);
      SortedCons(s[0], InsertByName(x, s[1..]));
    }
  }

  /** The listing is sorted by name and holds the same rows. */
  lemma {:induction false} OrderByNameSpec(rows: seq<(int, Category)>)
    ensures SortedByName(OrderByName(rows))
    ensures multiset(OrderByName(rows)) == multiset(rows)
  {
    if rows != [] {
      OrderByNameSpec(rows[1..]);
      InsertByNameSpec(rows[0], OrderByName(rows[1..]));
      assert rows == [rows[0]] + rows[1..];
    }
  }

  /** The rows of `categories` with ids in `[lo, hi)`, in id order. */
  function CategoryRange(categories: map<int, Category>, lo: int, hi: int): seq<(int, Category)>
    decreases hi - lo
  {
    if hi <= lo then []
    else CategoryRange(categories, lo, hi - 1)
         + (if hi - 1 in categories then [(hi - 1, categories[hi - 1])] else [])
  }

  lemma {:induction false} CategoryRangeMembers(categories: map<int, Category>, lo: int, hi: int,
                                                id: int, c: Category)
    ensures (id, c) in CategoryRange(categories, lo, hi) <==>
              lo <= id < hi && id in categories && categories[id] == c
    decreases hi - lo
  {
    if lo < hi {
      CategoryRangeMembers(categories, lo, hi - 1, id, c);
    }
  }

  /** What `get_all_categories` returns. */
  function AllCategories(t: Tables): seq<(int, Category)>
  {
    OrderByName(CategoryRange(t.categories, 1, t.nextCategoryId))
  }

  /** `get_all_categories` lists every category exactly once, sorted by
      name. */
  lemma AllCategoriesSpec(t: Tables, id: int, c: Category)
    requires Valid(t)
    ensures SortedByName(AllCategories(t))
    ensures (id, c) in AllCategories(t) <==> id in t.categories && t.categories[id] == c
  {
    var rows := CategoryRange(t.categories, 1, t.nextCategoryId);
    OrderByNameSpec(rows);
    CategoryRangeMembers(t.categories, 1, t.nextCategoryId, id, c);
    assert (id, c) in multiset(rows) <==> (id, c) in rows;
    assert (id, c) in multiset(AllCategories(t)) <==> (id, c) in AllCategories(t);
  }

  predicate NameTaken(categories: map<int, Category>, name: string, except: int)
  {
    exists k :: k in categories && k != except && categories[k].name == name
  }

  function CategoryNotFound(id: int): string
  {
    "Category with ID " + IntToString(id) + " not found"
  }

  /** The duplicate-name message of `create`. */
  function CategoryExists(name: string): string
  {
    "Category '" + name + "' already exists"
  }

  /** The duplicate-name message of `update`. */
  function CategoryNameExists(name: string): string
  {
    "Category name '" + name + "' already exists"
  }

  /** How many products use a category (`SELECT COUNT(*) ... WHERE
      category_id = id`). */
  function ProductsUsing(t: Tables, id: int): nat
  {
    |Listing(t, InCategory(id))|
  }

  /** The count is positive exactly when some product is in the category. */
  lemma ProductsUsingSpec(t: Tables, id: int)
    requires Valid(t)
    ensures ProductsUsing(t, id) > 0 <==> exists k :: k in t.products && t.products[k].categoryId == id
  {
    if ProductsUsing(t, id) > 0 {
      var row := Listing(t, InCategory(id))[0];
      assert row in Listing(t, InCategory(id));
      ListingExact(t, InCategory(id), row.0, row.1);
    }
    if k :| k in t.products && t.products[k].categoryId == id {
      ListingExact(t, InCategory(id), k, t.products[k]);
    }
  }

  function InUse(id: int, count: nat): string
  {
    "Cannot delete category with ID " + IntToString(id) + " as it is used by "
    + IntToString(count) + " products"
  }

  /** `delete`: refused while products use the category (the message
      carries their number), and for a missing id. */
  function CategoryDelete(t: Tables, id: int): (r: Result<Tables>)
  {
    if ProductsUsing(t, id) > 0 then Err("Category deletion failed: " + InUse(id, ProductsUsing(t, id)))
    else if id !in t.categories then Err("Category deletion failed: " + CategoryNotFound(id))
    else Ok(t.(categories := t.categories - {id}))
  }

  /** A category goes exactly when it exists and no product uses it, so the
      products' category foreign key still holds; only that row goes. */
  lemma CategoryDeleteSpec(t: Tables, id: int)
    requires Valid(t)
    ensures CategoryDelete(t, id).Ok? <==>
              id in t.categories && forall k :: k in t.products ==> t.products[k].categoryId != id
    ensures CategoryDelete(t, id).Ok? ==>
              var u := CategoryDelete(t, id).value;
              Valid(u) && u.categories.Keys == t.categories.Keys - {id} && u == t.(categories := u.categories)
  {
    ProductsUsingSpec(t, id);
  }

  class DBCategoryRepo {
    const db: Database

    constructor (db: Database)
      ensures this.db == db
    {
      this.db := db;
    }

    /** `create`: a fresh id, unless the name is taken. */
    method Create(c: Category) returns (r: Result<int>)
      requires Valid(db.tables)
      modifies db
      ensures Valid(db.tables)
      ensures r.Err? <==> NameTaken(old(db.tables.categories), c.name, 0)
      ensures r.Err? ==> r.msg == CategoryExists(c.name) && db.tables == old(db.tables)
      ensures r.Ok? ==>
                r.value == old(db.tables.nextCategoryId) && r.value !in old(db.tables.categories) &&
                db.tables == old(db.tables).(categories := old(db.tables.categories)[r.value := c],
                                             nextCategoryId := r.value + 1)
    {
      var t := db.tables;
      if NameTaken(t.categories, c.name, 0) {
        return Err(CategoryExists(c.name));
      }
      var id := t.nextCategoryId;
      db.tables := t.(categories := t.categories[id := c], nextCategoryId := id + 1);
      r := Ok(id);
    }

    /** `get_all_categories`: the loop over the sorted rows. */
    method GetAllCategories() returns (rows: seq<(int, Category)>)
      ensures rows == AllCategories(db.tables)
    {
      var t := db.tables;
      var fetched := [];
      var k := 1;
      while k < t.nextCategoryId
        invariant k <= t.nextCategoryId || k == 1
        invariant fetched == CategoryRange(t.categories, 1, k)
        decreases t.nextCategoryId - k
      {
        if k in t.categories {
          fetched := fetched + [(k, t.categories[k])];
        }
        k := k + 1;
      }
      if t.nextCategoryId < 1 {
        assert CategoryRange(t.categories, 1, t.nextCategoryId) == [];
      }
      var sorted := OrderByName(fetched);
      rows := [];
      var i := 0;
      while i < |sorted|
        invariant i <= |sorted|
        invariant rows == sorted[..i]
      {
        rows := rows + [sorted[i]];
        i := i + 1;
      }
      assert sorted[..|sorted|] == sorted;
    }

    method GetById(id: int) returns (r: Option<Category>)
      ensures r.Some? <==> id in db.tables.categories
      ensures r.Some? ==> r.value == db.tables.categories[id]
    {
      if id in db.tables.categories {
        r := Some(db.tables.categories[id]);
      } else {
        r := None;
      }
    }

    /** `update`: the row takes the new name and description; a missing id,
        a row that already holds both values (`rowcount` counts changed rows,
        so it is reported as missing) or a name used by another category
        fails and writes nothing. */
    method Update(id: int, c: Category) returns (r: Result<Category>)
      requires Valid(db.tables)
      modifies db
      ensures Valid(db.tables)
      ensures id !in old(db.tables.categories) || old(db.tables.categories[id]) == c ==>
                r == Err("Category update failed: " + CategoryNotFound(id))
      ensures id in old(db.tables.categories) && old(db.tables.categories[id]) != c &&
              NameTaken(old(db.tables.categories), c.name, id) ==>
                r == Err(CategoryNameExists(c.name))
      ensures r.Ok? <==>
                id in old(db.tables.categories) && old(db.tables.categories[id]) != c &&
                !NameTaken(old(db.tables.categories), c.name, id)
      ensures r.Ok? ==>
                r.value == c && db.tables == old(db.tables).(categories := old(db.tables.categories)[id := c])
      ensures r.Err? ==> db.tables == old(db.tables)
    {
      var t := db.tables;
      if id !in t.categories || t.categories[id] == c {
        return Err("Category update failed: " + CategoryNotFound(id));
      }
      if NameTaken(t.categories, c.name, id) {
        return Err(CategoryNameExists(c.name));
      }
      db.tables := t.(categories := t.categories[id := c]);
      r := Ok(c);
    }

    /** `delete(category_id)`: writes back `CategoryDelete` when it
        succeeds and leaves the tables alone when it fails. */
    method Delete(id: int) returns (r: Result<bool>)
      requires Valid(db.tables)
      modifies db
      ensures Valid(db.tables)
      ensures CategoryDelete(old(db.tables), id).Ok? ==>
                r == Ok(true) && db.tables == CategoryDelete(old(db.tables), id).value
      ensures CategoryDelete(old(db.tables), id).Err? ==>
                r == Err(CategoryDelete(old(db.tables), id).msg) && db.tables == old(db.tables)
    {
      CategoryDeleteSpec(db.tables, id);
      var t := db.tables;
      var count := ProductsUsing(t, id);
      if count > 0 {
        return Err("Category deletion failed: " + InUse(id, count));
      }
      if id !in t.categories {
        return Err("Category deletion failed: " + CategoryNotFound(id));
      }
      db.tables := t.(categories := t.categories - {id});
      r := Ok(true);
    }
  }
}
