/** The category service (emporia-api/services/category_services.py): a
    required name on creation, partial updates, and every failure wrapped
    into "Failed to ...: <inner message>". */
module CategoryService {
  import opened Common
  import opened Tables
  import opened CategoryRepo

  /** The JSON body of a create or update request; `None` when the key is
      absent. */
  datatype CategoryData = CategoryData(name: Option<string>, description: Option<string>)

  /** The dictionary `_convert_to_dict` builds. */
  datatype CategoryDict = CategoryDict(id: int, name: string, description: string)

  function ToDict(id: int, c: Category): CategoryDict
  {
    CategoryDict(id, c.name, c.description)
  }

  function FromDict(d: CategoryDict): (int, Category)
  {
    (d.id, Category(d.name, d.description))
  }

  /** The dictionary loses nothing. */
  lemma DictRoundTrip(id: int, c: Category)
    ensures FromDict(ToDict(id, c)) == (id, c)
  {
  }

  function Dicts(rows: seq<(int, Category)>): (r: seq<CategoryDict>)
    ensures |r| == |rows|
    ensures forall i :: 0 <= i < |rows| ==> r[i] == ToDict(rows[i].0, rows[i].1)
  {
    seq(|rows|, i requires 0 <= i < |rows| => ToDict(rows[i].0, rows[i].1))
  }

  /** The category `create_category` builds, or why it refuses: the name
      must be present and non-empty; the description defaults to "". */
  function NewCategory(data: CategoryData): (r: Result<Category>)
    ensures r.Ok? <==> data.name.Some? && data.name.value != ""
    ensures r.Ok? ==> r.value.name == data.name.value
    ensures r.Ok? ==> r.value.description == (if data.description.Some? then data.description.value else "")
    ensures r.Err? ==> r.msg == "Category name is required"
  {
    if data.name.None? || data.name.value == "" then Err("Category name is required")
    else Ok(Category(data.name.value, if data.description.Some? then data.description.value else ""))
  }

  /** The fields `update_category` overwrites: the keys present in the body,
      with no validation. */
  function Patched(c: Category, data: CategoryData): (r: Category)
    ensures r.name == (if data.name.Some? then data.name.value else c.name)
    ensures r.description == (if data.description.Some? then data.description.value else c.description)
  {
    var c1 := if data.name.Some? then c.(name := data.name.value) else c;
    if data.description.Some? then c1.(description := data.description.value) else c1
  }

  /** Creation refuses an empty name, but an update may set one. */
  lemma EmptyNameOnlyByUpdate(c: Category, description: Option<string>)
    ensures NewCategory(CategoryData(Some(""), description)).Err?
    ensures Patched(c, CategoryData(Some(""), description)).name == ""
  {
  }

  class CategoryServiceImpl {
    const repo: DBCategoryRepo

    constructor (repo: DBCategoryRepo)
      ensures this.repo == repo
    {
      this.repo := repo;
    }

    /** `create_category(category_data)`: the category with its new id. */
    method CreateCategory(data: CategoryData) returns (r: Result<(int, Category)>)
      requires Valid(repo.db.tables)
      modifies repo.db
      ensures Valid(repo.db.tables)
      ensures NewCategory(data).Err? ==>
                r == Err("Failed to create category: " + NewCategory(data).msg)
      ensures NewCategory(data).Ok? && NameTaken(old(repo.db.tables.categories), data.name.value, 0) ==>
                r == Err("Failed to create category: " + CategoryExists(data.name.value))
      ensures r.Ok? <==> NewCategory(data).Ok? && !NameTaken(old(repo.db.tables.categories), data.name.value, 0)
      ensures r.Ok? ==>
                r.value == (old(repo.db.tables.nextCategoryId), NewCategory(data).value) &&
                repo.db.tables == old(repo.db.tables).(
                  categories := old(repo.db.tables.categories)[r.value.0 := r.value.1],
                  nextCategoryId := r.value.0 + 1)
      ensures r.Err? ==> repo.db.tables == old(repo.db.tables)
    {
      var c := NewCategory(data);
      if c.Err? {
        return Err("Failed to create category: " + c.msg);
      }
      var created := repo.Create(c.value);
      match created
      case Err(m) =>
        r := Err("Failed to create category: " + m);
      case Ok(id) =>
        r := Ok((id, c.value));
    }

    /** `get_all_categories`: every category once, sorted by name. */
    method GetAllCategories() returns (r: seq<CategoryDict>)
      ensures r == Dicts(AllCategories(repo.db.tables))
    {
      var rows := repo.GetAllCategories();
      r := Dicts(rows);
    }

    method GetCategoryById(id: int) returns (r: Result<CategoryDict>)
      ensures id in repo.db.tables.categories ==> r == Ok(ToDict(id, repo.db.tables.categories[id]))
      ensures id !in repo.db.tables.categories ==>
                r == Err("Failed to fetch category: " + CategoryNotFound(id))
    {
      var c := repo.GetById(id);
      if c.None? {
        return Err("Failed to fetch category: " + CategoryNotFound(id));
      }
      r := Ok(ToDict(id, c.value));
    }

    /** `update_category(category_id, category_data)`. */
    method UpdateCategory(id: int, data: CategoryData) returns (r: Result<CategoryDict>)
      requires Valid(repo.db.tables)
      modifies repo.db
      ensures Valid(repo.db.tables)
      ensures id !in old(repo.db.tables.categories) ==>
                r == Err("Failed to update category: " + CategoryNotFound(id))
      ensures id in old(repo.db.tables.categories) ==>
                var c := Patched(old(repo.db.tables.categories[id]), data);
                if c == old(repo.db.tables.categories[id]) then
                  r == Err("Failed to update category: " + ("Category update failed: " + CategoryNotFound(id)))
                else if NameTaken(old(repo.db.tables.categories), c.name, id) then
                  r == Err("Failed to update category: " + CategoryNameExists(c.name))
                else
                  r == Ok(ToDict(id, c)) &&
                  repo.db.tables == old(repo.db.tables).(categories := old(repo.db.tables.categories)[id := c])
      ensures r.Err? ==> repo.db.tables == old(repo.db.tables)
    {
      var existing := repo.GetById(id);
      if existing.None? {
        return Err("Failed to update category: " + CategoryNotFound(id));
      }
      var c := Patched(existing.value, data);
      var updated := repo.Update(id, c);
      match updated
      case Err(m) =>
        r := Err("Failed to update category: " + m);
      case Ok(u) =>
        r := Ok(ToDict(id, u));
    }

    /** `delete_category(category_id)`: refused while products use it. */
    method DeleteCategory(id: int) returns (r: Result<bool>)
      requires Valid(repo.db.tables)
      modifies repo.db
      ensures Valid(repo.db.tables)
      ensures CategoryDelete(old(repo.db.tables), id).Ok? ==>
                r == Ok(true) && repo.db.tables == CategoryDelete(old(repo.db.tables), id).value
      ensures CategoryDelete(old(repo.db.tables), id).Err? ==>
                r == Err("Failed to delete category: " + CategoryDelete(old(repo.db.tables), id).msg) &&
                repo.db.tables == old(repo.db.tables)
    {
      var d := repo.Delete(id);
      match d
      case Err(m) =>
        r := Err("Failed to delete category: " + m);
      case Ok(b) =>
        r := Ok(b);
    }
  }
}
