/** The category endpoints: the public list of active categories, lookup,
    and the admin create, update, delete and add-subcategory operations.

    The Category schema file is not part of this model. Its documented data
    model is assumed: `name` is required and unique (a unique index refuses a
    second document with the same name), and `isActive` defaults to true. */
module CategoryController {
  import opened Common
  import opened Store
  import opened Listing

  /** Some stored category has this name: `findOne({ name })`. */
  predicate NameTaken(categories: map<CategoryId, Category>, name: string) {
    exists id :: id in categories && categories[id].name == name
  }

  // ---------------------------------------------------------------- list, get

  predicate NameOrder(a: Category, b: Category) {
    StrLe(a.name, b.name)
  }

  lemma NameOrderIsTotal()
    ensures TotalPreorder(NameOrder)
  {
    forall a: Category, b: Category ensures NameOrder(a, b) || NameOrder(b, a) {
      StrLeTotal(a.name, b.name);
    }
    forall a: Category, b: Category, c: Category | NameOrder(a, b) && NameOrder(b, c) ensures NameOrder(a, c) {
      StrLeTransitive(a.name, b.name, c.name);
    }
  }

  /** GET /api/categories over the collection in storage order. */
  function ActiveCategories(docs: seq<Category>): seq<Category> {
    SortBy(NameOrder, Filter(docs, (c: Category) => c.isActive))
  }

  /** The list holds exactly the active categories, each as often as stored,
      in name order. */
  lemma ActiveCategoriesSpec(docs: seq<Category>)
    ensures var r := ActiveCategories(docs);
      && (forall c :: c in r <==> c in docs && c.isActive)
      && multiset(r) == multiset(Filter(docs, (c: Category) => c.isActive))
      && SortedBy(NameOrder, r)
  {
    NameOrderIsTotal();
    SortBySorted(NameOrder, Filter(docs, (c: Category) => c.isActive));
    var active := Filter(docs, (c: Category) => c.isActive);
    forall c ensures c in ActiveCategories(docs) <==> c in active {
      assert c in ActiveCategories(docs) <==> c in multiset(ActiveCategories(docs));
      assert c in active <==> c in multiset(active);
    }
  }

  /** GET /api/categories/:id. */
  function GetCategory(categories: map<CategoryId, Category>, id: CategoryId): (r: Result<Category>)
    ensures r.Err? <==> id !in categories
    ensures r.Err? ==> r.error == CategoryNotFound
    ensures r.Ok? ==> r.value == categories[id]
  {
    if id in categories then Ok(categories[id]) else Err(CategoryNotFound)
  }

  // ---------------------------------------------------------------- create

  /** POST /api/categories as a function of the collection; `id` is the fresh
      document id. A taken name is refused before the insert; a missing name
      fails validation. */
  function AddCategory(categories: map<CategoryId, Category>, id: CategoryId, name: Option<string>,
                       description: Option<string>, image: Option<string>,
                       subcategories: Option<seq<Subcategory>>): (Result<Category>, map<CategoryId, Category>)
    requires id !in categories
  {
    if name.Some? && NameTaken(categories, name.value) then (Err(CategoryExists), categories)
    else if !Present(name) then (Err(ServerError(ValidationFailed)), categories)
    else
      var c := Category(name.value, description, image, subcategories.GetOr([]), true);
      (Ok(c), categories[id := c])
  }

  /** A new category is created exactly when its name is given and free; it
      is active, has the subcategories sent or none, and nothing else changes. */
  lemma AddCategorySpec(categories: map<CategoryId, Category>, id: CategoryId, name: Option<string>,
                        description: Option<string>, image: Option<string>, subcategories: Option<seq<Subcategory>>)
    requires id !in categories
    ensures var (r, cats') := AddCategory(categories, id, name, description, image, subcategories);
      && (r.Ok? <==> Present(name) && !NameTaken(categories, name.value))
      && (name.Some? && NameTaken(categories, name.value) ==> r == Err(CategoryExists) && cats' == categories)
      && (r.Err? ==> cats' == categories)
      && (r.Ok? ==> cats' == categories[id := r.value] && r.value.name == name.value && r.value.isActive
                    && r.value.subcategories == subcategories.GetOr([]))
  {
  }

  /** Creating keeps names unique. */
  lemma AddCategoryKeepsNamesUnique(categories: map<CategoryId, Category>, id: CategoryId, name: Option<string>,
                                    description: Option<string>, image: Option<string>, subcategories: Option<seq<Subcategory>>)
    requires id !in categories && UniqueNames(categories)
    ensures UniqueNames(AddCategory(categories, id, name, description, image, subcategories).1)
  {
  }

  /** POST /api/categories (admins only). */
  method CreateCategory(db: Db, id: CategoryId, name: Option<string>, description: Option<string>,
                        image: Option<string>, subcategories: Option<seq<Subcategory>>) returns (r: Result<Category>)
    requires id !in db.categories
    modifies db
    ensures ValidState(old(db.View())) ==> ValidState(db.View())
    ensures db.products == old(db.products) && db.carts == old(db.carts) && db.orders == old(db.orders)
    ensures (r, db.categories) == AddCategory(old(db.categories), id, name, description, image, subcategories)
  {
    if name.Some? && NameTaken(db.categories, name.value) {
      return Err(CategoryExists);
    }
    if !Present(name) {
      return Err(ServerError(ValidationFailed));
    }
    var category := Category(name.value, description, image, subcategories.GetOr([]), true);
    db.categories := db.categories[id := category];
    r := Ok(category);
  }

  // ---------------------------------------------------------------- update

  /** The fields PUT /api/categories/:id may carry; `None` is `undefined`. */
  datatype CategoryUpdate = CategoryUpdate(
    name: Option<string>,
    description: Option<string>,
    image: Option<string>,
    subcategories: Option<seq<Subcategory>>,
    isActive: Option<bool>)

  /** The field merge: name, description and image are replaced only by a
      truthy value, the subcategory list by any list sent (an empty array is
      truthy), and the active flag by any defined value. */
  function MergeCategory(c: Category, u: CategoryUpdate): Category {
    c.(name := StringOr(u.name, c.name),
       description := if Present(u.description) then u.description else c.description,
       image := if Present(u.image) then u.image else c.image,
       subcategories := u.subcategories.GetOr(c.subcategories),
       isActive := u.isActive.GetOr(c.isActive))
  }

  /** PUT /api/categories/:id as a function of the collection. The controller
      makes no duplicate check; a rename onto another category's name is
      refused by the unique index, and nothing is saved. */
  function ReviseCategory(categories: map<CategoryId, Category>, id: CategoryId, u: CategoryUpdate): (Result<Category>, map<CategoryId, Category>) {
    if id !in categories then (Err(CategoryNotFound), categories)
    else
      var c := MergeCategory(categories[id], u);
      if exists other :: other in categories && other != id && categories[other].name == c.name
      then (Err(ServerError(QueryFailed)), categories)
      else (Ok(c), categories[id := c])
  }

  /** The merge rules field by field, and the fate of the update. */
  lemma ReviseCategorySpec(categories: map<CategoryId, Category>, id: CategoryId, u: CategoryUpdate)
    ensures var (r, cats') := ReviseCategory(categories, id, u);
      && (id !in categories ==> r == Err(CategoryNotFound) && cats' == categories)
      && (r.Err? ==> cats' == categories)
      && (r.Ok? ==>
            && id in categories && cats' == categories[id := r.value]
            && r.value.name == (if Present(u.name) then u.name.value else categories[id].name)
            && r.value.description == (if Present(u.description) then u.description else categories[id].description)
            && r.value.image == (if Present(u.image) then u.image else categories[id].image)
            && (u.subcategories.Some? ==> r.value.subcategories == u.subcategories.value)
            && (u.subcategories.None? ==> r.value.subcategories == categories[id].subcategories)
            && (u.isActive.Some? ==> r.value.isActive == u.isActive.value)
            && (u.isActive.None? ==> r.value.isActive == categories[id].isActive))
  {
  }

  /** Keeping one's own name is never a clash, so an update without a name
      succeeds on a collection with unique names. */
  lemma ReviseWithoutRenameSucceeds(categories: map<CategoryId, Category>, id: CategoryId, u: CategoryUpdate)
    requires UniqueNames(categories) && id in categories && !Present(u.name)
    ensures ReviseCategory(categories, id, u).0.Ok?
  {
  }

  /** Updating keeps names unique. */
  lemma ReviseCategoryKeepsNamesUnique(categories: map<CategoryId, Category>, id: CategoryId, u: CategoryUpdate)
    requires UniqueNames(categories)
    ensures UniqueNames(ReviseCategory(categories, id, u).1)
  {
  }

  /** PUT /api/categories/:id (admins only). */
  method UpdateCategory(db: Db, id: CategoryId, u: CategoryUpdate) returns (r: Result<Category>)
    modifies db
    ensures ValidState(old(db.View())) ==> ValidState(db.View())
    ensures db.products == old(db.products) && db.carts == old(db.carts) && db.orders == old(db.orders)
    ensures (r, db.categories) == ReviseCategory(old(db.categories), id, u)
  {
    if id !in db.categories {
      return Err(CategoryNotFound);
    }
    var category := db.categories[id];
    category := category.(name := StringOr(u.name, category.name));
    category := category.(description := if Present(u.description) then u.description else category.description);
    category := category.(image := if Present(u.image) then u.image else category.image);
    category := category.(subcategories := u.subcategories.GetOr(category.subcategories));
    category := category.(isActive := u.isActive.GetOr(category.isActive));
    if exists other :: other in db.categories && other != id && db.categories[other].name == category.name {
      return Err(ServerError(QueryFailed));
    }
    db.categories := db.categories[id := category];
    r := Ok(category);
  }

  // ---------------------------------------------------------------- delete, subcategory

  /** DELETE /api/categories/:id's effect: only that category goes; products
      that reference it keep the reference. */
  function RemoveCategory(categories: map<CategoryId, Category>, id: CategoryId): (r: Result<map<CategoryId, Category>>)
    ensures r.Err? <==> id !in categories
    ensures r.Err? ==> r.error == CategoryNotFound
    ensures r.Ok? ==> r.value.Keys == categories.Keys - {id} && forall k :: k in r.value ==> r.value[k] == categories[k]
  {
    if id !in categories then Err(CategoryNotFound) else Ok(categories - {id})
  }

  /** Deleting keeps names unique and frees the deleted name. */
  lemma RemoveCategoryFreesName(categories: map<CategoryId, Category>, id: CategoryId)
    requires UniqueNames(categories) && id in categories
    ensures UniqueNames(RemoveCategory(categories, id).value)
    ensures !NameTaken(RemoveCategory(categories, id).value, categories[id].name)
  {
  }

  /** DELETE /api/categories/:id (admins only). */
  method DeleteCategory(db: Db, id: CategoryId) returns (r: Result<CategoryId>)
    modifies db
    ensures ValidState(old(db.View())) ==> ValidState(db.View())
    ensures db.products == old(db.products) && db.carts == old(db.carts) && db.orders == old(db.orders)
    ensures RemoveCategory(old(db.categories), id).Err? ==> r == Err(CategoryNotFound) && db.categories == old(db.categories)
    ensures RemoveCategory(old(db.categories), id).Ok? ==> r == Ok(id) && db.categories == RemoveCategory(old(db.categories), id).value
  {
    var removed := RemoveCategory(db.categories, id);
    if removed.Err? {
      return Err(removed.error);
    }
    db.categories := removed.value;
    r := Ok(id);
  }

  /** POST /api/categories/:id/subcategory's effect on one category: the new
      subcategory goes at the end and the earlier ones stay as they were. */
  function WithSubcategory(c: Category, name: Option<string>, description: Option<string>): (r: Category)
    ensures |r.subcategories| == |c.subcategories| + 1
    ensures r.subcategories[..|c.subcategories|] == c.subcategories
    ensures r.subcategories[|c.subcategories|] == Subcategory(name, description)
    ensures r.name == c.name && r.description == c.description && r.image == c.image && r.isActive == c.isActive
  {
    c.(subcategories := c.subcategories + [Subcategory(name, description)])
  }

  /** Adding subcategories one after another lists them in the order added. */
  lemma SubcategoriesInOrder(c: Category, n1: Option<string>, d1: Option<string>, n2: Option<string>, d2: Option<string>)
    ensures WithSubcategory(WithSubcategory(c, n1, d1), n2, d2).subcategories
            == c.subcategories + [Subcategory(n1, d1), Subcategory(n2, d2)]
  {
  }

  /** POST /api/categories/:id/subcategory (admins only). */
  method AddSubcategory(db: Db, id: CategoryId, name: Option<string>, description: Option<string>) returns (r: Result<Category>)
    modifies db
    ensures ValidState(old(db.View())) ==> ValidState(db.View())
    ensures db.products == old(db.products) && db.carts == old(db.carts) && db.orders == old(db.orders)
    ensures id !in old(db.categories) ==> r == Err(CategoryNotFound) && db.categories == old(db.categories)
    ensures id in old(db.categories) ==>
      r == Ok(WithSubcategory(old(db.categories)[id], name, description)) && db.categories == old(db.categories)[id := r.value]
  {
    if id !in db.categories {
      return Err(CategoryNotFound);
    }
    var category := db.categories[id];
    category := category.(subcategories := category.subcategories + [Subcategory(name, description)]);
    db.categories := db.categories[id := category];
    r := Ok(category);
  }
}
