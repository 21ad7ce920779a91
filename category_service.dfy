/**
 * CategoryService: categories with pairwise distinct names. Create refuses a taken name; update
 * refuses renaming to another category's name but allows keeping its own.
 */
module CategoryService {
  import opened Wrappers
  import opened Entities
  import opened Strings

  /** `CategoryRequest`: a non-blank name of at most 100 UTF-16 units, a description of at most 500. */
  predicate ValidRequest(name: string, description: Option<string>) {
    NotBlank(name) && Utf16Length(name) <= 100 && (description.Some? ==> Utf16Length(description.value) <= 500)
  }

  /** `existsByName`. */
  predicate NameTaken(categories: map<int, Category>, name: string) {
    exists k :: k in categories && categories[k].name == name
  }

  /** A category with a name no other category has can be stored under any key. */
  lemma StoreKeepsNamesUnique(categories: map<int, Category>, id: int, c: Category)
    requires CategoryNamesUnique(categories)
    requires forall k :: k in categories && k != id ==> categories[k].name != c.name
    ensures CategoryNamesUnique(categories[id := c])
  {
  }

  /** `createCategory`: a taken name fails and changes nothing; otherwise the category is stored. */
  method CreateCategory(st: Store, name: string, description: Option<string>, imageUrl: Option<string>) returns (r: Result<(int, Category)>)
    requires st.Valid() && ValidRequest(name, description)
    modifies st
    ensures st.Valid()
    ensures r.Err? <==> NameTaken(old(st.categories), name)
    ensures r.Err? ==> r.error == IllegalArgument("Category with this name already exists") && st.Snapshot() == old(st.Snapshot())
    ensures r.Ok? ==>
      var d := old(st.Snapshot());
      && r.value == (d.nextId, Category(name, description, imageUrl))
      && st.Snapshot() == d.(categories := d.categories[d.nextId := r.value.1], nextId := d.nextId + 1)
  {
    if exists k :: k in st.categories && st.categories[k].name == name {
      return Err(IllegalArgument("Category with this name already exists"));
    }
    var category := Category(name, description, imageUrl);
    var id := st.NewId();
    StoreKeepsNamesUnique(st.categories, id, category);
    st.categories := st.categories[id := category];
    r := Ok((id, category));
  }

  /** Why `updateCategory` throws, if it does. */
  function UpdateRefusal(categories: map<int, Category>, id: int, name: string): Option<Error> {
    if id !in categories then Some(NotFound("Category not found"))
    else if categories[id].name != name && NameTaken(categories, name) then Some(IllegalArgument("Category with this name already exists"))
    else None
  }

  /** `updateCategory`: name, description and image URL are all overwritten. */
  method UpdateCategory(st: Store, id: int, name: string, description: Option<string>, imageUrl: Option<string>) returns (r: Result<Category>)
    requires st.Valid() && ValidRequest(name, description)
    modifies st
    ensures st.Valid()
    ensures r.Err? <==> UpdateRefusal(old(st.categories), id, name).Some?
    ensures r.Err? ==> r.error == UpdateRefusal(old(st.categories), id, name).value && st.Snapshot() == old(st.Snapshot())
    ensures r.Ok? ==>
      && r.value == Category(name, description, imageUrl)
      && st.Snapshot() == old(st.Snapshot()).(categories := old(st.categories)[id := r.value])
  {
    if id !in st.categories {
      return Err(NotFound("Category not found"));
    }
    var category := st.categories[id];
    if category.name != name && exists k :: k in st.categories && st.categories[k].name == name {
      return Err(IllegalArgument("Category with this name already exists"));
    }
    category := category.(name := name, description := description, imageUrl := imageUrl);
    StoreKeepsNamesUnique(st.categories, id, category);
    st.categories := st.categories[id := category];
    r := Ok(category);
  }

  /** `getCategoryById`. */
  function GetCategoryById(categories: map<int, Category>, id: int): (r: Result<Category>)
    ensures r.Ok? <==> id in categories
    ensures r.Ok? ==> r.value == categories[id]
    ensures r.Err? ==> r.error == NotFound("Category not found")
  {
    if id in categories then Ok(categories[id]) else Err(NotFound("Category not found"))
  }

  /** `deleteCategory`: an unknown id fails; otherwise only that category row is removed. */
  method DeleteCategory(st: Store, id: int) returns (r: Result<()>)
    requires st.Valid()
    modifies st
    ensures st.Valid()
    ensures r.Err? <==> id !in old(st.categories)
    ensures r.Err? ==> r.error == NotFound("Category not found") && st.Snapshot() == old(st.Snapshot())
    ensures r.Ok? ==> st.Snapshot() == old(st.Snapshot()).(categories := old(st.categories) - {id})
  {
    if id !in st.categories {
      return Err(NotFound("Category not found"));
    }
    st.categories := st.categories - {id};
    r := Ok(());
  }

  /** Renaming a category to the name it already has always passes the name check. */
  lemma KeepingOwnNameIsAllowed(categories: map<int, Category>, id: int)
    requires id in categories
    ensures UpdateRefusal(categories, id, categories[id].name).None?
  {
  }

  /** The name check fails exactly when a different category holds the requested name. */
  lemma UpdateRefusedIffOtherHasName(categories: map<int, Category>, id: int, name: string)
    requires id in categories && CategoryNamesUnique(categories)
    ensures UpdateRefusal(categories, id, name).Some? <==> exists k :: k in categories && k != id && categories[k].name == name
  {
    if UpdateRefusal(categories, id, name).Some? {
      var k :| k in categories && categories[k].name == name;
      assert k != id;
    }
  }
}
