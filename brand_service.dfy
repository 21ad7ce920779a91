/**
 * BrandService: brands with pairwise distinct names. Create refuses a taken name; update
 * refuses renaming to another brand's name but allows keeping its own.
 */
module BrandService {
  import opened Wrappers
  import opened Entities
  import opened Strings

  /** `BrandRequest`: a non-blank name of at most 100 UTF-16 units, a description of at most 500. */
  predicate ValidRequest(name: string, description: Option<string>) {
    NotBlank(name) && Utf16Length(name) <= 100 && (description.Some? ==> Utf16Length(description.value) <= 500)
  }

  /** `existsByName`. */
  predicate NameTaken(brands: map<int, Brand>, name: string) {
    exists k :: k in brands && brands[k].name == name
  }

  /** A brand with a name no other brand has can be stored under any key. */
  lemma StoreKeepsNamesUnique(brands: map<int, Brand>, id: int, c: Brand)
    requires BrandNamesUnique(brands)
    requires forall k :: k in brands && k != id ==> brands[k].name != c.name
    ensures BrandNamesUnique(brands[id := c])
  {
  }

  /** `createBrand`: a taken name fails and changes nothing; otherwise the brand is stored. */
  method CreateBrand(st: Store, name: string, description: Option<string>, logoUrl: Option<string>) returns (r: Result<(int, Brand)>)
    requires st.Valid() && ValidRequest(name, description)
    modifies st
    ensures st.Valid()
    ensures r.Err? <==> NameTaken(old(st.brands), name)
    ensures r.Err? ==> r.error == IllegalArgument("Brand with this name already exists") && st.Snapshot() == old(st.Snapshot())
    ensures r.Ok? ==>
      var d := old(st.Snapshot());
      && r.value == (d.nextId, Brand(name, description, logoUrl))
      && st.Snapshot() == d.(brands := d.brands[d.nextId := r.value.1], nextId := d.nextId + 1)
  {
    if exists k :: k in st.brands && st.brands[k].name == name {
      return Err(IllegalArgument("Brand with this name already exists"));
    }
    var brand := Brand(name, description, logoUrl);
    var id := st.NewId();
    StoreKeepsNamesUnique(st.brands, id, brand);
    st.brands := st.brands[id := brand];
    r := Ok((id, brand));
  }

  /** Why `updateBrand` throws, if it does. */
  function UpdateRefusal(brands: map<int, Brand>, id: int, name: string): Option<Error> {
    if id !in brands then Some(NotFound("Brand not found"))
    else if brands[id].name != name && NameTaken(brands, name) then Some(IllegalArgument("Brand with this name already exists"))
    else None
  }

  /** `updateBrand`: name, description and logo URL are all overwritten. */
  method UpdateBrand(st: Store, id: int, name: string, description: Option<string>, logoUrl: Option<string>) returns (r: Result<Brand>)
    requires st.Valid() && ValidRequest(name, description)
    modifies st
    ensures st.Valid()
    ensures r.Err? <==> UpdateRefusal(old(st.brands), id, name).Some?
    ensures r.Err? ==> r.error == UpdateRefusal(old(st.brands), id, name).value && st.Snapshot() == old(st.Snapshot())
    ensures r.Ok? ==>
      && r.value == Brand(name, description, logoUrl)
      && st.Snapshot() == old(st.Snapshot()).(brands := old(st.brands)[id := r.value])
  {
    if id !in st.brands {
      return Err(NotFound("Brand not found"));
    }
    var brand := st.brands[id];
    if brand.name != name && exists k :: k in st.brands && st.brands[k].name == name {
      return Err(IllegalArgument("Brand with this name already exists"));
    }
    brand := brand.(name := name, description := description, logoUrl := logoUrl);
    StoreKeepsNamesUnique(st.brands, id, brand);
    st.brands := st.brands[id := brand];
    r := Ok(brand);
  }

  /** `getBrandById`. */
  function GetBrandById(brands: map<int, Brand>, id: int): (r: Result<Brand>)
    ensures r.Ok? <==> id in brands
    ensures r.Ok? ==> r.value == brands[id]
    ensures r.Err? ==> r.error == NotFound("Brand not found")
  {
    if id in brands then Ok(brands[id]) else Err(NotFound("Brand not found"))
  }

  /** `deleteBrand`: an unknown id fails; otherwise only that brand row is removed. */
  method DeleteBrand(st: Store, id: int) returns (r: Result<()>)
    requires st.Valid()
    modifies st
    ensures st.Valid()
    ensures r.Err? <==> id !in old(st.brands)
    ensures r.Err? ==> r.error == NotFound("Brand not found") && st.Snapshot() == old(st.Snapshot())
    ensures r.Ok? ==> st.Snapshot() == old(st.Snapshot()).(brands := old(st.brands) - {id})
  {
    if id !in st.brands {
      return Err(NotFound("Brand not found"));
    }
    st.brands := st.brands - {id};
    r := Ok(());
  }

  /** Renaming a brand to the name it already has always passes the name check. */
  lemma KeepingOwnNameIsAllowed(brands: map<int, Brand>, id: int)
    requires id in brands
    ensures UpdateRefusal(brands, id, brands[id].name).None?
  {
  }

  /** The name check fails exactly when a different brand holds the requested name. */
  lemma UpdateRefusedIffOtherHasName(brands: map<int, Brand>, id: int, name: string)
    requires id in brands && BrandNamesUnique(brands)
    ensures UpdateRefusal(brands, id, name).Some? <==> exists k :: k in brands && k != id && brands[k].name == name
  {
    if UpdateRefusal(brands, id, name).Some? {
      var k :| k in brands && brands[k].name == name;
      assert k != id;
    }
  }
}
