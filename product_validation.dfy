/** The middlewares that screen the product routes. */
module ProductValidation {
  import opened Js

  /** The body fields of which `create` wants at least one. */
  const CreateFields: set<string> :=
    {"brand", "combinations", "description", "defaultCategory", "howToUse",
     "ingredients", "images", "name", "parentCategory"}

  /** `getById`: a 400 without an `id` route parameter. */
  function GetById(id: JsValue): (o: Outcome)
    ensures o == Next <==> Truthy(id)
    ensures o != Next ==> o == BadRequest
  {
    RequireId(id)
  }

  /** `getBySlug`: a 400 without a `slug` route parameter. */
  function GetBySlug(slug: JsValue): (o: Outcome)
    ensures o == Next <==> Truthy(slug)
    ensures o != Next ==> o == BadRequest
  {
    RequireId(slug)
  }

  /**
   * `create`: the request is refused only when every one of the nine fields
   * is falsy, so a single truthy field is enough to go on.
   */
  function Create(body: map<string, JsValue>): (o: Outcome)
    ensures o == Next <==> exists f :: f in CreateFields && Truthy(Get(body, f))
    ensures o != Next ==> o == BadRequest
  {
    if !Truthy(Get(body, "brand")) && !Truthy(Get(body, "combinations"))
      && !Truthy(Get(body, "description")) && !Truthy(Get(body, "defaultCategory"))
      && !Truthy(Get(body, "howToUse")) && !Truthy(Get(body, "ingredients"))
      && !Truthy(Get(body, "images")) && !Truthy(Get(body, "name"))
      && !Truthy(Get(body, "parentCategory"))
    then
      BadRequest
    else
      Next
  }

  /** `delete`: a 400 without an `id` route parameter. */
  function Delete(id: JsValue): (o: Outcome)
    ensures o == Next <==> Truthy(id)
    ensures o != Next ==> o == BadRequest
  {
    RequireId(id)
  }

  /** A body carrying nothing but a name is accepted for creation. */
  lemma NameAloneCreates(name: string)
    requires name != ""
    ensures Create(map["name" := Str(name)]) == Next
  {
    assert "name" in CreateFields && Truthy(Get(map["name" := Str(name)], "name"));
  }
}
