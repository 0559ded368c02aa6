/** The middlewares that screen the brand routes. */
module BrandValidation {
  import opened Js

  /** The body fields `create` requires, every one of them truthy. */
  const CreateFields: set<string> := {"name", "logo", "description", "desktopBanner", "mobileBanner"}

  /** The body fields of which `update` wants at least one (`name` is not among them). */
  const UpdateFields: set<string> := {"description", "logo", "desktopBanner", "mobileBanner"}

  /** `create`: a 400 unless all five fields are truthy. */
  function Create(body: map<string, JsValue>): (o: Outcome)
    ensures o == Next <==> forall f :: f in CreateFields ==> Truthy(Get(body, f))
    ensures o != Next ==> o == BadRequest
  {
    if !Truthy(Get(body, "name")) || !Truthy(Get(body, "logo")) || !Truthy(Get(body, "description"))
      || !Truthy(Get(body, "desktopBanner")) || !Truthy(Get(body, "mobileBanner"))
    then
      BadRequest
    else
      Next
  }

  /**
   * `update`: a 400 without an id, a 404 (or a 500 when the lookup throws)
   * when the brand is unknown, and then a 400 unless one of the four
   * updatable fields other than `name` is truthy.
   */
  function Update<B>(id: JsValue, brand: Lookup<B>, body: map<string, JsValue>): (o: Outcome)
    ensures !Truthy(id) ==> o == BadRequest
    ensures Truthy(id) && brand.Absent? ==> o == NotFound
    ensures Truthy(id) && brand.Threw? ==> o == InternalError
    ensures o == Next <==> Truthy(id) && brand.Found? && exists f :: f in UpdateFields && Truthy(Get(body, f))
    ensures Truthy(id) && brand.Found? && o != Next ==> o == BadRequest
  {
    var guard := RequireFound(id, brand);
    if guard != Next then guard
    else if Truthy(Get(body, "description")) || Truthy(Get(body, "logo"))
      || Truthy(Get(body, "desktopBanner")) || Truthy(Get(body, "mobileBanner"))
    then
      Next
    else
      BadRequest
  }

  /** `delete`: a 400 without an id, a 404 for an unknown brand, else on. */
  function Delete<B>(id: JsValue, brand: Lookup<B>): (o: Outcome)
    ensures !Truthy(id) ==> o == BadRequest
    ensures Truthy(id) && brand.Absent? ==> o == NotFound
    ensures Truthy(id) && brand.Threw? ==> o == InternalError
    ensures o == Next <==> Truthy(id) && brand.Found?
  {
    RequireFound(id, brand)
  }

  /** `getBySlug`: a 400 without a `slug` route parameter. */
  function GetBySlug(slug: JsValue): (o: Outcome)
    ensures o == Next <==> Truthy(slug)
    ensures o != Next ==> o == BadRequest
  {
    RequireId(slug)
  }

  /** Renaming alone is not an update: a body with only `name` is refused. */
  lemma NameAloneIsNotAnUpdate<B>(id: string, b: B, name: string)
    requires id != ""
    ensures Update(Str(id), Found(b), map["name" := Str(name)]) == BadRequest
  {
  }
}
