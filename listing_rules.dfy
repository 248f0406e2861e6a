/** The rules of the listing routes (POST /createproduct, GET /mycars, GET, PUT and
    DELETE /cars/:id) as functions of the product collection and the request: what each
    route replies and what the collection holds afterwards. */
module ListingRules {
  import opened Wrappers
  import opened Text
  import opened Seqs
  import opened Http
  import opened ProductSchema

  /** The product collection, by document id. */
  type Store = map<Id, Listing>

  /** Every record is stored under its own id. */
  ghost predicate Keyed(store: Store) {
    forall id :: id in store ==> store[id].id == id
  }

  /** The JSON bodies the routes send. */
  datatype Body =
    | Invalid(errors: seq<FieldError>)        // { errors: [...] }
    | Notice(success: bool, message: string)  // { success, message }
    | ProductSaved(product: Listing)          // { success: true, message: 'Product created successfully', product }
    | CarList(cars: seq<Listing>)             // { success: true, cars }
    | CarFound(car: Listing)                  // { success: true, car }
    | CarUpdated(car: Listing)                // { success: true, message: 'Car updated successfully', car }
    | SearchMessage(message: string)          // { message }
    | SearchHits(results: seq<Listing>)       // a bare array of products
    | PlainText(text: string)                 // a text body

  datatype Response = Response(status: nat, body: Body)

  /** What a route replies and the collection it leaves behind. */
  datatype Step = Step(resp: Response, store: Store)

  const ServerError := Response(500, Notice(false, "Server error"))
  const CarNotFound := Response(404, Notice(false, "Car not found"))
  const Deleted := Response(200, Notice(true, "Car deleted successfully"))

  /** `isArray({ min, max })`. */
  predicate ArrayOfLength(f: Field, min: nat, max: nat) {
    f.List? && min <= |f.items| <= max
  }

  // ---------------------------------------------------------------------------------
  // POST /createproduct

  datatype CreateRequest = CreateRequest(
    title: Field, description: Field, tags: Field, imageUrls: Field, email: Field)

  /** The route's validators, in their order; every one runs. */
  function CreateErrors(req: CreateRequest): (errs: seq<FieldError>)
    ensures errs == [] <==>
      !Blank(req.title) && !Blank(req.description) && !Blank(req.tags)
      && ArrayOfLength(req.imageUrls, 1, 10)
    ensures |errs| <= 4
  {
    (if Blank(req.title) then [FieldError("title", "Title is required")] else [])
    + (if Blank(req.description) then [FieldError("description", "Description is required")] else [])
    + (if Blank(req.tags) then [FieldError("tags", "Tags are required")] else [])
    + (if !ArrayOfLength(req.imageUrls, 1, 10)
       then [FieldError("imageUrls", "At least one image URL is required, maximum of 10")] else [])
  }

  /** `Array.isArray(tags) ? tags : String(tags).split(',')`: no trimming on this route.
      An array is kept; any other value becomes comma-free pieces that join back, with
      commas, to its text. */
  function CreateTags(tags: Field): (r: seq<string>)
    ensures tags.List? ==> r == tags.items
    ensures !tags.List? ==> |r| >= 1 && (forall i :: 0 <= i < |r| ==> ',' !in r[i])
    ensures !tags.List? ==> Join(r, ",") == JsString(tags)
  {
    if tags.List? then tags.items
    else
      JoinSplit(JsString(tags), ',');
      Split(JsString(tags), ',')
  }

  /** The create route for a collection whose next fresh id is `id`; the document is built
      at `builtAt` and saved at `savedAt`. A document the schema refuses makes `save` throw,
      which the route turns into a 500. */
  function CreateStep(store: Store, id: Id, req: CreateRequest, builtAt: Time, savedAt: Time): (st: Step)
    ensures st.resp.status in {200, 400, 500}
    ensures st.resp.status != 200 ==> st.store == store
    ensures st.resp.status == 200 ==>
      && st.resp.body.ProductSaved? && st.resp.body.product.id == id
      && st.store.Keys == store.Keys + {id} && st.store[id] == st.resp.body.product
  {
    var errs := CreateErrors(req);
    if errs != [] then Step(Response(400, Invalid(errs)), store)
    else
      var title, description, email :=
        StoredText(req.title), StoredText(req.description), StoredText(req.email);
      if title.None? || description.None? || email.None? then Step(ServerError, store)
      else
        var doc := Construct(id, title.value, description.value, CreateTags(req.tags),
                             email.value, req.imageUrls.items, builtAt);
        if !MeetsRequired(doc) then Step(ServerError, store)
        else
          var saved := doc.(updatedAt := savedAt);
          Step(Response(200, ProductSaved(saved)), store[id := saved])
  }

  /** An empty title, description or tags list, or image URLs that are not an array of
      1 to 10, give 400 with nothing stored; nothing else gives 400. */
  lemma CreateRejectsInvalid(store: Store, id: Id, req: CreateRequest, builtAt: Time, savedAt: Time)
    ensures var step := CreateStep(store, id, req, builtAt, savedAt);
      && (step.resp.status == 400 <==>
           Blank(req.title) || Blank(req.description) || Blank(req.tags)
           || !req.imageUrls.List? || |req.imageUrls.items| < 1 || |req.imageUrls.items| > 10)
      && (step.resp.status == 400 ==> step.store == store && step.resp.body.Invalid?)
  {
  }

  /** Create replies 200, 400 or 500. Only a 200 changes the collection, and then it
      adds exactly one record, under the fresh id: owned by the request's email, holding
      the request's images and normalised tags, with the title trimmed and stamped with the
      build and save times. Every other record is unchanged. */
  lemma CreateAddsOneRecord(store: Store, id: Id, req: CreateRequest, builtAt: Time, savedAt: Time)
    requires id !in store
    ensures var step := CreateStep(store, id, req, builtAt, savedAt);
      && step.resp.status in {200, 400, 500}
      && (step.resp.status != 200 ==> step.store == store)
      && (step.resp.status == 200 ==>
           && step.resp.body.ProductSaved?
           && var l := step.resp.body.product;
           && step.store == store[id := l]
           && |step.store| == |store| + 1
           && (forall k :: k in store ==> k in step.store && step.store[k] == store[k])
           && l.id == id
           && Some(l.userEmail) == StoredText(req.email)
           && l.userEmail != ""
           && l.images == req.imageUrls.items && 1 <= |l.images| <= 10
           && l.tags == CreateTags(req.tags)
           && Some(l.description) == StoredText(req.description)
           && l.title == Trim(StoredText(req.title).value) && l.title != ""
           && l.createdAt == builtAt && l.updatedAt == savedAt)
  {
  }

  /** Create succeeds exactly when the validators pass, the title, description and email
      are strings or scalars, and the trimmed title, description and email are non-empty. */
  lemma CreateSucceedsIff(store: Store, id: Id, req: CreateRequest, builtAt: Time, savedAt: Time)
    ensures CreateStep(store, id, req, builtAt, savedAt).resp.status == 200 <==>
      && CreateErrors(req) == []
      && StoredText(req.title).Some? && Trim(StoredText(req.title).value) != ""
      && StoredText(req.description).Some? && StoredText(req.description).value != ""
      && StoredText(req.email).Some? && StoredText(req.email).value != ""
  {
  }

  /** Array tags are kept as they are; any other tags value is split on commas and its
      pieces are not trimmed, so `"a, b"` is stored as `["a", " b"]`. */
  lemma CreateTagsRule(tags: Field)
    ensures tags.List? ==> CreateTags(tags) == tags.items
    ensures tags.Text? ==> CreateTags(tags) == Split(tags.s, ',')
    ensures CreateTags(Text("a, b")) == ["a", " b"]
  {
    SplitPlain(" b", ',');
    assert ", b"[1..] == " b";
    assert Split(", b", ',') == ["", " b"];
    var ab := "a, b";
    assert ab[1..] == ", b" && ab[0] == 'a' && ab != [];
    assert Split(ab, ',') == [[ab[0]] + ""] + [" b"];
    assert [ab[0]] + "" == "a";
    assert CreateTags(Text(ab)) == Split(ab, ',');
  }

  /** The route's `not().isEmpty()` accepts a title of spaces, and the schema's trim then
      leaves an empty title that `save` refuses: the reply is 500, not 400. */
  lemma CreateSpaceTitleIsServerError(store: Store, id: Id, req: CreateRequest, builtAt: Time, savedAt: Time)
    requires req.title == Text(" ")
    requires !Blank(req.description) && !Blank(req.tags) && ArrayOfLength(req.imageUrls, 1, 10)
    ensures CreateStep(store, id, req, builtAt, savedAt) == Step(ServerError, store)
  {
    var description, email := StoredText(req.description), StoredText(req.email);
    if description.Some? && email.Some? {
      BlankTitleIsNotSaved(id, " ", description.value, CreateTags(req.tags), email.value,
                           req.imageUrls.items, builtAt);
    }
  }

  // ---------------------------------------------------------------------------------
  // GET /mycars?email=e

  /** The records with id below `n` owned by `email`, in id order. */
  function OwnedBelow(store: Store, email: string, n: nat): (cars: seq<Listing>)
    requires Keyed(store)
    ensures forall i :: 0 <= i < |cars| ==>
      cars[i].id < n && cars[i].id in store && store[cars[i].id] == cars[i] && cars[i].userEmail == email
    ensures forall id :: 0 <= id < n && id in store && store[id].userEmail == email ==> store[id] in cars
    ensures forall i, j :: 0 <= i < j < |cars| ==> cars[i].id < cars[j].id
  {
    if n == 0 then []
    else
      var below := OwnedBelow(store, email, n - 1);
      if n - 1 in store && store[n - 1].userEmail == email then below + [store[n - 1]] else below
  }

  /** `Product.find({ userEmail: email })`, the records in id order. */
  function MyCarsResponse(store: Store, email: string, nextId: Id): (r: Response)
    requires Keyed(store)
    ensures r.status == 200 && r.body.CarList?
    ensures forall i :: 0 <= i < |r.body.cars| ==> r.body.cars[i] in store.Values && r.body.cars[i].userEmail == email
  {
    Response(200, CarList(OwnedBelow(store, email, nextId)))
  }

  // ---------------------------------------------------------------------------------
  // GET /cars/:id

  /** `Product.findById(id)`: the stored record, or 404. */
  function FetchResponse(store: Store, id: Id): (r: Response)
    ensures r.status == 200 <==> id in store
    ensures r.status in {200, 404}
    ensures id in store ==> r.body == CarFound(store[id])
  {
    if id in store then Response(200, CarFound(store[id])) else CarNotFound
  }

  // ---------------------------------------------------------------------------------
  // PUT /cars/:id

  datatype UpdateRequest = UpdateRequest(title: Field, description: Field, tags: Field, imageUrls: Field)

  /** The route's validators: each field is optional, and a present one must not be empty;
      image URLs, when present, must be an array of at most 10 (the empty array passes). */
  function UpdateErrors(req: UpdateRequest): (errs: seq<FieldError>)
    ensures errs == [] <==>
      && (req.title == Absent || !Blank(req.title))
      && (req.description == Absent || !Blank(req.description))
      && (req.tags == Absent || !Blank(req.tags))
      && (req.imageUrls == Absent || ArrayOfLength(req.imageUrls, 0, 10))
  {
    (if req.title != Absent && Blank(req.title) then [FieldError("title", "Title cannot be empty")] else [])
    + (if req.description != Absent && Blank(req.description)
       then [FieldError("description", "Description cannot be empty")] else [])
    + (if req.tags != Absent && Blank(req.tags) then [FieldError("tags", "Tags cannot be empty")] else [])
    + (if req.imageUrls != Absent && !ArrayOfLength(req.imageUrls, 0, 10)
       then [FieldError("imageUrls", "Maximum of 10 images allowed")] else [])
  }

  /** The `updateFields` object: which keys it has and the raw value each holds. */
  datatype UpdateFields = UpdateFields(
    title: Option<Field>, description: Option<Field>, tags: Option<Field>, images: Option<Field>)

  /** The specification of `updateFields`: a truthy title, description or image list is
      copied; truthy string tags are split on commas and trimmed, array tags are copied,
      and truthy tags of any other kind are dropped. */
  function UpdateFieldsOf(req: UpdateRequest): (u: UpdateFields)
    ensures u.title.Some? <==> Truthy(req.title)
    ensures u.description.Some? <==> Truthy(req.description)
    ensures u.images.Some? <==> Truthy(req.imageUrls)
    ensures u.tags.Some? <==> Truthy(req.tags) && (req.tags.Text? || req.tags.List?)
    ensures u.tags.Some? ==> u.tags.value.List?
    ensures u.tags.Some? && req.tags.Text? ==> forall i :: 0 <= i < |u.tags.value.items| ==> Trimmed(u.tags.value.items[i])
  {
    UpdateFields(
      if Truthy(req.title) then Some(req.title) else None,
      if Truthy(req.description) then Some(req.description) else None,
      if !Truthy(req.tags) then None
      else if req.tags.Text? then Some(List(SplitTrim(req.tags.s, ',')))
      else if req.tags.List? then Some(req.tags)
      else None,
      if Truthy(req.imageUrls) then Some(req.imageUrls) else None)
  }

  /** Mongoose can cast every value of the update to its schema type. */
  predicate Casts(u: UpdateFields) {
    && (u.title.None? || StoredText(u.title.value).Some?)
    && (u.description.None? || StoredText(u.description.value).Some?)
    && (u.tags.None? || u.tags.value.List?)
    && (u.images.None? || u.images.value.List?)
  }

  /** `findByIdAndUpdate` with `updateFields`: the keys present replace the record's fields
      (the title through the schema's trim setter), every other field is kept. No save hook
      runs, so `updatedAt` is not touched. */
  function Apply(l: Listing, u: UpdateFields): (r: Listing)
    requires Casts(u)
    ensures r.id == l.id && r.userEmail == l.userEmail
    ensures r.createdAt == l.createdAt && r.updatedAt == l.updatedAt
    ensures u == UpdateFields(None, None, None, None) ==> r == l
  {
    l.(title := if u.title.Some? then Trim(StoredText(u.title.value).value) else l.title,
       description := if u.description.Some? then StoredText(u.description.value).value else l.description,
       tags := if u.tags.Some? then u.tags.value.items else l.tags,
       images := if u.images.Some? then u.images.value.items else l.images)
  }

  /** The update route. A value that does not cast fails the query before any record is
      looked at, which the route turns into a 500. */
  function UpdateStep(store: Store, id: Id, req: UpdateRequest): (st: Step)
    ensures st.resp.status in {200, 400, 404, 500}
    ensures st.resp.status != 200 ==> st.store == store
    ensures st.resp.status == 200 ==>
      && id in store && st.resp.body.CarUpdated?
      && st.store == store[id := st.resp.body.car] && st.resp.body.car.id == store[id].id
  {
    var errs := UpdateErrors(req);
    if errs != [] then Step(Response(400, Invalid(errs)), store)
    else
      var u := UpdateFieldsOf(req);
      if !Casts(u) then Step(ServerError, store)
      else if id !in store then Step(CarNotFound, store)
      else
        var car := Apply(store[id], u);
        Step(Response(200, CarUpdated(car)), store[id := car])
  }

  /** A present but empty title, description or tags value gives 400 before the store is
      touched. */
  lemma UpdateRejectsEmpty(store: Store, id: Id, req: UpdateRequest)
    requires (req.title != Absent && Blank(req.title))
          || (req.description != Absent && Blank(req.description))
          || (req.tags != Absent && Blank(req.tags))
    ensures UpdateStep(store, id, req).resp.status == 400
    ensures UpdateStep(store, id, req).store == store
  {
  }

  /** Only a 200 changes the collection, and then only the record `id`, and in it only
      the fields the request supplies with a truthy value: a truthy title (trimmed) or
      description, string tags (split and trimmed) or array tags, and any image array,
      the empty one included. Owner, id and both timestamps never change. */
  lemma UpdateChangesOnlyPresentFields(store: Store, id: Id, req: UpdateRequest)
    ensures var step := UpdateStep(store, id, req);
      && step.resp.status in {200, 400, 404, 500}
      && (step.resp.status != 200 ==> step.store == store)
      && (step.resp.status == 200 ==>
           && id in store && step.resp.body.CarUpdated?
           && var old_, car := store[id], step.resp.body.car;
           && step.store == store[id := car]
           && step.store.Keys == store.Keys
           && (forall k :: k in store && k != id ==> step.store[k] == store[k])
           && car.id == old_.id && car.userEmail == old_.userEmail
           && car.createdAt == old_.createdAt && car.updatedAt == old_.updatedAt
           && car.title == (if Truthy(req.title) then Trim(StoredText(req.title).value) else old_.title)
           && car.description == (if Truthy(req.description) then StoredText(req.description).value
                                  else old_.description)
           && car.tags == (if req.tags.Text? && req.tags.s != "" then SplitTrim(req.tags.s, ',')
                           else if req.tags.List? then req.tags.items
                           else old_.tags)
           && car.images == (if req.imageUrls.List? then req.imageUrls.items else old_.images)
           && (|car.images| <= 10 || car.images == old_.images))
  {
  }

  /** An image array of more than 10 is refused; the empty array is accepted and replaces
      the whole image list of an existing record. */
  lemma UpdateImageBounds(store: Store, id: Id, urls: seq<string>)
    ensures var step := UpdateStep(store, id, UpdateRequest(Absent, Absent, Absent, List(urls)));
      && (|urls| > 10 ==> step.resp.status == 400 && step.store == store)
      && (|urls| <= 10 && id in store ==> step.resp.status == 200 && step.store[id].images == urls)
  {
  }

  /** Truthy tags that are neither a string nor an array (a number, `true`) are ignored:
      the record keeps its tags. */
  lemma UpdateIgnoresOtherTags(store: Store, id: Id, req: UpdateRequest)
    requires req.tags.Scalar? && req.tags.truthy
    requires UpdateStep(store, id, req).resp.status == 200
    ensures UpdateStep(store, id, req).store[id].tags == store[id].tags
  {
  }

  /** A falsy value that is not empty text, such as `0` or `false`, passes the validators
      and is then skipped: the title stays as it was. */
  lemma UpdateSkipsFalsyTitle(store: Store, id: Id, shown: string)
    requires shown != "" && id in store
    ensures var step := UpdateStep(store, id, UpdateRequest(Scalar(shown, false), Absent, Absent, Absent));
      step.resp.status == 200 && step.store == store
  {
    var l := store[id];
    assert Apply(l, UpdateFields(None, None, None, None)) == l;
  }

  // ---------------------------------------------------------------------------------
  // DELETE /cars/:id

  /** `Product.findByIdAndDelete(id)`. */
  function DeleteStep(store: Store, id: Id): (st: Step)
    ensures st.resp.status == 200 <==> id in store
    ensures st.resp.status in {200, 404}
    ensures st.store.Keys == store.Keys - {id}
    ensures forall k :: k in st.store ==> st.store[k] == store[k]
  {
    if id in store then Step(Deleted, store - {id}) else Step(CarNotFound, store)
  }

  /** On an id that is not stored, GET, DELETE and a PUT that validates and casts all reply
      404, and none of them changes the collection. */
  lemma MissingIdIsNotFound(store: Store, id: Id, req: UpdateRequest)
    requires id !in store
    ensures FetchResponse(store, id).status == 404
    ensures DeleteStep(store, id) == Step(CarNotFound, store)
    ensures UpdateStep(store, id, req).store == store
    ensures UpdateErrors(req) == [] && Casts(UpdateFieldsOf(req)) ==> UpdateStep(store, id, req).resp == CarNotFound
  {
  }

  /** Delete removes exactly the record `id`, after which GET on that id replies 404. */
  lemma DeleteThenFetchIsNotFound(store: Store, id: Id)
    requires id in store
    ensures var step := DeleteStep(store, id);
      && step.resp == Deleted
      && step.store.Keys == store.Keys - {id}
      && (forall k :: k in step.store ==> step.store[k] == store[k])
      && FetchResponse(step.store, id) == CarNotFound
  {
  }
}
