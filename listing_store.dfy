/** The product collection behind the listing routes, as an object whose handler methods
    change it in place (`save`, `findByIdAndUpdate`, `findByIdAndDelete`). Each method is
    tied to the route's rule in ListingRules. */
module ListingStore {
  import opened Wrappers
  import opened Text
  import opened Http
  import opened ProductSchema
  import opened ListingRules

  class ProductCollection {
    /** The stored records by id. */
    var listings: Store
    /** The id the next inserted document receives. */
    var nextId: Id

    ghost predicate Valid()
      reads this
    {
      Keyed(listings) && IdsBelow(listings, nextId)
    }

    constructor ()
      ensures Valid() && listings == map[] && nextId == 0
    {
      listings := map[];
      nextId := 0;
    }

    /** POST /createproduct: validators, then the tags rule, then `new Product(...)` and
        `save()`; only a document that saves is inserted, under a fresh id. */
    method Create(req: CreateRequest, builtAt: Time, savedAt: Time) returns (resp: Response)
      requires Valid()
      modifies this
      ensures Valid()
      ensures old(nextId) !in old(listings)
      ensures var step := CreateStep(old(listings), old(nextId), req, builtAt, savedAt);
        resp == step.resp && listings == step.store
      ensures nextId == if resp.status == 200 then old(nextId) + 1 else old(nextId)
    {
      var errs := CreateErrors(req);
      if errs != [] {
        return Response(400, Invalid(errs));
      }
      var tagsArray := CreateTags(req.tags);
      var title, description, email :=
        StoredText(req.title), StoredText(req.description), StoredText(req.email);
      if title.None? || description.None? || email.None? {
        return ServerError;
      }
      var saved := SaveDocument(nextId, title.value, description.value, tagsArray,
                                email.value, req.imageUrls.items, builtAt, savedAt);
      if saved.None? {
        return ServerError;
      }
      InsertFresh(listings, nextId, saved.value);
      listings := listings[nextId := saved.value];
      nextId := nextId + 1;
      resp := Response(200, ProductSaved(saved.value));
    }

    /** GET /mycars?email=e: exactly the records owned by `e`, in id order. */
    method MyCars(email: string) returns (resp: Response)
      requires Valid()
      ensures resp == MyCarsResponse(listings, email, nextId)
      ensures forall i :: 0 <= i < |resp.body.cars| ==>
        resp.body.cars[i] in listings.Values && resp.body.cars[i].userEmail == email
      ensures forall id :: id in listings && listings[id].userEmail == email ==>
        listings[id] in resp.body.cars
      ensures forall i, j :: 0 <= i < j < |resp.body.cars| ==>
        resp.body.cars[i].id < resp.body.cars[j].id
    {
      var cars := OwnedBelow(listings, email, nextId);
      forall i | 0 <= i < |cars| ensures cars[i] in listings.Values {
        assert listings[cars[i].id] == cars[i];
      }
      resp := Response(200, CarList(cars));
    }

    /** GET /cars/:id. */
    method GetCar(id: Id) returns (resp: Response)
      requires Valid()
      ensures resp.status == 200 <==> id in listings
      ensures id in listings ==> resp.body == CarFound(listings[id]) && resp.body.car.id == id
      ensures id !in listings ==> resp == CarNotFound
    {
      if id !in listings {
        return CarNotFound;
      }
      resp := Response(200, CarFound(listings[id]));
    }

    /** The `updateFields` object, built one key at a time. */
    method BuildUpdateFields(req: UpdateRequest) returns (fields: UpdateFields)
      ensures fields == UpdateFieldsOf(req)
    {
      fields := UpdateFields(None, None, None, None);
      if Truthy(req.title) {
        fields := fields.(title := Some(req.title));
      }
      if Truthy(req.description) {
        fields := fields.(description := Some(req.description));
      }
      if Truthy(req.tags) {
        if req.tags.Text? {
          fields := fields.(tags := Some(List(SplitTrim(req.tags.s, ','))));
        } else if req.tags.List? {
          fields := fields.(tags := Some(req.tags));
        }
      }
      if Truthy(req.imageUrls) {
        fields := fields.(images := Some(req.imageUrls));
      }
    }

    /** PUT /cars/:id: validators, then `updateFields`, then `findByIdAndUpdate`. */
    method UpdateCar(id: Id, req: UpdateRequest) returns (resp: Response)
      requires Valid()
      modifies this
      ensures Valid() && nextId == old(nextId)
      ensures var step := UpdateStep(old(listings), id, req);
        resp == step.resp && listings == step.store
    {
      var errs := UpdateErrors(req);
      if errs != [] {
        return Response(400, Invalid(errs));
      }
      var fields := BuildUpdateFields(req);
      if !Casts(fields) {
        return ServerError;
      }
      if id !in listings {
        return CarNotFound;
      }
      var car := Apply(listings[id], fields);
      listings := listings[id := car];
      resp := Response(200, CarUpdated(car));
    }

    /** DELETE /cars/:id: `findByIdAndDelete`, with no check of who asks. */
    method DeleteCar(id: Id) returns (resp: Response)
      requires Valid()
      modifies this
      ensures Valid() && nextId == old(nextId)
      ensures var step := DeleteStep(old(listings), id);
        resp == step.resp && listings == step.store
    {
      if id !in listings {
        return CarNotFound;
      }
      listings := listings - {id};
      resp := Deleted;
    }
  }

  /** Every stored id is below `n`. */
  ghost predicate IdsBelow(store: Store, n: Id) {
    forall id :: id in store ==> id < n
  }

  /** Inserting a record under the fresh id `n` keeps the store keyed and its ids below
      `n + 1`. */
  lemma InsertFresh(store: Store, n: Id, l: Listing)
    requires Keyed(store) && IdsBelow(store, n) && l.id == n
    ensures n !in store
    ensures Keyed(store[n := l]) && IdsBelow(store[n := l], n + 1)
  {
  }

  /** `new Product({...})` built at `builtAt`, then `save()` at `savedAt`: the record to
      insert, or None when the schema refuses the document. */
  method SaveDocument(id: Id, title: string, description: string, tags: seq<string>,
                      userEmail: string, images: seq<string>, builtAt: Time, savedAt: Time)
    returns (saved: Option<Listing>)
    ensures saved.Some? ==> saved.value.id == id
    ensures var doc := Construct(id, title, description, tags, userEmail, images, builtAt);
      saved == if MeetsRequired(doc) then Some(doc.(updatedAt := savedAt)) else None
  {
    var doc := new ProductDocument(id, title, description, tags, userEmail, images, builtAt);
    var ok := doc.Save(savedAt);
    saved := if ok then Some(doc.Value()) else None;
  }

  /** The end-to-end run of a listing: a listing created on an empty collection is its
      owner's only car, and after it is deleted GET on its id replies 404. */
  method CreateListDeleteScenario(req: CreateRequest, builtAt: Time, savedAt: Time)
    returns (created: Response, mine: Response, gone: Response)
    requires CreateStep(map[], 0, req, builtAt, savedAt).resp.status == 200
    ensures created.status == 200 && created.body.ProductSaved?
    ensures Some(created.body.product.userEmail) == StoredText(req.email)
    ensures mine.body == CarList([created.body.product])
    ensures gone == CarNotFound
  {
    var products := new ProductCollection();
    created := products.Create(req, builtAt, savedAt);
    var car := created.body.product;
    mine := products.MyCars(car.userEmail);
    assert products.listings == map[0 := car];
    assert OwnedBelow(products.listings, car.userEmail, 1) == [car];
    var _ := products.DeleteCar(car.id);
    gone := products.GetCar(car.id);
  }
}
