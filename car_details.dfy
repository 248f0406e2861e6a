/** The car details page of the client: the image lists and tags text it derives from the
    loaded car, the PUT and DELETE requests its handlers send to the listing routes, and the
    component state they change. The server is the product collection of ListingStore. */
module CarDetails {
  import opened Wrappers
  import opened Text
  import opened Seqs
  import opened Http
  import opened ProductSchema
  import opened ListingRules
  import opened ListingStore

  /** The most images the page lets a car have. */
  const MaxImages := 10

  // ---------------------------------------------------------------------------------
  // New image lists

  /** `[...car.images, url]`: the old list followed by the new URL. */
  function AppendImage(images: seq<string>, url: string): (r: seq<string>)
    ensures images <= r && |r| == |images| + 1 && r[|images|] == url
  {
    images + [url]
  }

  /** Under the upload guard (fewer than 10 images) the new list holds at most 10. */
  lemma AppendWithinLimit(images: seq<string>, url: string)
    requires |images| < MaxImages
    ensures |AppendImage(images, url)| <= MaxImages
  {
  }

  /** The test `img => img !== url` of the image delete. */
  function Other(url: string): string -> bool {
    (img: string) => img != url
  }

  /** `car.images.filter(img => img !== url)`: every occurrence of `url` removed, the other
      images kept in order and as often as they occur; the list is unchanged exactly when
      `url` is absent from it. */
  function RemoveImage(images: seq<string>, url: string): (r: seq<string>)
    ensures url !in r && Sublist(r, images)
    ensures forall x :: multiset(r)[x] == if x == url then 0 else multiset(images)[x]
    ensures forall i :: 0 <= i < |images| && images[i] != url ==> images[i] in r
    ensures r == images <==> url !in images
  {
    RemoveFacts(images, url);
    KeepCounts(images, Other(url));
    Keep(images, Other(url))
  }

  lemma RemoveFacts(images: seq<string>, url: string)
    ensures var r := Keep(images, Other(url));
      url !in r && (r == images <==> url !in images)
  {
    var r := Keep(images, Other(url));
    assert forall i :: 0 <= i < |r| ==> r[i] != url;
    if url in images {
      var i :| 0 <= i < |images| && images[i] == url;
      assert |r| != |images|;
    } else {
      assert forall i :: 0 <= i < |images| ==> Other(url)(images[i]);
      SublistSameLength(r, images);
    }
  }

  /** A sublist as long as the list it came from is that list. */
  lemma {:induction false} SublistSameLength<T>(r: seq<T>, images: seq<T>)
    requires Sublist(r, images) && |r| == |images|
    ensures r == images
    decreases |images|
  {
    if r != [] {
      if r[0] == images[0] {
        SublistSameLength(r[1..], images[1..]);
        assert r == [r[0]] + r[1..] && images == [images[0]] + images[1..];
      } else {
        SublistShorter(r, images[1..]);
      }
    }
  }

  /** A sublist is never longer than its list. */
  lemma {:induction false} SublistShorter<T>(a: seq<T>, b: seq<T>)
    requires Sublist(a, b)
    ensures |a| <= |b|
    decreases |b|
  {
    if a != [] {
      if a[0] == b[0] { SublistShorter(a[1..], b[1..]); } else { SublistShorter(a, b[1..]); }
    }
  }

  /** Removing a URL leaves no image exactly when every image is that URL. */
  lemma RemoveEmptiesIff(images: seq<string>, url: string)
    ensures RemoveImage(images, url) == [] <==> forall i :: 0 <= i < |images| ==> images[i] == url
  {
    var r := RemoveImage(images, url);
    if r != [] {
      assert r[0] in images && r[0] != url;
    }
  }

  /** The "at least one image must remain" guard looks at the length only: a car with the
      same URL twice passes it, and deleting that URL leaves no image at all. */
  lemma DuplicatesDefeatGuard()
    ensures |["u", "u"]| > 1
    ensures RemoveImage(["u", "u"], "u") == []
  {
    RemoveEmptiesIff(["u", "u"], "u");
  }

  // ---------------------------------------------------------------------------------
  // The tags field

  /** `car.tags.join(', ')`, the text the tags input shows. */
  function TagsText(tags: seq<string>): string {
    Join(tags, ", ")
  }

  /** `value.split(',').map(tag => tag.trim())`, what the tags input stores back. */
  function ParseTags(text: string): (tags: seq<string>)
    ensures |tags| == |Split(text, ',')| >= 1
    ensures forall i :: 0 <= i < |tags| ==> tags[i] == Trim(Split(text, ',')[i])
    ensures forall i :: 0 <= i < |tags| ==> Trimmed(tags[i]) && ',' !in tags[i]
  {
    SplitTrim(text, ',')
  }

  /** Each tag after the first, with the space the join puts before it. */
  function Spaced(tags: seq<string>): seq<string> {
    seq(|tags|, i requires 0 <= i < |tags| => " " + tags[i])
  }

  /** `", "` between the tags is a `","` followed by a space that goes with the next tag. */
  lemma {:induction false} JoinSpaced(tags: seq<string>)
    requires |tags| >= 1
    ensures " " + Join(tags, ", ") == Join(Spaced(tags), ",")
    decreases |tags|
  {
    if |tags| > 1 {
      var rest := tags[1..];
      JoinSpaced(rest);
      assert Spaced(tags)[1..] == Spaced(rest);
      assert Join(tags, ", ") == tags[0] + ", " + Join(rest, ", ");
      assert " " + Join(tags, ", ") == (" " + tags[0]) + "," + (" " + Join(rest, ", "));
    }
  }

  /** The text shown for the tags, as comma-separated pieces: the first tag, then each
      further tag after a space. */
  lemma TagsTextPieces(tags: seq<string>)
    requires |tags| >= 1
    ensures TagsText(tags) == Join([tags[0]] + Spaced(tags[1..]), ",")
  {
    var parts := [tags[0]] + Spaced(tags[1..]);
    if |tags| > 1 {
      JoinSpaced(tags[1..]);
      assert parts[1..] == Spaced(tags[1..]);
      assert Join(tags, ", ") == tags[0] + "," + (" " + Join(tags[1..], ", "));
    }
  }

  /** Trimming the pieces of the shown text gives back the tags. */
  lemma TrimPieces(tags: seq<string>)
    requires |tags| >= 1
    requires forall i :: 0 <= i < |tags| ==> Trimmed(tags[i])
    ensures forall i :: 0 <= i < |tags| ==> Trim(([tags[0]] + Spaced(tags[1..]))[i]) == tags[i]
  {
    var parts := [tags[0]] + Spaced(tags[1..]);
    forall i | 0 <= i < |tags| ensures Trim(parts[i]) == tags[i] {
      if i > 0 {
        assert parts[i] == [' '] + tags[i];
        TrimLeadingSpace(' ', tags[i]);
      }
    }
  }

  /** The tags field round-trips: the text shown for a non-empty list of trimmed tags without
      commas is read back as the same tags. */
  lemma TagsRoundTrip(tags: seq<string>)
    requires |tags| >= 1
    requires forall i :: 0 <= i < |tags| ==> Trimmed(tags[i]) && ',' !in tags[i]
    ensures ParseTags(TagsText(tags)) == tags
  {
    var parts := [tags[0]] + Spaced(tags[1..]);
    TagsTextPieces(tags);
    forall i | 0 <= i < |parts| ensures ',' !in parts[i] {
      if i > 0 { assert parts[i] == " " + tags[i]; }
    }
    SplitJoin(parts, ',');
    TrimPieces(tags);
  }

  /** An emptied tags field is read back as one empty tag, not as no tags. */
  lemma ClearedTagsField()
    ensures ParseTags("") == [""]
  {
  }

  // ---------------------------------------------------------------------------------
  // The requests the page sends

  /** The body of the upload's PUT: `{ imageUrls: [...images, url] }`. */
  function UploadRequest(images: seq<string>, url: string): (req: UpdateRequest)
    ensures req.title == Absent && req.description == Absent && req.tags == Absent
    ensures req.imageUrls.List? && |req.imageUrls.items| == |images| + 1
    ensures req.imageUrls.items[..|images|] == images && req.imageUrls.items[|images|] == url
  {
    UpdateRequest(Absent, Absent, Absent, List(AppendImage(images, url)))
  }

  /** The body of the image delete's PUT: `{ imageUrls: images.filter(...) }`. */
  function ImageDeleteRequest(images: seq<string>, url: string): (req: UpdateRequest)
    ensures req.title == Absent && req.description == Absent && req.tags == Absent
    ensures req.imageUrls.List? && url !in req.imageUrls.items && |req.imageUrls.items| <= |images|
  {
    UpdateRequest(Absent, Absent, Absent, List(RemoveImage(images, url)))
  }

  /** `JSON.stringify(car)` as the update route reads it: title, description and tags; the
      car's image list travels under the key `images`, which the route does not read. */
  function SaveRequest(car: Listing): (req: UpdateRequest)
    ensures req.imageUrls == Absent && UpdateFieldsOf(req).images.None?
    ensures !Blank(req.tags) <==> forall i :: 0 <= i < |car.tags| ==> car.tags[i] != ""
  {
    UpdateRequest(Text(car.title), Text(car.description), List(car.tags), Absent)
  }

  /** An upload under the guard passes the update validators and, for a stored car, makes
      its stored images the old ones followed by the new URL. */
  lemma UploadStoresAppended(store: Store, id: Id, images: seq<string>, url: string)
    requires |images| < MaxImages
    ensures UpdateErrors(UploadRequest(images, url)) == []
    ensures var step := UpdateStep(store, id, UploadRequest(images, url));
      id in store ==> step.resp.status == 200 && step.store[id].images == images + [url]
  {
  }

  /** Deleting the duplicated URL of a stored car with images `["u", "u"]` is accepted by
      the server and leaves the car with no image. */
  lemma DuplicateDeleteEmptiesStoredImages(store: Store, id: Id)
    requires id in store && store[id].images == ["u", "u"]
    ensures var step := UpdateStep(store, id, ImageDeleteRequest(store[id].images, "u"));
      step.resp.status == 200 && step.store[id].images == []
  {
    DuplicatesDefeatGuard();
  }

  /** Saving the form never changes a car's images, owner, id or timestamps, whatever the
      server replies; only title, description and tags can change. */
  lemma SaveKeepsImagesAndOwner(store: Store, id: Id, car: Listing)
    ensures var after := UpdateStep(store, id, SaveRequest(car)).store;
      && after.Keys == store.Keys
      && forall k :: k in store ==>
           && after[k].images == store[k].images && after[k].userEmail == store[k].userEmail
           && after[k].id == store[k].id
           && after[k].createdAt == store[k].createdAt && after[k].updatedAt == store[k].updatedAt
  {
    var req := SaveRequest(car);
    var u := UpdateFieldsOf(req);
    assert u.images.None?;
    if UpdateErrors(req) == [] && Casts(u) && id in store {
      var l := store[id];
      assert UpdateStep(store, id, req).store == store[id := Apply(l, u)];
      assert Apply(l, u).images == l.images && Apply(l, u).userEmail == l.userEmail;
    }
  }

  /** `response.ok`. */
  predicate Ok(resp: Response) {
    200 <= resp.status < 300
  }

  /** The car state after a PUT: `setCar(updatedCar.car)` when the response is ok (a body
      without a car leaves no car), and unchanged otherwise. */
  function AfterPut(local: Option<Listing>, resp: Response): (r: Option<Listing>)
    ensures !Ok(resp) ==> r == local
    ensures Ok(resp) && resp.body.CarUpdated? ==> r == Some(resp.body.car)
  {
    if !Ok(resp) then local
    else if resp.body.CarUpdated? then Some(resp.body.car)
    else None
  }

  // ---------------------------------------------------------------------------------
  // The component

  /** The state of one car details page: the loaded car, the editing flag, whether a file is
      chosen for upload, and whether an upload is running. */
  class CarDetailsView {
    /** The `:id` of the page's route. */
    const id: Id
    var car: Option<Listing>
    var isEditing: bool
    var fileChosen: bool
    var isUploading: bool

    constructor (id: Id)
      ensures this.id == id && car == None && !isEditing && !fileChosen && !isUploading
    {
      this.id := id;
      car := None;
      isEditing := false;
      fileChosen := false;
      isUploading := false;
    }

    /** The effect hook's GET: the car is set when the reply has `success`, and left as it is
        otherwise. */
    method Load(server: ProductCollection)
      requires server.Valid()
      modifies this
      ensures car == if id in server.listings then Some(server.listings[id]) else old(car)
      ensures isEditing == old(isEditing) && fileChosen == old(fileChosen)
      ensures isUploading == old(isUploading)
    {
      var resp := server.GetCar(id);
      if resp.status == 200 {
        car := Some(resp.body.car);
      }
    }

    /** The Edit / Cancel button; cancelling keeps the edits made so far. */
    method ToggleEditing()
      modifies this
      ensures isEditing == !old(isEditing)
      ensures car == old(car) && fileChosen == old(fileChosen) && isUploading == old(isUploading)
    {
      isEditing := !isEditing;
    }

    /** The file input: a file chosen, or none. */
    method ChooseFile(chosen: bool)
      modifies this
      ensures fileChosen == chosen
      ensures car == old(car) && isEditing == old(isEditing) && isUploading == old(isUploading)
    {
      fileChosen := chosen;
    }

    /** Typing in the title box; the box is read-only unless editing. */
    method EditTitle(value: string)
      modifies this
      ensures car == if isEditing && old(car).Some? then Some(old(car).value.(title := value)) else old(car)
      ensures isEditing == old(isEditing) && fileChosen == old(fileChosen) && isUploading == old(isUploading)
    {
      if isEditing && car.Some? {
        car := Some(car.value.(title := value));
      }
    }

    /** Typing in the description box; read-only unless editing. */
    method EditDescription(value: string)
      modifies this
      ensures car == if isEditing && old(car).Some? then Some(old(car).value.(description := value)) else old(car)
      ensures isEditing == old(isEditing) && fileChosen == old(fileChosen) && isUploading == old(isUploading)
    {
      if isEditing && car.Some? {
        car := Some(car.value.(description := value));
      }
    }

    /** Typing `text` in the tags box: the car's tags become the text split and trimmed. */
    method EditTags(text: string)
      modifies this
      ensures car == if isEditing && old(car).Some? then Some(old(car).value.(tags := ParseTags(text))) else old(car)
      ensures isEditing == old(isEditing) && fileChosen == old(fileChosen) && isUploading == old(isUploading)
    {
      if isEditing && car.Some? {
        car := Some(car.value.(tags := ParseTags(text)));
      }
    }

    /** `handleImageUpload`, with the URL the image host returned (None when it returned
        none). Refused with no change when no file is chosen or the car already has 10 or
        more images; otherwise the PUT of the appended list goes to the server, the car is
        replaced only by an ok reply, and the uploading flag ends cleared. */
    method Upload(server: ProductCollection, url: Option<string>)
      requires server.Valid()
      modifies this, server
      ensures server.Valid() && server.nextId == old(server.nextId)
      ensures var refused := !old(fileChosen) || old(car).None? || |old(car).value.images| >= MaxImages;
        if refused || url.None? then
          && server.listings == old(server.listings) && car == old(car)
          && isUploading == (if refused then old(isUploading) else false)
        else
          var step := UpdateStep(old(server.listings), old(car).value.id,
                                 UploadRequest(old(car).value.images, url.value));
          && server.listings == step.store && car == AfterPut(old(car), step.resp)
          && !isUploading
      ensures isEditing == old(isEditing) && fileChosen == old(fileChosen)
    {
      if !fileChosen || car.None? || |car.value.images| >= MaxImages {
        return;
      }
      isUploading := true;
      if url.Some? {
        var resp := server.UpdateCar(car.value.id, UploadRequest(car.value.images, url.value));
        car := AfterPut(car, resp);
      }
      isUploading := false;
    }

    /** `handleImageDelete(url)`, with the user's answer to the confirmation. Refused with no
        change when the car has at most one image or the user declines; otherwise the PUT of
        the filtered list goes to the server and the car is replaced only by an ok reply. */
    method ImageDelete(server: ProductCollection, url: string, confirmed: bool)
      requires server.Valid()
      modifies this, server
      ensures server.Valid() && server.nextId == old(server.nextId)
      ensures var refused := old(car).None? || |old(car).value.images| <= 1 || !confirmed;
        if refused then server.listings == old(server.listings) && car == old(car)
        else
          var step := UpdateStep(old(server.listings), old(car).value.id,
                                 ImageDeleteRequest(old(car).value.images, url));
          server.listings == step.store && car == AfterPut(old(car), step.resp)
      ensures isEditing == old(isEditing) && fileChosen == old(fileChosen)
      ensures isUploading == old(isUploading)
    {
      if car.None? || |car.value.images| <= 1 || !confirmed {
        return;
      }
      var resp := server.UpdateCar(car.value.id, ImageDeleteRequest(car.value.images, url));
      car := AfterPut(car, resp);
    }

    /** `handleSave`: the whole car goes to PUT /cars/:id; a reply with `success` ends
        editing, and the page keeps its own copy of the car either way. */
    method Save(server: ProductCollection)
      requires server.Valid()
      modifies this, server
      ensures server.Valid() && server.nextId == old(server.nextId)
      ensures old(car).None? ==> server.listings == old(server.listings) && isEditing == old(isEditing)
      ensures old(car).Some? ==>
        var step := UpdateStep(old(server.listings), id, SaveRequest(old(car).value));
        && server.listings == step.store
        && isEditing == (if step.resp.status == 200 then false else old(isEditing))
      ensures car == old(car) && fileChosen == old(fileChosen) && isUploading == old(isUploading)
    {
      if car.None? {
        return;
      }
      var resp := server.UpdateCar(id, SaveRequest(car.value));
      if resp.status == 200 {
        isEditing := false;
      }
    }

    /** `handleDelete`, with the user's answer to the confirmation: the DELETE is sent only
        when confirmed, and the page navigates home when the reply has `success`. */
    method Delete(server: ProductCollection, confirmed: bool) returns (navigated: bool)
      requires server.Valid()
      modifies server
      ensures server.Valid() && server.nextId == old(server.nextId)
      ensures !confirmed ==> server.listings == old(server.listings) && !navigated
      ensures confirmed ==>
        var step := DeleteStep(old(server.listings), id);
        server.listings == step.store && navigated == (id in old(server.listings))
    {
      navigated := false;
      if confirmed {
        var resp := server.DeleteCar(id);
        navigated := resp.status == 200;
      }
    }
  }
}
