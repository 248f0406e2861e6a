/** The Mongoose `Product` schema: the listing record, what a new document holds, which
    fields `save` requires, and the pre-save hook that stamps `updatedAt`. */
module ProductSchema {
  import opened Text

  /** Document ids; the database's ObjectIds are modelled as numbers handed out in order. */
  type Id = nat
  /** A reading of `Date.now()`. */
  type Time = int

  /** A stored listing: the schema's fields plus its `_id`. */
  datatype Listing = Listing(
    id: Id,
    title: string,
    description: string,
    tags: seq<string>,
    userEmail: string,
    images: seq<string>,
    createdAt: Time,
    updatedAt: Time)

  /** `new Product({...})` at time `now`: the title goes through the `trim` setter and both
      timestamps take their `Date.now` default; the other fields are kept as given. */
  function Construct(id: Id, title: string, description: string, tags: seq<string>,
                     userEmail: string, images: seq<string>, now: Time): (l: Listing)
    ensures l.title == Trim(title)
    ensures l.createdAt == now && l.updatedAt == now
    ensures l.id == id && l.description == description && l.tags == tags
    ensures l.userEmail == userEmail && l.images == images
  {
    Listing(id, Trim(title), description, tags, userEmail, images, now, now)
  }

  /** The `required` validators of the schema: a required string must not be empty, and a
      required string array is met by any array, the empty one included. */
  predicate MeetsRequired(l: Listing) {
    l.title != "" && l.description != "" && l.userEmail != ""
  }

  /** A Product document in memory, between `new Product(...)` and the end of `save()`. */
  class ProductDocument {
    var id: Id
    var title: string
    var description: string
    var tags: seq<string>
    var userEmail: string
    var images: seq<string>
    var createdAt: Time
    var updatedAt: Time

    /** The record this document would store. */
    function Value(): Listing
      reads this
    {
      Listing(id, title, description, tags, userEmail, images, createdAt, updatedAt)
    }

    constructor (id: Id, title: string, description: string, tags: seq<string>,
                 userEmail: string, images: seq<string>, now: Time)
      ensures Value() == Construct(id, title, description, tags, userEmail, images, now)
    {
      this.id := id;
      this.title := Trim(title);
      this.description := description;
      this.tags := tags;
      this.userEmail := userEmail;
      this.images := images;
      this.createdAt := now;
      this.updatedAt := now;
    }

    /** The `pre('save')` hook: sets `updatedAt` to now and nothing else. */
    method PreSave(now: Time)
      modifies this
      ensures Value() == old(Value()).(updatedAt := now)
    {
      updatedAt := now;
    }

    /** `save()`: the schema validators run first; when they pass, the hook stamps the
        document with the save time. `saved` says whether the document may be inserted. */
    method Save(now: Time) returns (saved: bool)
      modifies this
      ensures saved == MeetsRequired(old(Value()))
      ensures Value() == if saved then old(Value()).(updatedAt := now) else old(Value())
    {
      saved := title != "" && description != "" && userEmail != "";
      if saved {
        PreSave(now);
      }
    }
  }

  /** A title made only of spaces passes no `required` check once trimmed. */
  lemma BlankTitleIsNotSaved(id: Id, title: string, description: string, tags: seq<string>,
                             userEmail: string, images: seq<string>, now: Time)
    requires forall i :: 0 <= i < |title| ==> IsSpace(title[i])
    ensures !MeetsRequired(Construct(id, title, description, tags, userEmail, images, now))
  {
    TrimBetween(title, |title|, |title|);
  }
}
