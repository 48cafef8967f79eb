/** The food record of the dashboard and the request payloads built from it
    with object spread. */
module Food {
  import opened Wrappers

  /** A food item as the backend stores it; `id` is assigned by the server.
      `price` is an opaque number: nothing in the dashboard computes with it. */
  datatype FoodItem = FoodItem(
    id: string,
    name: string,
    image: string,
    description: string,
    price: real,
    available: bool)

  /** What a dialog hands to a submit handler. Object spread copies exactly the
      properties an object has, so each field is either supplied (Some) or absent. */
  datatype Draft = Draft(
    id: Option<string>,
    name: Option<string>,
    image: Option<string>,
    description: Option<string>,
    price: Option<real>,
    available: Option<bool>)

  /** A draft with no property at all (`{}`). */
  const EmptyDraft: Draft := Draft(None, None, None, None, None, None)

  /** A complete record used as a draft: every property is present. */
  function ToDraft(f: FoodItem): (d: Draft)
    ensures d.id.Some? && d.name.Some? && d.image.Some? && d.description.Some?
    ensures d.price.Some? && d.available.Some?
  {
    Draft(Some(f.id), Some(f.name), Some(f.image), Some(f.description),
          Some(f.price), Some(f.available))
  }

  /** `{ ...food, available: true }`: the create payload. */
  function AddPayload(d: Draft): (p: Draft)
    ensures p.available == Some(true)
    ensures p.id == d.id && p.name == d.name && p.image == d.image
    ensures p.description == d.description && p.price == d.price
  {
    d.(available := Some(true))
  }

  /** `{ ...target, ...draft }`: the update payload. A property the draft has
      wins; every other property comes from the edit target. */
  function Merge(target: FoodItem, d: Draft): (p: FoodItem)
    ensures d.id.Some? ==> p.id == d.id.value
    ensures d.id.None? ==> p.id == target.id
    ensures d.name.Some? ==> p.name == d.name.value
    ensures d.name.None? ==> p.name == target.name
    ensures d.image.Some? ==> p.image == d.image.value
    ensures d.image.None? ==> p.image == target.image
    ensures d.description.Some? ==> p.description == d.description.value
    ensures d.description.None? ==> p.description == target.description
    ensures d.price.Some? ==> p.price == d.price.value
    ensures d.price.None? ==> p.price == target.price
    ensures d.available.Some? ==> p.available == d.available.value
    ensures d.available.None? ==> p.available == target.available
  {
    FoodItem(
      d.id.GetOr(target.id),
      d.name.GetOr(target.name),
      d.image.GetOr(target.image),
      d.description.GetOr(target.description),
      d.price.GetOr(target.price),
      d.available.GetOr(target.available))
  }

  /** `{ ...a, ...b }` on two drafts: the properties of `b` override those of `a`. */
  function Override(a: Draft, b: Draft): Draft
  {
    Draft(
      if b.id.Some? then b.id else a.id,
      if b.name.Some? then b.name else a.name,
      if b.image.Some? then b.image else a.image,
      if b.description.Some? then b.description else a.description,
      if b.price.Some? then b.price else a.price,
      if b.available.Some? then b.available else a.available)
  }

  /** Forcing `available` makes the draft's own `available` irrelevant. */
  lemma AddPayloadIgnoresAvailable(d: Draft, b: Option<bool>)
    ensures AddPayload(d.(available := b)) == AddPayload(d)
    ensures AddPayload(AddPayload(d)) == AddPayload(d)
  {
  }

  /** Spreading an empty draft over the target sends the target unchanged. */
  lemma MergeEmpty(target: FoodItem)
    ensures Merge(target, EmptyDraft) == target
  {
  }

  /** A draft that supplies every property replaces the target completely. */
  lemma MergeFull(target: FoodItem, f: FoodItem)
    ensures Merge(target, ToDraft(f)) == f
  {
  }

  /** Spreading the same draft twice changes nothing the second time. */
  lemma MergeIdempotent(target: FoodItem, d: Draft)
    ensures Merge(Merge(target, d), d) == Merge(target, d)
  {
  }

  /** Two successive spreads are one spread of the combined draft. */
  lemma MergeOverride(target: FoodItem, a: Draft, b: Draft)
    ensures Merge(Merge(target, a), b) == Merge(target, Override(a, b))
  {
  }
}
