/**
 * The ShortUrl document of backend/models/Url.js and the collection that
 * holds it: a click entry, the record, the draft a caller saves, and the
 * collection with its unique index on `shortcode`.
 */
module UrlModel {
  import opened Wrappers

  /** A JavaScript Date, as milliseconds since the epoch. */
  type Time = int

  /** One entry of a record's `clicks` array; clickSchema marks none of its fields required. */
  datatype Click = Click(timestamp: Option<Time>, source: Option<string>, location: Option<string>)

  /** A stored document of urlSchema: the required fields are present and `createdAt` is set. */
  datatype ShortUrl = ShortUrl(
    originalUrl: string,
    shortcode: string,
    createdAt: Time,
    expiresAt: Option<Time>,
    clicks: seq<Click>)

  /** The object handed to `new Url({...}).save()`: any field may be missing. */
  datatype UrlDraft = UrlDraft(
    originalUrl: Option<string>,
    shortcode: Option<string>,
    createdAt: Option<Time>,
    expiresAt: Option<Time>,
    clicks: seq<Click>)

  /** Why a save is refused: a required path failed validation, or the unique index already holds the shortcode. */
  datatype InsertError = ValidationError | DuplicateKey

  /** The `urls` collection, in natural (insertion) order. */
  type Collection = seq<ShortUrl>

  /** Mongoose's `required` check on a String path: the value is there and is not the empty string. */
  predicate Present(v: Option<string>) {
    v.Some? && v.value != ""
  }

  predicate HasRequiredFields(doc: ShortUrl) {
    doc.originalUrl != "" && doc.shortcode != ""
  }

  /** The unique index on `shortcode`: no two documents share one. */
  predicate UniqueShortcodes(docs: Collection) {
    forall i, j :: 0 <= i < j < |docs| ==> docs[i].shortcode != docs[j].shortcode
  }

  /** What the schema guarantees of every stored collection. */
  predicate ValidCollection(docs: Collection) {
    UniqueShortcodes(docs) && forall i :: 0 <= i < |docs| ==> HasRequiredFields(docs[i])
  }

  /** `Url.findOne({ shortcode })`: the first document in natural order whose shortcode matches. */
  function FindOne(docs: Collection, code: string): (r: Option<ShortUrl>)
    ensures r.None? <==> forall i :: 0 <= i < |docs| ==> docs[i].shortcode != code
    ensures r.Some? ==> r.value in docs && r.value.shortcode == code
  {
    if docs == [] then None
    else if docs[0].shortcode == code then Some(docs[0])
    else FindOne(docs[1..], code)
  }

  /** The document a valid draft becomes: `createdAt` defaults to `now`, the time `new Url({...})` builds the document. */
  function Materialize(draft: UrlDraft, now: Time): ShortUrl
    requires Present(draft.originalUrl) && Present(draft.shortcode)
  {
    ShortUrl(draft.originalUrl.value, draft.shortcode.value,
             draft.createdAt.GetOr(now), draft.expiresAt, draft.clicks)
  }

  /**
   * `new Url({...}).save()` of a draft, the document being built at time
   * `now`: validation of the required paths first, then the unique index,
   * then the document is appended.
   */
  function Insert(docs: Collection, draft: UrlDraft, now: Time): (r: Result<Collection, InsertError>)
    ensures r == Failure(ValidationError) <==> !Present(draft.originalUrl) || !Present(draft.shortcode)
    ensures r == Failure(DuplicateKey) <==>
              Present(draft.originalUrl) && Present(draft.shortcode) &&
              exists i :: 0 <= i < |docs| && docs[i].shortcode == draft.shortcode.value
    ensures r.Success? ==>
              |r.value| == |docs| + 1 && r.value[..|docs|] == docs &&
              r.value[|docs|].originalUrl == draft.originalUrl.value &&
              r.value[|docs|].shortcode == draft.shortcode.value &&
              r.value[|docs|].createdAt == (if draft.createdAt.Some? then draft.createdAt.value else now) &&
              r.value[|docs|].expiresAt == draft.expiresAt &&
              r.value[|docs|].clicks == draft.clicks
  {
    if !Present(draft.originalUrl) || !Present(draft.shortcode) then Failure(ValidationError)
    else if FindOne(docs, draft.shortcode.value).Some? then Failure(DuplicateKey)
    else Success(docs + [Materialize(draft, now)])
  }

  /** A successful save keeps the collection valid: the unique index and the required paths hold afterwards. */
  lemma InsertPreservesValid(docs: Collection, draft: UrlDraft, now: Time)
    requires ValidCollection(docs)
    requires Insert(docs, draft, now).Success?
    ensures ValidCollection(Insert(docs, draft, now).value)
  {
    var after := Insert(docs, draft, now).value;
    assert after == docs + [Materialize(draft, now)];
    forall i, j | 0 <= i < j < |after|
      ensures after[i].shortcode != after[j].shortcode
    {
      if j == |docs| {
        assert after[i] == docs[i];
      }
    }
  }

  /** Under the unique index, a lookup by shortcode finds the one document carrying it. */
  lemma LookupFindsTheOnlyMatch(docs: Collection, code: string, i: nat)
    requires UniqueShortcodes(docs)
    requires i < |docs| && docs[i].shortcode == code
    ensures FindOne(docs, code) == Some(docs[i])
  {
  }

  /** Saving a second draft with an already stored shortcode is refused with DuplicateKey. */
  lemma SecondSaveWithSameShortcodeRejected(docs: Collection, first: UrlDraft, second: UrlDraft, t1: Time, t2: Time)
    requires Insert(docs, first, t1).Success?
    requires Present(second.originalUrl) && second.shortcode == first.shortcode
    ensures Insert(Insert(docs, first, t1).value, second, t2) == Failure(DuplicateKey)
  {
  }
}
