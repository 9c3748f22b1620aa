/** The list and create handlers of `app/api/content/route.ts`. */
module ContentRoute {
  import opened Options
  import opened ContentModel
  import Db

  datatype ResponseBody =
    | Items(list: seq<Content>)
    | Record(content: Content)
    | Error(message: string)

  datatype Response = Response(status: int, body: ResponseBody)

  /** A list item as sent to clients: the record without its article body. */
  function Listed(c: Content): Content {
    c.(articleBody := None)
  }

  /** GET /api/content. `listing` is the list the repository returned, `None` when stripping the
      article bodies throws: the file parsed to a JSON value that is not an array of objects (`{}`,
      `null`, `42`, or an array with a `null` element). The repository itself never throws; a
      failed read gives the empty list (`GetOfRepository`). The list keeps length and order; no
      item carries an article body, and putting each item's article body back gives the stored
      record. */
  function Get(listing: Option<seq<Content>>): (r: Response)
    ensures listing.None? ==> r == Response(500, Error("Failed to fetch content"))
    ensures listing.Some? ==> r.status == 200 && r.body.Items? && |r.body.list| == |listing.value|
    ensures listing.Some? ==> forall k :: 0 <= k < |listing.value| ==>
      && r.body.list[k].articleBody.None?
      && r.body.list[k].(articleBody := listing.value[k].articleBody) == listing.value[k]
  {
    match listing
    case None => Response(500, Error("Failed to fetch content"))
    case Some(items) => Response(200, Items(seq(|items|, k requires 0 <= k < |items| => Listed(items[k]))))
  }

  /** The repository's list is always served with 200, and a failed read or parse of the file
      gives an empty list rather than an error. */
  lemma GetOfRepository(repo: Db.ContentRepository)
    ensures Get(Some(repo.GetAllContent())).status == 200
    ensures repo.stored.None? ==> Get(Some(repo.GetAllContent())) == Response(200, Items([]))
  {
  }

  /** A parsed request body; `None` is a key that is absent, `null` or `undefined`. */
  datatype CreateBody = CreateBody(
    title: Option<string>,
    description: Option<string>,
    thumbnailUrl: Option<string>,
    priceInSTX: Option<real>,
    creatorAddress: Option<string>,
    creatorName: Option<string>,
    contentType: Option<string>,
    embedUrl: Option<string>,
    articleBody: Option<string>,
    category: Option<string>)

  predicate TruthyNumber(x: Option<real>) {
    x.Some? && x.value != 0.0
  }

  /** Every field the handler insists on is truthy (a price of 0 is not). */
  predicate HasRequiredFields(b: CreateBody) {
    && Truthy(b.title) && Truthy(b.description) && Truthy(b.thumbnailUrl)
    && TruthyNumber(b.priceInSTX) && Truthy(b.creatorAddress) && Truthy(b.creatorName)
  }

  /** `contentType || 'video'` */
  function TypeOf(b: CreateBody): string {
    if Truthy(b.contentType) then b.contentType.value else "video"
  }

  datatype Validation = Accept(fields: NewContent) | Reject(message: string)

  /** The guard chain of POST followed by the record it hands to the repository. */
  function Validate(b: CreateBody): (v: Validation)
  {
    if !HasRequiredFields(b) then Reject("Missing required fields")
    else if b.priceInSTX.value <= 0.0 then Reject("Price must be greater than 0")
    else if TypeOf(b) == "video" && !Truthy(b.embedUrl) then Reject("Video URL is required for video content")
    else if TypeOf(b) == "article" && !Truthy(b.articleBody) then Reject("Article body is required for article content")
    else
      var t := TypeOf(b);
      Accept(NewContent(
        b.title.value,
        b.description.value,
        Some(t),
        if Truthy(b.embedUrl) then b.embedUrl.value else "",
        if t == "article" then b.articleBody else None,
        b.thumbnailUrl.value,
        b.priceInSTX.value,
        b.creatorAddress.value,
        b.creatorName.value,
        if Truthy(b.category) then b.category else None))
  }

  /** Independent of the order of the guards: a body is accepted exactly when every required
      field is present, the price is positive, and the field the content type locks is present. */
  lemma AcceptedIff(b: CreateBody)
    ensures Validate(b).Accept? <==>
      && HasRequiredFields(b)
      && b.priceInSTX.value > 0.0
      && (TypeOf(b) == "video" ==> Truthy(b.embedUrl))
      && (TypeOf(b) == "article" ==> Truthy(b.articleBody))
  {
  }

  /** Which rejection a body gets: the first failing guard, in the order of the handler. */
  lemma RejectionOrder(b: CreateBody)
    ensures Validate(b) == Reject("Missing required fields") <==> !HasRequiredFields(b)
    ensures Validate(b) == Reject("Price must be greater than 0") <==>
      HasRequiredFields(b) && b.priceInSTX.value < 0.0
    ensures Validate(b) == Reject("Video URL is required for video content") <==>
      HasRequiredFields(b) && b.priceInSTX.value > 0.0 && TypeOf(b) == "video" && !Truthy(b.embedUrl)
    ensures Validate(b) == Reject("Article body is required for article content") <==>
      HasRequiredFields(b) && b.priceInSTX.value > 0.0 && TypeOf(b) == "article" && !Truthy(b.articleBody)
  {
  }

  /** The record handed to the repository: required fields as sent, the type defaulted to video,
      an empty embed URL when none was sent, an article body only for articles, and no empty category. */
  lemma AcceptedRecord(b: CreateBody)
    requires Validate(b).Accept?
    ensures var f := Validate(b).fields;
      && f.title == b.title.value && f.description == b.description.value
      && f.thumbnailUrl == b.thumbnailUrl.value && f.priceInSTX == b.priceInSTX.value && f.priceInSTX > 0.0
      && f.creatorAddress == b.creatorAddress.value && f.creatorName == b.creatorName.value
      && f.contentType == Some(TypeOf(b))
      && (b.contentType.None? ==> f.contentType == Some("video"))
      && (f.embedUrl == "" <==> !Truthy(b.embedUrl))
      && (Truthy(b.embedUrl) ==> f.embedUrl == b.embedUrl.value)
      && (f.articleBody.Some? <==> TypeOf(b) == "article")
      && (f.articleBody.Some? ==> f.articleBody == b.articleBody && f.articleBody.value != "")
      && (f.category.Some? <==> Truthy(b.category))
      && (f.category.Some? ==> f.category == b.category)
  {
  }

  /** POST /api/content. `body` is `None` when the request body is not JSON; the fresh id and the
      clock reading are handed to the repository. */
  method Post(repo: Db.ContentRepository, body: Option<CreateBody>, freshId: string, now: int)
    returns (r: Response)
    modifies repo
    ensures body.None? ==> r == Response(500, Error("Failed to create content")) && repo.stored == old(repo.stored)
    ensures body.Some? && Validate(body.value).Reject? ==>
      r == Response(400, Error(Validate(body.value).message)) && repo.stored == old(repo.stored)
    ensures body.Some? && Validate(body.value).Accept? ==>
      && r.status == 201 && r.body.Record?
      && Fields(r.body.content) == Validate(body.value).fields
      && r.body.content.id == freshId && r.body.content.createdAt == now && r.body.content.views == 0
      && repo.stored == Some(old(repo.GetAllContent()) + [r.body.content])
  {
    if body.None? {
      return Response(500, Error("Failed to create content"));
    }
    match Validate(body.value)
    case Reject(message) =>
      r := Response(400, Error(message));
    case Accept(fields) =>
      var created := repo.AddContent(fields, freshId, now);
      r := Response(201, Record(created));
  }
}
