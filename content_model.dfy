/** An optional value: `None` stands for a missing key, `undefined` or `null`. */
module Options {

  datatype Option<T> = None | Some(value: T) {
    function GetOr(default: T): T {
      match this
      case Some(v) => v
      case None => default
    }
  }

  /** JavaScript truthiness of an optional string: present and not empty. */
  predicate Truthy(s: Option<string>) {
    s.Some? && s.value != ""
  }
}

/** The content record of `lib/types.ts`, with the two fields the create route also writes. */
module ContentModel {
  import opened Options

  datatype Content = Content(
    id: string,
    title: string,
    description: string,
    contentType: Option<string>,   // 'video' | 'article' as written by the create route
    embedUrl: string,
    articleBody: Option<string>,
    thumbnailUrl: string,
    priceInSTX: real,
    creatorAddress: string,
    creatorName: string,
    category: Option<string>,
    createdAt: int,
    views: int)

  /** `Omit<Content, 'id' | 'createdAt' | 'views'>`: what a caller supplies to create a record. */
  datatype NewContent = NewContent(
    title: string,
    description: string,
    contentType: Option<string>,
    embedUrl: string,
    articleBody: Option<string>,
    thumbnailUrl: string,
    priceInSTX: real,
    creatorAddress: string,
    creatorName: string,
    category: Option<string>)

  /** `Partial<Content>`: `Some(v)` for a key present in the update with value `v`. */
  datatype Patch = Patch(
    id: Option<string>,
    title: Option<string>,
    description: Option<string>,
    contentType: Option<string>,
    embedUrl: Option<string>,
    articleBody: Option<string>,
    thumbnailUrl: Option<string>,
    priceInSTX: Option<real>,
    creatorAddress: Option<string>,
    creatorName: Option<string>,
    category: Option<string>,
    createdAt: Option<int>,
    views: Option<int>)

  const NoChanges := Patch(None, None, None, None, None, None, None, None, None, None, None, None, None)

  /** The supplied fields of a record: everything except `id`, `createdAt` and `views`. */
  function Fields(c: Content): NewContent {
    NewContent(c.title, c.description, c.contentType, c.embedUrl, c.articleBody, c.thumbnailUrl,
               c.priceInSTX, c.creatorAddress, c.creatorName, c.category)
  }

  /** `{ ...fields, id, createdAt, views: 0 }`: the record `addContent` stores. */
  function Create(fields: NewContent, id: string, createdAt: int): (c: Content)
    ensures Fields(c) == fields
    ensures c.id == id && c.createdAt == createdAt && c.views == 0
  {
    Content(id, fields.title, fields.description, fields.contentType, fields.embedUrl,
            fields.articleBody, fields.thumbnailUrl, fields.priceInSTX, fields.creatorAddress,
            fields.creatorName, fields.category, createdAt, 0)
  }

  function Override<T>(update: Option<T>, current: T): T {
    if update.Some? then update.value else current
  }

  function OverrideOptional<T>(update: Option<T>, current: Option<T>): Option<T> {
    if update.Some? then update else current
  }

  /** `{ ...c, ...updates }`: every key present in `updates` wins, every other field is kept. */
  function Merge(c: Content, updates: Patch): Content {
    Content(
      Override(updates.id, c.id),
      Override(updates.title, c.title),
      Override(updates.description, c.description),
      OverrideOptional(updates.contentType, c.contentType),
      Override(updates.embedUrl, c.embedUrl),
      OverrideOptional(updates.articleBody, c.articleBody),
      Override(updates.thumbnailUrl, c.thumbnailUrl),
      Override(updates.priceInSTX, c.priceInSTX),
      Override(updates.creatorAddress, c.creatorAddress),
      Override(updates.creatorName, c.creatorName),
      OverrideOptional(updates.category, c.category),
      Override(updates.createdAt, c.createdAt),
      Override(updates.views, c.views))
  }

  /** Spreading an empty update changes nothing, and spreading the same update twice is spreading it once. */
  lemma MergeLaws(c: Content, updates: Patch)
    ensures Merge(c, NoChanges) == c
    ensures Merge(Merge(c, updates), updates) == Merge(c, updates)
  {
  }

  /** A view-count update (the purpose `lib/db.ts` names for `updateContent`) touches nothing but `views`. */
  lemma ViewsOnlyUpdate(c: Content, n: int)
    ensures Merge(c, NoChanges.(views := Some(n))) == c.(views := n)
  {
  }
}
