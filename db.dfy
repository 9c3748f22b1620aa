/** The content repository of `lib/db.ts`. The JSON file is the field `stored`: `Some(items)`
    when it reads and parses to `items`, `None` when reading or parsing fails. Fresh ids and
    `Date.now()` are supplied by the caller. */
module Db {
  import opened Options
  import opened ContentModel

  /** `k` is the index `findIndex((c) => c.id === id)` returns. */
  ghost predicate FirstWithId(items: seq<Content>, id: string, k: nat) {
    k < |items| && items[k].id == id && forall j :: 0 <= j < k ==> items[j].id != id
  }

  /** `items.findIndex((c) => c.id === id)`, with `None` for -1. */
  function IndexOfId(items: seq<Content>, id: string): (k: Option<nat>)
    ensures k.Some? ==> FirstWithId(items, id, k.value)
    ensures k.None? <==> forall j :: 0 <= j < |items| ==> items[j].id != id
    decreases |items|
  {
    if |items| == 0 then None
    else if items[0].id == id then Some(0)
    else
      var rest := IndexOfId(items[1..], id);
      if rest.Some? then Some(rest.value + 1) else None
  }

  class ContentRepository {
    var stored: Option<seq<Content>>

    constructor (file: Option<seq<Content>>)
      ensures stored == file
    {
      stored := file;
    }

    /** `getAllContent`: the parsed file, or the empty list when reading or parsing fails. */
    function GetAllContent(): (items: seq<Content>)
      reads this
      ensures stored.None? ==> items == []
      ensures stored.Some? ==> items == stored.value
    {
      stored.GetOr([])
    }

    /** `getContentById`: the first record with this id, `None` (null) when there is none. */
    function GetContentById(id: string): (r: Option<Content>)
      reads this
      ensures r.Some? ==> exists k: nat :: FirstWithId(GetAllContent(), id, k) && r.value == GetAllContent()[k]
      ensures r.None? <==> forall j :: 0 <= j < |GetAllContent()| ==> GetAllContent()[j].id != id
    {
      var all := GetAllContent();
      var k := IndexOfId(all, id);
      if k.Some? then Some(all[k.value]) else None
    }

    /** `addContent`: appends the supplied fields with a fresh id, a timestamp and zero views, and
        returns the appended record. A file that could not be read is replaced. */
    method AddContent(fields: NewContent, freshId: string, now: int) returns (c: Content)
      modifies this
      ensures Fields(c) == fields && c.id == freshId && c.createdAt == now && c.views == 0
      ensures stored == Some(old(GetAllContent()) + [c])
    {
      var allContent := GetAllContent();
      c := Create(fields, freshId, now);
      allContent := allContent + [c];
      stored := Some(allContent);
    }

    /** `updateContent`: spreads `updates` over the first record with this id and returns it;
        returns `None` (null) and leaves the file alone when no record has this id. */
    method UpdateContent(id: string, updates: Patch) returns (r: Option<Content>)
      modifies this
      ensures (forall j :: 0 <= j < |old(GetAllContent())| ==> old(GetAllContent())[j].id != id) ==>
        r.None? && stored == old(stored)
      ensures forall k: nat :: FirstWithId(old(GetAllContent()), id, k) ==>
        && r == Some(Merge(old(GetAllContent())[k], updates))
        && stored == Some(old(GetAllContent())[k := r.value])
      ensures forall k: nat :: FirstWithId(old(GetAllContent()), id, k) ==>
        && stored.Some? && |stored.value| == |old(GetAllContent())|
        && forall j :: 0 <= j < |stored.value| && j != k ==> stored.value[j] == old(GetAllContent())[j]
    {
      var allContent := GetAllContent();
      var index := IndexOfId(allContent, id);
      if index.None? {
        return None;
      }
      forall k: nat | FirstWithId(allContent, id, k) ensures k == index.value {
        FirstWithIdUnique(allContent, id, k, index.value);
      }
      UpdatePreservesOthers(allContent, index.value, updates);
      var merged := Merge(allContent[index.value], updates);
      allContent := allContent[index.value := merged];
      stored := Some(allContent);
      r := Some(merged);
    }
  }

  /** There is only one first match, so the index `updateContent` writes is determined by the id. */
  lemma {:induction false} FirstWithIdUnique(items: seq<Content>, id: string, k: nat, k': nat)
    requires FirstWithId(items, id, k) && FirstWithId(items, id, k')
    ensures k == k'
  {
  }

  /** An update keeps the number of records and every record other than the matched one. */
  lemma UpdatePreservesOthers(items: seq<Content>, k: nat, updates: Patch)
    requires k < |items|
    ensures |items[k := Merge(items[k], updates)]| == |items|
    ensures forall j :: 0 <= j < |items| && j != k ==> items[k := Merge(items[k], updates)][j] == items[j]
  {
  }

  /** Looking up the id of a record just added finds it when no earlier record had that id. */
  lemma {:induction false} AddThenGet(items: seq<Content>, c: Content)
    requires forall j :: 0 <= j < |items| ==> items[j].id != c.id
    ensures IndexOfId(items + [c], c.id) == Some(|items|)
  {
    var all := items + [c];
    var k := IndexOfId(all, c.id);
    assert all[|items|].id == c.id;
    assert k.Some?;
    assert forall j :: 0 <= j < |items| ==> all[j].id != c.id;
  }
}
