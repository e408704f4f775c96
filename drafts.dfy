/**
 * The review screen (components/ContentReview.tsx): pick a draft, edit its
 * body in a side buffer, optionally run it through the text-polishing
 * service, and publish it back into the list.
 */
module Drafts {
  import opened Lists
  import opened Types

  function HasDraftId(id: Id): ContentDraft -> bool {
    (d: ContentDraft) => d.id == id
  }

  /** `contentList.find(c => c.id === selectedId)`: no record has a null id, so no selection finds nothing. */
  function Lookup(list: seq<ContentDraft>, selectedId: Option<Id>): (r: Option<ContentDraft>)
    ensures r.Some? <==> selectedId.Some? && exists d :: d in list && d.id == selectedId.value
    ensures r.Some? ==> exists k :: 0 <= k < |list| && list[k] == r.value && list[k].id == selectedId.value
                                    && forall j :: 0 <= j < k ==> list[j].id != selectedId.value
  {
    match selectedId
    case None => None
    case Some(id) =>
      var r := Find(list, HasDraftId(id));
      assert r.None? ==> forall d :: d in list ==> d.id != id by {
        if r.None? {
          forall d | d in list ensures d.id != id {
            var k :| 0 <= k < |list| && list[k] == d;
            assert !HasDraftId(id)(list[k]);
          }
        }
      }
      r
  }

  /** With distinct ids, selecting a draft of the list makes exactly that draft the selected item. */
  lemma LookupDistinct(list: seq<ContentDraft>, d: ContentDraft)
    requires Distinct(list, DraftId) && d in list
    ensures Lookup(list, Some(d.id)) == Some(d)
  {
    var r := Lookup(list, Some(d.id));
    var k :| 0 <= k < |list| && list[k] == r.value && list[k].id == d.id;
    var j :| 0 <= j < |list| && list[j] == d;
    DistinctKeyUnique(list, DraftId, j, k);
  }

  /** `{ ...item, body: editBody, status: 'published' }` */
  function Published(d: ContentDraft, body: string): ContentDraft {
    d.(body := body, status := Status.Published)
  }

  /** `prev.map(item => item.id === selectedId ? { ...item, body: editBody, status: 'published' } : item)` */
  function Publish(list: seq<ContentDraft>, id: Id, body: string): (r: seq<ContentDraft>)
    ensures |r| == |list|
  {
    seq(|list|, i requires 0 <= i < |list| => if list[i].id == id then Published(list[i], body) else list[i])
  }

  /** Publishing sets body and status of the matching drafts and nothing else: same ids, titles, authors and dates everywhere. */
  lemma PublishSpec(list: seq<ContentDraft>, id: Id, body: string)
    ensures forall i :: 0 <= i < |list| ==>
      var r := Publish(list, id, body)[i];
      && r.id == list[i].id && r.title == list[i].title && r.author == list[i].author && r.date == list[i].date
      && (list[i].id == id ==> r.body == body && r.status == Status.Published)
      && (list[i].id != id ==> r == list[i])
  {
  }

  /** Publishing twice with the same id and body equals publishing once. */
  lemma PublishIdempotent(list: seq<ContentDraft>, id: Id, body: string)
    ensures Publish(Publish(list, id, body), id, body) == Publish(list, id, body)
  {
  }

  /** Publishing keeps the ids, so distinct ids stay distinct. */
  lemma PublishKeepsDistinct(list: seq<ContentDraft>, id: Id, body: string)
    requires Distinct(list, DraftId)
    ensures Distinct(Publish(list, id, body), DraftId)
  {
    var r := Publish(list, id, body);
    assert forall i :: 0 <= i < |r| ==> r[i].id == list[i].id;
  }

  /** After publishing, the draft found under that id is the one found before, with the new body and status published. */
  lemma PublishThenLookup(list: seq<ContentDraft>, id: Id, body: string)
    requires Lookup(list, Some(id)).Some?
    ensures Lookup(Publish(list, id, body), Some(id)) == Some(Published(Lookup(list, Some(id)).value, body))
  {
    var r := Publish(list, id, body);
    var before := Lookup(list, Some(id)).value;
    var k :| 0 <= k < |list| && list[k] == before && list[k].id == id
             && forall j :: 0 <= j < k ==> list[j].id != id;
    assert r[k] == Published(before, body);
    var after := Lookup(r, Some(id)).value;
    var m :| 0 <= m < |r| && r[m] == after && r[m].id == id
             && forall j :: 0 <= j < m ==> r[j].id != id;
    assert r[m].id == list[m].id;
  }

  /** The seed drafts of App.tsx:18-22. */
  function SeedDrafts(): seq<ContentDraft> {
    [ ContentDraft("c1", "Top 10 Tech Trends 2024",
        "The teck industry is evolvng fast. Artificial Inteligence is everywere now...",
        Draft, "Jane Doe", "2023-10-25"),
      ContentDraft("c2", "Gardening Tips for Spring",
        "Start early. Thats the key. watter your plants daily.",
        Draft, "John Smith", "2023-10-26"),
      ContentDraft("c3", "Company Policy Update",
        "We have updated our remote work policy effective immediately.",
        Status.Published, "HR Dept", "2023-10-20") ]
  }

  /** Selecting c1 and publishing it publishes c1 alone and leaves the other two drafts as they were. */
  lemma SeedPublishExample(body: string)
    ensures Distinct(SeedDrafts(), DraftId)
    ensures Publish(SeedDrafts(), "c1", body)
            == [Published(SeedDrafts()[0], body), SeedDrafts()[1], SeedDrafts()[2]]
  {
  }

  class ContentReview {
    /** The list owned by the application shell (`contentList` / `setContentList`). */
    var contentList: seq<ContentDraft>
    var selectedId: Option<Id>
    var editBody: string

    ghost predicate Valid()
      reads this
    {
      Distinct(contentList, DraftId)
    }

    constructor (initial: seq<ContentDraft>)
      requires Distinct(initial, DraftId)
      ensures Valid()
      ensures contentList == initial && selectedId == None && editBody == ""
    {
      contentList := initial;
      selectedId := None;
      editBody := "";
    }

    /** `selectedItem` */
    function SelectedItem(): Option<ContentDraft>
      reads this
    {
      Lookup(contentList, selectedId)
    }

    /** `handleSelect(item)`: the clicked draft becomes the selection and its body the edit buffer. */
    method HandleSelect(item: ContentDraft)
      requires Valid() && item in contentList
      modifies this
      ensures Valid()
      ensures selectedId == Some(item.id) && editBody == item.body && contentList == old(contentList)
      ensures SelectedItem() == Some(item)
    {
      selectedId := Some(item.id);
      editBody := item.body;
      LookupDistinct(contentList, item);
    }

    /** The textarea's `onChange`. */
    method SetEditBody(body: string)
      requires Valid()
      modifies this
      ensures Valid()
      ensures editBody == body && selectedId == old(selectedId) && contentList == old(contentList)
    {
      editBody := body;
    }

    /** `handlePublish`: nothing without a (truthy) selection; otherwise publish and clear the selection. */
    method HandlePublish() returns (published: bool)
      requires Valid()
      modifies this
      ensures Valid()
      ensures published <==> Truthy(old(selectedId))
      ensures published ==> contentList == Publish(old(contentList), old(selectedId).value, old(editBody))
      ensures published ==> selectedId == None && SelectedItem() == None
      ensures !published ==> contentList == old(contentList) && selectedId == old(selectedId)
      ensures editBody == old(editBody)
    {
      if !Truthy(selectedId) {
        return false;
      }
      PublishKeepsDistinct(contentList, selectedId.value, editBody);
      contentList := Publish(contentList, selectedId.value, editBody);
      selectedId := None;
      published := true;
    }

    /**
     * `handleAIPolish`, with the text service as the function `polish`. The
     * await between reading and writing `editBody` is not modelled: the call
     * is one atomic step.
     */
    method HandleAIPolish(polish: string -> string) returns (polished: bool)
      requires Valid()
      modifies this
      ensures Valid()
      ensures polished <==> old(editBody) != ""
      ensures editBody == if polished then polish(old(editBody)) else old(editBody)
      ensures contentList == old(contentList) && selectedId == old(selectedId)
    {
      if editBody == "" {
        return false;
      }
      editBody := polish(editBody);
      polished := true;
    }
  }
}
