/** The backend's tag vocabulary and its bookmark–tag links
    (web/convex/tags.ts), over the tables of web/convex/schema.ts that it
    reads and writes:

      bookmarks    (id, owner)                       — read only here
      tags         (id, owner, name)
      bookmarkTags (id, bookmarkId, tagId, owner)

    A table is the sequence of its rows in creation order, which is the order
    an index returns rows that agree on the indexed fields. The indexes do not
    enforce uniqueness: at most one tag per (owner, name) and at most one link
    per (bookmark, tag) hold only because the mutations check before they
    insert. `Consistent()` states both, every mutation preserves it, and a
    lookup with `.unique()` that finds two rows fails with `NotUnique`.

    Each mutation is one atomic transaction: it computes its writes and
    commits them only when it returns normally, so a mutation that fails
    changes nothing. */
module Tags {
  import opened Wrappers
  import opened Seqs
  import opened JsString

  /** A document id; `nextId` in `Database` hands out fresh ones. */
  type Id = nat

  /** The identity provider's subject of the signed-in caller. */
  type Subject = string

  datatype BookmarkRow = BookmarkRow(id: Id, owner: Id)
  datatype TagRow = TagRow(id: Id, owner: Id, name: string)
  datatype LinkRow = LinkRow(id: Id, bookmarkId: Id, tagId: Id, owner: Id)

  /** The exceptions the mutations throw. */
  datatype Error =
    | Unauthorized
    | UserNotFound
    | BookmarkNotFound
    | EmptyTagName
    | TagNotFound
    | EmptyNewTagName
    | NameTaken
    | NotUnique   // thrown by `.unique()` when more than one row matches

  function Message(e: Error): string {
    match e
    case Unauthorized => "Unauthorized"
    case UserNotFound => "User not found"
    case BookmarkNotFound => "Bookmark not found or access denied"
    case EmptyTagName => "Tag name cannot be empty"
    case TagNotFound => "Tag not found or access denied"
    case EmptyNewTagName => "New tag name cannot be empty"
    case NameTaken => "A tag with this name already exists."
    case NotUnique => "unique() query returned more than one document"
  }

  datatype Result<T> = Ok(value: T) | Err(error: Error)

  /** The two successful answers of `addTagToBookmark`. */
  datatype AddOutcome =
    | AlreadyLinked                       // { success: true, message }
    | Linked(tagId: Id, tagName: string)  // { success: true, tagId, tagName }

  /** The two answers of `removeTagFromBookmark`. */
  datatype RemoveOutcome =
    | Removed       // { success: true }
    | LinkNotFound  // { success: false, message }

  function AddMessage(o: AddOutcome): Option<string> {
    if o.AlreadyLinked? then Some("Tag already exists on bookmark.") else None
  }

  function RemoveMessage(o: RemoveOutcome): Option<string> {
    if o.LinkNotFound? then Some("Tag link not found.") else None
  }

  // ---------------------------------------------------------------------------
  // Row predicates and the queries built on them

  function HasTagId(id: Id): TagRow -> bool { (t: TagRow) => t.id == id }
  function HasBookmarkId(id: Id): BookmarkRow -> bool { (b: BookmarkRow) => b.id == id }
  function NamedBy(owner: Id, name: string): TagRow -> bool { (t: TagRow) => t.owner == owner && t.name == name }
  function OnBookmark(b: Id): LinkRow -> bool { (l: LinkRow) => l.bookmarkId == b }
  function Joins(b: Id, t: Id): LinkRow -> bool { (l: LinkRow) => l.bookmarkId == b && l.tagId == t }
  function OwnedBy(u: Id): LinkRow -> bool { (l: LinkRow) => l.owner == u }
  function ToTag(t: Id): LinkRow -> bool { (l: LinkRow) => l.tagId == t }
  function LinkIdNotIn(ids: set<Id>): LinkRow -> bool { (l: LinkRow) => l.id !in ids }
  function TagIdIsNot(id: Id): TagRow -> bool { (t: TagRow) => t.id != id }
  function LinkToOtherTag(id: Id): LinkRow -> bool { (l: LinkRow) => l.tagId != id }

  /** `ctx.db.get` on the tags table. */
  function FindTag(tags: seq<TagRow>, id: Id): Option<TagRow> { Find(tags, HasTagId(id)) }

  /** `ctx.db.get` on the bookmarks table. */
  function FindBookmark(bookmarks: seq<BookmarkRow>, id: Id): Option<BookmarkRow> {
    Find(bookmarks, HasBookmarkId(id))
  }

  /** Index `by_userId_and_name`. */
  function TagsNamed(tags: seq<TagRow>, owner: Id, name: string): seq<TagRow> {
    Filter(tags, NamedBy(owner, name))
  }

  /** Index `by_bookmarkId`. */
  function LinksOf(links: seq<LinkRow>, b: Id): seq<LinkRow> { Filter(links, OnBookmark(b)) }

  /** Index `by_bookmarkId_and_tagId`. */
  function LinksBetween(links: seq<LinkRow>, b: Id, t: Id): seq<LinkRow> { Filter(links, Joins(b, t)) }

  /** Index `by_bookmarkId_and_tagId`, then `.filter` on the link's owner. */
  function OwnedLinksBetween(links: seq<LinkRow>, b: Id, t: Id, u: Id): seq<LinkRow> {
    Filter(LinksBetween(links, b, t), OwnedBy(u))
  }

  /** Index `by_tagId`. */
  function LinksWithTag(links: seq<LinkRow>, t: Id): seq<LinkRow> { Filter(links, ToTag(t)) }

  function IdsOf(links: seq<LinkRow>): set<Id> { set l | l in links :: l.id }

  /** `.unique()`: no row, the one row, or an exception for several. */
  function Unique<T>(rows: seq<T>): (r: Result<Option<T>>)
    ensures r.Err? <==> |rows| > 1
    ensures r == Ok(None) <==> rows == []
    ensures r.Ok? && r.value.Some? ==> rows == [r.value.value]
  {
    if |rows| == 0 then Ok(None) else if |rows| == 1 then Ok(Some(rows[0])) else Err(NotUnique)
  }

  /** The block every mutation opens with: an identity, then the users-table
      row for its subject. */
  function Authenticate(identity: Option<Subject>, users: map<Subject, Id>): (r: Result<Id>)
    ensures r == Err(Unauthorized) <==> identity.None?
    ensures r == Err(UserNotFound) <==> identity.Some? && identity.value !in users
    ensures r.Ok? <==> identity.Some? && identity.value in users
    ensures r.Ok? ==> r.value == users[identity.value]
  {
    match identity
    case None => Err(Unauthorized)
    case Some(subject) => if subject in users then Ok(users[subject]) else Err(UserNotFound)
  }

  /** The bookmark exists and belongs to `u`. */
  predicate CanAccessBookmark(bookmarks: seq<BookmarkRow>, id: Id, u: Id) {
    var b := FindBookmark(bookmarks, id);
    b.Some? && b.value.owner == u
  }

  /** The tag exists and belongs to `u`. */
  predicate OwnsTag(tags: seq<TagRow>, id: Id, u: Id) {
    var t := FindTag(tags, id);
    t.Some? && t.value.owner == u
  }

  /** `ctx.db.patch(id, { name })` on the tags table. */
  function RenameRow(tags: seq<TagRow>, id: Id, name: string): (r: seq<TagRow>)
    ensures |r| == |tags|
    ensures forall k :: 0 <= k < |tags| ==>
      r[k] == if tags[k].id == id then tags[k].(name := name) else tags[k]
  {
    if tags == [] then []
    else [if tags[0].id == id then tags[0].(name := name) else tags[0]] + RenameRow(tags[1..], id, name)
  }

  // ---------------------------------------------------------------------------
  // The invariants

  predicate DifferentTagIds(a: TagRow, b: TagRow) { a.id != b.id }
  predicate DifferentLinkIds(a: LinkRow, b: LinkRow) { a.id != b.id }
  predicate DifferentNames(a: TagRow, b: TagRow) { a.owner != b.owner || a.name != b.name }
  predicate DifferentJoins(a: LinkRow, b: LinkRow) { a.bookmarkId != b.bookmarkId || a.tagId != b.tagId }

  /** At most one tag per (owner, name). */
  predicate UniqueNames(tags: seq<TagRow>) { Pairwise(tags, DifferentNames) }

  /** At most one link per (bookmark, tag). */
  predicate UniqueLinks(links: seq<LinkRow>) { Pairwise(links, DifferentJoins) }

  /** Under `UniqueNames` the lookup by (owner, name) finds at most one tag. */
  lemma UniqueNamesLookup(tags: seq<TagRow>, owner: Id, name: string)
    requires UniqueNames(tags)
    ensures |TagsNamed(tags, owner, name)| <= 1
  {
    PairwiseAtMostOne(tags, NamedBy(owner, name), DifferentNames);
  }

  /** Under `UniqueLinks` the lookup by (bookmark, tag) finds at most one link. */
  lemma UniqueLinksLookup(links: seq<LinkRow>, b: Id, t: Id)
    requires UniqueLinks(links)
    ensures |LinksBetween(links, b, t)| <= 1
  {
    PairwiseAtMostOne(links, Joins(b, t), DifferentJoins);
  }

  /** Inserting a tag whose (owner, name) is not yet taken keeps names unique. */
  lemma UniqueNamesInsert(tags: seq<TagRow>, row: TagRow)
    requires UniqueNames(tags) && TagsNamed(tags, row.owner, row.name) == []
    ensures UniqueNames(tags + [row])
  {
    assert forall k :: 0 <= k < |tags| ==> !NamedBy(row.owner, row.name)(tags[k]);
    AppendPairwise(tags, row, DifferentNames);
  }

  /** Inserting a link for a (bookmark, tag) pair not yet linked keeps links unique. */
  lemma UniqueLinksInsert(links: seq<LinkRow>, row: LinkRow)
    requires UniqueLinks(links) && LinksBetween(links, row.bookmarkId, row.tagId) == []
    ensures UniqueLinks(links + [row])
  {
    assert forall k :: 0 <= k < |links| ==> !Joins(row.bookmarkId, row.tagId)(links[k]);
    AppendPairwise(links, row, DifferentJoins);
  }

  /** Distinct ids: two tag rows with one id are one row. */
  lemma TagIdsIdentify(tags: seq<TagRow>, a: TagRow, b: TagRow)
    requires Pairwise(tags, DifferentTagIds) && a in tags && b in tags && a.id == b.id
    ensures a == b
  {
    forall i, j | 0 <= i < j < |tags| ensures tags[i].id != tags[j].id {
      assert DifferentTagIds(tags[i], tags[j]);
    }
    var i :| 0 <= i < |tags| && tags[i] == a;
    var j :| 0 <= j < |tags| && tags[j] == b;
  }

  /** Distinct ids: two link rows with one id are one row. */
  lemma LinkIdsIdentify(links: seq<LinkRow>, a: LinkRow, b: LinkRow)
    requires Pairwise(links, DifferentLinkIds) && a in links && b in links && a.id == b.id
    ensures a == b
  {
    forall i, j | 0 <= i < j < |links| ensures links[i].id != links[j].id {
      assert DifferentLinkIds(links[i], links[j]);
    }
    var i :| 0 <= i < |links| && links[i] == a;
    var j :| 0 <= j < |links| && links[j] == b;
  }

  /** Renaming the tag `id` of owner `u` to a name no other tag of `u` has
      keeps names unique. */
  lemma UniqueNamesRename(tags: seq<TagRow>, id: Id, u: Id, name: string)
    requires UniqueNames(tags) && Pairwise(tags, DifferentTagIds)
    requires forall t :: t in tags && t.id == id ==> t.owner == u
    requires forall t :: t in tags && t.owner == u && t.name == name ==> t.id == id
    ensures UniqueNames(RenameRow(tags, id, name))
  {
    var r := RenameRow(tags, id, name);
    forall i, j | 0 <= i < j < |r| ensures DifferentNames(r[i], r[j]) {
      assert DifferentNames(tags[i], tags[j]) && DifferentTagIds(tags[i], tags[j]);
      assert tags[i] in tags && tags[j] in tags;
    }
  }

  /** Deleting the ids of the tag's links is deleting the links to the tag. */
  lemma DeletedLinksAreTheTagsLinks(links: seq<LinkRow>, t: Id)
    requires Pairwise(links, DifferentLinkIds)
    ensures Filter(links, LinkIdNotIn(IdsOf(LinksWithTag(links, t)))) == Filter(links, LinkToOtherTag(t))
  {
    var doomed := LinksWithTag(links, t);
    forall x | x in links ensures LinkIdNotIn(IdsOf(doomed))(x) == LinkToOtherTag(t)(x) {
      var i :| 0 <= i < |links| && links[i] == x;
      if x.tagId == t {
        assert ToTag(t)(links[i]);
        assert x in doomed;
      }
      if x.id in IdsOf(doomed) {
        var y :| y in doomed && y.id == x.id;
        LinkIdsIdentify(links, x, y);
      }
    }
    FilterExt(links, LinkIdNotIn(IdsOf(doomed)), LinkToOtherTag(t));
  }

  /** One more step of a loop that deletes the links `doomed` by id. */
  lemma DeleteOneMore(links: seq<LinkRow>, doomed: seq<LinkRow>, i: nat)
    requires i < |doomed|
    ensures Filter(Filter(links, LinkIdNotIn(IdsOf(doomed[..i]))), LinkIdNotIn({doomed[i].id}))
         == Filter(links, LinkIdNotIn(IdsOf(doomed[..i + 1])))
  {
    assert IdsOf(doomed[..i + 1]) == IdsOf(doomed[..i]) + {doomed[i].id} by {
      assert doomed[..i + 1] == doomed[..i] + [doomed[i]];
    }
    FilterCompose(links, LinkIdNotIn(IdsOf(doomed[..i])), LinkIdNotIn({doomed[i].id}),
                  LinkIdNotIn(IdsOf(doomed[..i + 1])));
  }

  // ---------------------------------------------------------------------------
  // The tables a mutation may write

  /** The tags and bookmarkTags tables with the id counter. */
  datatype Tables = Tables(tags: seq<TagRow>, links: seq<LinkRow>, nextId: Id)

  /** What a mutation answers and the tables it commits. */
  datatype Outcome<T> = Outcome(result: Result<T>, after: Tables)

  /** What the database itself guarantees: ids identify rows, and no row holds
      an id not yet handed out. */
  predicate WellFormed(db: Tables) {
    && Pairwise(db.tags, DifferentTagIds)
    && Pairwise(db.links, DifferentLinkIds)
    && (forall t :: t in db.tags ==> t.id < db.nextId)
    && (forall l :: l in db.links ==> l.id < db.nextId && l.tagId < db.nextId)
  }

  /** What only the checks in the mutations guarantee. */
  predicate UniqueKeys(db: Tables) {
    UniqueNames(db.tags) && UniqueLinks(db.links)
  }

  lemma InsertTagWellFormed(db: Tables, u: Id, name: string)
    requires WellFormed(db)
    ensures WellFormed(Tables(db.tags + [TagRow(db.nextId, u, name)], db.links, db.nextId + 1))
  {
    AppendPairwise(db.tags, TagRow(db.nextId, u, name), DifferentTagIds);
  }

  lemma InsertLinkWellFormed(db: Tables, b: Id, t: Id, u: Id)
    requires WellFormed(db) && t < db.nextId
    ensures WellFormed(Tables(db.tags, db.links + [LinkRow(db.nextId, b, t, u)], db.nextId + 1))
  {
    AppendPairwise(db.links, LinkRow(db.nextId, b, t, u), DifferentLinkIds);
  }

  lemma DeleteLinksWellFormed(db: Tables, q: LinkRow -> bool)
    requires WellFormed(db)
    ensures WellFormed(db.(links := Filter(db.links, q)))
    ensures UniqueKeys(db) ==> UniqueKeys(db.(links := Filter(db.links, q)))
  {
    FilterPairwise(db.links, q, DifferentLinkIds);
    if UniqueLinks(db.links) {
      FilterPairwise(db.links, q, DifferentJoins);
    }
  }

  lemma DeleteTagsWellFormed(db: Tables, p: TagRow -> bool)
    requires WellFormed(db)
    ensures WellFormed(db.(tags := Filter(db.tags, p)))
    ensures UniqueKeys(db) ==> UniqueKeys(db.(tags := Filter(db.tags, p)))
  {
    FilterPairwise(db.tags, p, DifferentTagIds);
    if UniqueNames(db.tags) {
      FilterPairwise(db.tags, p, DifferentNames);
    }
  }

  /** Patching the name of the tag `id`, owned by `u`, to a name no other tag
      of `u` carries keeps the tables well formed and names unique. */
  lemma RenameKeepsInvariants(db: Tables, id: Id, u: Id, name: string)
    requires WellFormed(db)
    requires OwnsTag(db.tags, id, u)
    requires forall k :: 0 <= k < |TagsNamed(db.tags, u, name)| ==> TagsNamed(db.tags, u, name)[k].id == id
    ensures WellFormed(db.(tags := RenameRow(db.tags, id, name)))
    ensures UniqueKeys(db) ==> UniqueKeys(db.(tags := RenameRow(db.tags, id, name)))
  {
    RenameKeepsWellFormed(db, id, name);
    if UniqueNames(db.tags) {
      RenamedTagIsTheCallers(db.tags, id, u);
      NameHeldOnlyByRenamed(db.tags, id, u, name);
      UniqueNamesRename(db.tags, id, u, name);
    }
  }

  lemma RenameKeepsWellFormed(db: Tables, id: Id, name: string)
    requires WellFormed(db)
    ensures WellFormed(db.(tags := RenameRow(db.tags, id, name)))
  {
    var tags := db.tags;
    var r := RenameRow(tags, id, name);
    forall i, j | 0 <= i < j < |r| ensures DifferentTagIds(r[i], r[j]) {
      assert DifferentTagIds(tags[i], tags[j]);
    }
    forall t | t in r ensures t.id < db.nextId {
      var k :| 0 <= k < |r| && r[k] == t;
      assert tags[k] in tags;
    }
  }

  /** With ids identifying rows, every row with the id is the caller's. */
  lemma RenamedTagIsTheCallers(tags: seq<TagRow>, id: Id, u: Id)
    requires Pairwise(tags, DifferentTagIds)
    requires OwnsTag(tags, id, u)
    ensures forall t :: t in tags && t.id == id ==> t.owner == u
  {
    var mine := FindTag(tags, id).value;
    forall t | t in tags && t.id == id ensures t.owner == u {
      TagIdsIdentify(tags, t, mine);
    }
  }

  /** Every tag of `u` named `name` is the one being renamed. */
  lemma NameHeldOnlyByRenamed(tags: seq<TagRow>, id: Id, u: Id, name: string)
    requires forall k :: 0 <= k < |TagsNamed(tags, u, name)| ==> TagsNamed(tags, u, name)[k].id == id
    ensures forall t :: t in tags && t.owner == u && t.name == name ==> t.id == id
  {
    var named := TagsNamed(tags, u, name);
    forall t | t in tags && t.owner == u && t.name == name ensures t.id == id {
      var i :| 0 <= i < |tags| && tags[i] == t;
      assert NamedBy(u, name)(tags[i]);
      assert t in named;
      var k :| 0 <= k < |named| && named[k] == t;
    }
  }

  // ---------------------------------------------------------------------------
  // getTagsForBookmark

  /** The tag row a link points at, if it still exists. */
  function LinkedTag(tags: seq<TagRow>, l: LinkRow): Option<TagRow> { FindTag(tags, l.tagId) }

  /** The tags the links point at, in link order, skipping links whose tag is
      gone. */
  function TagsOfLinks(links: seq<LinkRow>, tags: seq<TagRow>): seq<TagRow>
  {
    if links == [] then []
    else
      var last := LinkedTag(tags, links[|links| - 1]);
      TagsOfLinks(links[..|links| - 1], tags) + (if last.Some? then [last.value] else [])
  }

  /** A tag is in the answer exactly when one of the links points at it. */
  lemma {:induction false} TagsOfLinksMembers(links: seq<LinkRow>, tags: seq<TagRow>, x: TagRow)
    ensures x in TagsOfLinks(links, tags) <==> exists l :: l in links && LinkedTag(tags, l) == Some(x)
  {
    if links != [] {
      var init := links[..|links| - 1];
      var last := links[|links| - 1];
      TagsOfLinksMembers(init, tags, x);
      assert links == init + [last];
      if exists l :: l in links && LinkedTag(tags, l) == Some(x) {
        var l :| l in links && LinkedTag(tags, l) == Some(x);
        if l != last { assert l in init; }
      }
    }
  }

  /** A tag is listed for a bookmark exactly when one of the bookmark's links
      points at it. */
  lemma TagsForBookmarkMembers(links: seq<LinkRow>, tags: seq<TagRow>, b: Id, x: TagRow)
    ensures x in TagsOfLinks(LinksOf(links, b), tags) <==>
            exists l :: l in links && l.bookmarkId == b && LinkedTag(tags, l) == Some(x)
  {
    var mine := LinksOf(links, b);
    TagsOfLinksMembers(mine, tags, x);
    if exists l :: l in links && l.bookmarkId == b && LinkedTag(tags, l) == Some(x) {
      var l :| l in links && l.bookmarkId == b && LinkedTag(tags, l) == Some(x);
      var i :| 0 <= i < |links| && links[i] == l;
      assert OnBookmark(b)(links[i]);
      assert l in mine;
    }
    if exists l :: l in mine && LinkedTag(tags, l) == Some(x) {
      var l :| l in mine && LinkedTag(tags, l) == Some(x);
      var j :| 0 <= j < |mine| && mine[j] == l;
    }
  }

  /** One answer per link whose tag still exists: every tag is listed when
      no link dangles. */
  lemma {:induction false} TagsOfLinksCount(links: seq<LinkRow>, tags: seq<TagRow>)
    ensures |TagsOfLinks(links, tags)| <= |links|
    ensures (forall k :: 0 <= k < |links| ==> LinkedTag(tags, links[k]).Some?) ==>
              |TagsOfLinks(links, tags)| == |links|
  {
    if links != [] {
      var init := links[..|links| - 1];
      TagsOfLinksCount(init, tags);
      assert forall k :: 0 <= k < |init| ==> init[k] == links[k];
    }
  }

  // ---------------------------------------------------------------------------
  // The mutations as functions of the tables they read

  /** The find-or-create step of `addTagToBookmark` (web/convex/tags.ts:81-96):
      the caller's tag with the trimmed name is reused, and a new one is
      staged, under the next fresh id, only when there is none. Answers the
      staged tables and the id of the tag to link. */
  function StageTag(db: Tables, u: Id, name: string): (r: Result<(Tables, Id)>)
    ensures r.Err? <==> |TagsNamed(db.tags, u, name)| > 1
    ensures r.Err? ==> r.error == NotUnique
    ensures r.Ok? && TagsNamed(db.tags, u, name) == [] ==>
      r.value == (Tables(db.tags + [TagRow(db.nextId, u, name)], db.links, db.nextId + 1), db.nextId)
    ensures r.Ok? && TagsNamed(db.tags, u, name) != [] ==>
      r.value.0 == db && TagsNamed(db.tags, u, name) == [TagRow(r.value.1, u, name)]
  {
    var found := Unique(TagsNamed(db.tags, u, name));
    if found.Err? then Err(NotUnique)
    else if found.value.None? then Ok((Tables(db.tags + [TagRow(db.nextId, u, name)], db.links, db.nextId + 1), db.nextId))
    else Ok((db, found.value.value.id))
  }

  /** `addTagToBookmark` (web/convex/tags.ts:58-116). */
  function AddTagEffect(users: map<Subject, Id>, bookmarks: seq<BookmarkRow>, db: Tables,
                        identity: Option<Subject>, bookmarkId: Id, tagName: string): (o: Outcome<AddOutcome>)
    ensures o.result.Err? ==> o.after == db
    ensures identity.None? ==> o.result == Err(Unauthorized)
    ensures identity.Some? && identity.value !in users ==> o.result == Err(UserNotFound)
    ensures Authenticate(identity, users).Ok? && !CanAccessBookmark(bookmarks, bookmarkId, users[identity.value]) ==>
      o.result == Err(BookmarkNotFound)
    ensures (Authenticate(identity, users).Ok? && CanAccessBookmark(bookmarks, bookmarkId, users[identity.value])
             && Trim(tagName) == "") ==> o.result == Err(EmptyTagName)
    ensures o.result.Ok? ==>
      && Authenticate(identity, users).Ok?
      && CanAccessBookmark(bookmarks, bookmarkId, users[identity.value])
      && Trim(tagName) != ""
  {
    var auth := Authenticate(identity, users);
    if auth.Err? then Outcome(Err(auth.error), db)
    else if !CanAccessBookmark(bookmarks, bookmarkId, auth.value) then Outcome(Err(BookmarkNotFound), db)
    else if Trim(tagName) == "" then Outcome(Err(EmptyTagName), db)
    else LinkTag(db, auth.value, bookmarkId, Trim(tagName))
  }

  /** What `addTagToBookmark` does once the checks pass
      (web/convex/tags.ts:81-116): stage the tag, then link it unless a link
      between the bookmark and the tag exists. */
  function LinkTag(db: Tables, u: Id, bookmarkId: Id, name: string): (o: Outcome<AddOutcome>)
    ensures o.result.Err? ==> o.after == db
  {
    match StageTag(db, u, name)
    case Err(e) => Outcome(Err(e), db)
    case Ok((staged, tagId)) =>
      var existing := Unique(LinksBetween(db.links, bookmarkId, tagId));
      if existing.Err? then Outcome(Err(NotUnique), db)
      else if existing.value.Some? then Outcome(Ok(AlreadyLinked), staged)
      else Outcome(Ok(Linked(tagId, name)),
                   staged.(links := staged.links + [LinkRow(staged.nextId, bookmarkId, tagId, u)],
                           nextId := staged.nextId + 1))
  }

  /** `removeTagFromBookmark` (web/convex/tags.ts:126-156). */
  function RemoveTagEffect(users: map<Subject, Id>, bookmarks: seq<BookmarkRow>, db: Tables,
                           identity: Option<Subject>, bookmarkId: Id, tagId: Id): (o: Outcome<RemoveOutcome>)
    ensures o.after.tags == db.tags && o.after.nextId == db.nextId
    ensures o.result != Ok(Removed) ==> o.after == db
    ensures identity.None? ==> o.result == Err(Unauthorized)
    ensures identity.Some? && identity.value !in users ==> o.result == Err(UserNotFound)
    ensures Authenticate(identity, users).Ok? && !CanAccessBookmark(bookmarks, bookmarkId, users[identity.value]) ==>
      o.result == Err(BookmarkNotFound)
    ensures o.result.Ok? ==>
      Authenticate(identity, users).Ok? && CanAccessBookmark(bookmarks, bookmarkId, users[identity.value])
  {
    var auth := Authenticate(identity, users);
    if auth.Err? then Outcome(Err(auth.error), db)
    else if !CanAccessBookmark(bookmarks, bookmarkId, auth.value) then Outcome(Err(BookmarkNotFound), db)
    else
      var link := Unique(OwnedLinksBetween(db.links, bookmarkId, tagId, auth.value));
      if link.Err? then Outcome(Err(NotUnique), db)
      else if link.value.None? then Outcome(Ok(LinkNotFound), db)
      else Outcome(Ok(Removed), db.(links := Filter(db.links, LinkIdNotIn({link.value.value.id}))))
  }

  /** `deleteTag` (web/convex/tags.ts:165-195). */
  function DeleteTagEffect(users: map<Subject, Id>, db: Tables, identity: Option<Subject>, tagId: Id): (o: Outcome<()>)
    ensures o.result.Err? ==> o.after == db
    ensures o.after.nextId == db.nextId
    ensures identity.None? ==> o.result == Err(Unauthorized)
    ensures identity.Some? && identity.value !in users ==> o.result == Err(UserNotFound)
    ensures o.result.Ok? <==> Authenticate(identity, users).Ok? && OwnsTag(db.tags, tagId, users[identity.value])
    ensures Authenticate(identity, users).Ok? && o.result.Err? ==> o.result == Err(TagNotFound)
    // the tag and every link to it are gone, and nothing else is
    ensures o.result.Ok? ==>
      && (forall t :: t in o.after.tags <==> t in db.tags && t.id != tagId)
      && (forall l :: l in o.after.links <==> l in db.links && l.tagId != tagId)
  {
    var auth := Authenticate(identity, users);
    if auth.Err? then Outcome(Err(auth.error), db)
    else if !OwnsTag(db.tags, tagId, auth.value) then Outcome(Err(TagNotFound), db)
    else Outcome(Ok(()), db.(tags := Filter(db.tags, TagIdIsNot(tagId)),
                             links := Filter(db.links, LinkToOtherTag(tagId))))
  }

  /** `renameTag` (web/convex/tags.ts:205-240). */
  function RenameTagEffect(users: map<Subject, Id>, db: Tables, identity: Option<Subject>,
                           tagId: Id, newName: string): (o: Outcome<()>)
    ensures o.result.Err? ==> o.after == db
    ensures o.after.links == db.links && o.after.nextId == db.nextId
    ensures identity.None? ==> o.result == Err(Unauthorized)
    ensures identity.Some? && identity.value !in users ==> o.result == Err(UserNotFound)
    ensures Authenticate(identity, users).Ok? && Trim(newName) == "" ==> o.result == Err(EmptyNewTagName)
  {
    var auth := Authenticate(identity, users);
    if auth.Err? then Outcome(Err(auth.error), db)
    else if Trim(newName) == "" then Outcome(Err(EmptyNewTagName), db)
    else RenameAs(db, auth.value, tagId, Trim(newName))
  }

  /** What `renameTag` does once the caller is known and the trimmed name is
      not empty (web/convex/tags.ts:219-240): a name another tag of the caller
      has is refused before ownership is looked at; then the name is patched. */
  function RenameAs(db: Tables, u: Id, tagId: Id, name: string): (o: Outcome<()>)
    ensures o.result.Err? ==> o.after == db
    ensures o.result.Ok? ==> OwnsTag(db.tags, tagId, u) && o.after == db.(tags := RenameRow(db.tags, tagId, name))
  {
    var existing := Unique(TagsNamed(db.tags, u, name));
    if existing.Err? then Outcome(Err(NotUnique), db)
    else if existing.value.Some? && existing.value.value.id != tagId then Outcome(Err(NameTaken), db)
    else if !OwnsTag(db.tags, tagId, u) then Outcome(Err(TagNotFound), db)
    else Outcome(Ok(()), db.(tags := RenameRow(db.tags, tagId, name)))
  }

  /** Past its checks `renameTag` is `RenameAs` with the caller and the
      trimmed name. */
  lemma RenameTagPastChecks(users: map<Subject, Id>, db: Tables, identity: Option<Subject>,
                            tagId: Id, newName: string)
    requires identity.Some? && identity.value in users && Trim(newName) != ""
    ensures RenameTagEffect(users, db, identity, tagId, newName)
         == RenameAs(db, users[identity.value], tagId, Trim(newName))
  {
  }

  // ---------------------------------------------------------------------------
  // What the mutations promise

  lemma StageTagKeepsInvariants(db: Tables, u: Id, name: string)
    requires WellFormed(db)
    requires StageTag(db, u, name).Ok?
    ensures var (staged, t) := StageTag(db, u, name).value;
            && WellFormed(staged) && staged.links == db.links && t < staged.nextId
            && (t == db.nextId || staged == db)
            && (UniqueNames(db.tags) ==> UniqueNames(staged.tags))
  {
    var named := TagsNamed(db.tags, u, name);
    if named == [] {
      InsertTagWellFormed(db, u, name);
      if UniqueNames(db.tags) {
        UniqueNamesInsert(db.tags, TagRow(db.nextId, u, name));
      }
    } else {
      assert named[0] in db.tags;
    }
  }

  lemma LinkTagKeepsInvariants(db: Tables, u: Id, bookmarkId: Id, name: string)
    requires WellFormed(db)
    ensures WellFormed(LinkTag(db, u, bookmarkId, name).after)
    ensures UniqueKeys(db) ==> UniqueKeys(LinkTag(db, u, bookmarkId, name).after)
  {
    var o := LinkTag(db, u, bookmarkId, name);
    if o.result.Ok? {
      StageTagKeepsInvariants(db, u, name);
      var (staged, t) := StageTag(db, u, name).value;
      if o.result.value.Linked? {
        InsertLinkWellFormed(staged, bookmarkId, t, u);
        if UniqueLinks(db.links) {
          UniqueLinksInsert(db.links, LinkRow(staged.nextId, bookmarkId, t, u));
        }
      }
    }
  }

  lemma AddTagKeepsInvariants(users: map<Subject, Id>, bookmarks: seq<BookmarkRow>, db: Tables,
                              identity: Option<Subject>, bookmarkId: Id, tagName: string)
    requires WellFormed(db)
    ensures WellFormed(AddTagEffect(users, bookmarks, db, identity, bookmarkId, tagName).after)
    ensures UniqueKeys(db) ==> UniqueKeys(AddTagEffect(users, bookmarks, db, identity, bookmarkId, tagName).after)
  {
    if identity.Some? && identity.value in users {
      LinkTagKeepsInvariants(db, users[identity.value], bookmarkId, Trim(tagName));
    }
  }

  /** With unique keys, the only failures of `addTagToBookmark` are its three
      checks. */
  lemma AddTagSucceeds(users: map<Subject, Id>, bookmarks: seq<BookmarkRow>, db: Tables,
                       identity: Option<Subject>, bookmarkId: Id, tagName: string)
    requires UniqueKeys(db)
    ensures AddTagEffect(users, bookmarks, db, identity, bookmarkId, tagName).result.Ok? <==>
      && identity.Some? && identity.value in users
      && CanAccessBookmark(bookmarks, bookmarkId, users[identity.value]) && Trim(tagName) != ""
  {
    if identity.Some? && identity.value in users {
      var u := users[identity.value];
      var name := Trim(tagName);
      UniqueNamesLookup(db.tags, u, name);
      var named := TagsNamed(db.tags, u, name);
      var t := if named == [] then db.nextId else named[0].id;
      UniqueLinksLookup(db.links, bookmarkId, t);
    }
  }

  /** When the link already exists nothing is written, not even a tag: a tag
      created in this call has a fresh id no link can carry. */
  lemma AlreadyLinkedWritesNothing(db: Tables, u: Id, bookmarkId: Id, name: string)
    requires WellFormed(db)
    requires LinkTag(db, u, bookmarkId, name).result == Ok(AlreadyLinked)
    ensures LinkTag(db, u, bookmarkId, name).after == db
  {
    assert forall k :: 0 <= k < |db.links| ==> !Joins(bookmarkId, db.nextId)(db.links[k]);
  }

  /** A single link to the staged tag. */
  lemma LinksBetweenAppended(links: seq<LinkRow>, link: LinkRow)
    requires LinksBetween(links, link.bookmarkId, link.tagId) == []
    ensures LinksBetween(links + [link], link.bookmarkId, link.tagId) == [link]
  {
    FilterAppend(links, [link], Joins(link.bookmarkId, link.tagId));
    assert Filter([link], Joins(link.bookmarkId, link.tagId)) == [link] + Filter([], Joins(link.bookmarkId, link.tagId));
  }

  /** After a successful call the caller owns exactly one tag with the name,
      and it is linked to the bookmark. */
  lemma LinkTagLinks(db: Tables, u: Id, bookmarkId: Id, name: string)
    requires WellFormed(db) && UniqueKeys(db)
    requires LinkTag(db, u, bookmarkId, name).result.Ok?
    ensures var o := LinkTag(db, u, bookmarkId, name);
            var named := TagsNamed(o.after.tags, u, name);
            && |named| == 1
            && LinksBetween(o.after.links, bookmarkId, named[0].id) != []
            && (o.result.value.Linked? ==> o.result.value == Linked(named[0].id, name))
  {
    var o := LinkTag(db, u, bookmarkId, name);
    var (staged, t) := StageTag(db, u, name).value;
    var row := TagRow(db.nextId, u, name);
    if TagsNamed(db.tags, u, name) == [] {
      FilterAppend(db.tags, [row], NamedBy(u, name));
      assert Filter([row], NamedBy(u, name)) == [row] + Filter([], NamedBy(u, name));
    }
    assert TagsNamed(staged.tags, u, name) == [TagRow(t, u, name)];
    if o.result.value.Linked? {
      LinksBetweenAppended(db.links, LinkRow(staged.nextId, bookmarkId, t, u));
    } else {
      AlreadyLinkedWritesNothing(db, u, bookmarkId, name);
    }
  }

  /** Adding the same name to the same bookmark again links nothing new and
      answers "Tag already exists on bookmark.". */
  lemma AddTagTwice(users: map<Subject, Id>, bookmarks: seq<BookmarkRow>, db: Tables,
                    identity: Option<Subject>, bookmarkId: Id, tagName: string)
    requires WellFormed(db) && UniqueKeys(db)
    requires AddTagEffect(users, bookmarks, db, identity, bookmarkId, tagName).result.Ok?
    ensures var after := AddTagEffect(users, bookmarks, db, identity, bookmarkId, tagName).after;
            AddTagEffect(users, bookmarks, after, identity, bookmarkId, tagName) == Outcome(Ok(AlreadyLinked), after)
  {
    var u := users[identity.value];
    var name := Trim(tagName);
    var after := LinkTag(db, u, bookmarkId, name).after;
    LinkTagLinks(db, u, bookmarkId, name);
    LinkTagKeepsInvariants(db, u, bookmarkId, name);
    var named := TagsNamed(after.tags, u, name);
    UniqueLinksLookup(after.links, bookmarkId, named[0].id);
  }

  /** Past its checks `addTagToBookmark` is `LinkTag` with the caller and the
      trimmed name. */
  lemma AddTagPastChecks(users: map<Subject, Id>, bookmarks: seq<BookmarkRow>, db: Tables,
                         identity: Option<Subject>, bookmarkId: Id, tagName: string)
    requires AddTagEffect(users, bookmarks, db, identity, bookmarkId, tagName).result.Ok?
    ensures identity.Some? && identity.value in users
    ensures CanAccessBookmark(bookmarks, bookmarkId, users[identity.value])
    ensures AddTagEffect(users, bookmarks, db, identity, bookmarkId, tagName)
         == LinkTag(db, users[identity.value], bookmarkId, Trim(tagName))
  {
  }

  /** A new link is the one row appended to the links table, under an id no
      link had, and it is the only link between the bookmark and the tag. */
  lemma LinkedAppendsOneLink(db: Tables, u: Id, bookmarkId: Id, name: string)
    requires WellFormed(db)
    requires LinkTag(db, u, bookmarkId, name).result.Ok?
    requires LinkTag(db, u, bookmarkId, name).result.value.Linked?
    ensures var o := LinkTag(db, u, bookmarkId, name);
            var link := LinkRow(o.after.nextId - 1, bookmarkId, o.result.value.tagId, u);
            && o.after.nextId >= 1
            && o.after.links == db.links + [link]
            && LinksBetween(db.links, bookmarkId, link.tagId) == []
            && (forall l :: l in db.links ==> l.id != link.id)
  {
    StageTagKeepsInvariants(db, u, name);
  }

  /** Removing the caller's only link between a bookmark and a tag, when it was
      the last row appended, gives back the links table before it. */
  lemma RemoveAppendedLink(users: map<Subject, Id>, bookmarks: seq<BookmarkRow>, db: Tables,
                           identity: Option<Subject>, before: seq<LinkRow>, link: LinkRow)
    requires identity.Some? && identity.value in users && link.owner == users[identity.value]
    requires CanAccessBookmark(bookmarks, link.bookmarkId, link.owner)
    requires db.links == before + [link]
    requires LinksBetween(before, link.bookmarkId, link.tagId) == []
    requires forall l :: l in before ==> l.id != link.id
    ensures RemoveTagEffect(users, bookmarks, db, identity, link.bookmarkId, link.tagId)
         == Outcome(Ok(Removed), db.(links := before))
  {
    OnlyOwnedLink(before, link);
    DropAppended(before, link);
  }

  /** The appended link is the one the removal looks up. */
  lemma OnlyOwnedLink(before: seq<LinkRow>, link: LinkRow)
    requires LinksBetween(before, link.bookmarkId, link.tagId) == []
    ensures OwnedLinksBetween(before + [link], link.bookmarkId, link.tagId, link.owner) == [link]
  {
    LinksBetweenAppended(before, link);
    assert Filter([link], OwnedBy(link.owner)) == [link] + Filter([], OwnedBy(link.owner));
  }

  /** Dropping the rows with the appended link's fresh id drops only it. */
  lemma DropAppended(before: seq<LinkRow>, link: LinkRow)
    requires forall l :: l in before ==> l.id != link.id
    ensures Filter(before + [link], LinkIdNotIn({link.id})) == before
  {
    var gone := LinkIdNotIn({link.id});
    FilterAppend(before, [link], gone);
    assert Filter([link], gone) == Filter([], gone);
    FilterAll(before, gone);
  }

  /** Removing the link a call just added gives back the links table it found. */
  lemma RemoveAfterAdd(users: map<Subject, Id>, bookmarks: seq<BookmarkRow>, db: Tables,
                       identity: Option<Subject>, bookmarkId: Id, tagName: string)
    requires WellFormed(db)
    requires AddTagEffect(users, bookmarks, db, identity, bookmarkId, tagName).result.Ok?
    requires AddTagEffect(users, bookmarks, db, identity, bookmarkId, tagName).result.value.Linked?
    ensures var o := AddTagEffect(users, bookmarks, db, identity, bookmarkId, tagName);
            RemoveTagEffect(users, bookmarks, o.after, identity, bookmarkId, o.result.value.tagId)
              == Outcome(Ok(Removed), o.after.(links := db.links))
  {
    AddTagPastChecks(users, bookmarks, db, identity, bookmarkId, tagName);
    var u := users[identity.value];
    var name := Trim(tagName);
    var o := LinkTag(db, u, bookmarkId, name);
    LinkedAppendsOneLink(db, u, bookmarkId, name);
    var link := LinkRow(o.after.nextId - 1, bookmarkId, o.result.value.tagId, u);
    RemoveAppendedLink(users, bookmarks, o.after, identity, db.links, link);
  }

  lemma RemoveTagKeepsInvariants(users: map<Subject, Id>, bookmarks: seq<BookmarkRow>, db: Tables,
                                 identity: Option<Subject>, bookmarkId: Id, tagId: Id)
    requires WellFormed(db)
    ensures WellFormed(RemoveTagEffect(users, bookmarks, db, identity, bookmarkId, tagId).after)
    ensures UniqueKeys(db) ==> UniqueKeys(RemoveTagEffect(users, bookmarks, db, identity, bookmarkId, tagId).after)
  {
    var o := RemoveTagEffect(users, bookmarks, db, identity, bookmarkId, tagId);
    if o.result == Ok(Removed) {
      var x := OwnedLinksBetween(db.links, bookmarkId, tagId, users[identity.value])[0];
      DeleteLinksWellFormed(db, LinkIdNotIn({x.id}));
    }
  }

  /** The caller's link from the bookmark to the tag. */
  predicate IsCallersLink(l: LinkRow, bookmarkId: Id, tagId: Id, u: Id) {
    l.bookmarkId == bookmarkId && l.tagId == tagId && l.owner == u
  }

  /** The rows the lookup of `removeTagFromBookmark` sees are the caller's
      links from the bookmark to the tag. */
  lemma OwnedLinksBetweenMembers(links: seq<LinkRow>, bookmarkId: Id, tagId: Id, u: Id)
    ensures forall l :: l in OwnedLinksBetween(links, bookmarkId, tagId, u) <==>
                        l in links && IsCallersLink(l, bookmarkId, tagId, u)
  {
    var between := LinksBetween(links, bookmarkId, tagId);
    var matches := OwnedLinksBetween(links, bookmarkId, tagId, u);
    forall l | l in links && IsCallersLink(l, bookmarkId, tagId, u) ensures l in matches {
      var i :| 0 <= i < |links| && links[i] == l;
      assert Joins(bookmarkId, tagId)(links[i]);
      var j :| 0 <= j < |between| && between[j] == l;
      assert OwnedBy(u)(between[j]);
    }
    forall l | l in matches ensures l in links && IsCallersLink(l, bookmarkId, tagId, u) {
      var j :| 0 <= j < |matches| && matches[j] == l;
    }
  }

  /** Past the identity and bookmark checks, "Tag link not found." is the
      answer exactly when the caller has no link from the bookmark to the tag. */
  lemma RemoveTagFindsNothing(users: map<Subject, Id>, bookmarks: seq<BookmarkRow>, db: Tables,
                              identity: Option<Subject>, bookmarkId: Id, tagId: Id)
    requires identity.Some? && identity.value in users
    requires CanAccessBookmark(bookmarks, bookmarkId, users[identity.value])
    ensures RemoveTagEffect(users, bookmarks, db, identity, bookmarkId, tagId).result == Ok(LinkNotFound) <==>
            forall l :: l in db.links ==> !IsCallersLink(l, bookmarkId, tagId, users[identity.value])
  {
    OwnedLinksBetweenMembers(db.links, bookmarkId, tagId, users[identity.value]);
    var matches := OwnedLinksBetween(db.links, bookmarkId, tagId, users[identity.value]);
    if matches != [] {
      assert matches[0] in matches;
    }
  }

  /** A removal deletes the caller's link from the bookmark to the tag and no
      other row. */
  lemma RemoveTagRemovesOnlyThatLink(users: map<Subject, Id>, bookmarks: seq<BookmarkRow>, db: Tables,
                                     identity: Option<Subject>, bookmarkId: Id, tagId: Id)
    requires WellFormed(db)
    requires RemoveTagEffect(users, bookmarks, db, identity, bookmarkId, tagId).result == Ok(Removed)
    ensures var after := RemoveTagEffect(users, bookmarks, db, identity, bookmarkId, tagId).after;
            forall l :: l in after.links <==>
                        l in db.links && !IsCallersLink(l, bookmarkId, tagId, users[identity.value])
  {
    var u := users[identity.value];
    var after := RemoveTagEffect(users, bookmarks, db, identity, bookmarkId, tagId).after;
    OwnedLinksBetweenMembers(db.links, bookmarkId, tagId, u);
    var matches := OwnedLinksBetween(db.links, bookmarkId, tagId, u);
    var x := matches[0];
    assert matches == [x];
    forall l | l in db.links && l.id == x.id ensures l == x {
      LinkIdsIdentify(db.links, l, x);
    }
    forall l ensures l in after.links <==> l in db.links && l.id != x.id {
      if l in db.links && l.id != x.id {
        var i :| 0 <= i < |db.links| && db.links[i] == l;
        assert LinkIdNotIn({x.id})(db.links[i]);
      }
    }
  }

  /** With unique keys `removeTagFromBookmark` fails only on its checks. */
  lemma RemoveTagSucceeds(users: map<Subject, Id>, bookmarks: seq<BookmarkRow>, db: Tables,
                          identity: Option<Subject>, bookmarkId: Id, tagId: Id)
    requires UniqueKeys(db)
    ensures RemoveTagEffect(users, bookmarks, db, identity, bookmarkId, tagId).result.Ok? <==>
      identity.Some? && identity.value in users && CanAccessBookmark(bookmarks, bookmarkId, users[identity.value])
  {
    UniqueLinksLookup(db.links, bookmarkId, tagId);
  }

  /** Removing a link twice: the second call finds nothing. */
  lemma RemoveTagTwice(users: map<Subject, Id>, bookmarks: seq<BookmarkRow>, db: Tables,
                       identity: Option<Subject>, bookmarkId: Id, tagId: Id)
    requires WellFormed(db)
    requires RemoveTagEffect(users, bookmarks, db, identity, bookmarkId, tagId).result == Ok(Removed)
    ensures var after := RemoveTagEffect(users, bookmarks, db, identity, bookmarkId, tagId).after;
            RemoveTagEffect(users, bookmarks, after, identity, bookmarkId, tagId) == Outcome(Ok(LinkNotFound), after)
  {
    var after := RemoveTagEffect(users, bookmarks, db, identity, bookmarkId, tagId).after;
    RemoveTagRemovesOnlyThatLink(users, bookmarks, db, identity, bookmarkId, tagId);
    RemoveTagFindsNothing(users, bookmarks, after, identity, bookmarkId, tagId);
  }

  lemma DeleteTagKeepsInvariants(users: map<Subject, Id>, db: Tables, identity: Option<Subject>, tagId: Id)
    requires WellFormed(db)
    ensures WellFormed(DeleteTagEffect(users, db, identity, tagId).after)
    ensures UniqueKeys(db) ==> UniqueKeys(DeleteTagEffect(users, db, identity, tagId).after)
  {
    if DeleteTagEffect(users, db, identity, tagId).result.Ok? {
      DeleteTagsWellFormed(db, TagIdIsNot(tagId));
      DeleteLinksWellFormed(db.(tags := Filter(db.tags, TagIdIsNot(tagId))), LinkToOtherTag(tagId));
    }
  }

  /** A deleted tag is listed for no bookmark afterwards. */
  lemma DeletedTagNotListed(users: map<Subject, Id>, db: Tables, identity: Option<Subject>, tagId: Id,
                            bookmarkId: Id, x: TagRow)
    requires DeleteTagEffect(users, db, identity, tagId).result.Ok?
    requires x.id == tagId
    ensures var after := DeleteTagEffect(users, db, identity, tagId).after;
            x !in TagsOfLinks(LinksOf(after.links, bookmarkId), after.tags)
  {
    var after := DeleteTagEffect(users, db, identity, tagId).after;
    var links := LinksOf(after.links, bookmarkId);
    TagsOfLinksMembers(links, after.tags, x);
    forall l | l in links ensures LinkedTag(after.tags, l) != Some(x) {
      var found := LinkedTag(after.tags, l);
      if found.Some? {
        assert found.value in after.tags;
      }
    }
  }

  lemma RenameAsKeepsInvariants(db: Tables, u: Id, tagId: Id, name: string)
    requires WellFormed(db)
    ensures WellFormed(RenameAs(db, u, tagId, name).after)
    ensures UniqueKeys(db) ==> UniqueKeys(RenameAs(db, u, tagId, name).after)
  {
    if RenameAs(db, u, tagId, name).result.Ok? {
      var named := TagsNamed(db.tags, u, name);
      assert forall k :: 0 <= k < |named| ==> named[k].id == tagId;
      RenameKeepsInvariants(db, tagId, u, name);
    }
  }

  lemma RenameTagKeepsInvariants(users: map<Subject, Id>, db: Tables, identity: Option<Subject>,
                                 tagId: Id, newName: string)
    requires WellFormed(db)
    ensures WellFormed(RenameTagEffect(users, db, identity, tagId, newName).after)
    ensures UniqueKeys(db) ==> UniqueKeys(RenameTagEffect(users, db, identity, tagId, newName).after)
  {
    if identity.Some? && identity.value in users && Trim(newName) != "" {
      RenameTagPastChecks(users, db, identity, tagId, newName);
      RenameAsKeepsInvariants(db, users[identity.value], tagId, Trim(newName));
    }
  }

  /** Another tag of `u` named `name`. */
  predicate NameTakenBy(tags: seq<TagRow>, u: Id, name: string, tagId: Id) {
    exists t :: t in tags && t.owner == u && t.name == name && t.id != tagId
  }

  /** Past the identity check, with a non-empty trimmed name: another tag of
      the caller with that name is a conflict, whoever owns `tagId`. */
  lemma RenameTagConflict(users: map<Subject, Id>, db: Tables, identity: Option<Subject>,
                          tagId: Id, newName: string)
    requires UniqueKeys(db)
    requires identity.Some? && identity.value in users && Trim(newName) != ""
    requires NameTakenBy(db.tags, users[identity.value], Trim(newName), tagId)
    ensures RenameTagEffect(users, db, identity, tagId, newName).result == Err(NameTaken)
  {
    RenameTagPastChecks(users, db, identity, tagId, newName);
    RenameAsConflict(db, users[identity.value], tagId, Trim(newName));
  }

  lemma RenameAsConflict(db: Tables, u: Id, tagId: Id, name: string)
    requires UniqueKeys(db)
    requires NameTakenBy(db.tags, u, name, tagId)
    ensures RenameAs(db, u, tagId, name).result == Err(NameTaken)
  {
    var named := TagsNamed(db.tags, u, name);
    UniqueNamesLookup(db.tags, u, name);
    var t :| t in db.tags && t.owner == u && t.name == name && t.id != tagId;
    var i :| 0 <= i < |db.tags| && db.tags[i] == t;
    assert NamedBy(u, name)(db.tags[i]);
    assert named == [t];
  }

  /** Past the identity check, with a non-empty trimmed name no other tag of
      the caller has, the rename succeeds exactly when the caller owns the
      tag; renaming a tag to its own name is allowed. */
  lemma RenameTagOwnership(users: map<Subject, Id>, db: Tables, identity: Option<Subject>,
                           tagId: Id, newName: string)
    requires UniqueKeys(db)
    requires identity.Some? && identity.value in users && Trim(newName) != ""
    requires !NameTakenBy(db.tags, users[identity.value], Trim(newName), tagId)
    ensures var o := RenameTagEffect(users, db, identity, tagId, newName);
            && (o.result.Ok? <==> OwnsTag(db.tags, tagId, users[identity.value]))
            && (o.result.Err? ==> o.result == Err(TagNotFound))
  {
    RenameTagPastChecks(users, db, identity, tagId, newName);
    RenameAsOwnership(db, users[identity.value], tagId, Trim(newName));
  }

  lemma RenameAsOwnership(db: Tables, u: Id, tagId: Id, name: string)
    requires UniqueKeys(db)
    requires !NameTakenBy(db.tags, u, name, tagId)
    ensures var o := RenameAs(db, u, tagId, name);
            && (o.result.Ok? <==> OwnsTag(db.tags, tagId, u))
            && (o.result.Err? ==> o.result == Err(TagNotFound))
  {
    var named := TagsNamed(db.tags, u, name);
    UniqueNamesLookup(db.tags, u, name);
    if named != [] {
      assert named[0] in db.tags && NamedBy(u, name)(named[0]);
    }
  }

  /** A rename patches only the name of the one tag, to the trimmed value. */
  lemma RenameTagPatchesName(users: map<Subject, Id>, db: Tables, identity: Option<Subject>,
                             tagId: Id, newName: string)
    requires RenameTagEffect(users, db, identity, tagId, newName).result.Ok?
    ensures var after := RenameTagEffect(users, db, identity, tagId, newName).after;
            && |after.tags| == |db.tags|
            && (forall k :: 0 <= k < |db.tags| && db.tags[k].id != tagId ==> after.tags[k] == db.tags[k])
            && FindTag(after.tags, tagId) == Some(FindTag(db.tags, tagId).value.(name := Trim(newName)))
  {
    RenameTagPastChecks(users, db, identity, tagId, newName);
    FindRenamed(db.tags, tagId, Trim(newName));
  }

  /** The lookup by id sees the patched row. */
  lemma {:induction false} FindRenamed(tags: seq<TagRow>, id: Id, name: string)
    requires FindTag(tags, id).Some?
    ensures FindTag(RenameRow(tags, id, name), id) == Some(FindTag(tags, id).value.(name := name))
  {
    var r := RenameRow(tags, id, name);
    assert r[0] == if tags[0].id == id then tags[0].(name := name) else tags[0];
    if tags[0].id != id {
      assert r[1..] == RenameRow(tags[1..], id, name);
      FindRenamed(tags[1..], id, name);
    }
  }

  // ---------------------------------------------------------------------------
  // The store

  class Database {
    var users: map<Subject, Id>
    var bookmarks: seq<BookmarkRow>
    var tags: seq<TagRow>
    var bookmarkTags: seq<LinkRow>
    /** Every id handed out so far is below it; ids are never reused. */
    var nextId: Id

    ghost function State(): Tables
      reads this
    {
      Tables(tags, bookmarkTags, nextId)
    }

    ghost predicate Valid()
      reads this
    {
      WellFormed(State())
    }

    ghost predicate Consistent()
      reads this
    {
      UniqueKeys(State())
    }

    constructor (users: map<Subject, Id>, bookmarks: seq<BookmarkRow>)
      ensures Valid() && Consistent()
      ensures this.users == users && this.bookmarks == bookmarks
      ensures tags == [] && bookmarkTags == []
    {
      this.users := users;
      this.bookmarks := bookmarks;
      tags := [];
      bookmarkTags := [];
      nextId := 0;
    }

    /** `getTagsForBookmark`: the links of the bookmark through `by_bookmarkId`,
        each mapped to its tag row, then the missing ones dropped. It asks for
        no identity. */
    method GetTagsForBookmark(bookmarkId: Id) returns (r: seq<TagRow>)
      ensures r == TagsOfLinks(LinksOf(bookmarkTags, bookmarkId), tags)
      ensures forall x :: x in r <==>
        exists l :: l in bookmarkTags && l.bookmarkId == bookmarkId && LinkedTag(tags, l) == Some(x)
    {
      var links := LinksOf(bookmarkTags, bookmarkId);
      var docs: seq<Option<TagRow>> := [];
      for i := 0 to |links|
        invariant |docs| == i
        invariant forall k :: 0 <= k < i ==> docs[k] == LinkedTag(tags, links[k])
      {
        docs := docs + [FindTag(tags, links[i].tagId)];
      }
      r := [];
      for i := 0 to |docs|
        invariant r == TagsOfLinks(links[..i], tags)
      {
        assert links[..i + 1][..i] == links[..i];
        if docs[i].Some? {
          r := r + [docs[i].value];
        }
      }
      assert links[..|links|] == links;
      forall x ensures x in r <==>
        exists l :: l in bookmarkTags && l.bookmarkId == bookmarkId && LinkedTag(tags, l) == Some(x)
      {
        TagsForBookmarkMembers(bookmarkTags, tags, bookmarkId, x);
      }
    }

    /** `addTagToBookmark`: the identity, bookmark and name checks, then
        `LinkTagTo`. */
    method AddTagToBookmark(identity: Option<Subject>, bookmarkId: Id, tagName: string)
      returns (r: Result<AddOutcome>)
      requires Valid()
      modifies this
      ensures users == old(users) && bookmarks == old(bookmarks)
      ensures Outcome(r, State()) == AddTagEffect(users, bookmarks, old(State()), identity, bookmarkId, tagName)
      ensures Valid() && (old(Consistent()) ==> Consistent())
    {
      AddTagKeepsInvariants(users, bookmarks, State(), identity, bookmarkId, tagName);
      var auth := Authenticate(identity, users);
      if auth.Err? {
        return Err(auth.error);
      }
      var user := auth.value;
      if !CanAccessBookmark(bookmarks, bookmarkId, user) {
        return Err(BookmarkNotFound);
      }
      var name := Trim(tagName);
      if name == "" {
        return Err(EmptyTagName);
      }
      r := LinkTagTo(user, bookmarkId, name);
    }

    /** The rest of `addTagToBookmark`: find or create the caller's tag, then
        link it to the bookmark unless the link already exists. The writes
        are staged and committed on normal return. */
    method LinkTagTo(user: Id, bookmarkId: Id, name: string) returns (r: Result<AddOutcome>)
      modifies this
      ensures users == old(users) && bookmarks == old(bookmarks)
      ensures Outcome(r, State()) == LinkTag(old(State()), user, bookmarkId, name)
    {
      var tag := Unique(TagsNamed(tags, user, name));
      if tag.Err? {
        return Err(NotUnique);
      }
      var newTags := tags;
      var next := nextId;
      var tagIdToLink: Id;
      if tag.value.None? {
        tagIdToLink := next;
        newTags := tags + [TagRow(tagIdToLink, user, name)];
        next := next + 1;
      } else {
        tagIdToLink := tag.value.value.id;
      }
      assert StageTag(State(), user, name) == Ok((Tables(newTags, bookmarkTags, next), tagIdToLink));
      var existingLink := Unique(LinksBetween(bookmarkTags, bookmarkId, tagIdToLink));
      if existingLink.Err? {
        return Err(NotUnique);
      }
      if existingLink.value.Some? {
        tags, nextId := newTags, next;
        return Ok(AlreadyLinked);
      }
      tags := newTags;
      bookmarkTags := bookmarkTags + [LinkRow(next, bookmarkId, tagIdToLink, user)];
      nextId := next + 1;
      return Ok(Linked(tagIdToLink, name));
    }

    /** `removeTagFromBookmark`: delete the caller's link between the bookmark
        and the tag, if there is one. */
    method RemoveTagFromBookmark(identity: Option<Subject>, bookmarkId: Id, tagId: Id)
      returns (r: Result<RemoveOutcome>)
      requires Valid()
      modifies this
      ensures users == old(users) && bookmarks == old(bookmarks)
      ensures Outcome(r, State()) == RemoveTagEffect(users, bookmarks, old(State()), identity, bookmarkId, tagId)
      ensures Valid() && (old(Consistent()) ==> Consistent())
    {
      RemoveTagKeepsInvariants(users, bookmarks, State(), identity, bookmarkId, tagId);
      var auth := Authenticate(identity, users);
      if auth.Err? {
        return Err(auth.error);
      }
      var user := auth.value;
      if !CanAccessBookmark(bookmarks, bookmarkId, user) {
        return Err(BookmarkNotFound);
      }
      var linkToDelete := Unique(OwnedLinksBetween(bookmarkTags, bookmarkId, tagId, user));
      if linkToDelete.Err? {
        return Err(NotUnique);
      }
      if linkToDelete.value.Some? {
        bookmarkTags := Filter(bookmarkTags, LinkIdNotIn({linkToDelete.value.value.id}));
        return Ok(Removed);
      }
      return Ok(LinkNotFound);
    }

    /** `deleteTag`: after the ownership check, delete every link to the tag,
        whoever owns the link, one by one, and then the tag. */
    method DeleteTag(identity: Option<Subject>, tagId: Id) returns (r: Result<()>)
      requires Valid()
      modifies this
      ensures users == old(users) && bookmarks == old(bookmarks)
      ensures Outcome(r, State()) == DeleteTagEffect(users, old(State()), identity, tagId)
      ensures Valid() && (old(Consistent()) ==> Consistent())
    {
      DeleteTagKeepsInvariants(users, State(), identity, tagId);
      var auth := Authenticate(identity, users);
      if auth.Err? {
        return Err(auth.error);
      }
      var user := auth.value;
      if !OwnsTag(tags, tagId, user) {
        return Err(TagNotFound);
      }
      DeleteLinksTo(tagId);
      tags := Filter(tags, TagIdIsNot(tagId));
      return Ok(());
    }

    /** The loop of `deleteTag`: the links to the tag, through `by_tagId`,
        deleted one at a time by id. */
    method DeleteLinksTo(tagId: Id)
      requires Pairwise(bookmarkTags, DifferentLinkIds)
      modifies this
      ensures bookmarkTags == Filter(old(bookmarkTags), LinkToOtherTag(tagId))
      ensures users == old(users) && bookmarks == old(bookmarks)
      ensures tags == old(tags) && nextId == old(nextId)
    {
      var links := LinksWithTag(bookmarkTags, tagId);
      assert IdsOf(links[..0]) == {};
      FilterAll(bookmarkTags, LinkIdNotIn({}));
      for i := 0 to |links|
        invariant bookmarkTags == Filter(old(bookmarkTags), LinkIdNotIn(IdsOf(links[..i])))
        invariant users == old(users) && bookmarks == old(bookmarks)
        invariant tags == old(tags) && nextId == old(nextId)
      {
        DeleteOneMore(old(bookmarkTags), links, i);
        bookmarkTags := Filter(bookmarkTags, LinkIdNotIn({links[i].id}));
      }
      assert links[..|links|] == links;
      DeletedLinksAreTheTagsLinks(old(bookmarkTags), tagId);
    }

    /** `renameTag`: reject an empty name, then a name another of the caller's
        tags already has — before looking at who owns the tag — then a tag
        that is missing or not the caller's; patch only the name. */
    method RenameTag(identity: Option<Subject>, tagId: Id, newName: string) returns (r: Result<()>)
      requires Valid()
      modifies this
      ensures users == old(users) && bookmarks == old(bookmarks)
      ensures Outcome(r, State()) == RenameTagEffect(users, old(State()), identity, tagId, newName)
      ensures Valid() && (old(Consistent()) ==> Consistent())
    {
      RenameTagKeepsInvariants(users, State(), identity, tagId, newName);
      var auth := Authenticate(identity, users);
      if auth.Err? {
        return Err(auth.error);
      }
      var user := auth.value;
      var name := Trim(newName);
      if name == "" {
        return Err(EmptyNewTagName);
      }
      RenameTagPastChecks(users, State(), identity, tagId, newName);
      var existing := Unique(TagsNamed(tags, user, name));
      if existing.Err? {
        return Err(NotUnique);
      }
      if existing.value.Some? && existing.value.value.id != tagId {
        return Err(NameTaken);
      }
      if !OwnsTag(tags, tagId, user) {
        return Err(TagNotFound);
      }
      tags := RenameRow(tags, tagId, name);
      return Ok(());
    }
  }
}
