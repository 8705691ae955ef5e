/** The dashboard's client-side state container (web/src/lib/bookmark-store.ts):
    one state record, the actions that replace a field of it or merge a
    partial form into it, and the two views derived from it — the bookmarks
    the search box and the tag selector let through, and the counters. */
module BookmarkStore {
  import opened Wrappers
  import opened Seqs
  import opened JsString

  /** The shape of the dashboard's bookmark records. */
  datatype Bookmark = Bookmark(
    id: string,
    title: string,
    description: string,
    url: string,
    imageUrl: string,
    tags: seq<string>,
    createdAt: int,
    summary: string,
    isArchived: bool)

  /** The "add bookmark" form. */
  datatype NewBookmark = NewBookmark(url: string, title: string, description: string, tags: seq<string>, folder: string)

  /** The "new folder" form; `parentId` is `null` for a top-level folder. */
  datatype NewFolder = NewFolder(name: string, parentId: Option<string>)

  datatype BookmarkState = BookmarkState(
    searchQuery: string,
    selectedTag: string,
    selectedFolder: Option<string>,
    isAddDialogOpen: bool,
    isFolderDialogOpen: bool,
    newBookmark: NewBookmark,
    newFolder: NewFolder,
    bookmarks: seq<Bookmark>,
    tags: seq<string>,
    folders: seq<string>)

  /** A `Partial<NewBookmark>`: `None` is a key the update leaves out. */
  datatype NewBookmarkPatch = NewBookmarkPatch(
    url: Option<string>,
    title: Option<string>,
    description: Option<string>,
    tags: Option<seq<string>>,
    folder: Option<string>)

  /** A `Partial<NewFolder>`; `Some(None)` sets `parentId` to `null`. */
  datatype NewFolderPatch = NewFolderPatch(name: Option<string>, parentId: Option<Option<string>>)

  const EmptyNewBookmark := NewBookmark("", "", "", [], "")
  const EmptyNewFolder := NewFolder("", None)

  // The texts of the three mock bookmarks.
  const PlaceholderImage := "/placeholder.svg?height=200&width=400"
  const RscTitle := "React Server Components Guide"
  const RscDescription :=
    "A comprehensive guide to understanding and implementing React Server Components in modern applications."
  const RscUrl := "https://react.dev/blog/2023/03/22/react-labs-what-we-have-been-working-on-march-2023"
  const RscTags: seq<string> := ["React", "Server Components", "Frontend"]
  const RscSummary := "Detailed explanation of RSC architecture and implementation patterns."
  const TsTitle := "Advanced TypeScript Patterns"
  const TsDescription :=
    "Learn advanced TypeScript patterns for building scalable applications with better type safety."
  const TsUrl := "https://typescript.org/docs"
  const TsTags: seq<string> := ["TypeScript", "Programming", "Patterns"]
  const TsSummary := "Covers utility types, conditional types, and advanced generics."
  const DbTitle := "Database Design Best Practices"
  const DbDescription := "Essential principles for designing efficient and scalable database schemas."
  const DbUrl := "https://example.com/database-design"
  const DbTags: seq<string> := ["Database", "Design", "Backend"]
  const DbSummary := "Normalization, indexing strategies, and performance optimization."

  /** The mock bookmarks the store starts with; they were created one, two and
      three days (86400000 ms each) before `now`, the newest first; only the
      oldest is archived, and each carries three tags. */
  function MockBookmarks(now: int): (bs: seq<Bookmark>)
    ensures |bs| == 3
    ensures forall k :: 0 <= k < |bs| ==> bs[k].createdAt == now - 86400000 * (k + 1)
    ensures forall k :: 0 <= k < |bs| ==> (bs[k].isArchived <==> k == 2) && |bs[k].tags| == 3
  {
    [ Bookmark("1", RscTitle, RscDescription, RscUrl, PlaceholderImage, RscTags, now - 86400000, RscSummary, false),
      Bookmark("2", TsTitle, TsDescription, TsUrl, PlaceholderImage, TsTags, now - 172800000, TsSummary, false),
      Bookmark("3", DbTitle, DbDescription, DbUrl, PlaceholderImage, DbTags, now - 259200000, DbSummary, true) ]
  }

  const MockTags: seq<string> :=
    ["React", "TypeScript", "Database", "Frontend", "Backend", "Design", "Programming", "Patterns", "Server Components"]

  const MockFolders: seq<string> := ["Work", "Personal", "Learning", "Projects"]

  /** The store's initial value; `now` is the clock reading the mock
      timestamps are taken from. */
  function InitialState(now: int): (s: BookmarkState)
    ensures s.searchQuery == "" && s.selectedTag == "all" && s.selectedFolder == None
    ensures !s.isAddDialogOpen && !s.isFolderDialogOpen
    ensures s.newBookmark == EmptyNewBookmark && s.newFolder == EmptyNewFolder
    ensures |s.bookmarks| == 3 && |s.tags| == 9 && |s.folders| == 4
  {
    BookmarkState("", "all", None, false, false, EmptyNewBookmark, EmptyNewFolder,
                  MockBookmarks(now), MockTags, MockFolders)
  }

  // ---------------------------------------------------------------------------
  // Merging a partial form: `{ ...form, ...updates }`

  function Pick<T>(update: Option<T>, current: T): T {
    if update.Some? then update.value else current
  }

  function MergeNewBookmark(f: NewBookmark, u: NewBookmarkPatch): NewBookmark {
    NewBookmark(Pick(u.url, f.url), Pick(u.title, f.title), Pick(u.description, f.description),
                Pick(u.tags, f.tags), Pick(u.folder, f.folder))
  }

  function MergeNewFolder(f: NewFolder, u: NewFolderPatch): NewFolder {
    NewFolder(Pick(u.name, f.name), Pick(u.parentId, f.parentId))
  }

  /** `{ ...u, ...v }`: the later patch wins on the keys it supplies. */
  function ThenBookmark(u: NewBookmarkPatch, v: NewBookmarkPatch): NewBookmarkPatch {
    NewBookmarkPatch(if v.url.Some? then v.url else u.url,
                     if v.title.Some? then v.title else u.title,
                     if v.description.Some? then v.description else u.description,
                     if v.tags.Some? then v.tags else u.tags,
                     if v.folder.Some? then v.folder else u.folder)
  }

  /** The patch that supplies every field of `g`. */
  function FullBookmarkPatch(g: NewBookmark): NewBookmarkPatch {
    NewBookmarkPatch(Some(g.url), Some(g.title), Some(g.description), Some(g.tags), Some(g.folder))
  }

  /** A merged field holds the supplied value, or the form's own when the
      patch leaves that key out. */
  lemma MergeNewBookmarkFields(f: NewBookmark, u: NewBookmarkPatch)
    ensures var r := MergeNewBookmark(f, u);
            && (u.url.None? ==> r.url == f.url) && (u.url.Some? ==> r.url == u.url.value)
            && (u.title.None? ==> r.title == f.title) && (u.title.Some? ==> r.title == u.title.value)
            && (u.description.None? ==> r.description == f.description)
            && (u.description.Some? ==> r.description == u.description.value)
            && (u.tags.None? ==> r.tags == f.tags) && (u.tags.Some? ==> r.tags == u.tags.value)
            && (u.folder.None? ==> r.folder == f.folder) && (u.folder.Some? ==> r.folder == u.folder.value)
  {
  }

  /** Two updates in a row are one update with the later keys winning;
      merging the same patch twice is merging it once; a patch with no key
      changes nothing, and one with every key replaces the form. */
  lemma MergeNewBookmarkLaws(f: NewBookmark, u: NewBookmarkPatch, v: NewBookmarkPatch, g: NewBookmark)
    ensures MergeNewBookmark(MergeNewBookmark(f, u), v) == MergeNewBookmark(f, ThenBookmark(u, v))
    ensures MergeNewBookmark(MergeNewBookmark(f, u), u) == MergeNewBookmark(f, u)
    ensures MergeNewBookmark(f, NewBookmarkPatch(None, None, None, None, None)) == f
    ensures MergeNewBookmark(f, FullBookmarkPatch(g)) == g
  {
  }

  lemma MergeNewFolderLaws(f: NewFolder, u: NewFolderPatch)
    ensures var r := MergeNewFolder(f, u);
            && (u.name.None? ==> r.name == f.name) && (u.name.Some? ==> r.name == u.name.value)
            && (u.parentId.None? ==> r.parentId == f.parentId)
            && (u.parentId.Some? ==> r.parentId == u.parentId.value)
    ensures MergeNewFolder(MergeNewFolder(f, u), u) == MergeNewFolder(f, u)
    ensures MergeNewFolder(f, NewFolderPatch(None, None)) == f
  {
  }

  // ---------------------------------------------------------------------------
  // filteredBookmarks

  /** The title or the description contains the query, ignoring case. */
  predicate MatchesSearch(b: Bookmark, query: string) {
    Includes(ToLower(b.title), ToLower(query)) || Includes(ToLower(b.description), ToLower(query))
  }

  /** The tag selector is on "all" or on one of the bookmark's tags. */
  predicate MatchesTag(b: Bookmark, tag: string) {
    tag == "all" || tag in b.tags
  }

  function Shown(query: string, tag: string): Bookmark -> bool {
    (b: Bookmark) => MatchesSearch(b, query) && MatchesTag(b, tag)
  }

  /** The bookmarks both filters let through, in the store's order. */
  function FilteredBookmarks(s: BookmarkState): (r: seq<Bookmark>)
    ensures IsSubsequence(r, s.bookmarks)
    ensures forall k :: 0 <= k < |r| ==>
      MatchesSearch(r[k], s.searchQuery) && MatchesTag(r[k], s.selectedTag)
    ensures forall k :: (0 <= k < |s.bookmarks| && MatchesSearch(s.bookmarks[k], s.searchQuery)
                         && MatchesTag(s.bookmarks[k], s.selectedTag)) ==> s.bookmarks[k] in r
    ensures forall k :: 0 <= k < |s.bookmarks| ==>
      multiset(r)[s.bookmarks[k]] ==
        if MatchesSearch(s.bookmarks[k], s.searchQuery) && MatchesTag(s.bookmarks[k], s.selectedTag)
        then multiset(s.bookmarks)[s.bookmarks[k]] else 0
  {
    var shown := Shown(s.searchQuery, s.selectedTag);
    FilterIsSubsequence(s.bookmarks, shown);
    FilterCounts(s.bookmarks, shown);
    Filter(s.bookmarks, shown)
  }

  /** Lower-casing twice is lower-casing once. */
  lemma ToLowerIdempotent(s: string)
    ensures ToLower(ToLower(s)) == ToLower(s)
  {
    assert forall k :: 0 <= k < |s| ==> ToLowerChar(ToLowerChar(s[k])) == ToLowerChar(s[k]);
  }

  /** With an empty query and the selector on "all", every bookmark is shown. */
  lemma EmptyQueryShowsAll(s: BookmarkState)
    requires s.searchQuery == "" && s.selectedTag == "all"
    ensures FilteredBookmarks(s) == s.bookmarks
  {
    assert ToLower("") == "";
    forall b | b in s.bookmarks ensures Shown("", "all")(b) {
      IncludesEmpty(ToLower(b.title));
    }
    FilterAll(s.bookmarks, Shown("", "all"));
  }

  /** The search ignores the case of the query. */
  lemma SearchIgnoresQueryCase(s: BookmarkState)
    ensures FilteredBookmarks(s.(searchQuery := ToLower(s.searchQuery))) == FilteredBookmarks(s)
  {
    ToLowerIdempotent(s.searchQuery);
    FilterExt(s.bookmarks, Shown(ToLower(s.searchQuery), s.selectedTag), Shown(s.searchQuery, s.selectedTag));
  }

  // ---------------------------------------------------------------------------
  // bookmarkStats

  datatype Stats = Stats(total: nat, active: nat, archived: nat, totalTags: nat)

  function IsArchived(b: Bookmark): bool { b.isArchived }
  function IsActive(b: Bookmark): bool { !b.isArchived }

  /** Every bookmark is counted once, as active or as archived. */
  function BookmarkStats(s: BookmarkState): (r: Stats)
    ensures r.total == |s.bookmarks| && r.totalTags == |s.tags|
    ensures r.active + r.archived == r.total
    ensures r.archived == 0 <==> forall k :: 0 <= k < |s.bookmarks| ==> !s.bookmarks[k].isArchived
  {
    FilterPartition(s.bookmarks, IsArchived, IsActive);
    var archived := Filter(s.bookmarks, IsArchived);
    assert archived != [] ==> archived[0].isArchived;
    Stats(|s.bookmarks|, |Filter(s.bookmarks, IsActive)|, |archived|, |s.tags|)
  }

  /** The store starts with three bookmarks, one of them archived, and nine tags. */
  lemma InitialStats(now: int)
    ensures BookmarkStats(InitialState(now)) == Stats(3, 2, 1, 9)
  {
    var bs := MockBookmarks(now);
    var tail := bs[1..][1..];
    assert tail == [bs[2]] && tail[1..] == [];
    assert Filter(tail, IsArchived) == [bs[2]] + Filter(tail[1..], IsArchived);
    assert Filter(tail, IsActive) == Filter(tail[1..], IsActive);
    assert Filter(bs, IsArchived) == Filter(bs[1..], IsArchived) == Filter(tail, IsArchived) == [bs[2]];
    assert Filter(bs, IsActive) == [bs[0]] + Filter(bs[1..], IsActive);
    assert Filter(bs[1..], IsActive) == [bs[1]] + Filter(tail, IsActive);
  }

  // ---------------------------------------------------------------------------
  // The store and its actions

  class Store {
    var state: BookmarkState

    constructor (now: int)
      ensures state == InitialState(now)
    {
      state := InitialState(now);
    }

    method SetSearchQuery(query: string)
      modifies this
      ensures state == old(state).(searchQuery := query)
    {
      state := state.(searchQuery := query);
    }

    method SetSelectedTag(tag: string)
      modifies this
      ensures state == old(state).(selectedTag := tag)
    {
      state := state.(selectedTag := tag);
    }

    method SetSelectedFolder(folderId: Option<string>)
      modifies this
      ensures state == old(state).(selectedFolder := folderId)
    {
      state := state.(selectedFolder := folderId);
    }

    method SetIsAddDialogOpen(isOpen: bool)
      modifies this
      ensures state == old(state).(isAddDialogOpen := isOpen)
    {
      state := state.(isAddDialogOpen := isOpen);
    }

    method SetIsFolderDialogOpen(isOpen: bool)
      modifies this
      ensures state == old(state).(isFolderDialogOpen := isOpen)
    {
      state := state.(isFolderDialogOpen := isOpen);
    }

    method UpdateNewBookmark(updates: NewBookmarkPatch)
      modifies this
      ensures state == old(state).(newBookmark := MergeNewBookmark(old(state).newBookmark, updates))
    {
      state := state.(newBookmark := MergeNewBookmark(state.newBookmark, updates));
    }

    method UpdateNewFolder(updates: NewFolderPatch)
      modifies this
      ensures state == old(state).(newFolder := MergeNewFolder(old(state).newFolder, updates))
    {
      state := state.(newFolder := MergeNewFolder(state.newFolder, updates));
    }

    method ResetNewBookmark()
      modifies this
      ensures state == old(state).(newBookmark := EmptyNewBookmark)
    {
      state := state.(newBookmark := EmptyNewBookmark);
    }

    method ResetNewFolder()
      modifies this
      ensures state == old(state).(newFolder := EmptyNewFolder)
    {
      state := state.(newFolder := EmptyNewFolder);
    }

    /** Closes the dialog and clears the form; the bookmark itself is not
        saved anywhere. */
    method AddBookmark()
      modifies this
      ensures state == old(state).(isAddDialogOpen := false, newBookmark := EmptyNewBookmark)
      ensures FilteredBookmarks(state) == FilteredBookmarks(old(state))
      ensures BookmarkStats(state) == BookmarkStats(old(state))
    {
      SetIsAddDialogOpen(false);
      ResetNewBookmark();
    }

    /** Closes the dialog and clears the form; no folder is created. */
    method CreateFolder()
      modifies this
      ensures state == old(state).(isFolderDialogOpen := false, newFolder := EmptyNewFolder)
      ensures FilteredBookmarks(state) == FilteredBookmarks(old(state))
      ensures BookmarkStats(state) == BookmarkStats(old(state))
    {
      SetIsFolderDialogOpen(false);
      ResetNewFolder();
    }
  }
}
