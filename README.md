# recall-stack — a verified model of its core logic

recall-stack saves web pages as bookmarks, tags them and has a language model
summarise them. This project models in Dafny the parts of it that are
sequential logic, and proves what they promise:

- **Tags** (`tags.dfy`) models the backend's tag vocabulary and bookmark–tag
  links. `Tags.Database` is a class holding the `tags` and `bookmarkTags`
  tables, with one method per Convex mutation or query: `addTagToBookmark`,
  `removeTagFromBookmark`, `deleteTag`, `renameTag` and `getTagsForBookmark`.
  - Each mutation is also a function from the tables it reads to its answer
    and the tables it commits (`AddTagEffect`, …). Each method is proved to
    compute exactly that function.
  - The lemmas are stated about those functions.
  - Two invariants are kept:
    - `WellFormed`: ids identify rows, and no row holds an id not yet handed out;
    - `UniqueKeys`: at most one tag per (owner, name) and one link per
      (bookmark, tag). Only the mutations' own checks keep this one true.
- **BookmarkStore** (`bookmark_store.dfy`) models the dashboard's client
  state container:
  - the initial state;
  - every action (a `Store` class whose methods replace one field or merge a
    partial form);
  - the two derived views: the search/tag filter and the counters.
- **Ai** (`ai.dfy`) models the decision logic of `generateSummaryAndTags`:
  - the API-key check;
  - the short-content cut-off;
  - the 15000-character prompt truncation;
  - the three ways the answer is built from the model's outcome, including
    the two catch blocks.
- **Toasts** (`toasts.dfy`) models the extension's `useToasts` hook state and
  the margin rule of `ToastManager`.
- **TagInputContentScript** (`tag_input_content_script.dfy`) models the
  content script that injects the tag prompt into a page. It is a class over
  the script's module-level variables, the prompt's presence in the page,
  the auto-save timeout, the countdown interval and the messages sent.
- **TagInputComponent** (`tag_input_ui.dfy`) models the React tag prompt's
  state machine: the typed text, the countdown and `userInput`, with the
  effect and the event handlers as methods.
- **Shared modules:**
  - `TagList` (`tag_list.dfy`): the comma-list tag parsing and the countdown
    line that both prompts share;
  - `JsString` (`js_string.dfy`): JavaScript's `trim`, `split`,
    `toLowerCase`, `includes` and number-to-string conversion;
  - `Seqs` (`seqs.dfy`): `Array.prototype.filter` and its laws;
  - `Wrappers` (`wrappers.dfy`): `Option`.

How the source is represented:
- **Tables** are sequences of rows in creation order. This is the order in
  which an index returns rows that agree on the indexed fields.
- **`.unique()` with two or more matching rows** fails with `NotUnique`.
  Under `UniqueKeys` that never happens.
- **The caller's identity** is an `Option` of a subject.
- **The `users` table** is a map from subject to user id.
- **Clock readings, timer handles, random toast ids and the language model**
  are all parameters.

## Model

| member | source | states |
|---|---|---|
| Tags.Message | web/convex/tags.ts:61-236 | the text each thrown error carries |
| Tags.AddMessage | web/convex/tags.ts:108 | an existing link answers "Tag already exists on bookmark."; a new one carries no message |
| Tags.RemoveMessage | web/convex/tags.ts:156 | a missing link answers "Tag link not found."; a removal carries no message |
| Tags.Unique | web/convex/tags.ts:81-86 | `.unique()`: no row gives none, one row gives that row, and two or more give the `NotUnique` error |
| Tags.Authenticate | web/convex/tags.ts:59-69 | no identity gives "Unauthorized"; a subject with no user row gives "User not found"; otherwise the caller's user id |
| Tags.RenameRow | web/convex/tags.ts:239 | patching a name keeps the table's length and every row whose id differs; rows with the id get the new name |
| Tags.StageTag | web/convex/tags.ts:81-96 | find-or-create by (owner, trimmed name): the caller's existing tag is reused and nothing is written; with none, a tag under the next fresh id is staged; two matches fail |
| Tags.AddTagEffect | web/convex/tags.ts:58-116 | every failure leaves the tables unchanged; no identity gives "Unauthorized", an unknown user "User not found", a missing or foreign bookmark "Bookmark not found or access denied", an empty trimmed name "Tag name cannot be empty"; success implies all checks passed |
| Tags.LinkTag | web/convex/tags.ts:81-116 | once past the checks, a failure writes nothing |
| Tags.AddTagPastChecks | web/convex/tags.ts:58-78 | a successful add passed identity and bookmark checks and is the link step with the trimmed name |
| Tags.AddTagSucceeds | web/convex/tags.ts:59-78 | with unique keys the add succeeds exactly when the identity, bookmark and name checks pass |
| Tags.StageTagKeepsInvariants | web/convex/tags.ts:81-96 | staging keeps the tables well formed and names unique, changes no link, and the tag to link has an id already handed out |
| Tags.LinkTagKeepsInvariants | web/convex/tags.ts:81-116 | the link step keeps the tables well formed, and unique keys unique |
| Tags.AddTagKeepsInvariants | web/convex/tags.ts:58-116 | `addTagToBookmark` keeps the tables well formed, and unique keys unique |
| Tags.AlreadyLinkedWritesNothing | web/convex/tags.ts:99-109 | when the link exists the answer is "Tag already exists on bookmark." and no table changes, not even a new tag |
| Tags.LinkTagLinks | web/convex/tags.ts:81-116 | after success the caller owns exactly one tag with the name; it is linked to the bookmark; a new link answers that tag's id and the name |
| Tags.AddTagTwice | web/convex/tags.ts:99-109 | adding the same name to the same bookmark again answers "already exists" and changes nothing |
| Tags.LinkedAppendsOneLink | web/convex/tags.ts:111-116 | a new link is exactly one row (fresh id, bookmark, tag, caller) appended to the links; no link between that bookmark and tag existed |
| Tags.RemoveAppendedLink | web/convex/tags.ts:144-155 | removing the caller's only link between a bookmark and tag, when it is the last row appended under a fresh id, restores the links table before it |
| Tags.RemoveAfterAdd | web/convex/tags.ts:111-155 | removing the link an add just created gives back the links table the add found |
| Tags.RemoveTagEffect | web/convex/tags.ts:126-156 | the tags table and id counter never change; anything but a removal changes nothing; the identity errors and "Bookmark not found or access denied" come first |
| Tags.OwnedLinksBetweenMembers | web/convex/tags.ts:144-150 | the lookup finds exactly the caller's links from the bookmark to the tag |
| Tags.RemoveTagFindsNothing | web/convex/tags.ts:144-156 | past the checks, "Tag link not found." is answered exactly when the caller has no such link |
| Tags.RemoveTagRemovesOnlyThatLink | web/convex/tags.ts:152-154 | a removal deletes the caller's link between the bookmark and tag and keeps every other link |
| Tags.RemoveTagSucceeds | web/convex/tags.ts:126-156 | with unique keys the remove returns normally exactly when the identity and bookmark checks pass |
| Tags.RemoveTagTwice | web/convex/tags.ts:144-156 | removing the same link again answers "Tag link not found." and changes nothing |
| Tags.RemoveTagKeepsInvariants | web/convex/tags.ts:144-155 | `removeTagFromBookmark` keeps the tables well formed, and unique keys unique |
| Tags.DeleteTagEffect | web/convex/tags.ts:165-195 | success exactly when the caller owns the tag, otherwise "Tag not found or access denied" after the identity errors; on success the tag and every link to it, whoever owns the link, are gone and nothing else is |
| Tags.DeletedLinksAreTheTagsLinks | web/convex/tags.ts:184-192 | deleting the ids of the links found through `by_tagId` deletes exactly the links to the tag |
| Tags.DeleteOneMore | web/convex/tags.ts:189-192 | one more loop iteration deletes one more of the collected ids |
| Tags.DeleteTagKeepsInvariants | web/convex/tags.ts:165-195 | `deleteTag` keeps the tables well formed, and unique keys unique |
| Tags.DeletedTagNotListed | web/convex/tags.ts:184-194 | after a deletion the tag is listed for no bookmark |
| Tags.RenameTagEffect | web/convex/tags.ts:205-240 | failures change nothing; links never change; the identity errors, then "New tag name cannot be empty" for an empty trimmed name |
| Tags.RenameAs | web/convex/tags.ts:222-240 | past the identity and name checks, success implies the caller owns the tag, and only that tag's name is patched |
| Tags.RenameTagPastChecks | web/convex/tags.ts:205-228 | past the identity and name checks the rename is that step with the trimmed name |
| Tags.RenameTagConflict | web/convex/tags.ts:223-232 | another tag of the caller with the trimmed name gives "A tag with this name already exists.", whoever owns the tag being renamed |
| Tags.RenameAsConflict | web/convex/tags.ts:223-232 | the name conflict is raised before the ownership check |
| Tags.RenameTagOwnership | web/convex/tags.ts:230-237 | with no conflict (renaming to the tag's own name included) the rename succeeds exactly when the caller owns the tag, and otherwise fails with "Tag not found or access denied" |
| Tags.RenameAsOwnership | web/convex/tags.ts:230-237 | the same, for the step past the checks |
| Tags.RenameTagPatchesName | web/convex/tags.ts:239 | a successful rename keeps every other tag row, and the renamed row differs only in its name, which is the trimmed value |
| Tags.FindRenamed | web/convex/tags.ts:239 | looking the tag up after the patch gives the old row with the new name |
| Tags.RenameKeepsInvariants | web/convex/tags.ts:230-239 | patching the caller's tag to a name no other tag of theirs has keeps the tables well formed and names unique |
| Tags.RenameAsKeepsInvariants | web/convex/tags.ts:222-240 | the rename step keeps the tables well formed, and unique keys unique |
| Tags.RenameTagKeepsInvariants | web/convex/tags.ts:205-240 | `renameTag` keeps the tables well formed, and unique keys unique |
| Tags.TagsOfLinks | web/convex/tags.ts:41-48 | each link mapped to its tag row in link order, the missing ones dropped; what it promises is stated by the three lemmas below |
| Tags.TagsOfLinksMembers | web/convex/tags.ts:41-48 | a tag is in the result exactly when one of the links points at it |
| Tags.TagsForBookmarkMembers | web/convex/tags.ts:36-48 | a tag is listed for a bookmark exactly when one of that bookmark's links points at it |
| Tags.TagsOfLinksCount | web/convex/tags.ts:42-48 | at most one tag per link, and exactly one per link when no link dangles |
| Tags.Database.constructor | web/convex/schema.ts:53-66 | the `tags` and `bookmarkTags` tables start empty, over a given read-only `users` map and `bookmarks` table, and both invariants hold |
| Tags.Database.GetTagsForBookmark | web/convex/tags.ts:33-50 | the two loops compute the tags of the bookmark's links in link order, dropping missing tags; a tag is listed exactly when a link of the bookmark points at it |
| Tags.Database.AddTagToBookmark | web/convex/tags.ts:58-116 | the method answers and commits exactly what `AddTagEffect` describes, and keeps both invariants |
| Tags.Database.LinkTagTo | web/convex/tags.ts:81-116 | the reassigned `tag` and `tagIdToLink` and the two inserts compute exactly `LinkTag` |
| Tags.Database.RemoveTagFromBookmark | web/convex/tags.ts:126-156 | the method answers and commits exactly what `RemoveTagEffect` describes, and keeps both invariants |
| Tags.Database.DeleteTag | web/convex/tags.ts:165-195 | the method answers and commits exactly what `DeleteTagEffect` describes, and keeps both invariants |
| Tags.Database.DeleteLinksTo | web/convex/tags.ts:184-192 | the loop deleting link by link leaves exactly the links to other tags, and changes nothing else |
| Tags.Database.RenameTag | web/convex/tags.ts:205-240 | the method answers and commits exactly what `RenameTagEffect` describes, and keeps both invariants |
| BookmarkStore.InitialState | web/src/lib/bookmark-store.ts:86-106 | selectedTag "all", no folder selected, both dialogs closed, empty forms, three mock bookmarks, nine tags, four folders |
| BookmarkStore.MockBookmarks | web/src/lib/bookmark-store.ts:5-44 | three mock bookmarks created one, two and three days before now, newest first, only the oldest archived, three tags each |
| BookmarkStore.InitialStats | web/src/lib/bookmark-store.ts:5-44 | the initial counters are 3 bookmarks, 2 active, 1 archived, 9 tags |
| BookmarkStore.MergeNewBookmark | web/src/lib/bookmark-store.ts:174 | `{ ...state.newBookmark, ...updates }`; what it promises is stated by the two lemmas below |
| BookmarkStore.MergeNewFolder | web/src/lib/bookmark-store.ts:181 | `{ ...state.newFolder, ...updates }`; what it promises is stated by `MergeNewFolderLaws` |
| BookmarkStore.MergeNewBookmarkFields | web/src/lib/bookmark-store.ts:171-176 | each field of the merged form is the supplied value, or the form's own when the key is left out |
| BookmarkStore.MergeNewBookmarkLaws | web/src/lib/bookmark-store.ts:171-176 | two updates in a row are one update with the later keys winning; the same update twice is one; an empty update changes nothing; a full one replaces the form |
| BookmarkStore.MergeNewFolderLaws | web/src/lib/bookmark-store.ts:178-183 | each folder-form field is the supplied value or the old one; merging twice is merging once; an empty update changes nothing |
| BookmarkStore.MatchesSearch | web/src/lib/bookmark-store.ts:113-119 | the lower-cased title or the lower-cased description includes the lower-cased query |
| BookmarkStore.MatchesTag | web/src/lib/bookmark-store.ts:120-121 | the selector is "all" or one of the bookmark's tags |
| BookmarkStore.FilteredBookmarks | web/src/lib/bookmark-store.ts:109-126 | an order-preserving subsequence of the bookmarks, holding exactly those whose lower-cased title or description includes the lower-cased query and whose tags hold the selected tag, unless it is "all"; each bookmark shown occurs as often as in the store |
| BookmarkStore.EmptyQueryShowsAll | web/src/lib/bookmark-store.ts:112-123 | an empty query with the selector on "all" shows every bookmark |
| BookmarkStore.SearchIgnoresQueryCase | web/src/lib/bookmark-store.ts:113-119 | lower-casing the query does not change the view |
| BookmarkStore.BookmarkStats | web/src/lib/bookmark-store.ts:129-140 | total is the number of bookmarks, active + archived = total, totalTags is the number of tags, and archived is 0 exactly when no bookmark is archived |
| BookmarkStore.Store.constructor | web/src/lib/bookmark-store.ts:86-106 | the store starts at the initial state |
| BookmarkStore.Store.SetSearchQuery | web/src/lib/bookmark-store.ts:148-150 | only `searchQuery` changes |
| BookmarkStore.Store.SetSelectedTag | web/src/lib/bookmark-store.ts:152-154 | only `selectedTag` changes |
| BookmarkStore.Store.SetSelectedFolder | web/src/lib/bookmark-store.ts:156-158 | only `selectedFolder` changes |
| BookmarkStore.Store.SetIsAddDialogOpen | web/src/lib/bookmark-store.ts:160-162 | only `isAddDialogOpen` changes |
| BookmarkStore.Store.SetIsFolderDialogOpen | web/src/lib/bookmark-store.ts:164-169 | only `isFolderDialogOpen` changes |
| BookmarkStore.Store.UpdateNewBookmark | web/src/lib/bookmark-store.ts:171-176 | only the bookmark form changes, into the merge of the update |
| BookmarkStore.Store.UpdateNewFolder | web/src/lib/bookmark-store.ts:178-183 | only the folder form changes, into the merge of the update |
| BookmarkStore.Store.ResetNewBookmark | web/src/lib/bookmark-store.ts:185-196 | only the bookmark form changes, back to its initial empty value |
| BookmarkStore.Store.ResetNewFolder | web/src/lib/bookmark-store.ts:198-206 | only the folder form changes, back to its initial empty value |
| BookmarkStore.Store.AddBookmark | web/src/lib/bookmark-store.ts:208-214 | closes the add dialog and clears its form, and nothing else; the filtered view and the counters do not change |
| BookmarkStore.Store.CreateFolder | web/src/lib/bookmark-store.ts:216-222 | closes the folder dialog and clears its form, and nothing else; the filtered view and the counters do not change |
| Ai.KeyMissing | web/convex/ai.ts:22 | `!process.env.GOOGLE_GENERATIVE_AI_API_KEY`: the key is unset or empty |
| Ai.TooShort | web/convex/ai.ts:40 | the content is empty or its trimmed length is under 50 |
| Ai.Unhandled | web/convex/ai.ts:104-111 | the outer catch returns exactly when the exception converts to a string: "Unhandled AI error.", tags `[]` and "Unhandled error: " before its text; otherwise the value the conversion throws rejects the action |
| Ai.Answer | web/convex/ai.ts:71-111 | the model's object comes back untouched with no error; a failure that still returns has a summary, tags `[]` and an error; the action rejects exactly when the exception and the value its conversion throws both fail to convert |
| Ai.GenerateSummaryAndTags | web/convex/ai.ts:20-111 | the handler: the key check, then the length check, then the model call on the prompt; what it promises is stated by the lemmas below |
| Ai.Prefix | web/convex/ai.ts:63 | `substring(0, n)`: a prefix of at most n characters, the whole string when it is no longer |
| Ai.Prompt | web/convex/ai.ts:59-69 | the prompt is the fixed head, the truncated content and the fixed tail, so at most 15000 content characters long |
| Ai.PromptEmbedsPrefix | web/convex/ai.ts:63 | the prompt holds the content's first min(length, 15000) characters right after the head |
| Ai.SamePrefixSamePrompt | web/convex/ai.ts:59-69 | contents that agree on their first 15000 characters give the same prompt |
| Ai.OnlyThePrefixMatters | web/convex/ai.ts:59-81 | two contents past the length check that agree on their first 15000 characters get the same result from the same model |
| Ai.NoKey | web/convex/ai.ts:22-32 | with no key (or an empty one), summary and tags are null and the error names the key; the key check comes first, so this holds even for short content, and the model is not consulted |
| Ai.ShortContent | web/convex/ai.ts:40-44 | with a key, content whose trimmed length is under 50 gives "Content too short to process.", tags `[]` and no error, and the model is not consulted |
| Ai.EmptyIsTooShort | web/convex/ai.ts:40 | empty content counts as too short |
| Ai.LongTrimmedContentIsNotShort | web/convex/ai.ts:40 | trimmed content of 50 or more characters passes the length check |
| Ai.ModelSuccess | web/convex/ai.ts:71-103 | the model's summary and tags are returned as they are, with a null error |
| Ai.ModelFailure | web/convex/ai.ts:94-111 | a throwing model gives "AI processing failed.", tags `[]` and "Error in combined AI call: …"; if its string conversion throws, "Unhandled AI error.", `[]` and "Unhandled error: …"; if that conversion throws too, the action rejects |
| Ai.ErrorMeansNoTags | web/convex/ai.ts:22-111 | every returned result either has no error and both a summary and tags, or has an error and no tags beyond `[]` |
| Toasts.Appended | extension/src/components/ToastManager.tsx:54 | adding puts exactly one toast last and keeps the earlier ones in order |
| Toasts.WithoutId | extension/src/components/ToastManager.tsx:58 | removing keeps an order-preserving subsequence holding exactly the toasts with another id, each as often as before |
| Toasts.RemoveAbsent | extension/src/components/ToastManager.tsx:57-59 | removing an id no toast has changes nothing |
| Toasts.RemoveAfterAdd | extension/src/components/ToastManager.tsx:46-59 | adding a toast under a fresh id and removing that id gives the list back |
| Toasts.RemoveIdempotent | extension/src/components/ToastManager.tsx:57-59 | removing twice is removing once |
| Toasts.Margins | extension/src/components/ToastManager.tsx:23-29 | the first rendered toast gets "16px" and every later one "12px" |
| Toasts.ToastList.constructor | extension/src/components/ToastManager.tsx:44 | the toast list starts empty |
| Toasts.ToastList.AddToast | extension/src/components/ToastManager.tsx:46-55 | the new toast, with the given id, message, type and duration, is appended |
| Toasts.ToastList.RemoveToast | extension/src/components/ToastManager.tsx:57-59 | the list becomes the one without the id |
| Toasts.ToastList.ShowSuccess | extension/src/components/ToastManager.tsx:61-63 | appends a toast of type success |
| Toasts.ToastList.ShowError | extension/src/components/ToastManager.tsx:65-67 | appends a toast of type error |
| Seqs.Filter | web/src/lib/bookmark-store.ts:112 | `Array.prototype.filter`: at most as long as the input, every kept element is an element of the input that passes, and every element that passes is kept |
| Seqs.FilterCount | extension/src/components/ToastManager.tsx:58 | an element that passes occurs in the result as often as in the input; any other not at all |
| Seqs.FilterCounts | extension/src/components/ToastManager.tsx:58 | the same, for every element of the input at once |
| JsString.Join | extension/src/content_scripts/tag_input_content_script.ts:28 | `join(sep)`, the inverse `Split` is stated against |
| JsString.Includes | web/src/lib/bookmark-store.ts:116 | `includes`; what it promises is stated by `IncludesAt` |
| JsString.Trim | web/convex/tags.ts:76 | `trim()` leaves no whitespace at either end, and gives "" exactly when the string is all whitespace |
| JsString.TrimIsInfix | web/convex/tags.ts:76 | the trimmed string is the part of the input between a whitespace prefix and a whitespace suffix |
| JsString.TrimKeepsAbsent | extension/src/content_scripts/tag_input_content_script.ts:28 | trimming adds no character |
| JsString.TrimIdempotent | web/convex/tags.ts:84 | trimming twice is trimming once |
| JsString.Split | extension/src/content_scripts/tag_input_content_script.ts:28 | `split(",")` gives at least one piece, no piece holds the separator, and joining the pieces gives the input back |
| JsString.SplitJoin | extension/src/content_scripts/tag_input_content_script.ts:28 | separator-free pieces joined with the separator split back into themselves |
| JsString.ToLower | web/src/lib/bookmark-store.ts:115 | lower-casing keeps the length and maps every character on its own |
| JsString.IncludesAt | web/src/lib/bookmark-store.ts:116 | `includes` holds exactly when the query occurs at some position |
| JsString.IncludesEmpty | web/src/lib/bookmark-store.ts:116 | every string includes "" |
| JsString.DecimalString | extension/src/content_scripts/tag_input_content_script.ts:99 | `${n}` gives decimal digits, at least one and with no leading zero |
| JsString.DecimalRoundTrip | extension/src/content_scripts/tag_input_content_script.ts:99 | the digits read back as the number |
| TagList.TrimAll | extension/src/content_scripts/tag_input_content_script.ts:28 | `map(tag => tag.trim())` trims every piece, one for one |
| TagList.ParseTags | extension/src/content_scripts/tag_input_content_script.ts:28 | every tag is non-empty, trimmed and comma-free; the tags are the trimmed comma-separated pieces in their order, each non-empty piece kept as often as it occurs and the empty ones dropped |
| TagList.ParseUntidy | extension/src/content_scripts/tag_input_content_script.ts:28 | `" news , ,dafny "` parses to `["news", "dafny"]` |
| TagList.ParseEmpty | extension/src/content_scripts/tag_input_content_script.ts:28 | an empty value yields no tags |
| TagList.ParseJoin | extension/src/components/TagInputUI.tsx:21 | well-formed tags written `a,b,c` parse back to exactly themselves |
| TagList.AutoSavingText | extension/src/content_scripts/tag_input_content_script.ts:99 | the countdown line is "Auto-saving in ", digits that read back as the count, and "s..." |
| TagInputContentScript.FieldValue | extension/src/content_scripts/tag_input_content_script.ts:27 | the field is found exactly while a container is in the page, and then has the typed value |
| TagInputContentScript.FieldTags | extension/src/content_scripts/tag_input_content_script.ts:28 | no field gives no tags; otherwise the comma-list tags of the field's value, each well formed |
| TagInputContentScript.FieldTagsJoin | extension/src/content_scripts/tag_input_content_script.ts:28 | a field holding well-formed tags written `a,b,c` yields exactly those tags |
| TagInputContentScript.Payload | extension/src/content_scripts/tag_input_content_script.ts:30-36 | the message carries url and title from the page details, the selection as description, and the tags |
| TagInputContentScript.AfterRemoval | extension/src/content_scripts/tag_input_content_script.ts:14-17 | `removeTagInputUI` removes one container when there is one |
| TagInputContentScript.AsWrittenLosesTypedTags | extension/src/content_scripts/tag_input_content_script.ts:24-28 | reading the field after removing the prompt yields no tags, while the same field read before yields the typed list |
| TagInputContentScript.ContentScript.constructor | extension/src/content_scripts/tag_input_content_script.ts:9-10 | empty page details, a null `timerId`, no prompt, nothing sent |
| TagInputContentScript.ContentScript.RemoveTagInputUI | extension/src/content_scripts/tag_input_content_script.ts:13-22 | the prompt and its interval are gone, no timeout is pending, a truthy `timerId` is nulled; a second call changes nothing |
| TagInputContentScript.ContentScript.SubmitTagsAsWritten | extension/src/content_scripts/tag_input_content_script.ts:24-43 | as written: removes the prompt, then sends the page details with no tags |
| TagInputContentScript.ContentScript.SubmitTags | extension/src/content_scripts/tag_input_content_script.ts:24-43 | corrected: sends the page details with the tags of the field as it was, then nothing is pending and no prompt remains |
| TagInputContentScript.ContentScript.CreateTagInputUI | extension/src/content_scripts/tag_input_content_script.ts:45-143 | any earlier prompt goes; exactly one prompt with an empty field counts down from 5 showing "Auto-saving in 5s..."; the timeout named by `timerId` is the only one pending; the interval runs |
| TagInputContentScript.ContentScript.OnMessage | extension/src/content_scripts/tag_input_content_script.ts:145-159 | `initTagInput` replaces the page details with the request's, rebuilds the single prompt and answers false; any other message changes nothing and answers undefined |
| TagInputContentScript.ContentScript.Type | extension/src/content_scripts/tag_input_content_script.ts:71-79 | typing changes only the field's value |
| TagInputContentScript.ContentScript.IntervalTick | extension/src/content_scripts/tag_input_content_script.ts:119-127 | the count drops by exactly one and never below 0; the interval runs exactly while it is above 0, and the line shows it |
| TagInputContentScript.ContentScript.FireTimeoutAsWritten | extension/src/content_scripts/tag_input_content_script.ts:111-116 | as written: the timeout submits only if the prompt is still in the page, and the message then carries no tags; otherwise nothing is sent |
| TagInputContentScript.ContentScript.FireTimeout | extension/src/content_scripts/tag_input_content_script.ts:111-116 | with the corrected `submitTags`: the timeout submits the typed tags only if the prompt is still in the page, and sends nothing otherwise |
| TagInputContentScript.ContentScript.ClickSaveAsWritten | extension/src/content_scripts/tag_input_content_script.ts:89-92 | as written: the save button clears the timeout and sends the message with no tags, whatever was typed; no prompt remains |
| TagInputContentScript.ContentScript.ClickSave | extension/src/content_scripts/tag_input_content_script.ts:89-92 | with the corrected `submitTags`: the save button clears the timeout and sends the typed tags; no prompt remains |
| TagInputContentScript.ContentScript.ContainerRemovedByPage | extension/src/content_scripts/tag_input_content_script.ts:130-142 | the observer stops the interval when the page drops the container; the timeout stays pending |
| TagInputComponent.SubmitCalls | extension/src/components/TagInputUI.tsx:20-24 | `handleSubmit` calls `onSubmit` with the comma-list tags of the text, each well formed, and the page details, then `onClose` |
| TagInputComponent.SubmitCallsJoin | extension/src/components/TagInputUI.tsx:20-24 | what the user typed as `a,b,c` is what `onSubmit` receives |
| TagInputComponent.StatusText | extension/src/components/TagInputUI.tsx:90-99 | above 0 the status line shows the count as "Auto-saving in Ns..."; otherwise it is "Saving..." |
| TagInputComponent.StatusTextsDiffer | extension/src/components/TagInputUI.tsx:90-99 | the counting line and "Saving..." never coincide |
| TagInputComponent.TagInput.constructor | extension/src/components/TagInputUI.tsx:15-18 | empty text, a count of 5, no input yet, one tick scheduled |
| TagInputComponent.TagInput.RunEffect | extension/src/components/TagInputUI.tsx:26-48 | at or below 0 it submits whether or not the user typed and schedules nothing; otherwise it schedules a tick |
| TagInputComponent.TagInput.Tick | extension/src/components/TagInputUI.tsx:43-45 | the count drops by exactly one; reaching 0 submits once |
| TagInputComponent.TagInput.InputChange | extension/src/components/TagInputUI.tsx:50-55 | the text is replaced and `userInput` becomes and stays true; the effect re-runs only when its dependencies changed |
| TagInputComponent.TagInput.KeyDown | extension/src/components/TagInputUI.tsx:63-68 | Enter submits the current text; any other key changes nothing |
| TagInputComponent.TagInput.ManualSubmit | extension/src/components/TagInputUI.tsx:57-60 | the form's submit submits the current text |

## Left out

- Tags: the `users` table is a map from subject to user id, read only. `getAllUserTags` (web/convex/tags.ts:6-30) is outside the modelled core.
- Tags: tables are sequences, not maps, so that index order (creation order) is part of the model. Document ids are naturals from one counter shared by both tables.
- Tags: concurrent mutations are not modelled. Each mutation is one atomic step, and a failed one commits nothing, as Convex transactions do.
- Tags.Database.GetTagsForBookmark: `getTagsForBookmark` asks for no identity, and the model keeps that. It returns whole tag rows, where the source builds `{ _id, name, userId }` objects from the same three fields.
- Tags: the exceptions' texts are the answers of `Message`, and the field names of the success objects are not modelled. The one exception: the `NotUnique` text is a placeholder, since the message `.unique()` throws comes from the Convex library, which is not part of this model.
- BookmarkStore: a `Partial` key present with the value `undefined` is not modelled; an absent key is `None`. `null` and `undefined` for `selectedFolder` are both `None`.
- BookmarkStore: the `console.log` calls are left out, and `Date.now()` is the parameter `now`.
- JsString.ToLower: only ASCII letters are lower-cased; JavaScript's full Unicode case mapping is not modelled.
- JsString: a `char` stands for one UTF-16 code unit; surrogate pairs are not modelled.
- Ai: the language model is an oracle function from the prompt to an outcome. The Zod schema's validation is not modelled, and neither are the agent, the `ctx` argument or the `console` calls.
- Ai: the two `if` blocks after the model call only log, so they are left out.
- Ai: the too-short answer (web/convex/ai.ts:43) has no `error` key at all, where the other answers carry `error: null` or a string. `AiResult` maps both a missing key and `null` to `None`, so the model does not tell them apart.
- Ai: `summary || …` and `tags.length > 0 ? …` in the inner catch are modelled by their values there: the summary is still null and the tags still `[]`, because an exception means the assignments on lines 80-81 did not run.
- Toasts: the id built from `Date.now()` and `Math.random()` is a parameter. Rendering beyond the margin rule is not modelled.
- TagInputContentScript: the page is reduced to the number of containers with the prompt's id and the field's value. The DOM, styling and focus are not modelled.
- TagInputContentScript: `MutationObserver` callbacks run asynchronously in the browser. The model stops the interval at the moment the container is removed.
- TagInputContentScript: how the 5-second timeout and the fifth interval tick interleave is not modelled. Each browser event is a method the caller may call in any order its precondition allows.
- TagInputContentScript.ContentScript.FireTimeout: models the timeout with the corrected `submitTags` and so sends the typed tags; the source's timeout sends `[]` (see Findings), which is what `FireTimeoutAsWritten` models.
- TagInputContentScript.ContentScript.ClickSave: models the save button with the corrected `submitTags` and so sends the typed tags; the source's button sends `[]` (see Findings), which is what `ClickSaveAsWritten` models.
- TagInputContentScript: `chrome.runtime.sendMessage`'s callback and `lastError` are I/O and left out; a sent message is appended to `outbox`.
- TagInputComponent: the effect's one-second timer is not restarted when `handleSubmit` changes without a tick; a pending tick stays pending.
- TagInputComponent: the `onClose` handler unmounting the component is the parent's business. After a submit the model keeps accepting events.
- TagInputComponent: rendering, focus and `preventDefault` are left out.

## Findings

| source | as written | input that shows it | evidently intended | confidence | as-written member | corrected member |
|---|---|---|---|---|---|---|
| extension/src/content_scripts/tag_input_content_script.ts:24-28 | `submitTags` calls `removeTagInputUI()` first. That removes the container holding the input field, so the `getElementById` on line 27 finds nothing and the message always carries `tags: []` | the user types `news,dafny` and clicks "Save Bookmark": the message carries `[]` instead of `["news", "dafny"]` | read the field before removing the prompt, and send the typed tags | not executed | TagInputContentScript.ContentScript.SubmitTagsAsWritten, TagInputContentScript.ContentScript.ClickSaveAsWritten, TagInputContentScript.AsWrittenLosesTypedTags | TagInputContentScript.ContentScript.SubmitTags, TagInputContentScript.ContentScript.ClickSave |
