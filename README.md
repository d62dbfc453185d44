# chinese-novel-writer, modelled in Dafny

This project models the logic at the heart of the "chinese-novel-writer" Obsidian
plugin and proves properties of it. It covers six areas.

- **Inspiration cards.** A card is a markdown note with up to three parts: an
  optional front matter block between `---` lines, an optional metadata region
  `<!---cw-data … --->` holding a JSON object, and a free-text body.
  - The card codec (`CardCodec`, `CardFile`) splits and composes that text. It
    also normalises tags, image paths, hex colours and finite numbers.
  - The metadata upserts (`CardMetadata`, `MetadataRecord`) rebuild the
    canonical metadata record in a fixed key order.
  - The card store (`InspirationStore.InspirationView`) holds the card list,
    searches it and sorts it with pinned cards first.
  - The per-card editor session (`CardSession.CardEditor`) is the autosave
    engine: a debounce timer, a FIFO save chain whose stale requests do
    nothing, an "unchanged text means no write" guard, and a saved baseline
    that moves only after a write succeeds. It also holds the pin, colour,
    float and image handlers.
  - A few view helpers (`ViewHelpers`): a unique file path for a new card, the
    inline bold/italic wrapper toggle, and the preview line count.
- **Markdown statistics** (`MdCount`, `MdStats`).
  - The CJK character count skips front matter, heading markers, whitespace
    and `-`, and counts every number token as one.
  - The 500-character milestone gutter.
  - Ancestor folder paths and the folder-stat delta.
  - The versioned per-file count cache and the status-bar text.
- **Slash completion.**
  - The snippet file parser (`SnippetParse`): `## key[@preview]` sections, and
    resolution of the `{$cursor}` marker.
  - Candidate filtering and ranking (`CandidateRank`, `SlashSnippet`,
    `SlashH2`).
  - The popup's page and selection arithmetic (`SlashPopup.Popup`).
- **CJK punctuation auto-pair** (`CnPunctuation`): the opener/closer table, and
  the inserted text and cursor for a typed opener.
- **Keyword highlighting** (`Highlight`).
  - The novel-folder to setting-folder mapping.
  - The per-folder keyword cache.
  - Literal keyword occurrence search, sorted by position.
- **Shared modules.**
  - `Text`: JavaScript `trim`/`split`/`join` and ASCII case mapping.
  - `Json`: the JSON value shape.
  - `Sorting`: a stable insertion sort proved sorted, a permutation and stable.
  - `Seqs`: dedup, take and filter.
  - `TrimmedSet`: an ordered set of trimmed, non-empty strings.

Some parts of the source are outside the model and appear as parameters:
JSON parsing, vault reads and writes, the markdown parser, timers and the
locale comparator.
- JSON parsing is a function parameter `parse`. Properties that need a
  serialised record to read back as itself take the hypothesis
  `CardMetadata.ReadsBack`.
- Each vault write is an `ok` flag saying whether it succeeded.
- The markdown parser's H2 headings are a `h2Texts` parameter.
- Promise chains and `setTimeout` are explicit events on the card editor:
  `RunNext`/`CompleteWrite` drain the save chain and `TimerFires` expires a
  timer.
- `localeCompare("zh-Hans-CN")` is an abstract total preorder `le`.

In the code, the pin, colour and float buttons write the file directly, not
through the per-card save chain, and the model does the same
(`CardSession.CardEditor.WriteMetadata`).

Two defects are recorded under "## Findings". Each is modelled twice: once as
written, and once corrected. The rest of the model uses the corrected
definition. "## Left out" names every member that depends on a corrected
definition.

## Model

| member | source | states |
|---|---|---|
| CardCodec.NormalizeNewlines | src/inspiration-card-codec.ts:18 | the result has no `\r` and is never longer than the input; text without `\r` is unchanged |
| CardCodec.FrontmatterInfoSpec | src/inspiration-card-codec.ts:183-189 | a front matter is found exactly when the text starts with `---\n` and `\n---\n` occurs at index 4 or later; the text is then `---\n` + body + `\n---\n` + rest, with no earlier closing fence |
| CardCodec.GetFrontmatterInfo | src/inspiration-card-codec.ts:183-189 | the end index is the body length plus both fences and lies within the text |
| CardCodec.CwDataInfoSpec | src/inspiration-card-codec.ts:191-200 | the region found is the first `<!---cw-data…\n--->` match, with no match starting earlier; none is found exactly when the text holds no such region |
| CardCodec.GetCwDataInfo | src/inspiration-card-codec.ts:191-200 | the region found lies within the text |
| CardCodec.QuoteBareColorsOnlyAddsQuotes | src/inspiration-card-codec.ts:150 | the colour-quoting pre-pass only inserts `"` characters: with them removed, the text is unchanged |
| CardCodec.QuoteBareColorsOfKeyValue | src/inspiration-card-codec.ts:150 | a bare `#RRGGBB` right after `"color": ` gets quoted |
| CardCodec.QuoteBareColorsNoKey | src/inspiration-card-codec.ts:150 | text without a `"color"` key passes through unchanged |
| CardCodec.ParseCwDataObject | src/inspiration-card-codec.ts:147-157 | blank metadata gives no object; an object is returned only when the quoted text parses to an object or array, and a parsed object is returned as is |
| CardCodec.NormalizeHexColor | src/inspiration-card-codec.ts:159-163 | a colour is returned exactly when the value is a string whose trim is `#` plus six hex digits; the result is that colour in upper case |
| CardCodec.NormalizeHexColorIdempotent | src/inspiration-card-codec.ts:159-163 | normalising a normalised colour gives it back |
| CardCodec.NormalizeFiniteNumber | src/inspiration-card-codec.ts:165-168 | a number is returned exactly when the value is a finite number, and it is that number |
| CardCodec.TagTokens | src/inspiration-card-codec.ts:70-114 | under the corrected tag rule of the first finding, tokens have no duplicates and are well formed (`#`, then one or more characters, none of them whitespace, comma or `#`); their members are exactly the candidate tokens of the string items; a value that is neither a string nor an array gives none |
| CardCodec.ExtractTagTokens | src/inspiration-card-codec.ts:70-114 | the seen-set loop computes exactly `TagTokens` |
| CardCodec.TagTokensIgnoreNonStrings | src/inspiration-card-codec.ts:74-79 | a non-string array item contributes no token |
| CardCodec.TagTokensOfString | src/inspiration-card-codec.ts:85-111 | under the corrected tag rule, the tokens of a string are its candidate tokens in first-seen order without duplicates |
| CardCodec.FormatTagLine | src/inspiration-card-codec.ts:116-118 | the line is empty exactly when there are no tokens, and otherwise starts with a space |
| CardCodec.FormatTagCsv | src/inspiration-card-codec.ts:120-122 | the CSV is null exactly when there are no tokens |
| CardCodec.NormalizeTagLine | src/inspiration-card-codec.ts:66-68 | the normalised line is empty exactly when the value holds no tag, and otherwise starts with a space |
| CardCodec.TagTokensAgree | src/inspiration-card-codec.ts:70-114 | when every token the code as written produces is well formed, the corrected rule gives exactly the same tokens |
| CardCodec.NormalizeTagLineAgrees | src/inspiration-card-codec.ts:66-68 | under the same condition, the corrected and the as-written normalisation give the same line |
| CardCodec.TagLineRoundTrip | src/inspiration-card-codec.ts:116-118 | reading the tag line formatted from distinct well-formed tokens gives those tokens back |
| CardCodec.TagCsvRoundTrip | src/inspiration-card-codec.ts:120-122 | the CSV form is null exactly for no tokens, and reading it back gives the tokens |
| CardCodec.NormalizeTagLineIdempotent | src/inspiration-card-codec.ts:66-68 | normalising a tag line twice equals normalising it once |
| CardCodec.TagLineUnstableAsWritten | src/inspiration-card-codec.ts:99-110 | with the split path as written, `a#` normalises to ` #a#` and that to ` #a` |
| CardCodec.TagLineOfBareHashSuffix | src/inspiration-card-codec.ts:99-110 | with the split path as written, the line `a#` yields the token `#a#` |
| CardCodec.TagLineOfSpacedToken | src/inspiration-card-codec.ts:86-96 | the direct `#[^\s,#]+` match reads ` #a#` as `#a` |
| CardCodec.TagTokensAsWritten | src/inspiration-card-codec.ts:70-114 | the tokens as the code writes them have no duplicates, start with `#`, and hold no whitespace or comma |
| CardCodec.CanonicalImagePaths | src/inspiration-card-codec.ts:170-181 | at most 8 paths, without duplicates |
| CardCodec.CanonicalImagePathsMembers | src/inspiration-card-codec.ts:170-181 | every kept path is trimmed and non-empty and comes from the input |
| CardCodec.NormalizeImagePaths | src/inspiration-card-codec.ts:170-181 | the loop that stops at 8 computes exactly `CanonicalImagePaths` |
| CardCodec.ExtractImagePaths | src/inspiration-card-codec.ts:124-140 | at most 8 trimmed, non-empty, distinct paths, none holding a comma |
| CardCodec.ExtractImagePathsOfString | src/inspiration-card-codec.ts:135-139 | a CSV string gives the canonical list of its trimmed non-empty fields |
| CardCodec.ExtractImagePathsOfCsv | src/inspiration-card-codec.ts:124-140 | joining a canonical list with commas and reading it back gives the list |
| CardCodec.FormatImageCsv | src/inspiration-card-codec.ts:142-145 | null exactly when the canonical list is empty |
| CardCodec.ImageCsvRoundTrip | src/inspiration-card-codec.ts:124-145 | reading back the formatted CSV gives the canonical list |
| CardCodec.CanonicalImagePathsOfCanonical | src/inspiration-card-codec.ts:170-181 | canonicalising a canonical list changes nothing |
| CardFile.SplitSections | src/inspiration-card-codec.ts:17-26 | the body never starts with a newline, and the metadata region never contains its closing marker |
| CardFile.ParseCardContent | src/inspiration-card-codec.ts:17-52 | the body has no leading newline, there are at most 8 images, and a colour is upper-case hex; without metadata, the card is unpinned and not floating, with no images, tags or colour |
| CardFile.ComposeLayout | src/inspiration-card-codec.ts:54-64 | the composed text is the non-blank blocks, each followed by a blank line, then the body without leading or trailing newlines |
| CardFile.SectionsOfHead | src/inspiration-card-codec.ts:17-26 | splitting composed blocks plus a body gives back the front matter, metadata and body |
| CardFile.NoCrInComposed | src/inspiration-card-codec.ts:54-64 | composing parts without `\r` yields text without `\r` |
| CardFile.ParseComposeRoundTrip | src/inspiration-card-codec.ts:17-64 | parsing a composed card returns its front matter, metadata and body, given that none holds `\r`, the front matter has no `---` line and no trailing newline, the metadata opens with a visible character and never closes early, and the body has no outer newlines and does not open a block it lacks |
| CardMetadata.Clamped | src/inspiration-view.ts:2105-2106 | width at least 280 and height at least 40; position unchanged; a size already large enough is kept |
| CardMetadata.ResolveFloatingGeometry | src/inspiration-view.ts:2096-2120 | a remembered geometry for the path wins; otherwise the persisted one is used only when all four fields are finite numbers; either way it is clamped to the minimum size |
| CardMetadata.PersistedGeometry | src/inspiration-view.ts:2109-2113 | present exactly when `floatx`, `floaty`, `floatw` and `floath` are all finite numbers, and it holds those values |
| CardMetadata.ApplyFloatingFields | src/inspiration-view.ts:2081-2094 | only the floating fields are added, and only when the old record floats: `isfloating` plus all four geometry fields, or none of them |
| CardMetadata.ColorRecord | src/inspiration-view.ts:1977-1994 | the canonical record with the upper-cased argument as colour; the pin, tags and images come from the old record, and floating is carried over |
| CardMetadata.PinnedRecord | src/inspiration-view.ts:1996-2016 | the canonical record with the given pin; a valid old colour, tags and images are kept, and floating is carried over |
| CardMetadata.CardContentRecord | src/inspiration-view.ts:2018-2043 | the canonical record with tags from the tag line and images from the list, each only when non-empty |
| CardMetadata.FloatingRecord | src/inspiration-view.ts:2045-2079 | floating writes `isfloating` and the chosen geometry, all four fields; not floating drops every floating key |
| CardMetadata.PinnedReadBack | src/inspiration-view.ts:1996-2016 | a record holding a pin reads back with that pin |
| CardMetadata.ColorReadBack | src/inspiration-view.ts:1996-2016 | a colour carried over from the old record reads back unchanged |
| CardMetadata.FloatingReadBack | src/inspiration-view.ts:2081-2094 | floating fields carried over read back with the old floating state and, when floating, the same resolved geometry |
| CardMetadata.GeometryReadBack | src/inspiration-view.ts:2096-2120 | a written geometry of at least the minimum size resolves back to itself when nothing is remembered for the path |
| CardMetadata.CardContentReadBack | src/inspiration-view.ts:2018-2043 | the written record reads back the tag line's tokens, the canonical images, and the old pin and colour |
| CardMetadata.UpsertCwDataPinnedIdempotent | src/inspiration-view.ts:1996-2016 | applying the same pin upsert twice gives the same text as once, when JSON parsing reads the written text back |
| CardMetadata.UpsertCwDataColorIdempotent | src/inspiration-view.ts:1977-1994 | applying the same colour upsert twice gives the same text as once, when JSON parsing reads the written text back |
| CardMetadata.UpsertCwDataCardContentIdempotent | src/inspiration-view.ts:2018-2043 | applying the same content upsert twice gives the same text as once, when JSON parsing reads the written text back |
| CardMetadata.UpsertCwDataFloatingIdempotent | src/inspiration-view.ts:2045-2079 | applying the same floating upsert twice gives the same text as once, when JSON parsing reads the written text back |
| InspirationStore.PatchedLaws | src/inspiration-view.ts:267 | an empty patch changes nothing, and applying a patch twice equals applying it once |
| InspirationStore.FindIndex | src/inspiration-view.ts:263 | the index of the first model with that path, or -1 exactly when there is none |
| InspirationStore.PatchAtSpec | src/inspiration-view.ts:262-268 | only the first model with the path gets the patch, every other model is unchanged, and an unknown path changes nothing |
| InspirationStore.WordsOfJoin | src/inspiration-view.ts:271-275 | splitting space-joined words on whitespace gives the words back |
| InspirationStore.FilterModelsBySearch | src/inspiration-view.ts:270-282 | a blank query keeps every card; otherwise exactly the cards matching every lower-cased query word remain, in their order (`Seqs.Filter`) |
| InspirationStore.ModelsFloating | src/inspiration-view.ts:231-237 | exactly the cards with the requested floating state, in their order (`Seqs.Filter`) |
| InspirationStore.CardOrderIsPreorder | src/inspiration-view.ts:239-251 | the card order of each sort mode is a total preorder |
| InspirationStore.SortedModels | src/inspiration-view.ts:253-260 | a permutation of the cards with pinned cards first, sorted by the card order |
| InspirationStore.SortedModelsStable | src/inspiration-view.ts:253-260 | cards that tie keep their relative order |
| InspirationStore.ListedMembers | src/inspiration-view.ts:289-291 | the listed cards are exactly the non-floating cards that match the search |
| InspirationStore.Listed | src/inspiration-view.ts:289-291 | the list shows pinned cards first |
| InspirationStore.InspirationView.ListedModels | src/inspiration-view.ts:289-291 | the view's list shows pinned cards first |
| InspirationStore.InspirationView.constructor | src/inspiration-view.ts:43-59 | the view starts with the given cards, no remembered geometry, newest-first order and an empty search |
| InspirationStore.InspirationView.PatchCardModel | src/inspiration-view.ts:262-268 | the card list becomes the patched list, and nothing else changes |
| InspirationStore.InspirationView.RemoveCard | src/inspiration-view.ts:838 | the list becomes `WithoutPath` of the old list: exactly the cards with other paths remain, in their order |
| InspirationStore.InspirationView.AddCard | src/inspiration-view.ts:551 | the new card is appended |
| InspirationStore.WithoutPath | src/inspiration-view.ts:838 | exactly the cards with other paths remain, in their order (`Seqs.Filter`), none added |
| InspirationStore.PinKeepsExclusive | src/inspiration-view.ts:799-809 | pinning only when no other card is pinned keeps at most one card pinned |
| InspirationStore.PatchKeepsExclusive | src/inspiration-view.ts:262-268 | a patch that does not touch the pin keeps at most one card pinned |
| CardSession.CardEditor.constructor | src/inspiration-view.ts:601-606 | the editor starts from the card's fields, with the composed card as saved baseline, and no requests, timers or writes |
| CardSession.CardEditor.SaveContent | src/inspiration-view.ts:719-721 | a fresh, larger request id is queued, and every earlier queued request becomes stale |
| CardSession.CardEditor.RunNext | src/inspiration-view.ts:722-730 | the head of the chain is dequeued; a stale request does nothing; otherwise the card is composed and written only when it differs from the saved baseline |
| CardSession.CardEditor.CompleteWrite | src/inspiration-view.ts:731-751 | after a successful write the baseline, metadata, shown body and tags and the card model advance; after a failure none of them changes |
| CardSession.CardEditor.ScheduleAutoSave | src/inspiration-view.ts:755-763 | any pending timer is replaced, so exactly one timer is pending |
| CardSession.CardEditor.TimerFires | src/inspiration-view.ts:759-762 | the expired timer is cleared and one save is queued |
| CardSession.CardEditor.FlushAutoSave | src/inspiration-view.ts:764-770 | the pending timer is cleared and one save is queued at once |
| CardSession.CardEditor.AtMostOneTimer | src/inspiration-view.ts:755-770 | at most one debounce timer is ever pending |
| CardSession.CardEditor.EditBody | src/inspiration-view.ts:925-928 | the body text changes and the debounce timer restarts |
| CardSession.CardEditor.EditTags | src/inspiration-view.ts:963-966 | the tag text changes and the debounce timer restarts |
| CardSession.CardEditor.AddImage | src/inspiration-view.ts:678-696 | no selection, an image already attached, or the 8-image limit refuse the image; otherwise it is appended and a save queued; the limit and distinctness are kept |
| CardSession.CardEditor.RemoveImage | src/inspiration-view.ts:697-706 | the list becomes `Without` of the old list, the other images in their order; a save is queued exactly when the image was attached |
| CardSession.CardEditor.WriteMetadata | src/inspiration-view.ts:780-797 | unchanged text writes nothing; a successful write advances the baseline, metadata and card model; a failed one leaves them as they were |
| CardSession.CardEditor.SelectColor | src/inspiration-view.ts:779-798 | the colour upsert is written as `WriteMetadata` does, and the shown colour becomes the upper-cased hex only when the write succeeds |
| CardSession.CardEditor.TogglePinned | src/inspiration-view.ts:799-828 | pinning is refused with no write while another card is pinned; otherwise the flipped pin is written; at most one pinned card is preserved |
| CardSession.CardEditor.ToggleFloating | src/inspiration-view.ts:860-923 | the flipped floating state is written, and a pinned card that starts floating is unpinned; the remembered geometry is set or dropped once there is something to write |
| CardSession.ChainTail | src/inspiration-view.ts:722-724 | dequeuing the head keeps the chain's ids strictly increasing and none above the latest id |
| CardSession.Without | src/inspiration-view.ts:698-699 | equal to `Seqs.Filter` on the other paths: exactly the other images remain, in their order, fewer when the image was there, and distinctness is kept |
| CardSession.WithoutKeeps | src/inspiration-view.ts:698-699 | removing an image that was not attached changes nothing |
| ViewHelpers.BuildUniqueFilePath | src/inspiration-view.ts:572-581 | the path is not taken, and it is the first candidate `base.md`, `base-2.md`, … that is free |
| ViewHelpers.CandidateInjective | src/inspiration-view.ts:574-577 | different counters give different candidate paths |
| ViewHelpers.ReplaceRange | src/inspiration-view.ts:1504-1517 | the text before and after the range is kept and the replacement sits in between |
| ViewHelpers.ToggleInlineWrapper | src/inspiration-view.ts:1441-1475 | an empty selection does nothing; otherwise the new selection lies within the new text |
| ViewHelpers.UnwrapInside | src/inspiration-view.ts:1448-1457 | a selection that carries its own wrappers loses them and stays selected |
| ViewHelpers.UnwrapOutside | src/inspiration-view.ts:1459-1470 | wrappers just outside the selection are removed and the selection is kept |
| ViewHelpers.WrapThenToggleRestores | src/inspiration-view.ts:1472-1475 | wrapping a bare selection and toggling again restores the text and the selection |
| ViewHelpers.CollapsedLines | src/inspiration-view.ts:1250-1254 | between 1 and 10; 3 for a non-finite setting; otherwise the setting clamped to that range |
| MdStats.GetAncestorFolderPaths | src/md-stats-manager.ts:403-416 | the loop computes exactly `Ancestors` |
| MdStats.Ancestors | src/md-stats-manager.ts:403-416 | the list is never empty and starts with the root `""` |
| MdStats.AncestorsCount | src/md-stats-manager.ts:403-416 | a path with k segments gives k entries |
| MdStats.AncestorsChain | src/md-stats-manager.ts:409-414 | each folder entry is the previous one plus `/` and the next segment |
| MdStats.AncestorsPrefixes | src/md-stats-manager.ts:403-416 | each entry is a prefix of the next |
| MdStats.AncestorsDistinct | src/md-stats-manager.ts:403-416 | the entries are distinct |
| MdStats.AncestorsExample | src/md-stats-manager.ts:403-416 | `a/b/c.md` gives `["", "a", "a/b"]` |
| MdStats.CachedCount | src/md-stats-manager.ts:648-651 | a cached count is used exactly when the cache entry's mtime and size match |
| MdStats.StatsCache.constructor | src/md-stats-manager.ts:74-88 | empty caches at version 0 |
| MdStats.StatsCache.UpdateFileCharCache | src/md-stats-manager.ts:218-226 | the version goes up by one and the file's entry records it |
| MdStats.StatsCache.OnVaultFileChanged | src/md-stats-manager.ts:170-181 | a present, non-empty path loses its file entry, and no other file entry changes; every folder stat is dropped in either case |
| MdStats.StatsCache.FinishFileCount | src/md-stats-manager.ts:658-669 | a count started at an outdated version is discarded, returning the cached count; otherwise it is stored with a new version |
| MdStats.StatsCache.ApplyFolderStatsDelta | src/md-stats-manager.ts:392-401 | only cached ancestor folders shift by the delta, and a zero delta changes nothing |
| MdStats.StatsCache.ShiftFolders | src/md-stats-manager.ts:395-400 | the loop shifts exactly the listed folders |
| MdStats.ShiftedKeeps | src/md-stats-manager.ts:395-400 | the folder keys and file counts stay; folders not targeted are unchanged; shifted character counts never go below 0 |
| MdStats.ShiftOneMore | src/md-stats-manager.ts:395-400 | shifting one more folder updates that folder alone, when cached |
| MdStats.StatsCache.OnDocumentChanged | src/md-stats-manager.ts:302-325 | the new count is cached; an unknown file drops the folder stats; a changed count shifts the ancestors by the difference; the same count leaves them |
| MdStats.UpdateRaisesVersion | src/md-stats-manager.ts:219-225 | an update strictly raises that file's version and leaves other files' versions alone |
| MdStats.WriteInvalidatesStart | src/md-stats-manager.ts:658-666 | after any later update of the file, a count started before it no longer matches the version |
| MdStats.FormatCharCount | src/md-stats-manager.ts:707-712 | below 10000 the label is the count followed by `字` |
| MdStats.StatusTextShape | src/md-stats-manager.ts:747-752 | `s字 / f字` with a selection, `f字` without one |
| MdStats.StatusTextInjective | src/md-stats-manager.ts:747-752 | different counts give different status texts |
| MdCount.IgnoredCountsNothing | src/md-stats-manager.ts:527-531 | whitespace and `-` count nothing |
| MdCount.NumberCountsOne | src/md-stats-manager.ts:527-531 | a number token counts as exactly one |
| MdCount.CountBound | src/md-stats-manager.ts:527-531 | the count never exceeds the length |
| MdCount.HeadingMarkerIgnored | src/md-stats-manager.ts:684-687 | the `#` marker and its space count nothing |
| MdCount.FirstFence | src/md-stats-manager.ts:514-525 | the first later line trimming to `---`, or -1 when there is none |
| MdCount.FrontmatterEndLine | src/md-stats-manager.ts:514-525 | 0, or the line number, at least 2, of the first later line trimming to `---` after a first line trimming to `---` |
| MdCount.StripMatchesEndLine | src/md-stats-manager.ts:692-705 | stripping front matter keeps exactly the lines after the closing fence, or the whole text when there is none |
| MdCount.FrontmatterCountsNothing | src/md-stats-manager.ts:679-705 | the count of a text with front matter is the count of the lines after it |
| MdCount.Contributions | src/md-stats-manager.ts:489-495 | front matter lines contribute nothing; other lines contribute their count |
| MdCount.BuildMilestoneMarkers | src/md-stats-manager.ts:469-512 | the markers are exactly the milestones crossed by the cumulative count |
| MdCount.MilestoneLoop | src/md-stats-manager.ts:486-511 | the loop with its running total and next milestone computes exactly those milestones |
| MdCount.StepPastMilestones | src/md-stats-manager.ts:501-505 | the reached milestone is the largest multiple of 500 not above the total, and the next is 500 higher |
| MdCount.MilestonesIncrease | src/md-stats-manager.ts:469-512 | the labels are strictly increasing multiples of 500, each at most the count at its line |
| MdCount.MarkersAfterFrontmatter | src/md-stats-manager.ts:490-492 | no marker falls inside the front matter |
| SnippetParse.HeadingMatch | src/slash-snippet-complete-manager.ts:452-456 | a heading's key is ASCII letters only |
| SnippetParse.HeadingShapeOf | src/slash-snippet-complete-manager.ts:452-456 | a heading line trims to `##`, whitespace, then the rest; the preview is trimmed |
| SnippetParse.HeadingWithoutPreview | src/slash-snippet-complete-manager.ts:452-456 | `## key` is recognised with an empty preview |
| SnippetParse.HeadingWithPreview | src/slash-snippet-complete-manager.ts:452-456 | `## key@preview` is recognised with that preview |
| SnippetParse.NormalizeContent | src/slash-snippet-complete-manager.ts:469-475 | the index loop keeps exactly the lines between the first and last non-blank ones |
| SnippetParse.KeptLinesEnds | src/slash-snippet-complete-manager.ts:469-475 | the kept lines start and end with a non-blank line |
| SnippetParse.KeptLinesIdempotent | src/slash-snippet-complete-manager.ts:469-475 | trimming blank lines twice is the same as once |
| SnippetParse.NormalizedEmptyIffBlank | src/slash-snippet-complete-manager.ts:469-475 | the content is empty exactly when every line is blank |
| SnippetParse.RemoveAllAbsent | src/slash-snippet-complete-manager.ts:496-498 | text without the marker is unchanged |
| SnippetParse.CollapseSpace | src/slash-snippet-complete-manager.ts:478 | every whitespace run becomes one space, and the text is empty only when the input was |
| SnippetParse.CollapseKeepsVisible | src/slash-snippet-complete-manager.ts:478 | collapsing keeps every non-whitespace character, in order |
| SnippetParse.CollapseFixed | src/slash-snippet-complete-manager.ts:478 | collapsed text stays as it is |
| SnippetParse.BuildPreview | src/slash-snippet-complete-manager.ts:477-479 | the preview is trimmed, collapsed, and shows the content's visible characters without cursor markers |
| SnippetParse.Flushed | src/slash-snippet-complete-manager.ts:421-449 | a flushed snippet has a letter key, non-empty content, and the next order number |
| SnippetParse.FlushedNoEmptyKey | src/slash-snippet-complete-manager.ts:421-423 | a section without a key yields no snippet |
| SnippetParse.FlushedWithoutPreview | src/slash-snippet-complete-manager.ts:421-449 | without an explicit preview the preview is built from the content |
| SnippetParse.Flush | src/slash-snippet-complete-manager.ts:421-449 | the flush closure appends exactly the flushed section |
| SnippetParse.ItemsShape | src/slash-snippet-complete-manager.ts:412-467 | snippets are numbered 0, 1, … in file order, with letter keys and non-empty content |
| SnippetParse.ParseSnippets | src/slash-snippet-complete-manager.ts:412-467 | the line loop yields exactly the items of the file's sections |
| SnippetParse.ParseLines | src/slash-snippet-complete-manager.ts:451-466 | the loop over all lines yields exactly the items of the sections |
| SnippetParse.ParseLine | src/slash-snippet-complete-manager.ts:451-463 | one line advances the parser state by one line |
| SnippetParse.LeadingLinesIgnored | src/slash-snippet-complete-manager.ts:451-463 | lines before the first heading are ignored |
| SnippetParse.OneSnippet | src/slash-snippet-complete-manager.ts:412-467 | one heading over non-blank lines gives one snippet with the normalised content and built preview |
| SnippetParse.ResolveAsWritten | src/slash-snippet-complete-manager.ts:481-494 | without a marker, the raw text and its length; with one, the offset is the first marker's index |
| SnippetParse.ResolveAsWrittenOverruns | src/slash-snippet-complete-manager.ts:481-494 | as written, `{$cursor{$cursor}}` gives empty text with cursor 8, past its end |
| SnippetParse.ResolveSnippetInsert | src/slash-snippet-complete-manager.ts:481-494 | corrected resolution: the text is the raw content after one left-to-right split/join pass over the markers (a marker formed by a removal stays), the cursor is the first marker's index or the end, and it lies within the text after an unchanged prefix |
| SnippetParse.ResolveSingleMarker | src/slash-snippet-complete-manager.ts:481-494 | with exactly one marker, it is removed and the cursor is its index |
| CandidateRank.NormalizeQuery | src/slash-snippet-complete-manager.ts:383 | the query is lower-cased |
| CandidateRank.StartRank | src/slash-snippet-complete-manager.ts:389-392 | 0 exactly for a prefix match, 1 otherwise |
| CandidateRank.MatchIndex | src/slash-snippet-complete-manager.ts:386-387 | the first index of the query, or -1 exactly when it does not occur |
| CandidateRank.RankedPreorder | src/slash-snippet-complete-manager.ts:389-402 | the ranking order is a total preorder |
| CandidateRank.PrefixMatchesFirst | src/slash-snippet-complete-manager.ts:389-392 | prefix matches come before other matches |
| CandidateRank.EarlierMatchesFirst | src/slash-snippet-complete-manager.ts:393-395 | among equal prefix ranks, an earlier match index comes first |
| CandidateRank.SortMatches | src/slash-h2-complete-manager.ts:322-337 | sorting the matches gives exactly the matching items, distinct and sorted |
| CandidateRank.SortDistinct | src/slash-h2-complete-manager.ts:318-320 | sorting distinct items keeps them distinct and all present |
| SlashSnippet.ByOrderPreorder | src/slash-snippet-complete-manager.ts:384 | ordering by `order` is a total preorder |
| SlashSnippet.FilterCandidates | src/slash-snippet-complete-manager.ts:382-404 | an empty query returns all snippets by `order`; otherwise the matches ranked prefix first, then match index, length and `order` |
| SlashSnippet.FilterCandidatesMembers | src/slash-snippet-complete-manager.ts:385-387 | exactly the snippets whose key contains the query, ignoring case |
| SlashSnippet.FilterCandidatesPrefixFirst | src/slash-snippet-complete-manager.ts:389-392 | prefix matches come first |
| SlashSnippet.DetectSlashQuery | src/slash-snippet-complete-manager.ts:369-380 | only with an empty selection; the query is a non-empty ASCII-letter run right after `//`, ending at the cursor |
| SlashSnippet.DetectSlashQueryFinds | src/slash-snippet-complete-manager.ts:369-380 | such a run before the cursor is always found |
| SlashSnippet.AcceptChange | src/slash-snippet-complete-manager.ts:246-258 | the range is replaced by the content after one left-to-right split/join pass over the markers, with the cursor inside it; content without a marker is inserted as it is, with the cursor after it |
| SlashSnippet.AcceptChangeSingleMarker | src/slash-snippet-complete-manager.ts:246-258 | a snippet with one marker inserts its text without it and puts the cursor where it was, the same edit as the as-written resolution |
| SlashSnippet.Accept | src/slash-snippet-complete-manager.ts:246-258 | an open popup yields the chosen snippet's change and closes |
| SlashSnippet.Refresh | src/slash-snippet-complete-manager.ts:78-112 | the popup opens on the snippets matching the query at the cursor when the setting is on and the editor is focused, and closes otherwise or when nothing matches |
| SlashSnippet.HandleKey | src/slash-snippet-complete-manager.ts:353-367 | keys are handled only while open: arrows move, Escape closes, Enter accepts |
| SlashH2.RankCandidates | src/slash-h2-complete-manager.ts:318-337 | exactly the matching items, distinct; by the comparator for an empty query, ranked otherwise |
| SlashH2.FilterCandidates | src/slash-h2-complete-manager.ts:312-338 | exactly the trimmed, non-empty, distinct values matching the query, ordered as above |
| SlashH2.FilterCandidatesTrimmed | src/slash-h2-complete-manager.ts:314-316 | every candidate is trimmed and non-empty |
| SlashH2.FilterCandidatesPrefixFirst | src/slash-h2-complete-manager.ts:323-336 | prefix matches come first |
| SlashH2.DetectSlashQuery | src/slash-h2-complete-manager.ts:299-310 | only with an empty selection; the query is a possibly empty run without whitespace or `/` right after `//`, ending at the cursor |
| SlashH2.DetectSlashQueryFinds | src/slash-h2-complete-manager.ts:299-310 | such a run before the cursor is always found |
| SlashH2.Refresh | src/slash-h2-complete-manager.ts:61-95 | the popup opens on the headings matching the query at the cursor when the setting is on and the editor is focused, and closes otherwise or when nothing matches |
| SlashH2.Accept | src/slash-h2-complete-manager.ts:230-241 | the chosen value replaces the range, with the cursor after it, and the popup closes; an empty value does nothing |
| SlashH2.HandleKey | src/slash-h2-complete-manager.ts:283-297 | keys are handled only while open: arrows move, Escape closes, Enter accepts |
| SlashPopup.PageSize | src/slash-snippet-complete-manager.ts:406-410 | at least 1; 8 for a non-finite setting |
| SlashPopup.MoveIndex | src/slash-snippet-complete-manager.ts:164-171 | the index stays on the current page and within the list, and moves by the delta when that stays there |
| SlashPopup.FlipIndex | src/slash-snippet-complete-manager.ts:173-181 | the index is the first of a valid page |
| SlashPopup.MoveAndFlipBounds | src/slash-h2-complete-manager.ts:148-165 | moving stays on the page and flipping lands on a page start, both within the list |
| SlashPopup.FindSlashQuery | src/slash-h2-complete-manager.ts:303-306 | a found query sits right after `//` and runs to the end of the text |
| SlashPopup.DetectSlashQuery | src/slash-h2-complete-manager.ts:299-310 | only with an empty selection; the match ends at the cursor |
| SlashPopup.DetectSlashQueryComplete | src/slash-h2-complete-manager.ts:299-310 | a `//` plus query before the cursor is always found |
| SlashPopup.Popup.constructor | src/slash-snippet-complete-manager.ts:53-58 | the popup starts closed and empty |
| SlashPopup.Popup.Hide | src/slash-snippet-complete-manager.ts:260-269 | the popup closes and forgets the last query |
| SlashPopup.Popup.Refresh | src/slash-snippet-complete-manager.ts:78-112 | hidden unless enabled, focused and matching; otherwise it shows the candidates, resets the index on a new query and clamps it when the list shrank |
| SlashPopup.Popup.Move | src/slash-h2-complete-manager.ts:148-155 | an open popup moves the index by `MoveIndex` |
| SlashPopup.Popup.FlipPage | src/slash-h2-complete-manager.ts:157-165 | an open popup moves the index by `FlipIndex` |
| SlashPopup.Popup.Navigate | src/slash-h2-complete-manager.ts:283-297 | arrows move within the list; Escape closes |
| SlashPopup.Popup.Click | src/slash-snippet-complete-manager.ts:127-136 | a click on a valid index selects it; any other index is ignored |
| SlashPopup.ArrowIndex | src/slash-h2-complete-manager.ts:287-292 | the index stays within the list |
| CnPunctuation.OpenersOfTable | src/cn-punctuation-auto-pair-manager.ts:5-17 | exactly the table's openers have a closer |
| CnPunctuation.OpenersCount | src/cn-punctuation-auto-pair-manager.ts:5-17 | the table has 11 openers |
| CnPunctuation.ClosersDistinct | src/cn-punctuation-auto-pair-manager.ts:5-17 | different openers have different closers, and no closer is an opener |
| CnPunctuation.HandleInput | src/cn-punctuation-auto-pair-manager.ts:27-56 | a change happens exactly for a single typed opener with the setting on; without a selection, opener and closer with the cursor between; with one, the selection wrapped and the cursor after the closer |
| CnPunctuation.HandleInputWraps | src/cn-punctuation-auto-pair-manager.ts:40-47 | the insert is the opener, the selected text, then the closer |
| Highlight.NormalizeFolder | src/highlight-manager.ts:31 | leading and trailing `/` are removed and nothing else |
| Highlight.NormalizePath | src/highlight-manager.ts:32 | leading `/` are removed and nothing else |
| Highlight.FirstMapping | src/highlight-manager.ts:23-46 | the index of the first mapping that applies, or the list length when none does |
| Highlight.GetSettingFolderForFile | src/highlight-manager.ts:23-46 | the setting folder of the first applying mapping, and none exactly when no mapping applies |
| Highlight.CheckMapping | src/highlight-manager.ts:26-38 | a mapping applies exactly when both fields are non-empty and the folder plus `/` prefixes the path |
| Highlight.FirstMappingIs | src/highlight-manager.ts:23-46 | the first applying mapping is unique |
| Highlight.FolderItselfNotMapped | src/highlight-manager.ts:37 | the folder itself is not mapped |
| Highlight.ChildPathMapped | src/highlight-manager.ts:37 | a file inside the folder is mapped |
| Highlight.Occurrences | src/highlight-manager.ts:146-158 | matches lie within the text, have the keyword's length, and do not overlap, left to right |
| Highlight.OccurrenceIsMatch | src/highlight-manager.ts:146-158 | each match is the keyword |
| Highlight.OccurrencesCover | src/highlight-manager.ts:146-158 | every position where the keyword occurs lies inside some found match |
| Highlight.FindKeyword | src/highlight-manager.ts:146-158 | the `exec` loop computes exactly `Occurrences` |
| Highlight.FindMatches | src/highlight-manager.ts:143-161 | the collected matches of all keywords, sorted by start |
| Highlight.MatchesShape | src/highlight-manager.ts:143-161 | the result is sorted by start, each match is a keyword, and ties keep their order |
| Highlight.AllOccurrencesAreMatches | src/highlight-manager.ts:146-158 | every collected match is an occurrence of some keyword |
| Highlight.CollectKeywords | src/highlight-manager.ts:57-81 | the loop computes the trimmed, non-empty, distinct headings |
| Highlight.UniqueKeywordList | src/highlight-manager.ts:57-81 | every keyword is non-empty, so the occurrence search can use it |
| Highlight.HighlightManager.constructor | src/highlight-manager.ts:13-18 | the keyword cache starts empty |
| Highlight.HighlightManager.ExtractKeywords | src/highlight-manager.ts:51-87 | a cached folder is served without reading; an empty folder gives no keywords; otherwise the headings are read and cached |
| Highlight.HighlightManager.ClearCache | src/highlight-manager.ts:92-94 | the cache becomes empty |
| Highlight.HighlightManager.UpdateDecorations | src/highlight-manager.ts:111-161 | no file or no mapped folder gives no decorations; otherwise the cached or read keywords' matches, sorted by start |
| Sorting.SortSorted | src/inspiration-view.ts:253-260 | the sort is sorted by any total preorder |
| Sorting.SortStable | src/inspiration-view.ts:253-260 | the sort keeps the relative order of ties |
| Sorting.Sort | src/inspiration-view.ts:253-260 | the sort is a permutation of its input |
| Sorting.InsertPermutes | src/inspiration-view.ts:253-260 | inserting into the sorted list adds exactly that element |
| TrimmedSet.UniqueTrimmed | src/highlight-manager.ts:70-76 | the set holds trimmed, non-empty, distinct strings, exactly those of the input |
| Text.TrimIdempotent | src/inspiration-card-codec.ts:105 | trimming twice equals trimming once |
| Text.JoinSplit | src/inspiration-card-codec.ts:135-139 | joining the pieces of a split gives the text back |
| Text.SplitJoin | src/inspiration-card-codec.ts:120-122 | splitting a join of separator-free pieces gives the pieces back |
| MetadataRecord.AssignLookup | src/inspiration-view.ts:1977-2043 | assigning a key sets that key and leaves the others |
| MetadataRecord.KeyNameInjective | src/inspiration-view.ts:1977-2079 | different metadata keys have different JSON names |

## Left out

- Vault I/O (`read`, `modify`, `create`, `trash`, `getAbstractFileByPath`): each write is an `ok` flag, each read a parameter, and the set of existing paths is a parameter of `ViewHelpers.BuildUniqueFilePath`.
- The markdown parser: headings and document lines are parameters (`h2Texts`, `lines`).
- `JSON.parse` is a parameter. `JSON.stringify` is modelled only for the flat metadata record, with fixed key order.
- The snippet file's reload and watch (`reloadSnippets`, src/slash-snippet-complete-manager.ts:300-341, and `onVaultPathChanged`, 343-351) are vault plumbing; the parser they call is modelled.
- Nothing on screen is modelled. This covers DOM rendering, menus, the lightbox and the mouse drag and resize handlers.
- Also on screen: the tag-suggestion popup (src/inspiration-view.ts:1816-1975), popup positioning, `updateStyles` (src/highlight-manager.ts:196-219), the status-bar element, file-explorer badges and the MutationObserver.
- `persistFloatingGeometry` (src/inspiration-view.ts:2122-2158) runs only from the drag/resize handlers and rounds measured floats. The floating upsert it calls is modelled.
- `stripInlineMarkdownFormatting` and `clearSelectionFormatting` (src/inspiration-view.ts:1477-1502) rely on backreference regexes.
- `getFolderStatsForPaths` (src/md-stats-manager.ts:597-645) walks the vault's file list. The delta applied to its results is modelled.
- `formatInspirationFileBaseName` and `pickRandomCardColor` (src/inspiration-view.ts:583-598) read `Date.now` and `Math.random`. The base name is a parameter of `ViewHelpers.BuildUniqueFilePath`.
- `createInspirationCard` (src/inspiration-view.ts:517-565) is modelled only as `InspirationStore.InspirationView.AddCard`, because the card it builds depends on the clock and a random colour.
- Promises and `setTimeout` are sequential events, not concurrency. A chain save is split into `RunNext` and `CompleteWrite`, so other handlers can run while it is in flight.
- `pendingFileCharCount` deduplication and the `isEnabled` guards in src/md-stats-manager.ts are not modelled. `onVaultFileChanged` also drops the path's pending-count entry, which is not modelled either.
- CodeMirror plumbing is not modelled: `ViewPlugin`, keymaps, `RangeSetBuilder`, gutters and `dispatch`. A dispatched change is returned as a `Change` value.
- Case mapping covers ASCII letters only.
- Strings are sequences of characters, not UTF-16 code units.
- `localeCompare("zh-Hans-CN")` is an abstract total preorder.
- Regular expressions are literal searches or explicit scanners written for each pattern.
- Numbers are integers, with `NonFinite` standing for NaN and the infinities. `Math.round` is the identity.
- MdStats.FormatCharCount: the `toFixed(1)` branch for counts of 10000 or more is not modelled, and the result there is `None`.
- CardSession.CardEditor.ToggleFloating: the measured geometry is a parameter. The code also has a fallback geometry (24, 84, 360, 220) at src/inspiration-view.ts:884, but it cannot apply: whenever the card starts floating, the geometry has already been measured (src/inspiration-view.ts:866-874). The model leaves it out.
- CardSession.CardEditor.WriteMetadata: a metadata write (pin, colour, float) is one atomic step in the model. In the code, the handler awaits `modifyCardFile` (src/inspiration-view.ts:784, 814, 893). A queued chain save can run during that await, and the handler then sets `lastSavedContent` and `cwDataBody` from its own values, which may be stale by then. That interleaving is not modelled.
- CardCodec.TagTokens: follows the corrected tag rule of the first finding. A comma-separated segment whose core holds `#` gives no token, where the code gives one (`a#` gives no token; the code gives `#a#`). `CardCodec.TagTokensAgree` shows the two rules agree whenever the code's tokens are well formed.
- CardCodec.ExtractTagTokens: computes the corrected `TagTokens`, so it differs from the code on the same inputs.
- CardCodec.TagTokensOfString: states the corrected rule, not the code's.
- CardCodec.NormalizeTagLine: follows the corrected rule. `a#` normalises to the empty line, where the code gives ` #a#` (`CardCodec.NormalizeTagLineAgrees` covers the inputs where they agree).
- CardFile.ParseCardContent: reads the tag line with the corrected rule.
- CardMetadata.ColorRecord: the carried-over tags CSV (`TagsCsvOf`) uses the corrected rule.
- CardMetadata.PinnedRecord: the carried-over tags CSV uses the corrected rule.
- CardMetadata.CardContentRecord: the tags CSV of the tag line (`TagLineCsv`) and the carried-over one use the corrected rule.
- CardMetadata.FloatingRecord: the carried-over tags CSV uses the corrected rule.
- CardMetadata.CardContentReadBack: holds for the corrected rule. As written, a token such as `#a#` would not read back as itself.
- CardMetadata.UpsertCwDataPinnedIdempotent: holds for the corrected rule. As written, the carried-over tags of `a#` change on the second upsert.
- CardMetadata.UpsertCwDataColorIdempotent: holds for the corrected rule, for the same reason.
- CardMetadata.UpsertCwDataCardContentIdempotent: holds for the corrected rule, for the same reason.
- CardMetadata.UpsertCwDataFloatingIdempotent: holds for the corrected rule, for the same reason.
- CardSession.CardCodecOf: the codec the card editor uses normalises tag lines with the corrected rule.
- SlashSnippet.AcceptChange: uses the corrected resolution of the second finding, which removes markers in one split/join pass without first cutting the first marker. On `{$cursor{$cursor}}` it inserts `{$cursor}` with the cursor at 8; the code inserts the empty text with the cursor past its end. `SlashSnippet.AcceptChangeSingleMarker` shows both make the same edit for a snippet with one marker.
- SlashSnippet.Accept: returns the corrected `AcceptChange`, so it differs from the code on the same inputs.
- SlashSnippet.HandleKey: Enter returns the corrected `AcceptChange`.
- CardSession.CardEditor: the codec is a record of functions (`CardCodecOf(parse)`), so the editor's contracts name the codec's operations rather than restate them.

## Findings

| source | as written | input that shows it | evidently intended | confidence | as-written member | corrected member |
|---|---|---|---|---|---|---|
| src/inspiration-card-codec.ts:99-110 | the comma-split path keeps a `#` inside the tag core, whereas the direct match `#[^\s,#]+` never does | the tag line `a#` normalises to ` #a#`, and normalising that gives ` #a` | `normalizeTagLine` is idempotent and no token holds a second `#` | not executed | CardCodec.TagLineUnstableAsWritten | CardCodec.NormalizeTagLineIdempotent |
| src/slash-snippet-complete-manager.ts:481-494 | the cursor offset is the first marker's index in the raw text, but the text removes every marker, even one formed only after a removal | `{$cursor{$cursor}}` gives the empty text and cursor offset 8 | the cursor lies within the inserted text | not executed | SnippetParse.ResolveAsWrittenOverruns | SnippetParse.ResolveSnippetInsert |
