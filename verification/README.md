# mkb, modelled in Dafny

mkb keeps a knowledge base as one Markdown file per block. Blocks embed each other with `![[target]]` and refer to
each other with `[[target]]`; a target is an id or a title. This project models four parts of it and proves what
they promise.

- **The transclusion graph** (`Wiki`, `VaultStore`, `Lineage`, `Layout`, `Render`, `References`, `Addresses`,
  `Export`, `Linking`, `Unlinking`, `Acyclic`) and the refactorings on it (`Indent`, `Realign`, `Extract`, `Edits`,
  `Refactor`, `RoundTrip`). A body is a sequence of atoms, characters and directives. Operations write texts, and
  `Extraction` reads a text as a body the way the program does, with its code mask; `Reading`, `Seams`, `Outside` and
  `InlineCode` say which edits are read back as they were meant. Positions are between atoms; only `Unlinking` cuts
  the text itself, by bytes. Rendering is split in two: `Expand` follows embeds with the visited set, and a layout
  writes the resulting document at a column. The imperative renderers are proved to write exactly that. `Directives`
  and `Wording` say it over texts: what `[[target|alias]]` means and with which words it is shown; `Placing` says
  where a link puts its directive. `VaultStore` is the vault with its two mutable maps; the engine below holds its
  value.
- **The engine as a cache of the disk** (`Store`, `Sync`, `LinkRows`, `Coherence`, `TextEdits`, `Service`).
  `SyncEngine` holds vault, hashes and a world of files and index slots that changes one persisted call at a time; a
  log of those worlds is where crashes can strike. Parsing, writing, the content hash and the embedder are parameters.
  The 64-bit hash is taken to be injective. On top, `Service` adds scopes, locks, versions and the edits over several
  blocks.
- **The block file format and the code masks** (`BlockFile`, `BlockFileLaws`, `TagForms`, `Fields`, `CodeMask`), on
  strings.
- **The hierarchical tag filter** (`TagFilter`), against a full model of `LIKE … ESCAPE`.

`Prelude` and `Text` hold what these share: the order on ids, trimming, splitting and lines as Rust's standard library
defines them.

Where the code and its documentation disagree, the model follows the code:

- Carving is documented to leave the rendered output unchanged. Where both texts are read back as they were written, it
  does so exactly when the selection *fits* (`Refactor.CarveKeepsRendersIff`); `Refactor.CarveCanChangeText` is a
  two-line selection behind a list marker where it does not. In code the embed is shown as text instead
  (`RoundTrip.CarveInFence`). `Refactor.Blends` and `Outside.OutsideCode` are guards on the text that together suffice
  (`Refactor.BlendedCarveKeepsRenders`).
- Flattening indents the inlined text to the column of the directive in the source, which need not be the column it is
  rendered at. For text with one-line references and text behind each newline, it keeps the rendering exactly when the
  text alone has no outer newline and the two columns agree or it breaks no line (`Realign.LandsIff`).
- Removing directives cuts whole lines at byte offsets of the original text and does not merge equal spans, so two
  directives on one line cut twice: the second cut eats text that followed, or panics if there is too little
  (`Unlinking.CutsByLine`, `Unlinking.UnlinkTwiceEatsText`), and may bring an embed out of a code span
  (`Acyclic.UnlinkTwiceCanCycle`). `Unlinking.CutsKeepIff` says when only the matching lines go.
- The index is cleared by separate statements, records before hashes, so a crash between them leaves hashes that vouch
  for nothing. A restart then recovers the records exactly if some file's hash is missing from the index, because any
  ingested file makes the pass rewrite all records; embeddings deleted by the third statement stay lost for the files
  whose hash is there (`Coherence.CrashInClear`). `SyncEngine.gaps` names these states.
- The removal step of a reconcile looks at blocks the vault holds. After a cold start it therefore misses blocks whose
  files vanished while the daemon was down (`Coherence.ColdPassIff`).
- A title target without alias is documented to keep the author's text. It is shown as the stored title, so the author's
  letter case is kept exactly when it is that of the title (`Wording.TitleTargetWords`).
- On a slug collision exported documents are documented to be told apart by a short id suffix. Its eight characters are
  part of the time stamp, so two blocks of one title made in about the same second share a file
  (`Export.SamePathIff`, `Export.TwoPagesOneFile`).
- The directive mask stops at the first backtick run that is never closed, the tag mask goes on
  (`CodeMask.MasksAgree`). Neither knows backslash escapes before a run.
- Embeds are documented never to cycle. An operation keeps that exactly when nothing the text it writes shows leads back
  (`Acyclic.StepAcyclicIff`); cutting a code span can bring out an embed that does (`Acyclic.CarveCanCycle`). With titles
  a delete can hand a title to another block and close a cycle (`Acyclic.TitleTargetsCanCycle`).

## Model

| member | source | states |
|---|---|---|
| `TagFilter.FourWayIsSegmentRun` | crates/mkb-index/src/lib.rs:82-129 | For every query and stored tag (both lower-cased), the four patterns match if and only if the query's `/`-segments are a contiguous run of the tag's segments; `%`, `_`, `\` and empty segments included |
| `TagFilter.LikeLiteral` | crates/mkb-index/src/lib.rs:120-129 | Under a full `LIKE … ESCAPE` an escaped text matches itself, as a prefix, and nothing else |
| `TagFilter.EscapeLike` | crates/mkb-index/src/lib.rs:120-129 | The escaping loop computes the escaped text those laws are about |
| `TagFilter.PushFilters` | crates/mkb-index/src/lib.rs:70-117 | The appended clauses and numbered arguments pass exactly the blocks the query means: language, every tag as a segment run, every exact tag |
| `VaultStore.Store.constructor` | crates/mkb-core/src/vault.rs:57-61 | A new store has no blocks and a valid title index |
| `VaultStore.Store.Insert` | crates/mkb-core/src/vault.rs:80-83 | The block is put in and the title index again names the least id for every title |
| `VaultStore.Store.Remove` | crates/mkb-core/src/vault.rs:86-92 | The block is gone, the title index is right, and the answer says whether it was there |
| `VaultStore.Store.Resolve` | crates/mkb-core/src/vault.rs:114-122 | Two map lookups give what resolution by id, then by least holder of the title, gives |
| `VaultStore.Store.ReindexTitles` | crates/mkb-core/src/vault.rs:264-277 | Walking ids in order and keeping the first holder makes each title owned by its least holder |
| `Wiki.ResolveId` | crates/mkb-core/src/vault.rs:114-122 | An id names its own block whatever the titles are |
| `Lineage.EmbedParentMap` | crates/mkb-core/src/vault.rs:189-199 | The reverse embed map lists, for every block, the same parents as `transcluded_by` |
| `Lineage.LineageWith` | crates/mkb-core/src/vault.rs:213-253 | For any parent map, cyclic ones included: the roots are exactly the tops above the block and the depth is the length of a shortest way up to any of them, 0 if there is none |
| `Lineage.AboveIsReach` | crates/mkb-core/src/vault.rs:151-160 | With the vault's own map, lying above is transcluding directly or through others, and tops are the blocks nothing transcludes |
| `Layout.ReindentContinuation` | crates/mkb-core/src/render.rs:310-330 | The line-wise loop indents every non-empty line after the first |
| `Layout.ReindentTwice` | crates/mkb-core/src/render.rs:310-330 | Indenting by a and then by b is indenting by a + b |
| `Layout.WidthIsLastLine` | crates/mkb-core/src/render.rs:292-298 | The column of a text is the length of what follows its last newline |
| `Render.RenderFlatBody` | crates/mkb-core/src/render.rs:259-288 | The recursive walk with a shared `visited` writes the layout of the expansion and puts `visited` back as it was, on every vault |
| `Render.DissolveEmbed` | crates/mkb-core/src/render.rs:355-379 | A dissolved embed is its expansion without outer newlines, a cycle or a missing-target comment; `visited` is restored |
| `Render.RenderFlat` | crates/mkb-core/src/render.rs:205-220 | There is a rendering exactly for known blocks, and it is the layout of the block's expansion, terminating on cyclic vaults; the laws of `Wording` say what words that layout has |
| `Render.RenderBody` | crates/mkb-core/src/render.rs:112-130 | The card rendering writes the cards of the same expansion and restores `visited` |
| `Render.ResolveEmbed` | crates/mkb-core/src/render.rs:156-191 | A resolved embed is a quoted card of the expansion, a cycle note or a missing note |
| `Render.QuoteLines` | crates/mkb-core/src/render.rs:180-190 | Every line of an embedded body is quoted |
| `Render.FlatReference` | crates/mkb-core/src/render.rs:332-353 | A reference is written the same way whatever is open around it and wherever it stands; which words it is written with, `Wording` says |
| `Wording.AliasWritten` | crates/mkb-core/src/render.rs:332-353 | Between any two parts of a body, a reference whose alias differs from its target is written as the alias, whatever the block found is called |
| `Wording.BareWritten` | crates/mkb-core/src/render.rs:332-353 | Between any two parts, a bare reference to a titled block is written as that title, trimmed |
| `Wording.TitleTargetWords` | crates/mkb-core/src/render.rs:137-153 | A bare title target is shown with the words of the author up to letter case, and with those very words if and only if they are the title as stored |
| `Wording.CardWords` | crates/mkb-core/src/render.rs:137-153 | In the app the same words are the text of a link to the block found, between what comes before and behind |
| `Wording.LabelRead` | crates/mkb-core/src/render.rs:193-197 | A link text ends where the escaped words end and, unescaped, is those words, whatever brackets and backslashes they hold |
| `Wording.EmbedCard` | crates/mkb-core/src/render.rs:156-191 | The lines of an embed card: a quoted link to the block under its title, an empty quote, then each line of the inner rendering, which unquoting gives back |
| `Wording.AliasedText` | crates/mkb-core/src/render.rs:137-153 | A block whose text is `[[target\|alias]]` renders flat as the alias and in the app as a link to the block found with the alias as its text |
| `Wording.BareIdText` | crates/mkb-core/src/render.rs:132-153 | A block whose text is `[[id]]` renders as the title of that block |
| `Wording.DanglingText` | crates/mkb-core/src/render.rs:332-371 | A directive to nothing shows its alias or target; an embed of nothing a note, of the target in a document, of the label in the app |
| `Wording.SelfEmbedText` | crates/mkb-core/src/render.rs:355-371 | A block that embeds itself shows one cycle note with the label of the embed |
| `Wording.HeadingShown` | crates/mkb-core/src/block.rs:78-92 | A block without a title is called by the heading it starts with |
| `Wording.RetitleKeepsRenders` | crates/mkb-core/src/render.rs:137-153 | Changing titles so that every directive still finds its block changes no flat rendering, if no bare reference names a block shown under another name; aliased references never change |
| `Render.ExpandIsUnfold` | crates/mkb-core/src/render.rs:259-288 | On an acyclic vault the expansion equals the unfolding that has no visited set, and has no cycle marker |
| `Render.RenderAcyclic` | crates/mkb-core/src/render.rs:205-220 | Every block of an acyclic vault renders as its unfolding, without cycle markers |
| `References.FlatReferenceTargets` | crates/mkb-core/src/render.rs:227-257 | The loop with a global `seen` set returns, without repetition, exactly the blocks whose references the flat rendering emits |
| `References.CollectFlatRefTargets` | crates/mkb-core/src/render.rs:234-257 | Collecting from one body adds what the embeds not yet seen reach and nothing else |
| `References.FlatRefsAreSurfaced` | crates/mkb-core/src/render.rs:227-288 | What a rendering emits with its per-path visited set is what some chain of embeds mentions, on cyclic vaults too |
| `Extraction.ExtractReferences` | crates/mkb-core/src/link.rs:38-71 | The loop over the matches returns exactly the directives of the body the text is read as, with their places; `Directives` says what each of them means |
| `Directives.DirectiveRead` | crates/mkb-core/src/link.rs:34-71 | For every target and alias that can be written between the brackets, `[[target]]`, `[[target\|alias]]` and the same with `!` are read as one directive: embed as the mark says, the trimmed words before the bar as target, those behind it as alias |
| `Directives.DirectiveScanned` | crates/mkb-core/src/link.rs:34-71 | So is it where a scan meets it outside code, whatever follows |
| `Directives.DirectiveReadWithin` | crates/mkb-core/src/link.rs:34-71 | So is it in any text, behind text that starts no match, if it is outside code |
| `Extraction.FlagsAreCode` | crates/mkb-core/src/link.rs:73-93 | The flags reading goes by are the code mask |
| `Extraction.ReadRaw` | crates/mkb-core/src/link.rs:38-71 | Reading loses nothing: the body read is written as the text it was read from |
| `Extraction.ReadConcat` | crates/mkb-core/src/link.rs:73-93 | Whole lines are read by themselves, and what follows from the fence they leave open |
| `Reading.QuietReads` | crates/mkb-core/src/link.rs:34-93 | Text with no backtick, no fence line and no bracket outside directives is read as it was written |
| `Reading.ReplacedReads` | crates/mkb-core/src/link.rs:34-93 | Between whole lines outside fences, lines exchanged for ones without code marks leave all others as they were read |
| `Seams.ReadSpace` | crates/mkb-core/src/link.rs:34-93 | A blank at the end of any text is read as a blank, and changes nothing before it |
| `Seams.ReadSpaceAhead` | crates/mkb-core/src/link.rs:34-93 | So is a blank in front of it |
| `Seams.LiveLine` | crates/mkb-core/src/link.rs:34-93 | No fence is open where the line of a directive starts, nor where it ends |
| `Outside.StoredReads` | crates/mkb-core/src/sync.rs:412-446 | A body that reads as it is written comes back from its file so, without leading newlines |
| `Indent.EmbedInPlaceIff` | crates/mkb-core/src/render.rs:259-326 | Replacing a stretch of a document by an embed of it keeps the text if and only if the stretch fits there: rendered alone it has no newline at either end, and it starts at column 0 or no line break of its own is outside nested embeds |
| `Indent.MisfitChangesText` | crates/mkb-core/src/render.rs:310-330 | A stretch that does not fit changes the text in a way nothing behind it can make up for |
| `Indent.TextInPlaceIff` | crates/mkb-core/src/render.rs:259-288 | Any text in place of an embed keeps the whole document if and only if it is what the embed writes there: nothing behind it makes up for a difference |
| `Realign.ShiftDoc` | crates/mkb-core/src/render.rs:310-330 | Indenting a body by k in its source and rendering it k columns further right is indenting its rendering by k, at every column, if references are one line and what stands right behind a newline writes text |
| `Realign.IndentedIff` | crates/mkb-core/src/service.rs:968-973 | A text indented to column k and rendered at column c is laid out like the embed if and only if it has no outer newline alone and breaks no line or k = c |
| `Extract.ParentIff` | crates/mkb-core/src/service.rs:857-894 | In any vault, extracting a stretch into a new block keeps the parent's rendering if and only if the stretch, indented in its source or not, is laid out as the embed is |
| `Extract.ExtractKeepsRenders` | crates/mkb-core/src/service.rs:857-894 | If it is whatever is open around it, the rendering of every block stays the same, on cyclic vaults |
| `Extract.ExtractKeepsRendersIff` | crates/mkb-core/src/service.rs:857-894 | On an acyclic vault all renderings stay the same if and only if it is in its parent |
| `Refactor.CarveExtracts` | crates/mkb-core/src/service.rs:857-894 | A carve of a trimmed range with an unmentioned new id, whose two texts are read back as they were written, is such an extraction, if the parent is still shown under its name |
| `Refactor.CarveKeepsRenders` | crates/mkb-core/src/service.rs:857-894 | Such a carve keeps the flat rendering of every block, cyclic vaults included, when the selection fits wherever the parent is rendered |
| `Refactor.CarveKeepsRendersIff` | crates/mkb-core/src/service.rs:852-894 | Such a carve keeps the parent's rendering if and only if the selection fits; on an acyclic vault the same decides for all blocks |
| `Refactor.BlendsFitsThere` | crates/mkb-core/src/service.rs:852-894 | A check on the text is enough for the fit: the selection starts a line or has no newline, and begins and ends in text |
| `Outside.CarveReads` | crates/mkb-core/src/service.rs:857-894 | A check on the text is enough for both texts to be read back: outside fences, the lines touched hold no backtick, no stray bracket, and no fence line before or after |
| `Refactor.SelectionIsClean` | crates/mkb-core/src/service.rs:857-894 | That check makes a trimmed selection one the carve theorems speak of |
| `Refactor.BlendedCarveKeepsRenders` | crates/mkb-core/src/service.rs:852-894 | With both checks a carve keeps every rendering, on any vault |
| `RoundTrip.CarveInFence` | crates/mkb-core/src/service.rs:852-960 | Without the second, carving a word out of a fenced block passes the first but changes the rendering, and cannot be flattened |
| `Refactor.AlignedFits` | crates/mkb-core/src/service.rs:968-973 | The same fit for an indented part on any vault: plain text up to it on its line, text at both its ends and behind its newlines, one-line references |
| `Refactor.CarveCanChangeText` | crates/mkb-core/src/service.rs:852-856 | Without it carving changes the text: a two-line selection behind a list marker |
| `Refactor.CarveResolves` | crates/mkb-core/src/service.rs:880-893 | The new child changes no title and no old directive reaches it |
| `Refactor.OnlyReference` | crates/mkb-core/src/service.rs:943-959 | A total of one leaves no other directive to the child in the parent nor anywhere else |
| `Refactor.FlattenKeepsResolution` | crates/mkb-core/src/service.rs:921-985 | After a flatten of another block every directive of the other blocks resolves to what it did, also when the deleted title was shared; so do those of the parent, if its text is read back as written |
| `RoundTrip.FlattenKeepsRendersIff` | crates/mkb-core/src/service.rs:909-987 | At whatever column, a flatten whose text is read back as written keeps the parent's rendering if and only if the inlined text, indented to the column of its directive, is laid out as the embed was; on an acyclic vault the same decides for all blocks |
| `Realign.LandsIff` | crates/mkb-core/src/service.rs:968-973 | That is decided by the child's text: unindented, it must fit; indented, the column of the directive must be the column it is rendered at, or the text must break no line |
| `RoundTrip.FlattenKeepsRenders` | crates/mkb-core/src/service.rs:909-987 | On any vault: a child behind plain text, in a list item say, or one that needs no indentation, is flattened without changing any rendering, if the text is read back as written |
| `Outside.FlattenReads` | crates/mkb-core/src/service.rs:909-987 | A check on the text is enough for that: the lines written hold no backtick, no stray bracket and no fence line |
| `RoundTrip.InlineIsClean` | crates/mkb-core/src/service.rs:909-987 | That check makes a flatten one these theorems speak of |
| `Outside.InlinedRaw` | crates/mkb-core/src/service.rs:968-973 | What is inlined is the child's text without outer newlines, indented line by line |
| `RoundTrip.CarvedCount` | crates/mkb-core/src/service.rs:936-960 | Right after a carve whose texts are read back as written, the child is referenced once, where it was carved |
| `RoundTrip.CarveThenFlatten` | crates/mkb-core/src/service.rs:857-987 | Flattening what was just carved so always succeeds; it gives the original vault back, up to the parent's time stamp, if and only if the trimmed selection starts at column 0 or is one line |
| `Linking.TransclusionReaches` | crates/mkb-core/src/index.rs:687-700 | The depth-first search answers whether the start transcludes its way to the goal, on every graph |
| `Linking.ChooseDirective` | crates/mkb-core/src/service.rs:1070-1100 | A requested embed is downgraded exactly when the source is the target or is reachable from it |
| `Placing.PlacedExactly` | crates/mkb-core/src/sync.rs:639-735 | The new directive stands alone on a line, between all non-blank text before its place and all behind it, in order. The place is the end, the clamped offset, or the end or start of the line of the first directive to the anchor, and the end if there is none |
| `Linking.TargetsIs` | crates/mkb-core/src/sync.rs:668-674 | For a known block, a directive counts as one to it if and only if it resolves to it |
| `Outside.PlacedRefsRead` | crates/mkb-core/src/sync.rs:639-735 | Where that cuts no line and no fence is open, the directives read back are those before the place, the new one, and those behind it |
| `Seams.PlacedReads` | crates/mkb-core/src/sync.rs:639-735 | That is exactly where the text written is read back as the body: appended, if no fence is open at the end; next to a directive, always; at an offset between whole lines, if no fence is open there |
| `Acyclic.RewriteAcyclicIff` | crates/mkb-core/src/sync.rs:412-446 | Rewriting one block of an acyclic vault, whatever its targets are, leaves it acyclic if and only if nothing that the text, once read, embeds reaches that block |
| `Acyclic.StepAcyclicIff` | crates/mkb-core/src/service.rs:857-1122 | Link, unlink, carve and flatten keep an acyclic vault acyclic if and only if the texts they write, once read, show no embed that leads back; embeds brought out of code and embeds by title included |
| `Acyclic.RunStaysAcyclic` | crates/mkb-core/src/service.rs:857-1122 | Runs of such steps, and of deletes that pass no embed on, close no cycle |
| `Acyclic.LinkAllowed` | crates/mkb-core/src/service.rs:1051-1101 | The cycle guard of a link is enough where the directive is placed between whole lines outside fences |
| `Acyclic.UnlinkAllowed` | crates/mkb-core/src/sync.rs:741-787 | An unlink that meets its directives on different lines closes nothing, and leaves the other lines as they were read |
| `Acyclic.CarveAllowed` | crates/mkb-core/src/service.rs:857-894 | A carve whose two texts are read back as written closes nothing |
| `Acyclic.FlattenAllowed` | crates/mkb-core/src/service.rs:909-987 | A flatten whose text is read back as written closes nothing |
| `Acyclic.RunOnTextAcyclic` | crates/mkb-core/src/service.rs:857-1122 | So every run that keeps to guards on the texts stays acyclic: placed outside fences between lines, one hit per line, no code marks touched, no embed passed on by a delete |
| `Acyclic.StepReadable` | crates/mkb-core/src/sync.rs:412-446 | Whatever an operation writes, the bodies of the vault are what their texts are read as |
| `Unlinking.UnlinkReads` | crates/mkb-core/src/sync.rs:741-787 | The lines an unlink leaves are read as they were before |
| `Acyclic.UnlinkTwiceCanCycle` | crates/mkb-core/src/sync.rs:757-784 | An unlink of two directives on one line can close a cycle: it eats the backtick of a code span, and a block embeds itself |
| `Acyclic.CarveCanCycle` | crates/mkb-core/src/service.rs:857-894 | A carve that cuts a code span in two can: its child shows an embed of the parent |
| `Acyclic.DeleteAllowed` | crates/mkb-core/src/vault.rs:264-277 | With embeds by id a delete passes none on |
| `Acyclic.TitleTargetsCanCycle` | crates/mkb-core/src/vault.rs:264-277 | With embeds by title a delete can pass one on and close a cycle |
| `Unlinking.RemoveDirectivesTo` | crates/mkb-core/src/sync.rs:741-787 | The splicing loop on the text, right to left at byte offsets of the original, computes the unlinked text or panics |
| `Unlinking.UnlinkKeepsOtherLines` | crates/mkb-core/src/sync.rs:741-787 | If no line holds two matching directives, the text written is that of exactly the lines without one, in order, up to trailing white space |
| `Unlinking.HitsIs` | crates/mkb-core/src/sync.rs:755-760 | A line is cut if and only if a directive on it resolves to the target |
| `Unlinking.CutsKeepIff` | crates/mkb-core/src/sync.rs:757-784 | The cuts leave the text of exactly the other lines if and only if no line holds two matching directives |
| `Unlinking.CutsByLine` | crates/mkb-core/src/sync.rs:757-784 | For every body, the stale offsets amount to this: each line with hits goes, and each further hit on it eats as many bytes as the line had out of what the later lines have become; a slice panics exactly when there are fewer left or one ends inside a character |
| `Unlinking.SpansSorted` | crates/mkb-core/src/sync.rs:757-774 | Taking the directives from the last one is sorting the spans by start, downwards: spans with one start are equal |
| `Unlinking.UnlinkTwice` | crates/mkb-core/src/sync.rs:757-784 | Two matching directives on one line and none behind it: the exact text written, and exactly when it panics |
| `Unlinking.UnlinkRemovesAll` | crates/mkb-core/src/sync.rs:741-787 | In those lines no directive resolves to the target, and their directives are those of the body in order |
| `Unlinking.UnlinkTwiceEatsText` | crates/mkb-core/src/sync.rs:757-784 | Two embeds of the target on one line: with nothing behind them the cut panics, with more text behind them its first 62 bytes are lost |
| `Export.ExpandFollowLinks` | crates/mkb-core/src/export.rs:519-531 | The queue grows the selection to the least set that contains it and is closed under flat references |
| `Export.ManifestFromIds` | crates/mkb-core/src/export.rs:351-388 | One entry per id, as a multiset, in path order |
| `Export.PlanExports` | crates/mkb-core/src/export.rs:315-327 | All entries are planned against the set they form, or none if one cannot be found; the links of all of them lead where they should |
| `Export.PlanDoc` | crates/mkb-core/src/export.rs:246-312 | A planned document is the flat rendering with links into the set, and warns once of each emitted reference that leaves it; every emitted reference into the set is in the text as a link that leads a reader from the path of the document to that of its target |
| `Export.ExportSlugs` | crates/mkb-core/src/export.rs:543-575 | With links followed, the documents are the least closed set, none warns, and each has for every reference it emits a link that leads to the document of that block |
| `Addresses.RelativeLinkLeads` | crates/mkb-core/src/render.rs:38-58 | From any file, walking the relative link from its directory (`..` goes up, other parts go down) leads to the file linked to, for every path without empty, `.` or `..` parts |
| `Addresses.LinkShown` | crates/mkb-core/src/render.rs:332-353 | At any depth of embeds and at any column, an emitted reference into the set stands in the laid-out text as a whole link with that address |
| `Export.EntryNames` | crates/mkb-core/src/export.rs:331-385 | Whatever blocks are called, the names given to their documents are such paths |
| `Export.SamePathIff` | crates/mkb-core/src/export.rs:364-385 | Two blocks get one file if and only if they share a slug and the first eight characters of their ids, or the suffixed name of one is the plain name of the other |
| `Export.TwoPagesOneFile` | crates/mkb-core/src/export.rs:364-385 | Two blocks called A whose ids differ in the last letter get one file |
| `BlockFile.ScalarRoundTrip` | crates/mkb-core/src/blockfile.rs:188-247 | Every string survives being written as a scalar and read back |
| `BlockFile.WriteScalar` | crates/mkb-core/src/blockfile.rs:188-205 | The escaping loop computes the scalar |
| `BlockFile.ReadScalar` | crates/mkb-core/src/blockfile.rs:224-247 | The unescaping loop computes the value |
| `BlockFile.SplitSource` | crates/mkb-core/src/blockfile.rs:126-150 | The offset walk finds the closing fence the recursive definition finds |
| `BlockFile.ReadTags` | crates/mkb-core/src/blockfile.rs:253-298 | The index walk reads tags in flow, list and single form |
| `BlockFile.ReadProps` | crates/mkb-core/src/blockfile.rs:317-341 | The loop keeps the first property of each name in any letter case |
| `BlockFile.PrintBlock` | crates/mkb-core/src/blockfile.rs:66-119 | The pieces pushed make up the file text |
| `BlockFileLaws.WrittenReadsBack` | crates/mkb-core/src/blockfile.rs:18-150 | A file written with some metadata reads back as written: title and stamp up to trim, canonical tags, lock, properties, and the body without leading newlines |
| `BlockFileLaws.WrittenSplits` | crates/mkb-core/src/blockfile.rs:126-150 | The fences written are the fences found |
| `BlockFileLaws.EditReadsBack` | crates/mkb-core/src/sync.rs:412-623 | An edit through the file, given what the caller asks for, replaces the fields it names and the stamp and no others; refused properties leave the file alone |
| `BlockFileLaws.RunReadsBack` | crates/mkb-core/src/sync.rs:412-623 | Reading after any run of edits, merges and removals of properties included, is editing the fields read at the start |
| `BlockFileLaws.RunKeepsUnnamed` | crates/mkb-core/src/sync.rs:412-623 | A field no edit of the run names is what it was; edits of the body alone keep the title |
| `BlockFileLaws.RunKeepsProperty` | crates/mkb-core/src/sync.rs:510-623 | A property no merge or removal of the run names, in any letter case, has the value it had |
| `BlockFileLaws.TagsBack` | crates/mkb-core/src/blockfile.rs:253-298 | Canonical tags written in flow form are read back one by one |
| `BlockFileLaws.OneTagIff` | crates/mkb-core/src/blockfile.rs:253-298 | A trimmed one-line tag comes back from the flow form if and only if it is canonical: no comma, no outer quote, no outer bracket |
| `TagForms.ListedTagsRead` | crates/mkb-core/src/blockfile.rs:268-284 | Below `tags:`, lines of a dash and a tag, quoted or not and with any white space, give these tags in order, and reading goes on behind the list |
| `TagForms.SingleTagRead` | crates/mkb-core/src/blockfile.rs:285-292 | `tags:` with one tag behind it, quoted or not, gives that tag, unless it looks like a flow list |
| `TagForms.FormsAgree` | crates/mkb-core/src/blockfile.rs:253-298 | Canonical tags written as a flow list, as a list of lines or, if there is one, alone, are read as the same tags |
| `BlockFileLaws.PropsBack` | crates/mkb-core/src/blockfile.rs:317-355 | Properties with well-formed, unmanaged, distinct keys and non-empty values are read back in order |
| `Fields.CleanTags` | crates/mkb-core/src/sync.rs:460-466 | Trimmed, no blanks, no name twice in any letter case, none left out; each spelled and placed as where it first comes up |
| `Fields.CleanedIs` | crates/mkb-core/src/sync.rs:460-466 | The first tags of each name are what was asked for, and a clean list is left as it is |
| `Fields.MergeProps` | crates/mkb-core/src/sync.rs:517-577 | The first pair of each key is set, in place or at the end, in order; one bad pair and nothing is merged |
| `Fields.MergedValue` | crates/mkb-core/src/sync.rs:510-577 | Named keys take the first value given, all others keep theirs; keys there before keep place and spelling |
| `Fields.MergedCanon` | crates/mkb-core/src/sync.rs:538-560 | What a file can hold stays so: refusing bad keys and empty values is enough |
| `Fields.UpsertValue` | crates/mkb-core/src/sync.rs:571-576 | Setting one key leaves the value of every other key |
| `Fields.KeepValue` | crates/mkb-core/src/sync.rs:593-609 | Removing keys leaves the value of every other key |
| `CodeMask.SpansFromAreCodeSpans` | crates/mkb-core/src/blockfile.rs:382-428 | The spans the scan finds are the code spans: equal-length maximal backtick runs paired left to right (section 6.1 of CommonMark 0.31.2) |
| `CodeMask.CodeSpansUnique` | crates/mkb-core/src/blockfile.rs:382-428 | That description fits one list of spans only |
| `CodeMask.MaskCodeSpans` | crates/mkb-core/src/blockfile.rs:382-428 | The line keeps its length; exactly the code spans become blanks |
| `CodeMask.MarkInlineCode` | crates/mkb-core/src/link.rs:104-142 | In place, exactly the code spans before the first unclosed run are marked |
| `CodeMask.MasksAgree` | crates/mkb-core/src/link.rs:104-142 | Both loops mark the same up to the first unclosed run; behind it only the tag mask marks anything |
| `CodeMask.FirstUnclosedIs` | crates/mkb-core/src/link.rs:104-142 | Where the directive mask stops is a run no later run closes |
| `CodeMask.SameFences` | crates/mkb-core/src/blockfile.rs:471-485 | Walking lines with their terminators and walking them without call the same lines code |
| `CodeMask.NonCodeLines` | crates/mkb-core/src/blockfile.rs:471-485 | The tag scan sees exactly the lines the directive mask does not call fenced |
| `CodeMask.BuildMask` | crates/mkb-core/src/link.rs:75-93 | The mask covers fenced lines whole and the other lines' code spans, position by position |
| `Store.SoundSurvives` | crates/mkb-core/src/sync.rs:274-283 | An index whose hashes can be trusted survives a restart whatever has happened to the files |
| `Store.SyncedIsSound` | crates/mkb-core/src/sync.rs:274-283 | An index in step with some files has hashes that can be trusted |
| `LinkRows.LinkedTells` | crates/mkb-core/src/index.rs:568-583 | Up-to-date rows are one per directive, in order, with its target text and none as id where it resolves to nothing; rows of kind embed are the edges out of the block, other rows the blocks it mentions, and the child count is the number of embed rows that resolve |
| `LinkRows.SyncedTells` | crates/mkb-core/src/index.rs:568-583 | An index in step with the files tells the graph of those files, and has no row for anything else |
| `Sync.SyncEngine.Ingest` | crates/mkb-core/src/sync.rs:286-306 | Record, links and vector become those of the source; every state on the way survives a crash |
| `Sync.SyncEngine.RecordHash` | crates/mkb-core/src/sync.rs:278-283 | The hash goes in last and vouches for what is there |
| `Sync.SyncEngine.RefreshLinks` | crates/mkb-core/src/sync.rs:309-317 | All links and child counts are those of the present vault, which `LinkRows.LinkedTells` reads as its graph; nothing else changes |
| `Sync.SyncEngine.Persist` | crates/mkb-core/src/sync.rs:436-446 | File, vault, hashes and index are as after the write, every other block as before, every state on the way survives a crash |
| `Sync.SyncEngine.CreateBlock` | crates/mkb-core/src/sync.rs:323-332 | The new file and nothing else |
| `Sync.SyncEngine.UpdateBlock` | crates/mkb-core/src/sync.rs:412-446 | Body and optionally title are replaced, the rest of the metadata is written as it was; an unknown block is refused and nothing changes |
| `Sync.TitleStored` | crates/mkb-core/src/sync.rs:425-432 | A title given is the one stored, a blank one clears it, none keeps the old one |
| `Sync.SyncEngine.SetTags` | crates/mkb-core/src/sync.rs:451-481 | Only the cleaned tags and the stamp differ in what is written |
| `Sync.SyncEngine.SetLock` | crates/mkb-core/src/sync.rs:485-508 | Only the lock flag and the stamp differ in what is written |
| `Sync.SyncEngine.SetProps` | crates/mkb-core/src/sync.rs:517-590 | Only the merged properties and the stamp differ; one refused pair and nothing is written |
| `Sync.SyncEngine.UnsetProps` | crates/mkb-core/src/sync.rs:593-623 | Only the kept properties and the stamp differ |
| `Sync.SyncEngine.DeleteBlock` | crates/mkb-core/src/sync.rs:626-636 | File, vault entry, rows and hash are gone, every other block as before |
| `Sync.SyncEngine.Reconcile` | crates/mkb-core/src/sync.rs:197-263 | Where hashes can be trusted every file is caught; from any index, each file is ingested or skipped by its hash, and skipped records are rewritten exactly if there is anything to report; the report lists exactly the files whose hash was not known and the blocks without a file |
| `Sync.SyncEngine.Rebuild` | crates/mkb-core/src/sync.rs:266-272 | From any index, the result is exactly what the files call for; `LinkRows.SyncedTells` reads its rows as the graph |
| `Sync.InvSynced` | crates/mkb-core/src/sync.rs:309-317 | The engine's invariant, fresh links and no leftovers make the index exactly what its sources call for |
| `Coherence.PassCatchesFiles` | crates/mkb-core/src/sync.rs:197-263 | After a pass every block with a file has vault entry, hash, record and embedding of that file |
| `Coherence.SecondPassIsEmpty` | crates/mkb-core/src/sync.rs:197-263 | A pass over files all known reports nothing and changes nothing |
| `Coherence.WarmPassIsRebuild` | crates/mkb-core/src/sync.rs:197-272 | From a state in step with its sources, a pass leaves what a rebuild from the same disk leaves |
| `Coherence.PassRepairs` | crates/mkb-core/src/sync.rs:197-263 | If no block that lost its file left rows behind, a pass that reports anything puts the index in step, after a crash too |
| `Coherence.SettledKept` | crates/mkb-core/src/sync.rs:309-317 | So does every finished write; and an index in step stays so |
| `Coherence.ColdPassIff` | crates/mkbd/src/main.rs:83-93 | A cold start agrees with a rebuild if and only if no block lost its file while the daemon was down |
| `Coherence.Start` | crates/mkbd/src/main.rs:83-93 | From any index: the slot of a file is right after the start if and only if its hash did not match, or its embedding was right and its record was or some other file was ingested. From a survivable one all are, and the index is in step if and only if no block lost its file |
| `Coherence.CrashDuring` | crates/mkb-core/src/sync.rs:274-306 | Stopped after any persisted call of any operation, except between the statements of `clear`, a restart and a pass bring every block with a file back in step with it, and leave rows behind only if that call did |
| `Coherence.CrashInClear` | crates/mkb-index/src/lib.rs:334-342 | Stopped between the statements of `clear`, after the first two all records are recovered if some file's hash is not in the index and none if all are; after the third, with an embedder, exactly the files whose hash is there stay without embedding |
| `Store.GapRecovers` | crates/mkb-index/src/lib.rs:334-342 | The condition on the hashes that decides this, for each of the states in between |
| `Coherence.Live` | crates/mkb-core/src/sync.rs:197-636 | Over every run of writes, outside edits, passes, rebuilds, restarts and crashes the engine's invariant holds; the index stays in step through restarts that come after a pass has seen all deletions, and a rebuild puts it in step again |
| `Service.ScopeOf` | crates/mkb-core/src/service.rs:182-216 | Only the app may manage locks, and an unauthenticated remote caller may do nothing |
| `Service.VersionInjective` | crates/mkb-core/src/service.rs:53-55 | A version token stands for one hash |
| `Service.Service.BlockVersion` | crates/mkb-core/src/service.rs:627-634 | The version handed out is that of the engine's current source |
| `Service.Service.UpdateBlock` | crates/mkb-core/src/service.rs:651-702 | Applied exactly for a writable block, a current base version and no refused shrinkage; then the source overwritten is the one that version was read for. Conflict exactly for another version: nothing changes and the answer is the current state |
| `Service.Service.ReplaceInBlock` | crates/mkb-core/src/service.rs:709-743 | Succeeds exactly when the block is writable, the text occurs exactly as often as expected and the result does not shrink too much; then every occurrence is replaced, or nothing is written if that changes nothing |
| `Service.Service.AppendToBlock` | crates/mkb-core/src/service.rs:747-765 | The text is added on a fresh line of an unlocked block |
| `TextEdits.ReplacedPieces` | crates/mkb-core/src/sync.rs:70-90 | Cut at its occurrences, each the first one behind the last, a text is pieces with the old string between them; replacing puts the new string there instead, as often as was counted, and keeps every piece |
| `TextEdits.CutExists` | crates/mkb-core/src/sync.rs:70-90 | Every text has such a cut |
| `TextEdits.AppendedLines` | crates/mkb-core/src/sync.rs:95-105 | Appending keeps the body as a prefix and ends in a newline; its lines are those of the body and then those of the text, if and only if one is non-empty and neither ends in a carriage return |
| `TextEdits.GuardIs` | crates/mkb-core/src/service.rs:69-89 | An update is refused if and only if it leaves nothing of a non-blank text, or less than a quarter of one of at least 200 characters |
| `TextEdits.AppendPassesGuard` | crates/mkb-core/src/service.rs:69-89 | Appending never trips that guard |
| `Service.Service.CarveBlock` | crates/mkb-core/src/service.rs:834-851 | Succeeds exactly for an unlocked parent; the two files are the child's and the parent's with the embed appended, no other changes |
| `Service.Service.CarveSelection` | crates/mkb-core/src/service.rs:857-894 | Succeeds exactly when the caller may write, the parent is unlocked and the range is good; the vault is then the carved one, if the two files read back as written |
| `Service.Service.FlattenBlock` | crates/mkb-core/src/service.rs:909-987 | Succeeds exactly when both blocks are unlocked and the child has its one embed in the parent; the vault is then the flattened one, if the file reads back as written |
| `Service.CountReferences` | crates/mkb-core/src/service.rs:936-947 | The nested loops count all directives to the child and find the last in the parent |
| `Service.Service.PlaceLink` | crates/mkb-core/src/service.rs:1051-1101 | Succeeds exactly for two known blocks and an unlocked source; writes the directive the cycle guard chose at its place, which `Placing.PlacedExactly` pins; outcome and vault are those of the link step |
| `Service.Service.UnlinkBlocks` | crates/mkb-core/src/service.rs:1106-1121 | Succeeds exactly for a writable source whose cuts do not panic; nothing is written when there is nothing to unlink; else the source's file has the cut text and the vault is that of the unlink step |
| `Service.Service.SetLock` | crates/mkb-core/src/service.rs:578-586 | Succeeds exactly with the capability to manage locks; writes the flag and nothing else |
| `Service.Service.SetTags` | crates/mkb-core/src/service.rs:785-794 | Succeeds exactly for callers who may write and unlocked blocks; the cleaned tags are written, in order, and no other file changes |
| `Service.Service.SetProps` | crates/mkb-core/src/service.rs:800-809 | The same for merged properties, unless a pair is refused |
| `Service.Service.UnsetProps` | crates/mkb-core/src/service.rs:813-822 | The same for removed properties |
| `Service.Service.CreateBlock` | crates/mkb-core/src/service.rs:589-597 | A new file for callers who may write, and nothing else |
| `Service.Service.DeleteBlock` | crates/mkb-core/src/service.rs:825-829 | Succeeds exactly for callers who may write and blocks that are not locked |
| `Service.Handle` | crates/mkb-protocol/src/lib.rs:553-794 | Whatever the request, unless it is the app managing a lock, every locked block's source stays as it is; engine and disk stay in step |
| `Service.Serve` | crates/mkb-protocol/src/lib.rs:553-794 | Over every run of requests in which the app manages no lock, with no outside edits, a locked block's file never changes |
| `Service.Interleaved` | crates/mkb-core/src/service.rs:627-702 | Read a version, let others do what they like, write: applied only over the source that was read, changing no other; else the engine stays exactly as the others left it |

## Left out

- Sockets, watcher threads, transport, client, registry, command line, MCP schemas and user interfaces: plumbing.
- SQL execution, full-text search, vectors, rank fusion and embedders: the index is a map of slots, the embedder a function.
- I/O and embedder errors inside an operation: the model has crashes at any persisted call, not error returns there.
- Inline tags, code languages and their tables, and reading tags back from the index by splitting at white space: `own` is whatever `BlockRecord::from_block` copies, taken as a function.
- Offsets into the middle of a directive cannot be expressed: offsets and selections count atoms, not bytes. Only the cuts of an unlink are by bytes.
- An embed row written under another model while its old hash row stands, when the daemon is started with the old model again: runs keep one embedder.
- A model whose id is `noembed`: the version string of an engine without embedder.
- Asset files, conflict copies, link graph, grouping and hierarchy views, search queries and their filters other than tags and language.
- Banners and frontmatter splicing in exported files, path properties and manifests from TOML or JSON.
- ULID generation and clocks: new ids and time stamps are arguments; runs assume new ids are new.
- Realign.ShiftDoc: asks that references are one line and that what stands right behind a newline writes text; where not, `RoundTrip.FlattenKeepsRendersIff` still says exactly when the rendering is kept, but by comparing the two layouts of the child's text.
- Export.PlanDoc: the text is the rendered document; the banner, and the single newline its end is brought to, are left out. The words of an exported link are not escaped by the program, so brackets in a title can spoil the link for a Markdown reader; nothing is claimed of the words.
- BlockFileLaws.WrittenReadsBack: asks for canonical tags (no comma, newline, outer quote or bracket), because the flow form `[a, b]` has no quoting; `OneTagIff` shows this exact for a single tag, but in longer lists the tags in the middle may have brackets, which is not used.
- Acyclic.RunStaysAcyclic: of deletes the condition is sufficient, not exact: one that passes an embed on may still close no cycle. Blocks created or rewritten with embeds of the caller's own are not cycle-checked by the program either.
- Seams.PlacedReads: at an offset that cuts a line nothing is claimed.
- Service.Service.CarveSelection: that the files written parse as the blocks with those texts is a hypothesis of the last clause, because parsing a file is a parameter of the engine; `BlockFileLaws` proves it of the codec. The same holds for FlattenBlock, PlaceLink and UnlinkBlocks.
- Service.Service.UnlinkBlocks: a panic in a slice is an error that leaves everything as it was.
- Service.Service.UpdateBlock: the shrink guard compares fractions exactly instead of in floating point.
- Coherence.CrashDuring: neighbours' link rows may be stale after a crash, because the hash is recorded before links are refreshed; the claim is about record, embedding and hash.
