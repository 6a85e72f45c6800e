# ZenDiary entry store, in Dafny

ZenDiary is a browser diary. Its logic is the **journal entry store** of
`App.tsx`. The store keeps an ordered collection of entries (newest first)
and a separate copy of the *active* entry, the one the editor works on. It
mirrors the collection into local storage after every change. Around the
store sit small pure rules:

- the theme and cover tables (`constants.ts`);
- the editor's lookups, update builders and display predicates (`components/JournalEditor.tsx`);
- the sidebar's search filter, monthly mood statistics and row fallbacks (`components/Sidebar.tsx`);
- the guard and result defaulting of the AI mood analysis (`services/geminiService.ts`).

The project has nine modules:

- `Wrappers`: `Option`.
- `JsArray`: `filter`, `filter(...).length`, `findIndex` and `find`, with a subsequence predicate.
- `JsString`: ASCII `toLowerCase`, `includes`, `split`/`join` on one character, and UTF-16 `length`.
- `Types`: the records of `types.ts`, plus `Partial<JournalEntry>` and the object spread `{ ...e, ...u }` (`Merge`).
- `Constants`: `THEMES` and `PRESET_COVERS`.
- `GeminiService`: `analyzeMoodAndSummary` with the external call as an input.
- `JournalEditor` and `Sidebar`: the editor's and the sidebar's rules.
- `App`: the `EntryStore` class and the pure map/filter helpers its methods are specified by.

The store's invariant is `Valid()`. It says two things. Storage equals the
collection. The active entry is a member of the collection, and it is null
exactly when the collection is empty (`Consistent`). Every method keeps it.

Where the code's behaviour is surprising, the model follows the code:

- A saved value that does not parse leaves the collection empty and the active entry null. No welcome entry is seeded (App.tsx:23-25).
- A saved empty string is falsy, so it seeds the welcome entry like a missing value (App.tsx:18).
- Ids come from the clock (App.tsx:50). The code does not guarantee them to be distinct. The model proves that `Create` keeps ids distinct only when the id it is given is unused.
- `content.length` counts UTF-16 code units (services/geminiService.ts:5). Five astral emoji already pass the ten-unit guard.

## Model

| member | source | states |
|---|---|---|
| `Types.Merge` | App.tsx:63-65 | the spread `{ ...e, ...u }`: every property the update mentions takes its new value, every other property keeps its old one |
| `Types.MergeNothing` | App.tsx:63 | spreading an update that mentions nothing leaves the entry as it was |
| `Types.MergeIdempotent` | App.tsx:63 | applying the same update twice equals applying it once |
| `Types.MergeTwice` | App.tsx:63 | two successive updates equal one update whose later mentions win |
| `JsArray.SubsequenceNotLonger` | components/Sidebar.tsx:18-21 | a subsequence (such as a filtered list) is never longer than the list it came from |
| `JsArray.SubsequenceMembers` | App.tsx:70 | every element of a subsequence belongs to the original list |
| `JsArray.Filter` | components/Sidebar.tsx:18-21 | `filter`: a subsequence in the original order, holding exactly the elements that satisfy the predicate; unchanged when all satisfy it |
| `JsArray.FilterMultiplicity` | components/Sidebar.tsx:18-21 | `filter` keeps each satisfying element as many times as the input holds it, and no other element |
| `JsArray.Count` | components/Sidebar.tsx:35-37 | `filter(...).length` is at most the list's length |
| `JsArray.CountIsFilterLength` | components/Sidebar.tsx:35-37 | the element-by-element count is the length of the filtered list, and zero exactly when no element satisfies the predicate |
| `JsArray.FindIndex` | components/JournalEditor.tsx:19 | the index of the first satisfying element, or -1 exactly when none satisfies |
| `JsArray.Find` | components/JournalEditor.tsx:39 | `find`: the first element of the list that satisfies the predicate, or nothing exactly when none satisfies |
| `JsString.LowerChar` | components/Sidebar.tsx:19 | an ASCII capital becomes the letter 32 code points later; any other character is unchanged |
| `JsString.Lower` | components/Sidebar.tsx:19-20 | lower-casing keeps the length and maps each character |
| `JsString.LowerIdempotent` | components/Sidebar.tsx:19-20 | lower-casing twice is lower-casing once |
| `JsString.ContainsIffOccurs` | components/Sidebar.tsx:19-20 | `includes` holds exactly when the needle equals some block of the haystack |
| `JsString.Split` | components/JournalEditor.tsx:105-106 | `split` yields at least one piece, and no piece contains the separator |
| `JsString.JoinSplit` | components/JournalEditor.tsx:105-106 | joining the pieces of a split with the same separator gives the original string |
| `JsString.SplitJoin` | components/JournalEditor.tsx:105-106 | splitting a join of separator-free pieces gives the pieces back |
| `JsString.SplitFirstPiece` | components/JournalEditor.tsx:105 | the first piece is the longest separator-free prefix; there is one piece exactly when the separator does not occur |
| `JsString.Utf16Length` | services/geminiService.ts:5 | JavaScript `length` is between the number of characters and twice that |
| `JsString.Utf16LengthChar` | services/geminiService.ts:5 | one character has length 2 outside the Basic Multilingual Plane and 1 inside it |
| `JsString.Utf16LengthConcat` | services/geminiService.ts:5 | the length of a concatenation is the sum of the lengths, so with the single-character case it fixes `length` on every string |
| `JsString.Utf16LengthCountsPairs` | services/geminiService.ts:5 | `length` is the number of characters plus the number of characters that need a surrogate pair |
| `Constants.ThemeIndex` | constants.ts:4-102 | every theme has a configuration in `THEMES` |
| `Constants.ThemesShape` | constants.ts:4-102 | `THEMES` has nine rows with pairwise distinct ids, and the first is `classic` |
| `Constants.ThemesOnePerTheme` | constants.ts:4-102 | a theme's configuration is the only row with its id |
| `Constants.ThemeTextures` | constants.ts:71-79 | a row has a texture overlay and an opacity exactly when it is not `minimal`; every overlay url is non-empty and every opacity non-zero |
| `Constants.CoversShape` | constants.ts:104-111 | six covers with the ids `c1` to `c6` in order, pairwise distinct, each with a non-empty name and url |
| `GeminiService.Normalize` | services/geminiService.ts:18-22 | the mood is the reply's mood, or `📝` when missing or empty, so never empty; the summary is the reply's summary or `""` |
| `GeminiService.AnalyzeMoodAndSummary` | services/geminiService.ts:4-27 | null without a credential or with content under ten code units; past the guard, null exactly when the call or parse failed; otherwise the normalised reply, whose mood is non-empty |
| `GeminiService.GuardSkipsCall` | services/geminiService.ts:5 | when the guard refuses, the result is null whatever the call would return, so the call plays no part |
| `GeminiService.GuardCountsCodeUnits` | services/geminiService.ts:5 | with a credential, content is analysed exactly when its characters plus its surrogate-pair characters number at least ten |
| `GeminiService.LengthGuardCountsCodeUnits` | services/geminiService.ts:5 | content of ten or more characters passes the length guard, and so does a five-emoji content |
| `JournalEditor.LookupThemeIn` | components/JournalEditor.tsx:19 | the lookup never fails: it gives a row of the table, the first row with the id when one exists, and the table's first row when none does |
| `JournalEditor.ResolveTheme` | components/JournalEditor.tsx:19 | over `THEMES` the lookup always finds the entry's own theme and never falls back |
| `JournalEditor.CurrentMood` | components/JournalEditor.tsx:39 | the displayed mood is a `MOODS` row: the entry's mood when it is set, and Neutral (`MOODS[1]`) when it is null or absent |
| `JournalEditor.ContentEdit` | components/JournalEditor.tsx:31-33 | a content edit mentions only `content` |
| `JournalEditor.TitleEdit` | components/JournalEditor.tsx:35-37 | a title edit mentions only `title` |
| `JournalEditor.MoodEdit` | components/JournalEditor.tsx:143 | a mood choice mentions only `mood` |
| `JournalEditor.CoverEdit` | components/JournalEditor.tsx:45 | a cover choice mentions only `coverImage` |
| `JournalEditor.EditsChangeOneProperty` | components/JournalEditor.tsx:31-45 | merged into an entry, each editor interaction changes exactly its own property |
| `JournalEditor.MoodChoiceIsShown` | components/JournalEditor.tsx:139-146 | after choosing a mood from the menu, the editor displays that choice |
| `JournalEditor.ShowsRuledLines` | components/JournalEditor.tsx:173 | ruled lines are drawn exactly for classic, vintage, floral, recycled and linen, so never on the dark papers |
| `JournalEditor.OverlayOpacity` | components/JournalEditor.tsx:77-83 | a texture layer is drawn exactly when the theme's overlay url is present and non-empty (truthy), with its opacity or 0.1 when that is missing or zero |
| `JournalEditor.TexturesUseTableOpacity` | components/JournalEditor.tsx:77-83 | every theme but `minimal` draws its texture with its table opacity; `minimal` draws none |
| `JournalEditor.StampDate` | components/JournalEditor.tsx:105 | the stamp's first line (also the date a list row shows, components/Sidebar.tsx:134) is the comma-free prefix ending at the first comma or at the end |
| `JournalEditor.StampTime` | components/JournalEditor.tsx:106 | the stamp's second line exists exactly when the timestamp has a comma; it is the comma-free piece that follows the first line and its comma and runs to the next comma or to the end |
| `Sidebar.FilteredEntries` | components/Sidebar.tsx:18-21 | the search keeps, in order, exactly the entries whose lower-cased title or content contains the lower-cased term |
| `Sidebar.SearchMultiplicity` | components/Sidebar.tsx:18-21 | the search keeps a matching entry as many times as the list holds it and drops every other |
| `Sidebar.EmptySearchKeepsAll` | components/Sidebar.tsx:18-21 | an empty search term keeps every entry |
| `Sidebar.SearchIgnoresTermCase` | components/Sidebar.tsx:18-21 | a term and its lower-cased form match the same entries |
| `Sidebar.TitleFindsEntry` | components/Sidebar.tsx:18-21 | searching for an entry's title always finds that entry |
| `Sidebar.MonthEntries` | components/Sidebar.tsx:29-32 | this month's entries are the entries, in order, whose date is in the current month or empty |
| `Sidebar.MonthStats` | components/Sidebar.tsx:24-43 | `total` counts this month's entries, and `happy`, `neutral` and `sad` count exactly this month's entries with that mood; the total equals their sum plus the unmooded ones |
| `Sidebar.MoodsPartition` | components/Sidebar.tsx:34-38 | every entry falls in exactly one of happy, neutral, sad, or null/absent |
| `Sidebar.CountsIgnoreOthers` | components/Sidebar.tsx:29-38 | adding an entry from another month, or one without a mood, changes no mood count |
| `Sidebar.MoodIcon` | components/Sidebar.tsx:132 | the row icon is the emoji the editor shows for the same mood: 😊 happy, 😔 sad, 😐 otherwise |
| `Sidebar.OrPlaceholder` | components/Sidebar.tsx:116 | a row's title (and, at line 137, its preview) is never empty: it is the text itself when that is non-empty and the placeholder otherwise |
| `Sidebar.RowsNeverBlank` | components/Sidebar.tsx:115-137 | a row shows the entry's title or "Untitled Entry", and its content or "Start writing...", never a blank line |
| `App.UpdateAll` | App.tsx:63 | length and order are kept; each entry with the id is merged with the update, every other entry is unchanged; an absent id leaves the list as it was |
| `App.RemoveId` | App.tsx:70 | the old list with every entry of that id removed, the rest kept in order; an absent id changes nothing |
| `App.RemoveIdMultiplicity` | App.tsx:70 | deleting drops every copy of an entry with that id and keeps every other entry as many times as the list held it |
| `App.UpdateKeepsConsistent` | App.tsx:62-67 | after an update the active copy is still a member of the collection, and null exactly when the collection is empty |
| `App.DeleteKeepsConsistent` | App.tsx:69-75 | after a delete, with the active entry reassigned to the new first entry or null, the invariant still holds |
| `App.UpdateAbsentId` | App.tsx:62-67 | updating an id no entry has changes neither the collection nor the active copy |
| `App.DeleteAbsentId` | App.tsx:69-75 | deleting an id no entry has changes neither the collection nor the active entry |
| `App.UpdateKeepsUniqueIds` | App.tsx:63 | an update that does not mention `id` keeps ids pairwise distinct |
| `App.SubsequenceKeepsUniqueIds` | App.tsx:70 | a subsequence of entries with distinct ids has distinct ids |
| `App.DeleteKeepsUniqueIds` | App.tsx:70 | deleting keeps ids pairwise distinct |
| `App.DeleteRemovesOne` | App.tsx:70 | with distinct ids, deleting a present id shrinks the collection by exactly one |
| `App.HighlightIsActive` | components/Sidebar.tsx:98-101 | under the store invariant, a listed entry is highlighted exactly when it has the active entry's id |
| `App.InsightUpdate` | App.tsx:81-84 | the analysis write-back mentions only `aiMood` and `aiSummary` |
| `App.ThemeUpdate` | App.tsx:123 | the theme choice mentions only `theme` |
| `App.AnalysisShowsBadge` | App.tsx:77-86 | a successful analysis, once written back, makes the AI badge show |
| `App.AnalysisShowsSummary` | components/JournalEditor.tsx:111-114 | once a successful analysis is written back, the summary bubble shows exactly when the service returned a non-empty summary |
| `App.EntryStore.constructor` | App.tsx:16-45 | nothing saved, or an empty string: the single welcome entry (id `1`, classic, neutral), active. A parsable value: that collection, with its first element active. An unparsable value: empty and null. Storage then equals the collection |
| `App.EntryStore.Persist` | App.tsx:43-45 | storage becomes the collection; nothing else changes |
| `App.EntryStore.Create` | App.tsx:47-60 | the collection becomes `[new] + old` and the new entry is active. It is empty, neutral, in the active entry's theme or `classic`. Ids stay distinct when the given id is unused |
| `App.EntryStore.Update` | App.tsx:62-67 | the collection is mapped by `UpdateAll`; the active copy is merged only when its id is the target |
| `App.EntryStore.Delete` | App.tsx:69-75 | the collection is filtered by `RemoveId`; a deleted active entry is replaced by the new first entry or null, any other active entry stays |
| `App.EntryStore.Select` | App.tsx:93 | the chosen entry becomes active; collection and storage are unchanged |
| `App.EntryStore.EditActive` | App.tsx:132 | an editor update is an update of the active entry's id, and the active copy becomes the merged entry |
| `App.EntryStore.SelectTheme` | App.tsx:123 | with an active entry, an update of its id mentioning only `theme`; without one, nothing changes |
| `App.EntryStore.AnalyzeActive` | App.tsx:77-86 | nothing changes without an active entry or without a result; otherwise an update of the active id that sets only `aiMood` and `aiSummary` |

## Left out

- Rendering, CSS classes, and the open/closed state of the sidebar and menus: presentational.
- The textarea's auto-height (components/JournalEditor.tsx:24-29): DOM mutation.
- components/CoverPicker.tsx and components/ThemeSelector.tsx are not part of this model. The picker reads files with `FileReader`, which is browser I/O. Its outcome, a url or `''`, is the argument of `CoverEdit`. The selector's lookup is the same as `ResolveTheme`.
- Local storage and JSON. `stored` stands for the saved value, and `Saved` gives the start-up reading with the parse outcome as an input. No JSON round trip is proved. The parsed shape is not checked: a parsed non-array is not representable.
- The first run of the persistence effect writes `[]` before the loaded collection is committed. `App.EntryStore.constructor` folds this into its final write.
- The Gemini client, model name and prompt (services/geminiService.ts:8-16): a foreign network call. Its outcome, after JSON parsing, is the `reply` input. `console.error` diagnostics are left out.
- `App.EntryStore.AnalyzeActive`: runs as one sequential step. Left out is the race: the awaited call lets the user switch entries, and the stale closure then merges the result into whichever copy is active.
- `Date.now()`, `toLocaleString`, `toISOString` and the month comparison are locale and time-zone dependent. Ids, timestamps and dates are inputs. "Date in the current month" is the parameter `inCurrentMonth`, and the month name is not modelled.
- The mood bar's percentage widths (components/Sidebar.tsx:169-184): floating point.
- `window.confirm` and `window.innerWidth` (components/Sidebar.tsx:96, 121): browser I/O. `Delete` models a confirmed deletion.
- `JsString.Lower`: lower-cases ASCII letters only, not the full Unicode case mapping of `toLowerCase`.
- Partial updates: a mentioned optional property takes a value. Setting it to `undefined` is not modelled, and no caller does it.
- Themes: `JournalTheme` is a closed datatype, so a stored theme outside the nine cannot be represented. The fallback is proved for any table by `JournalEditor.LookupThemeIn`.
- `App.EntryStore.Select`: requires the entry to be in the collection. The only caller passes a row of `Sidebar.FilteredEntries`, and every such row is a member.
