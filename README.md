# Text-editor add-on: a verified model of its list and text logic

This project models the logic under the host callbacks of a text-editor add-on.
It covers six operators and panels. Their data is reduced to plain sequences of lines and paths:

- **Open Recent** (`open_recent.dfy`). A most-recently-used list of file paths is kept twice:
  as the rows of a UI collection with a selected row, and as the lines of `open_recent.txt`.
  The model covers opening, saving and "save as", which move the path to the front.
  It also covers clearing, the list actions (add, remove, move up and down, open the selected row, clean up missing
  files, remove duplicates), reloading the rows from the file, and the label shown for each path.
  The class `RecentFiles` holds the rows, the selected index and the file.
  The file is `None` when it does not exist. Whether a path exists, or can be read, is a predicate
  the caller passes in.
- **Code Map** (`code_map.dfy`). An outline of the open text built from line patterns. It has
  class rows (folded or expanded), top-level variable and function rows, method rows and property
  rows. Each row jumps to its 1-based line. The model covers the class-header parser, the base-class
  type, label truncation, the search match, the member scan and the whole outline loop, written
  as a method proved against a function. It also covers the operator that expands and collapses a class.
- **Find & Replace** (`find_replace.dfy`). The popup's "found of total" count is modelled as a
  counting loop. "Find Previous" searches backwards from the cursor, then wraps around from the bottom.
  It then moves the cursor, selects the match and scrolls the view. The popup's width rule is also covered.
- **Trim Whitespaces** (`trim_whitespace.dfy`). Every line of an array is right-stripped in
  place, and the removed characters are counted. The menu entry shows only when there is something to trim.
- **Character count** (`character_count.dfy`). The footer shows the 1-based line and column, the
  total number of characters and, while the cursor and the selection end differ, the number selected.
  The footer's test also reads `text.select_set`, which is the host's bound method and so always true;
  the model leaves it out of the test.
- **Jump to line** (`jump_to_line.dfy`). The `line_number` update handler clamps the request
  to the text's line count.

The shared modules are `pystr.dfy` and `lists.dfy`. `pystr.dfy` gives the Python `str` operations the add-on uses,
over ASCII characters: `lower`, `isspace`, `strip`, `startswith`, `in`, `count`, `rfind`, `replace`,
`split`. `lists.dfy` gives the `list` operations: comprehension filters, `remove`,
`pop`/`insert`, first-occurrence de-duplication. `common.dfy` holds `Option`.

## Model

| member | source | states |
|---|---|---|
| OpenRecent.ReadPaths | open_recent.py:124 | reading the file gives one stripped path per written line, and nothing when the file is absent |
| OpenRecent.LoadedSpec | open_recent.py:62-77 | the rows loaded from a file of stripped lines hold each of its paths exactly once, with no duplicates, in first-occurrence order |
| OpenRecent.LoadedStrippedTwins | open_recent.py:70-77 | duplicates are removed before stripping, so the lines `a` and `a ` load as two equal rows |
| OpenRecent.RecentFiles.UpdateList | open_recent.py:62-77 | the rows become the de-duplicated paths of the file when it exists; otherwise nothing changes |
| OpenRecent.RecentFiles.LoadList | open_recent.py:900-918 | the start-up handler reloads the rows only when the feature is enabled and the file exists |
| OpenRecent.MoveToFrontSpec | open_recent.py:192-194 | opening puts the path first and exactly once, and every other path keeps its multiplicity |
| OpenRecent.FrontAllHead | open_recent.py:127-134 | after several files are opened, the last one chosen is first |
| OpenRecent.FrontAllOnce | open_recent.py:127-134 | after several files are opened, every chosen path occurs exactly once |
| OpenRecent.FrontAllMembers | open_recent.py:127-134 | after several files are opened, a path is listed exactly when it was listed before or was chosen |
| OpenRecent.RecentFiles.OpenMainfile | open_recent.py:103-143 | if no selected file can be read the file is untouched; otherwise it starts with the last selected file, holds every selected path once, keeps every path it held before, and gains no path other than a selected one or its strip; the rows are then reloaded |
| OpenRecent.RecentFiles.OpenFile | open_recent.py:168-200 | a missing file is filtered out of the file and the operator cancels; an existing one is moved to the front and the rows are reloaded |
| OpenRecent.RecentFiles.RemoveInvalidFileFromTxtFile | open_recent.py:202-211 | every line naming the path is dropped; the rows are untouched |
| OpenRecent.SaveToFrontSpec | open_recent.py:252-255 | saving puts the path first; the list is a permutation of the old one when the path was listed, and otherwise gains just that path |
| OpenRecent.SaveKeepsLaterCopies | open_recent.py:300-303 | saving keeps a second copy of a doubly listed path, while opening leaves only one |
| OpenRecent.RecentFiles.SaveMainfile | open_recent.py:239-262 | the saved path's first copy moves to the front of the file and the rows are reloaded |
| OpenRecent.RecentFiles.SaveAsMainfile | open_recent.py:284-310 | a text without a path cancels and changes nothing; otherwise the result is as for saving |
| OpenRecent.RecentFiles.ClearRecent | open_recent.py:342-349 | the file is emptied and so are the rows |
| OpenRecent.RecentFiles.AddPath | open_recent.py:431-459 | the active path is prepended to the rows and to the file without de-duplicating, and the first row is selected |
| OpenRecent.RecentFiles.RemovePath | open_recent.py:462-481 | exactly the selected row is removed; the index drops by one only when it was positive; every file line whose stripped text is the removed path is dropped |
| OpenRecent.RecentFiles.MoveItemInFile | open_recent.py:505-516 | the file's paths undergo `insert(to, pop(from))`; an index past the end raises and leaves the file as it was |
| OpenRecent.NeighbourMoveSwaps | open_recent.py:484-502 | a move up or down exchanges the row with its neighbour and nothing else, and is a permutation |
| OpenRecent.RecentFiles.MovePath | open_recent.py:484-502 | MOVE_UP moves the row only when the index is positive and MOVE_DOWN only when it is before the last row; the row swaps with its neighbour, the index follows it and the file makes the same move; when the test fails the operator finishes and nothing changes |
| OpenRecent.RecentFiles.OpenSelected | open_recent.py:519-537 | when the selected path exists its row moves to the top, the index becomes 0 and the file makes the same move; otherwise nothing changes |
| OpenRecent.RecentFiles.RecentCleanup | open_recent.py:540-563 | with no missing path nothing changes; otherwise rows and file both become the existing paths in order, and an index past the end moves to the last row |
| OpenRecent.UniquePaths | open_recent.py:570-577 | the loop with a `seen` set computes the first-occurrence de-duplication |
| OpenRecent.RecentFiles.RemoveDuplicates | open_recent.py:566-593 | the rows become their first occurrences; the file gets the same paths unless the index is past the end, where the undefined name raises first |
| Lists.DedupSpec | open_recent.py:570-577 | the de-duplicated list has no duplicates, loses no path and is no longer than the original |
| Lists.DedupIdempotent | open_recent.py:566-593 | removing duplicates a second time changes nothing |
| Lists.DedupOrderedByFirstIndex | open_recent.py:70 | the de-duplication lists paths in increasing order of first occurrence, as `sorted(set(lines), key=lines.index)` does |
| Lists.MoveItemPermutes | open_recent.py:512 | `insert(to, pop(from))` keeps the length and the multiset of paths |
| Lists.MoveItemLands | open_recent.py:512 | the moved path lands at the target index |
| Lists.KeepSpec | open_recent.py:544-545 | the cleanup filter keeps exactly the existing paths, and changes nothing when every path exists |
| Lists.KeepCounts | open_recent.py:544-545 | every kept path occurs as often as before, so duplicates survive the cleanup, and a dropped path does not occur at all |
| Lists.KeepOrder | open_recent.py:544-545 | the kept paths are the old list read at strictly increasing positions, and those positions are exactly the ones whose path exists: the original order is kept |
| OpenRecent.OffersClearDuplicates | open_recent.py:680 | the cleanup menu offers removing duplicates exactly when some path is listed twice, which is exactly when de-duplication would change the list |
| OpenRecent.DisplayNameSpec | open_recent.py:634-645 | with the folder option on, every label ends in ".py" and is lowercase without spaces; with it off, the label is the base name; no label contains a separator |
| OpenRecent.DisplayNameOfPackage | open_recent.py:636-638 | with the folder option on, a path `d/f/n` whose name ends in `__init__.py` in any case is shown as the folder `f` lowercased, with spaces turned into underscores, plus ".py" |
| OpenRecent.DisplayNameOfModule | open_recent.py:640-645 | with the folder option on, any other path `d/b` is shown as `b` lowercased with spaces turned into underscores, with ".py" appended exactly when that does not already end in it |
| OpenRecent.Basename | open_recent.py:634 | the base name is the longest separator-free suffix of the path |
| CodeMap.ParseClassLine | code_map.py:209-218 | a base is reported exactly when the line has both "(" and ")" |
| CodeMap.ParseClassLineWithBase | code_map.py:209-218 | `class N(B):` and `class N(bpy.types.B):` parse back to name N and base B |
| CodeMap.ParseClassLineWithoutBase | code_map.py:209-218 | `class N:` parses to name N and no base |
| CodeMap.GetClassType | code_map.py:244-256 | a class without a base is UNKNOWN; a type is reported only when its base-class name occurs in the base and no type tested before it (Panel, Operator, PropertyGroup, UIList, AddonPreferences) has its name there; UNKNOWN for a base means none of the five names occurs |
| CodeMap.GetClassTypeOfBaseName | code_map.py:244-256 | each of the five base-class names is recognised as its own type, despite the tests running in a fixed order |
| CodeMap.TruncateText | code_map.py:233-236 | a label of at most 37 characters is unchanged; a longer one becomes its first 37 characters plus "...", 40 in all |
| CodeMap.TruncateIdempotent | code_map.py:233-236 | truncating a truncated label changes nothing |
| CodeMap.GetIndentation | code_map.py:238-242 | the indentation is twelve spaces from host version 3 on and four spaces before |
| CodeMap.IsMatch | code_map.py:229-231 | an empty search matches every class; for a class without members, the match is exactly a case-insensitive search in the class name |
| CodeMap.FunctionNameOfDef | code_map.py:283 | the name extracted from `def N(...` is N (the row shows it through the 37-character truncation) |
| CodeMap.MethodNameOfDef | code_map.py:402 | the name extracted from `    def N(...` is N (shown truncated) |
| CodeMap.VariableNameOfAssignment | code_map.py:258-270 | the name extracted from `N = ...` is N (shown truncated) |
| CodeMap.PropertyNameOfAnnotation | code_map.py:375-393 | the name extracted from `    N: ...` is N (shown truncated) |
| CodeMap.MethodsAheadSpec | code_map.py:220-227 | the member scan's answer is decided by the first line that is not passed over: no at a class line or at the end, yes at a member line, IndexError at a short line containing ": " |
| CodeMap.HasMethods | code_map.py:220-227 | the scan loop returns the answer of the member-scan specification |
| CodeMap.MethodsAheadNeverFails | code_map.py:225 | without short lines containing ": " the scan always answers |
| CodeMap.Draw | code_map.py:133-207 | the outline loop returns the outline function of the text: inactive without a text, an error once a line fails, otherwise the rows |
| CodeMap.OutlineRowsFit | code_map.py:169-205 | every drawn row is justified by the line it jumps to (its pattern, the search, its display switch, its extracted name, the type filter and fold state for classes), and the rows are in strictly increasing line order, so there is at most one row per line |
| CodeMap.HiddenKindsAbsent | code_map.py:169-205 | a kind switched off never appears; methods and properties appear only with class members shown or while searching |
| CodeMap.FailedStays | code_map.py:169-205 | once a line raises, the whole outline fails |
| CodeMap.DrawSucceedsWithoutShortAnnotations | code_map.py:196 | the outline is drawn whenever no line containing ": " is four characters or shorter |
| CodeMap.ShortAnnotationBreaksOutline | code_map.py:225 | a class followed by the line `x: 1` makes the outline fail |
| CodeMap.ToggleFlips | code_map.py:101-107 | toggling a name kept at most once flips its membership, and so flips the class row's fold icon |
| CodeMap.ToggleTwice | code_map.py:101-107 | toggling twice restores the names, and no other name is ever touched |
| CodeMap.DisplayDefLines.Toggle | code_map.py:92-109 | the loop removes the first item equal to the value, or appends the value when there is none |
| FindReplace.CountOccurrences | find_replace.py:185-205 | the loop returns the total match count and the found count |
| FindReplace.FoundCountBeforeSelection | find_replace.py:200-203 | the found count is the matches on the lines above the cursor line, plus those in the cursor line before the selection end |
| FindReplace.FoundAtMostTotal | find_replace.py:200-203 | the found count never exceeds the total |
| FindReplace.NoMatchesIff | find_replace.py:189-198 | the total is zero exactly when no line contains the searched text, after lower-casing when case does not matter |
| FindReplace.WordCountLabel | find_replace.py:146-147 | no label for an empty search or with the preference off; "No matches found" exactly when no line contains the text; otherwise the label is the found count (matches above the cursor line and before the cursor in its line) of the total count, with found at most total |
| FindReplace.PopupWidth | find_replace.py:127-131 | the popup is 430 wide or 360 wide |
| FindReplace.PopupWidthThreshold | find_replace.py:127-131 | texts of 54 characters keep the popup at 360, and 55 characters in either text widen it to 430 |
| FindReplace.PopupWidthMonotone | find_replace.py:127-131 | longer texts never make the popup narrower |
| FindReplace.SearchFromCursor | find_replace.py:54-69 | from the cursor line upwards, the first line with a match wins with its rightmost match; the cursor line is searched only before the cursor; no hit means no searched line contains the text |
| FindReplace.SearchFromBottom | find_replace.py:71-85 | only lines below the cursor line are searched, from the last upwards, and the first with a match wins with its rightmost match |
| FindReplace.NewTop | find_replace.py:92-93 | the view stays when the found line is on screen, and the found line is on screen afterwards |
| FindReplace.Editor.UpdateTextData | find_replace.py:87-96 | the cursor moves after the match, the match is selected, and the view scrolls as the scroll rule says |
| FindReplace.Editor.FindPrevious | find_replace.py:32-52 | a warning is given exactly when neither search finds the text, and then nothing moves; otherwise the selection holds a match on the new cursor line and the cursor sits at its end; the match is the rightmost one on the nearest line at or above the cursor (on the cursor line, before the cursor), and only when there is none the rightmost one on the lowest line below the cursor |
| TrimWhitespace.TrimWhitespaces | trim_whitespace.py:43-57 | every line becomes its right-strip in place, and the reported count is the number of characters removed |
| TrimWhitespace.Trimmed | trim_whitespace.py:48-50 | the line count is unchanged and each line is right-stripped |
| TrimWhitespace.RemovedCountIsShrinkage | trim_whitespace.py:49-51 | the count is the old total length minus the new one |
| TrimWhitespace.TrimmedLinesSpec | trim_whitespace.py:50 | each new line is a prefix of the old one and is empty or ends in a non-whitespace character |
| TrimWhitespace.TrimIdempotent | trim_whitespace.py:50-56 | a second trim changes nothing and removes nothing, and the menu entry disappears |
| TrimWhitespace.OffersTrimIffRemoves | trim_whitespace.py:29 | the menu entry is offered exactly when trimming would remove a character |
| CharacterCount.TotalIsJoinedLength | character_count.py:35 | the total is the length of the lines joined without newlines |
| CharacterCount.SelectedWithinTotal | character_count.py:39-48 | the selected count never exceeds the total |
| CharacterCount.FooterLabel | character_count.py:27-57 | line and column are 1-based; the total is the sum of the line lengths; a selected count is shown exactly when the cursor and the selection end differ, it is the count as written and at most the total; line and column come from the selection end during a selection and from the cursor otherwise |
| CharacterCount.SelectedAgreesWhenColumnsFollowLines | character_count.py:39-40 | the count as written equals the distance between the two positions whenever the earlier line also holds the smaller column |
| CharacterCount.MispairedColumnsCounterexample | character_count.py:39-40 | with the cursor at the start of "cd" and the selection end at the end of "ab", the footer shows 4 selected characters, though the selection spans none |
| CharacterCount.SelectedSpanIsDistance | character_count.py:39-48 | with the positions ordered as pairs, the selected count is the distance between their offsets and never exceeds the total |
| JumpToLine.LineCount | jump_to_line.py:26 | the line count is one more than the number of newlines, so it is at least 1 |
| JumpToLine.JumpTarget | jump_to_line.py:29-37 | a request of 0 or below gives no jump; an in-range request passes through; a request past the end goes to the last line; the target is always within the lines |
| JumpToLine.JumpTargetStable | jump_to_line.py:32-35 | jumping to the line a jump landed on lands there again |
| JumpToLine.Scene.UpdateLineNumber | jump_to_line.py:23-37 | with a text, the jump goes to the clamped line and a request past the end is written back as the line count; otherwise nothing changes |

## Left out

- Host registration, keymaps, menus, panels, headers, layout and icon loading are left out. They draw or register and hold no logic.
- The `ast`-based "active class" and "active function" indicators are left out (code_map.py:291-316, 347-373). They call Python's parser. Their 900-line cut-off is left out with them.
- `drag_and_drop.py` and most of `__init__.py` are not part of this model. They hold host file handlers, add-on installation and preference sheets.
- From `__init__.py` the model uses the list of filter values (`__init__.py:155-166`), modelled as `ClassFilter`, and the preference switches the modelled code reads: `display_count_label` (`FindReplace.WordCountLabel`) and `enable_open_recent` (`OpenRecent.RecentFiles.LoadList`) are parameters, and `code_filter_type` is the `filter` field of `CodeMap.View`.
- CodeMap.Draw assumes that the preferences `auto_activate_search`, `display_code_filters`, `display_class_type`, `display_function_indicator` and `display_class_indicator` exist (code_map.py:140, 145, 159, 291, 347). The preference class in `__init__.py` (lines 143-166) does not define them, so as the files stand `DrawHelper.draw` raises AttributeError at code_map.py:140, before the `text is None` test and before any row. The model draws as if the preferences were defined.
- OpenRecent.DisplayNameOfPackage is stated for a non-empty folder name. For a path like `x//__init__.py`, `os.path.dirname` drops both separators and the label comes from `x`; `OpenRecent.DisplayName` computes that too, but no lemma states it.
- FindReplace.WordCountLabel and FindReplace.CountOccurrences assume an open text. Without one, `count_occurrences` reads `text_data.lines` on `None` (find_replace.py:174, 189) and the popup's draw raises AttributeError whenever the search text is non-empty.
- File I/O is left out. `open_recent.txt` is a field holding its lines, and file existence and readability are predicates passed in.
- The hard-coded `~/Documents/Open Recent` location is left out, and so is the host's path joining for the selected files.
- OPEN_FOLDER (open_recent.py:596-603) is left out: it starts the system file browser.
- Tooltips, descriptions, the `strftime` time stamp and reports other than the trim count are left out.
- Unicode is left out. `lower`, `isspace` and `strip` are modelled over ASCII, without Unicode case folding or Unicode whitespace.
- `os.path` is modelled with both `/` and `\` as separators and without drive letters.
- A negative `recent_list_index` is not modelled as Python's negative indexing. Where the source indexes the rows (`remove_path`, `open_selected`), an index outside them gives `IndexError` and changes nothing.
- OpenRecent.RecentFiles.MovePath: when its test passes with an index outside the rows (MOVE_UP from past the end, MOVE_DOWN from a negative index), the host collection's `move` is not modelled; the model reports `IndexError` and changes nothing.
- OpenRecent.RecentFiles.OpenMainfile: the contract states the file's first path, that each selected path occurs once, and which paths the file holds. The exact order the per-file passes leave behind is not stated.
- OpenRecent.LoadedSpec assumes stripped lines. Lines that differ only in surrounding whitespace load as equal rows (`OpenRecent.LoadedStrippedTwins`), as the source does.
- CodeMap.Draw: when a line raises, the rows the host laid out for the earlier lines stay on screen. `DrawError` does not carry them.
- The host's reaction to `select_set` is left out. FindReplace.Editor.UpdateTextData records the requested selection and sets the cursor as the operator does.
- The `found_word` slice at the end of `update_text_data` is left out: nothing uses it.
- FindReplace.Editor.FindPrevious assumes an open text. Without one the operator only returns.
- The `text is None` paths of the footer are left out. CharacterCount.FooterLabel requires both positions to lie inside the text, as the host keeps them.
- The `min=1` bound of the `line_number` property (jump_to_line.py:53) is left out. The handler's own test for 0 and below is modelled instead.
- The `data_path` lookup of the toggle operator (code_map.py:92-100) is left out. The operator acts directly on the list of expanded class names.
- CharacterCount.FooterLabel shows the selected count as written, with columns sorted apart from lines. The intended count is under Findings.

## Findings

| source | as written | input that shows it | evidently intended | confidence | as-written member | corrected member |
|---|---|---|---|---|---|---|
| character_count.py:39-40 | line numbers and column numbers of the cursor and the selection end are each sorted on their own, so in a multi-line selection whose earlier line holds the larger column a column is paired with the wrong line | lines "ab" and "cd", cursor at line 1 column 0, selection end at line 0 column 2: the footer counts 4 selected characters, but the selection holds none | order the two positions as (line, column) pairs, so the count is the distance between them | not executed | CharacterCount.MispairedColumnsCounterexample | CharacterCount.SelectedSpanIsDistance |

Another defect is modelled as behaviour, not listed as a finding. Both `has_methods` and the outline read `line[4]` of any line containing ": " (code_map.py:196, 201, 225). On a line of four characters or fewer this raises `IndexError`, and the draw stops at that line (`CodeMap.ShortAnnotationBreaksOutline`).
