# Duplicate recordings: a Dafny model

This project models the core of the VDR "duplicates" plugin. The plugin looks
through the video recorder's library for recordings that are probably the same
broadcast, and publishes them as groups. A menu lists the groups and lets the
user hide recordings.

The model covers these parts:

- **The visibility marker** (`visibility.dfy`). A recording is hidden when a
  `duplicates.hidden` file exists in its directory. A `cVisibility` object
  caches the last answer in three states: unknown, visible or hidden. The
  file system is a set of marker paths. Creating or removing a marker takes a
  success flag that stands for every other reason the file system may refuse.
- **The settings** (`config.dfy`). `cDuplicatesConfig` keeps the `title`
  integer and parses it with `atoi` after a case-insensitive name match. The
  `title` and `hidden` integers reach the matcher and the scanner as one
  `Settings` value; each switch is on when its integer is not zero, and the
  scanner thread remembers and compares the integers themselves.
- **The comparison record and the matcher** (`recording.dfy`).
  - The matching key is the short text followed by the description, with every
    `|` and every blank erased by the constructor's find-and-erase loops.
  - The recursive `HasDescription` is included.
  - `IsDuplicate` is a directional substring test with a title gate and a
    visibility gate. It also fills the visibility caches it reads.
  - The copy constructor turns an empty member list into none.
- **The published list** (`published.dfy`). `cDuplicateRecordings` holds the
  groups and a state counter. `Remove(fileName)` deletes a recording from every
  group, drops the groups that become too small, and relabels the rest.
- **The scanner** (`scanner.dfy`). One pass builds the records. It then groups
  the described records greedily: each unchecked record seeds a group, and only
  records that match the seed join. Groups of more than one are kept, and the
  records without description go into a final catch-all group. The new list is
  published unless the library changed. The scanner loop's step compares the
  settings and the library's change counter with what it saw last.
  - The grouping is proved against a reference on record indices (`Clusters`).
    That reference is a partition into groups in seed order, each holding only
    records that match its seed.
- **The menu** (`menu.dfy`). The menu lists one separator per group, followed
  by one entry per member.
  - `Del` deletes an item and then, in a backward sweep, every separator that
    heads fewer than two entries, together with those entries.
  - `SetCurrentIndex` clamps the index and walks back to a selectable item.
  - `SetHelpKeys` chooses among the three button states.
  - `ToggleHidden` writes the opposite of what the current recording reads.
  - Flattening and parsing the list are proved inverse to each other.
  - The sweep is proved equal to dropping the small sections.

Two consequences of the code that a reader might not expect:

- **Grouping is not transitive.** recording.c:190-199 compares each unchecked
  record only with the seed, never with the members already gathered. So if A
  matches B and B matches C but A does not match C, the group is {A, B}, and C
  stays alone and is not published. `Scanner.ChainIsCut` proves this on three
  concrete records.
- **Hidden records are filtered inside the matcher.** The visibility gate is
  the last test in `IsDuplicate` (recording.c:91-92). A group's count is never
  corrected after grouping.

The sources also contradict each other in three places:

- **`HasDescription`.** The header's inline version differs from the recursive
  one in recording.c. The recursive one is modelled, and
  `Recording.HasDescriptionLeaf` shows that the two agree on plain records.
- **`RemoveDeleted` vs. `Remove`.** The header declares `RemoveDeleted`, but
  recording.c defines `Remove(fileName)`. `Remove` is modelled.
- **The "show hidden" switch.** The configuration class does not declare it,
  but the code reads it. It is passed in as the integer `Settings.hidden`.

## Model

| member | source | states |
|---|---|---|
| Visibility.MarkerPath | visibility.c:20 | the marker is the recording's directory, a slash, then `duplicates.hidden` |
| Visibility.NewCache | visibility.c:19-22 | a new cache looks at the recording's marker and knows nothing yet |
| Visibility.ReadState | visibility.c:43-49 | a read never answers unknown; a known cache answers itself; an unknown one answers hidden exactly when the marker exists |
| Visibility.Resolve | visibility.c:43-48 | after a read the cache holds the answer, keeps its marker, and a known cache is left as it was |
| Visibility.ResolveStable | visibility.c:39-50 | resolving twice is resolving once, and it never changes what a later read answers |
| Visibility.WriteOutcome | visibility.c:52-67 | showing succeeds only when the marker exists and the file system allows it; hiding succeeds when the file system allows it; on success the marker is removed or created and the cache follows; on failure nothing changes |
| Visibility.WriteKeepsSound | visibility.c:52-67 | a cache that agrees with the marker still agrees after any write, successful or not |
| Visibility.WriteThenRead | visibility.c:39-67 | after a successful write, a read answers what was written; after a failed one, a read answers what it answered before |
| Visibility.Visibility.constructor | visibility.c:19-22 | a new object has the recording's marker path and an unknown state |
| Visibility.Visibility.Copy | visibility.c:24-26 | the copy has the same marker path and the same cached state |
| Visibility.Visibility.Get | visibility.c:28-33 | answers the cached state as it is, possibly unknown, and changes nothing |
| Visibility.Visibility.Set | visibility.c:35-37 | only the cached state changes, to visible or hidden; the markers are untouched |
| Visibility.Visibility.Read | visibility.c:39-50 | resolves an unknown state once from the marker and answers the cache, never unknown; a known state is answered without looking at the markers |
| Visibility.Visibility.Write | visibility.c:52-67 | removes (to show) or creates (to hide) the marker; the result, cache and markers are those of `WriteOutcome`, and showing fails without a marker |
| Config.AtoiWithoutInteger | config.c:22 | a value that does not start with an integer (after blanks and one sign) parses as 0 |
| Config.AtoiDecimal | config.c:22 | every decimal numeral, with or without a minus sign, reads back as its value |
| Config.AtoiDigits | config.c:22 | a string of digits reads as its decimal value |
| Config.AtoiNegated | config.c:22 | a minus sign followed by digits reads as the negated value |
| Config.DuplicatesConfig.constructor | config.c:14-16 | title comparison is on by default (`title` is 1) |
| Config.DuplicatesConfig.SetupParse | config.c:21-26 | accepted exactly when the name is `title` in any letter case, and then `title` is `atoi` of the value; any other name is refused and `title` is unchanged |
| Recording.Without | recording.c:34-45 | the result holds no occurrence of the erased character and is no longer than the input |
| Recording.WithoutErase | recording.c:38 | erasing one occurrence does not change what remains once all occurrences are erased |
| Recording.NormalizedIsKey | recording.c:28-45 | the key holds no vertical bar and no blank, and is exactly the text's other characters in their order |
| Recording.IndexOf | recording.c:35 | answers the first position that holds the character, or reports that the character does not occur |
| Recording.EraseAll | recording.c:34-45 | the find-and-erase loop leaves the text without the character, the others in order |
| Recording.NewRecord | recording.c:20-47 | unchecked, unknown visibility, no member list; the key is short text then description with vertical bars and blanks removed; the title is non-empty only when titles are compared and the recording has one |
| Recording.GroupHead | recording.c:16-18 | a group head has an empty member list, no key and no text |
| Recording.HasDescriptionLeaf | recording.h:32 | for a record without a member list, having a description is exactly having a non-empty key |
| Recording.HasDescriptionHead | recording.c:69-75 | a group head without a key answers for its first member |
| Recording.Find | recording.c:84 | the search succeeds exactly when the needle occurs somewhere in the haystack |
| Recording.InLonger | recording.c:83-84 | the shorter string is searched in the longer; on equal length the argument's string is the haystack |
| Recording.IsDuplicate | recording.c:77-95 | the only change to either record is its visibility cache, which is left unchanged or filled with the resolved value |
| Recording.IsDuplicateCaches | recording.c:91-92 | when hidden recordings are shown a question fills no cache; when they are not and the answer is yes, both caches are filled from the markers; when the candidate's cache is filled, the answer is no exactly when the candidate reads hidden |
| Recording.IsDuplicateSpec | recording.c:77-95 | false when either record lacks a description; a match requires the titles (when compared) and the keys to be contained in the longer one and the visibility gate to pass; when all of these hold it is a match |
| Recording.EmptyTitlePasses | recording.c:82-87 | an empty title passes the title gate on either side |
| Recording.IsDuplicateReflexive | recording.c:77-95 | a described record that is not hidden, or when hidden ones are shown, matches itself |
| Recording.IsDuplicateIgnoresResolve | recording.c:92 | filling a cache never changes a later answer |
| Recording.CopiedShape | recording.c:49-63 | a copy has no empty member list, differs from the original only in member lists, and has a description exactly when the original has |
| Recording.CopiedIdentity | recording.c:56-62 | copying a record without empty member lists gives the same record |
| Recording.CopiedIdempotent | recording.c:49-63 | copying a copy gives the same copy |
| Recording.Copy | recording.c:49-63 | the member-by-member copy equals the reference copy |
| Recording.SetChecked | recording.h:34 | the flag becomes the value given, true by default |
| Recording.SetText | recording.h:38 | the text becomes the one given |
| Recording.AccessorsReadBack | recording.h:34-39 | checked and text read back what was last set, setting one leaves every other field as it was, and the two setters commute |
| Published.WithoutFile | recording.c:109-116 | no member of the file is left and the list does not grow |
| Published.WithoutFileClean | recording.c:109-116 | after the deletion the member list has no member of the file |
| Published.WithoutFileAbsent | recording.c:109-116 | a list without the file is left unchanged |
| Published.PrunedGroups | recording.c:101-128 | after `Remove` every group has at least two members, none of them of the removed file, and is labelled with its count as duplicates or as without description after its first member |
| Published.PrunedInOrder | recording.c:101-128 | the groups left after `Remove` are exactly the old groups that keep at least two members, each relabelled with its new count, in their old order |
| Published.PrunedUntouched | recording.c:101-128 | a list of well-formed groups without the file is left exactly as it was |
| Published.PrunedIdempotent | recording.c:101-128 | removing the same recording twice is removing it once |
| Published.DuplicateRecordings.constructor | recording.c:99 | the published list starts empty |
| Published.DuplicateRecordings.Replace | recording.c:216-222 | the list becomes the new groups and the state advances |
| Published.DuplicateRecordings.Remove | recording.c:101-131 | the list becomes the pruned list, and the state advances exactly when some member of the file was deleted |
| Published.PruneAll | recording.c:105-128 | the in-place walk over the groups gives the pruned list, and reports a deletion exactly when some group had a member of the file |
| Published.EraseFile | recording.c:109-116 | the in-place walk over the members deletes exactly the file's members, and the list shrinks exactly when it had one |
| Published.PruneOne | recording.c:108-127 | one group is dropped or relabelled as the reference says, with a deletion reported exactly when it had a member of the file |
| Scanner.Described | recording.c:174-177 | the records kept for grouping are fresh and have a non-empty key |
| Scanner.Undescribed | recording.c:178-179 | the records for the catch-all group are fresh (the hidden test reads a copy of the cache, so no cache is filled), have no key, and are not hidden unless hidden ones are shown |
| Scanner.BuildRecords | recording.c:174-180 | the first loop splits the library into exactly those two lists, in library order |
| Scanner.Big | recording.c:202-206 | only groups of more than one record are kept, in order |
| Scanner.SeedGroupProps | recording.c:190-201 | the group of a seed starts with the seed, lists records in order, none grouped before, each matched by the seed, and takes every ungrouped record the seed matches |
| Scanner.ClustersPartition | recording.c:183-208 | every record is in exactly one group; each group is its seed then records matching the seed; seeds come in list order; no seed matches a record of a later group |
| Scanner.ChainIsCut | recording.c:194-199 | with keys "xy", "y", "yz": the first two match and the last two match, but the third does not join the first's group and only the first two are published |
| Scanner.BigKeepsSeedOrder | recording.c:202-204 | the published groups keep the seed order |
| Scanner.FirstAlarm | recording.c:184-187 | the first check that is not quiet, or none when all are quiet |
| Scanner.DupSimilar | recording.c:77-95 | the checked flag and caches filled from the markers do not change a match |
| Scanner.DupGroup | recording.c:192-203 | a duplicate group is labelled "duplicate recordings" with its member count |
| Scanner.CatchAll | recording.c:209-211 | the catch-all group is labelled "without description" with its member count |
| Scanner.GroupRecords | recording.c:183-208 | the grouping loops give up exactly at the first alarm, reporting whether it was a library change; otherwise the groups are the published form of the reference grouping: each member is a copy of its record, the seed checked and the joiners unchecked, each with the cache it was built with, except that a joiner's cache is filled from the markers when hidden recordings are not shown; the seed's copy in a published group keeps its built cache exactly, because a record whose cache an earlier question filled without taking it reads hidden and, as a seed, takes nobody |
| Scanner.SeedStep | recording.c:184-207 | one seed position keeps the loop state: records before it checked, groups so far equal to the reference's |
| Scanner.FormGroup | recording.c:190-201 | an unchecked seed is marked and its group is exactly the reference group |
| Scanner.AskSeed | recording.c:196 | asking the seed inside the scan gives the reference verdict, whatever the caches hold |
| Scanner.GatherGroup | recording.c:193-201 | the inner loop copies the seed (after marking it) and every unchecked record that matches it (before marking it), in order, and marks them; a joiner's copy carries the cache its question filled; when anyone joins, the seed's copy has the cache the seed was built with; an unchecked record's cache differs from its built one only when it reads hidden |
| Scanner.Visit | recording.c:195-200 | one position of the inner loop keeps the gathering state |
| Scanner.CopyGroups | recording.c:219-221 | each group is copied with the copy constructor, in order |
| Scanner.CopiesUnchanged | recording.c:219-221 | the groups of a pass survive copying unchanged |
| Scanner.Pass | recording.c:170-221 | the pass is abandoned exactly at an alarm before a seed or a library change after grouping; otherwise the result is the duplicate groups in seed order, with their members copied as `GroupRecords` states, then the catch-all group if it is not empty |
| Scanner.ScannerThread.constructor | recording.c:137-140 | the thread starts with the current settings and has seen nothing of the library |
| Scanner.ScannerThread.Scan | recording.c:166-226 | an abandoned pass leaves the published list and its state untouched; otherwise the list is replaced by the new publication and its state advances; a library change makes the key stale |
| Scanner.ScannerThread.Step | recording.c:151-160 | the step scans exactly when either stored setting integer differs from the current one (so `title` going from 2 to 1 rescans) or the library has a state the key has not seen; the settings are remembered; without a scan nothing changes; with a scan the published list and its state are the pass's outcome, and the key is the library's state unless the pass saw a change, which leaves it stale |
| Menu.Listed | menu.c:170-182 | the list starts with a separator; with no groups it is the single "0 duplicate recordings" separator |
| Menu.ParseLayout | menu.c:172-180 | reading sections back from the flattened list gives the sections |
| Menu.LayoutParse | menu.c:172-180 | flattening what was read from a list that starts with a separator gives the list back |
| Menu.ListedParses | menu.c:172-182 | the listed items of a non-empty group list read back as one section per group, heading and members in order |
| Menu.Kept | menu.c:284-293 | the kept sections have at least two entries each and are sections of the input |
| Menu.TidyGrouped | menu.c:284-294 | after the sweep every separator heads at least two entries |
| Menu.TidyKeepsGrouped | menu.c:284-293 | a list in which every separator heads at least two entries is left unchanged |
| Menu.TidyLayout | menu.c:284-293 | the sweep over a flattened list is the flattening of the sections with at least two entries, in order |
| Menu.Nearest | menu.c:269-276 | the nearest selectable item at or before the index, and only separators between; none when there is no selectable item up to there |
| Menu.LastMatch | menu.c:174-179 | the last entry of the replayed recording, or none when there is no such entry |
| Menu.HelpKeysFor | menu.c:144-150 | 0 exactly without a current item, 2 exactly when the current recording reads hidden, otherwise 1 |
| Menu.BlueButtonMatchesToggle | menu.c:155 | the blue button offers "Unhide" exactly when the current recording reads hidden, and "Hide" otherwise |
| Menu.DuplicatesMenu.constructor | menu.c:120-137 | a new menu lists the groups, selects the last replayed recording, and shows the buttons for it |
| Menu.DuplicatesMenu.Set | menu.c:162-187 | the items are the listed groups; a rebuild selects the last entry of the last replayed recording, a refresh the nearest selectable item at or before the old position; the selection is valid |
| Menu.AppendEntries | menu.c:174-179 | the inner loop of `Set` appends one entry per member, in order, and the selection is the last entry of the replayed recording |
| Menu.DuplicatesMenu.Fill | menu.c:170-180 | after clearing, the loop over the groups leaves exactly the flattened sections of the groups, empty exactly when there are no groups, with the last replayed entry selected |
| Menu.DuplicatesMenu.AddGroup | menu.c:173-179 | one group adds its separator and its members in order, and the selection follows the last replayed recording |
| Menu.DuplicatesMenu.SetCurrentIndex | menu.c:265-278 | a negative index changes nothing; otherwise the index is clamped and the nearest selectable item at or before it is selected, and with none the selection stays |
| Menu.DuplicatesMenu.DelItem | menu.c:281 | the host's delete removes exactly the item at the index and leaves a valid selection |
| Menu.DuplicatesMenu.DropSection | menu.c:286-290 | deletes the separator and exactly the `d` entries after it |
| Menu.DuplicatesMenu.Del | menu.c:280-296 | the items become the sweep of the list without the deleted item; every separator heads at least two entries; the selection is valid and is the nearest selectable item at or before the index when there is one |
| Menu.DuplicatesMenu.Sweep | menu.c:283-294 | the backward walk of `Del` leaves exactly the sweep of the list it started from, with a valid selection |
| Menu.DuplicatesMenu.SweepAt | menu.c:285-293 | one step of the backward walk extends the swept suffix by one position and keeps the entry count below it |
| Menu.DuplicatesMenu.SetHelpKeys | menu.c:143-160 | the button state is recomputed from the current item, and the help line is replaced only when the state changed |
| Menu.DuplicatesMenu.ToggleHidden | menu.c:415-433 | with no sub-menu, a current item and confirmation, it writes the opposite of what the item reads; a failed write changes nothing; on success the item is deleted as by `Del`, with the list grouped and the selection at the `Target` of the old position when there is one, unless hidden recordings are shown, in which case the list, the item's own cache included, stays as it was because the write goes through a copy; the buttons are recomputed |

## Left out

- Threads are not modelled: the scanner thread, `Running()`, `Cancel`, the
  sleeps, the I/O throttle and the state-key locks. What the pass learns at
  each check is an oracle (`Probe`), and the library's change counter is a
  number.
- The scan's timing and its floating-point duration are left out, and so are
  the log messages.
- Translated and formatted labels are not modelled. A label is a kind and a
  count.
- The library's `Sort()` is not modelled: the library arrives as a sequence
  already in its order.
- `cStateKey` internals are left out. The scanner's key is either stale or has
  seen one library state. Its release after sorting does not count as a change
  and is left out.
- The menu host's `Clear` and single-item `Del` are VDR code, not part of this
  model:
  - `Clear` is taken to reset the selection;
  - the single delete may leave the selection on any selectable item or on
    none.
- `DuplicateRecordings.Update()` and the menu's mutex are not part of this
  model. The menu receives the published groups as a value.
- These menu parts are not modelled, because they are drawing, key dispatch or
  host calls with no list logic:
  - `Display`, `Delete`, `Play`, `Info`, `Setup` and `ProcessKey`;
  - `TimerStillRecording`;
  - `cMenuSetupDuplicates`, `cDuplicatesReplayControl` and `cMenuDuplicate`.
- The user's confirmation, an open sub-menu and the file system's success are
  parameters of `ToggleHidden`. The error message is left out.
- `cDuplicatesConfig::Store` and the plugin boilerplate in duplicates.c are
  calls into the host, so they are not modelled.
- Config.DuplicatesConfig.SetupParse: does not model `atoi` overflow, because C
  leaves it undefined and integers here are unbounded.
- Records are values, not heap objects. Where the plugin updates a record in
  place (the checked flag, the label, a filled cache), the model replaces the
  value in its list. Pointer identity of the member lists is not modelled.
