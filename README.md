# Roblox realm-pack macro: a verified model of its bookkeeping

The macro (`macro.py`) is a Qt control panel and a backend that buys "realm
packs" in a game shop. It opens the shop, searches the shelf for each pack the
operator selected (scrolling up or down), buys the pack while it is in stock,
closes the shop, sells, and waits for a restock. This project models the
deterministic logic around that loop:

- **Catalog** (`catalog.dfy`): the canonical shelf order and the pack colours.
  It also holds `image_files`, the pack-name → image-key mapping
  (`replace(" ", "")`) and the file-name → key mapping (`os.path.splitext`).
- **Planner** (`planner.dfy`): the search order of one cycle. The selection is
  stably sorted by shelf index (unknown names get key 99). Once the shelf
  position is known, the sorted list is rotated to start at the first pack at
  or after `LastPackClicked`.
- **Automation** (`automation.dfy`): `RobloxMacroBackend` as a class holding
  `image_files`, `running`, `initial_search` and `LastPackClicked`. Its
  methods cover:
  - `search_and_click_pack` and the per-pack scroll search, which updates the
    two position fields;
  - the retry loop of `logic_open_shop`;
  - `purchase_pack`;
  - the loop over the planned packs;
  - the close loop;
  - `wait_for_restock`;
  - one cycle of `macro_loop`.

  Every while loop is a `method` with its invariants. Each method is proved
  equal to a recursive specification function, and the properties are lemmas
  about those functions.
- **Brightness** (`brightness.dfy`): `PackButton.adjust_brightness`, a parser
  and printer of `#rrggbb` / `#rgb` colours with clamping.
- **Geometry** (`geometry.dfy`): the integer region centres and the
  translation of a match location to a screen point.
- **ControlPanel** (`control_panel.dfy`): `MainWindow` as a class holding
  `pack_vars`, the two hotkeys and the backend. It covers:
  - pack toggling;
  - selected-pack extraction;
  - `start_macro`/`stop_macro`/`toggle_macro`/`on_macro_finished` on
    `backend.running`;
  - hotkey reassignment with its conflict check.

Screen capture and template matching become an oracle. Every call of
`find_image_in_region` reads the next boolean of a sequence `screen` (true
means "found"), and a query past its end reads "not found". `running` is
constant during one backend call.

## Model

| member | source | states |
|---|---|---|
| Catalog.FullName | macro.py:528-531 | a PACK_FULL_NAMES value is its key followed by " Realm Pack" |
| Catalog.IndexOf | macro.py:469 | `list.index`: None exactly when the element is absent; otherwise the first position holding it |
| Catalog.CanonicalPosition | macro.py:469 | `pack_order.index`: defined exactly for the six full names and gives back their shelf position |
| Catalog.SortKey | macro.py:445-446 | `temp_pack_order.get(x, 99)`: a shelf pack's own position, 99 for any other name |
| Catalog.SortKeyOfCanonical | macro.py:528-531 | the full names (lines 528-531) are distinct, so each pack's sort key and index are its shelf position |
| Catalog.ImageKey | macro.py:267 | `replace(" ", "")`: the key has no space and is no longer than the name |
| Catalog.ImageKeyKeepsCharacters | macro.py:267 | a character is in the key exactly when it is in the name and is not a space |
| Catalog.ImageKeyOfSpaceless | macro.py:267 | removing spaces leaves a space-free name as it is |
| Catalog.ImageKeyAppend | macro.py:267 | removing spaces distributes over concatenation |
| Catalog.ImageKeyJoin | macro.py:267 | removing spaces from x + " " + y joins the two keys |
| Catalog.ImageKeyOfWords | macro.py:267 | removing spaces from "a b c" gives abc |
| Catalog.FullNameKey | macro.py:267 | the key of "<short> Realm Pack" is "<short>RealmPack" |
| Catalog.PackKeyInFiles | macro.py:137-142 | the pack keys are "<short>RealmPack" and are keys of image_files |
| Catalog.FullNameHasPackKey | macro.py:267 | a shelf pack's full name maps to "<short>RealmPack" |
| Catalog.PackImageKey | macro.py:267-273 | each shelf pack's key is its template key, and that key is in image_files |
| Catalog.CanonicalNamesHaveTemplates | macro.py:267-269 | every canonical pack name passes the `not in image_files` guard |
| Catalog.ShortNameNotAKey | macro.py:131-143 | no short PACK_COLORS name (lines 524-527) is a key of image_files |
| Catalog.ShortNameKey | macro.py:267 | a short name is its own image key |
| Catalog.ShortNameHasNoTemplate | macro.py:267-269 | searching a short name returns False at the guard |
| Catalog.LastDot | macro.py:239 | position of the last '.', None exactly when there is none |
| Catalog.Stem | macro.py:239 | `splitext(...)[0]`: a prefix of the file name, cut at its last '.' unless only dots precede that '.' (with StemIsSplitextRoot) |
| Catalog.StemIsSplitextRoot | macro.py:239 | an extension that is dropped starts at the last '.' and follows a character that is no '.'; a name kept whole has no '.' or only dots before its last one |
| Catalog.StemOfPng | macro.py:239 | removing the extension from key + ".png" gives back a dot-free key |
| Catalog.ImageKeyIsDotFree | macro.py:132-142 | no image key contains a '.' |
| Catalog.ImageFileStem | macro.py:237-240 | for every key, `splitext(image_files[key])[0]` is the key again (round trip) |
| Planner.WithKey | macro.py:445-446 | the elements of a given key, a subsequence no longer than its input |
| Planner.Insert | macro.py:446 | insertion adds exactly one element (multiset) |
| Planner.InsertSorted | macro.py:446 | insertion keeps a key-sorted list sorted |
| Planner.SortByKey | macro.py:445-446 | `sorted(..., key=...)`: same length, same multiset, sorted by key |
| Planner.InsertWithKey | macro.py:446 | sorted insertion places x before the equal-key elements after it |
| Planner.SortByKeyStable | macro.py:446 | stability: for every key, the packs of that key keep their selection order |
| Planner.FirstAtOrAfter | macro.py:449-452 | the first index whose key is ≥ last, with every key before it < last |
| Planner.StartIndex | macro.py:447-452 | start_index is 0, or an index inside the sorted list |
| Planner.Rotate | macro.py:453 | `s[k:] + s[:k]`: the same length, position i holds s[k + i] up to the wrap and s[i - (len - k)] after it |
| Planner.PlanOrder | macro.py:445-453 | the planned order has one entry per selected pack; that it is the sorted selection rotated at start_index is PlanIsPermutation, PlanInitial and PlanRotation |
| Planner.RotatePermutation | macro.py:453 | `s[k:] + s[:k]` is a permutation of s |
| Planner.PlanIsPermutation | macro.py:445-453 | the planned order has the selection's length and multiset |
| Planner.PlanInitial | macro.py:447-453 | with initial_search the order is the sorted selection |
| Planner.PlanRotation | macro.py:447-453 | otherwise the order starts at the first sorted pack with index ≥ LastPackClicked and wraps the earlier ones. All earlier packs have a smaller index. With no such pack there is no rotation |
| Planner.SortOfSorted | macro.py:446 | sorting a key-sorted list changes nothing |
| Planner.FirstAtOrAfterOfPositions | macro.py:449-452 | in a list keyed by position, the first pack at or after last is at last |
| Planner.PositionsRotation | macro.py:445-453 | a list keyed by position is rotated at last |
| Planner.FirstRunExample | macro.py:445-453 | on a first run the selection [Pirate, Dragon] is searched as [Dragon, Pirate] |
| Planner.FullShelfRotation | macro.py:445-453 | the whole shelf with LastPackClicked = k is searched from pack k, wrapping the earlier packs |
| Brightness.HexValue | macro.py:95 | a hex digit's value, below 16 |
| Brightness.HexDigitChar | macro.py:97 | the lowercase digit `:02x` emits, read back as its value |
| Brightness.LowerDigitRoundTrip | macro.py:95-97 | a lowercase digit is emitted back from its own value |
| Brightness.ParsePair | macro.py:95 | `int(pair, 16)`: two hex digits give 16·a+b, two non-digits raise ValueError; a pair is read only from digits, a leading sign and the whitespace int() skips (tab, line feed, vertical tab, form feed, carriage return, space); results lie in [-15, 255] |
| Brightness.StripHashes | macro.py:90 | `lstrip('#')`: a suffix that does not start with '#', only '#' removed |
| Brightness.Doubled | macro.py:92 | every character written twice, in order |
| Brightness.HexPart | macro.py:90-92 | `lstrip('#')`, with a three-character body expanded to six characters; any other body is kept as it is |
| Brightness.ParseHex | macro.py:95 | the three channels exist exactly when the three pairs parse |
| Brightness.Parse | macro.py:88-95 | a colour reads only with a leading '#' and a six-character hex part |
| Brightness.Clamp | macro.py:96 | `max(0, min(255, c))`: in range, identity inside, 0 below and 255 above |
| Brightness.Hex2 | macro.py:97 | `:02x` gives two lowercase digits whose value is the byte |
| Brightness.Format | macro.py:97 | output is "#" plus six lowercase hex digits |
| Brightness.Shift | macro.py:96 | every channel becomes clamp(channel + amount) |
| Brightness.AdjustBrightness | macro.py:86-99 | the result is the input or a lowercase "#rrggbb"; an unreadable input comes back unchanged |
| Brightness.MalformedUnchanged | macro.py:88-99 | the input comes back unchanged without '#', for a hex part of the wrong length, or when a pair is not hex |
| Brightness.SeparatorRejected | macro.py:95-99 | a pair holding one of the separators \x1c-\x1f is rejected, so a colour with one comes back unchanged |
| Brightness.Byte | macro.py:95 | a strict pair of hex digits is a byte |
| Brightness.StripOneHash | macro.py:90 | one leading '#' strips to the rest |
| Brightness.HexPartOfSix | macro.py:90-93 | the hex part of "#rrggbb" is its six digits |
| Brightness.HexPartOfThree | macro.py:90-92 | the hex part of "#rgb" is its digits doubled |
| Brightness.ParseHexStrict | macro.py:95 | six strict digits parse pair by pair |
| Brightness.ParseOfHexPart | macro.py:88-95 | a '#' colour with a six-character hex part is read from that part |
| Brightness.BytesAfterHash | macro.py:95 | the channels of the digits after '#' |
| Brightness.ParseSix | macro.py:88-95 | "#rrggbb" parses to its three bytes |
| Brightness.AdjustSixDigits | macro.py:95-97 | for "#rrggbb" the result is lowercase "#rrggbb" whose channels are the input's, moved and clamped |
| Brightness.AdjustThreeDigits | macro.py:91-92 | "#rgb" adjusts exactly like its expansion "#rrggbb" |
| Brightness.DoubledThree | macro.py:92 | the expansion of three digits |
| Brightness.ExpandedHexPart | macro.py:91-92 | the expansion is a valid six-digit colour with the same hex part |
| Brightness.FormatChannels | macro.py:97 | the printed digits read back as the channels |
| Brightness.ParseFormat | macro.py:95-97 | parse(format(c)) == c (round trip) |
| Brightness.FormatParse | macro.py:95-97 | format(parse(s)) == s for lowercase "#rrggbb" (round trip) |
| Brightness.FormatBytes | macro.py:95-97 | a lowercase colour's bytes are in range and print back as the colour |
| Brightness.ByteDigits | macro.py:95-97 | `:02x` of a lowercase pair's value is that pair |
| Brightness.AdjustZeroIdentity | macro.py:90-97 | amount 0 returns a lowercase "#rrggbb" unchanged |
| Brightness.ClampCompose | macro.py:96 | two same-signed clamped shifts are one clamped shift |
| Brightness.AdjustCompose | macro.py:86-99 | adjusting by a then b (same sign) equals adjusting by a+b, for non-negative channels |
| Brightness.AdjustOfParsed | macro.py:95-97 | a readable colour adjusts to format(shift(channels)) |
| Brightness.ShiftCompose | macro.py:96 | same-signed shifts compose |
| Brightness.AdjustThenZero | macro.py:86-99 | adjusting a result by 0 changes nothing |
| Brightness.PackColorAdjusts | macro.py:57-65 | every pack colour of PACK_COLORS (lines 524-527) is lowercase "#rrggbb", adjusts to one, and is fixed by amount 0 |
| Geometry.Center | macro.py:228-233 | `left + width // 2` bounds: 2·(x-left) ≤ width < 2·(x-left)+2, same for y |
| Geometry.CenterInside | macro.py:228-233 | a region of at least one pixel contains its centre |
| Geometry.MatchPoint | macro.py:257-259 | the returned point is the centre of the matched window |
| Geometry.MatchPointInside | macro.py:257-259 | a match that fits the capture is clicked inside the searched region |
| Geometry.ScrollPoint | macro.py:228-233 | the wheel turns at (404, 569), inside the pack frame |
| Geometry.PurchasePoint | macro.py:295-296 | the buy click is at (931, 824), inside the purchase area |
| Automation.Answer | macro.py:237-264 | `find_image_in_region` as an oracle: the answer at p when there is one, "not found" past the end of the answers |
| Automation.FirstHit | macro.py:466-467 | the offset of the first hit is below the budget |
| Automation.FirstHitIsFirst | macro.py:466-467 | that offset answers "found", every earlier one "not found", and None means no query in the budget hits |
| Automation.FirstFound | macro.py:302-304 | the first "found" answer at or after p, and none before it |
| Automation.ProbePack | macro.py:266-285 | a hit exactly when the key is in image_files and the query answers "found"; one query with a template, none without |
| Automation.ScrollDirection | macro.py:470 | down exactly when the pack's index is at or after LastPackClicked |
| Automation.ScrollLoop | macro.py:466-474 | at most 10 - attempts scrolls; never both found and raised; raises only for a name outside pack_order |
| Automation.ScrollDirections | macro.py:469-470 | every scroll goes in ScrollDirection(index, LastPackClicked) |
| Automation.DirectionRule | macro.py:470 | a search's k-th scroll is "down" exactly when the pack's index is ≥ LastPackClicked |
| Automation.ScrollLoopFirstHit | macro.py:466-474 | for a known pack with a template the loop stops at the first hit, one scroll per miss, and spends the whole budget without a hit |
| Automation.SearchSpec | macro.py:455-481 | at most 10 scrolls; Found carries the pack's pack_order index; Raised only for a name outside pack_order |
| Automation.Updated | macro.py:476-481 | found: (false, index); not found: unchanged; raised: LastPackClicked unchanged; initial_search never becomes true |
| Automation.SearchFirstHit | macro.py:455-481 | found exactly when one of the ten loop probes hits, and then the position is (false, index); otherwise the position is unchanged after all ten scrolls; reset to top exactly on a first-search pre-probe miss |
| Automation.StoppedSearchFindsNothing | macro.py:466 | with running false nothing is found, nothing scrolls, the position stays |
| Automation.SearchUnknown | macro.py:466-481 | a name outside pack_order always raises without scrolling; initial_search is cleared exactly when a probe hit |
| Automation.OpenLoop | macro.py:335-362 | every query moves on |
| Automation.OpenLoopBudget | macro.py:337-362 | at most 3 misses, and only misses count; the result is the last query; a running macro fails only after the third miss |
| Automation.CloseLoop | macro.py:502-508 | the queries move forward |
| Automation.CloseLoopBudget | macro.py:502-508 | at most 5 failed attempts; exit on the first X-button click, on a shop that reads closed, or when the budget is spent |
| Automation.PurchaseEnd | macro.py:302-307 | clicking ends right after the first out-of-stock answer; None when no answer left reports it |
| Automation.PackStep | macro.py:456-498 | the new position is Updated by the search's status; its outcomes are PackStepFacts and PackStepOutcomes |
| Automation.PackStepFacts | macro.py:476-491 | a stop never completes, and it aborts only off pack_order; a missing pack keeps the position; a found pack becomes LastPackClicked |
| Automation.PackStepOutcomes | macro.py:476-498 | Missing exactly for a search that found nothing, Aborted exactly for one that raised; a found pack is OutOfStock exactly when the stock query right after the search says so, and then only that query is read; otherwise it is Purchased, ending at PurchaseEnd, or the phase Hangs when PurchaseEnd finds no end |
| Automation.Phase | macro.py:455-498 | at most one outcome per planned pack |
| Automation.PhaseBounds | macro.py:455-498 | a completed running phase handles every pack; a stopped one handles none; the shelf position is never forgotten |
| Automation.PhaseStep | macro.py:455-498 | the phase at the k-th pack is that pack's step followed by the phase over the rest |
| Automation.PhaseAbortsOnlyOnUnknown | macro.py:466-481 | the phase aborts (the ValueError of lines 469 and 481) only when some planned pack is missing from pack_order |
| Automation.PhasePosition | macro.py:476-481 | after the phase the position is unchanged; or initial_search is cleared and LastPackClicked indexes a planned pack; or only initial_search is cleared, when a found pack with a template is missing from pack_order (line 480 runs, then `index` raises at line 481) |
| Automation.CanonicalSearch | macro.py:455-481 | a shelf pack is found exactly when a loop probe hits, then LastPackClicked is its shelf index |
| Automation.CanonicalPhaseNeverAborts | macro.py:434 | with pack_order the canonical table and packs from the control panel the phase never aborts |
| Automation.FirstMiss | macro.py:410 | the first "not found" answer at or after p |
| Automation.BeforeFirstMiss | macro.py:410 | every answer before it reads "found" |
| Automation.ShopCheck | macro.py:399-403 | an open shop costs one query; otherwise logic_open_shop runs |
| Automation.WatchRestock | macro.py:398-416 | a click needs a ready shop and a template; a failed open clicks and waits for nothing; a stopped macro waits for nothing |
| Automation.RestockWaitsForStock | macro.py:410-412 | while running, the wait ends at the first in-stock answer and every answer it waited through read out of stock |
| Automation.RestockPackNameAsWritten | macro.py:405-406 | the PACK_COLORS key at LastPackClicked, a short name without a template |
| Automation.RestockAsWrittenNeverClicks | macro.py:405-407 | as written, the short name of PACK_COLORS means the pack is never clicked |
| Automation.RestockPackName | macro.py:405-406 | the corrected name: the full name of the same pack, the PACK_FULL_NAMES value for that key |
| Automation.RestockClicksLastPack | macro.py:405-407 | with the full name the pack has a template, and it is clicked exactly when the shop is ready and the probe hits |
| Automation.Cycle | macro.py:437-515 | LastPackClicked stays a shelf index |
| Automation.OpenedCycle | macro.py:445-515 | LastPackClicked stays a shelf index |
| Automation.AfterPhase | macro.py:500-515 | keeps the plan, phase and position; waits for a restock exactly after a completed phase of a running macro |
| Automation.CycleFacts | macro.py:437-517 | a shop that stays closed buys nothing and keeps the position; an opened shop runs the phase over a permutation of the selection in the planned order; initial_search never comes back; the restock wait only follows a completed running phase |
| Automation.Backend.constructor | macro.py:128-159 | image_files is the table, running false, initial_search true, LastPackClicked 0 |
| Automation.Backend.SearchAndClickPack | macro.py:266-285 | equals ProbePack on image_files |
| Automation.Backend.ScrollSearch | macro.py:466-474 | the while loop equals ScrollLoop from attempt 0 |
| Automation.Backend.SearchPack | macro.py:455-481 | equals SearchSpec, and the fields become Updated(old position, status) |
| Automation.Backend.OpenShop | macro.py:335-362 | the retry loop equals OpenLoop |
| Automation.Backend.ClosePhase | macro.py:500-508 | the close loop equals CloseLoop |
| Automation.Backend.PurchasePack | macro.py:294-307 | the buy loop equals PurchaseEnd |
| Automation.Backend.PlanSearchOrder | macro.py:445-453 | the sort and the start_index loop give PlanOrder, a permutation of the selection |
| Automation.Backend.HandlePack | macro.py:456-498 | one pack equals PackStep; the fields become its position |
| Automation.Backend.PurchasePhase | macro.py:455-498 | the for loop equals Phase; the fields become its position |
| Automation.Backend.RunCycle | macro.py:437-515 | one cycle equals Cycle; LastPackClicked stays a shelf index |
| Automation.Backend.RunOpenedCycle | macro.py:445-515 | equals OpenedCycle |
| Automation.Backend.FinishCycle | macro.py:500-515 | equals AfterPhase |
| Automation.Backend.WaitForRestock | macro.py:398-416 | equals WatchRestock for the pack at LastPackClicked, by full name |
| Automation.Backend.CheckShop | macro.py:399-403 | equals ShopCheck |
| Automation.Backend.WaitWhileOutOfStock | macro.py:410-412 | the wait loop stops at FirstMiss |
| ControlPanel.Names | macro.py:537 | the keys of pack_vars, in order |
| ControlPanel.Lookup | macro.py:745 | `pack_vars[name]`: None exactly for a missing key, otherwise the entry's value |
| ControlPanel.Toggled | macro.py:744-746 | the named entry flips, every other entry and all names stay |
| ControlPanel.ToggleTwice | macro.py:744-746 | toggling twice restores the selection |
| ControlPanel.ToggleUnknown | macro.py:745 | toggling a name that is no key changes nothing |
| ControlPanel.ToggleLookupSelf | macro.py:745 | the toggled pack reads the negation of its old value |
| ControlPanel.ToggleLookupOther | macro.py:745 | every other pack reads its old value |
| ControlPanel.SelectedPacks | macro.py:759 | a name is selected exactly when its entry is (name, true); never longer than pack_vars |
| ControlPanel.SelectedPacksAppend | macro.py:759 | the extraction keeps dictionary order |
| ControlPanel.InitialPackVars | macro.py:537 | the canonical names, all unselected |
| ControlPanel.NothingSelectedInitially | macro.py:759 | nothing is selected before a toggle |
| ControlPanel.SelectedAreKeys | macro.py:759 | every selected pack is a key, and it reads True |
| ControlPanel.SelectedAreCanonical | macro.py:759 | with the constructor's keys every selected pack is a shelf pack |
| ControlPanel.Reassign | macro.py:776-786 | a conflicting start or stop is refused and changes nothing; otherwise only the targeted hotkey changes |
| ControlPanel.ReassignKeepsDistinct | macro.py:776-786 | start ≠ stop survives every capture from the buttons |
| ControlPanel.ReassignUnchanged | macro.py:776-786 | a capture changes nothing exactly when it is refused or reassigns the same key |
| ControlPanel.ReassignAll | macro.py:776-788 | after a series of captures each hotkey is its old value or one of the captured keys, and a hotkey no capture targets keeps its value |
| ControlPanel.ReassignmentsKeepDistinct | macro.py:776-788 | any series of button captures keeps start ≠ stop |
| ControlPanel.DefaultsStayDistinct | macro.py:776-786 | from the defaults f1/f2 (lines 538-539) the hotkeys never become equal |
| ControlPanel.ToggledDistinct | macro.py:744-746 | toggling keeps each key once |
| ControlPanel.CanonicalNamesDistinct | macro.py:537 | the initial pack_vars has each pack once |
| ControlPanel.MainWindow.constructor | macro.py:533-540 | every canonical pack unselected, hotkeys f1/f2, the invariant holds |
| ControlPanel.MainWindow.TogglePack | macro.py:744-746 | pack_vars becomes Toggled; known exactly for a key; nothing changes otherwise |
| ControlPanel.MainWindow.StartMacro | macro.py:754-764 | a running macro is left alone (idempotent); otherwise running becomes true and the worker gets the selected packs, all shelf packs |
| ControlPanel.MainWindow.StopMacro | macro.py:766-769 | running becomes false, whatever it was |
| ControlPanel.MainWindow.ToggleMacro | macro.py:723-727 | running flips; a worker starts exactly when the macro was stopped |
| ControlPanel.MainWindow.OnMacroFinished | macro.py:771-774 | the worker's end clears running |
| ControlPanel.MainWindow.FinalizeHotkeyCapture | macro.py:776-788 | hotkeys become Reassign(old, target, hotkey); refused exactly on a conflict; start ≠ stop is kept |

## Left out

- Screen capture, `cv2.matchTemplate`/`minMaxLoc` and the confidence threshold (macro.py:237-264), which are foreign calls on floating-point scores. They are the `screen` oracle, one answer per call.
- `load_image_templates` (macro.py:161-165): file-existence checks are I/O. The model assumes every template in image_files is loaded.
- `human_like_movement`, `human_like_key_press`, the mouse wheel and every `pydirectinput`/`win32api` call (macro.py:167-225): input injection with floating-point curves and randomness. A click or a scroll is recorded only as a query or a Direction.
- `responsive_sleep` (macro.py:418-425): wall-clock time. A stop request that arrives in the middle of a backend call is not modelled, because `running` is constant during a call.
- The search regions of the Summon screen, the X button, the Summon Button and the Sell Button, the inventory click point and the rest position (macro.py:150-159). Template matching is an oracle of answers here, so the region it searches has no effect on the model. Only the pack frame and the purchase area, whose centres are scrolled and clicked at, are modelled.
- `logic_sell_items` (macro.py:364-396): only its one Sell Button query is modelled. Its clicks, random jitter and result have no effect on anything that follows.
- The outer `while self.running` loop of `macro_loop` and its `cycle` counter (macro.py:437, 516): one pass is modelled (`Cycle`). Another cycle is another call with the new position.
- The empty-selection early return of `macro_loop` (macro.py:430-432) and the creation of `mss` (macro.py:428). The source stops before opening the shop when nothing is selected. `Cycle` over an empty selection instead runs a whole cycle: it opens the shop, plans and buys nothing, closes the shop, queries the Sell Button and waits for the restock.
- Generic exceptions in `macro_loop` (macro.py:517-519) other than `pack_order.index`'s ValueError. They come from capture and input calls, which are not modelled.
- Automation.PurchaseEnd: a purchase that never meets an out-of-stock answer loops forever in the source. The model reports it as None (phase exit `Hangs`) instead of not terminating.
- Qt threads, signals, widgets, styles, window dragging, the log panel and hotkey registration with `keyboard` (macro.py:28-84, 101-125, 546-722, 729-742, 748-752, 790-802): user-interface plumbing with no state the model tracks.
- `save_settings`/`load_settings`/`closeEvent` (macro.py:804-837): JSON file I/O. `load_settings` can install equal hotkeys or unknown pack names, so the MainWindow invariant (canonical keys, distinct hotkeys) describes a panel whose settings were not loaded.
- ControlPanel.MainWindow.TogglePack: the KeyError that the source raises for an unknown name is modelled as `known == false` with nothing changed. The `pack_buttons` refresh is not modelled.
- ControlPanel.MainWindow.FinalizeHotkeyCapture: it requires the target to be "start" or "stop", the only values the two capture buttons pass (macro.py:615, 621). `Reassign` itself models any target; for one that is not "start" it sets the stop hotkey, as the source's else branch does.
- Brightness.ParsePair: Python's `int(s, 16)` leniency is modelled for ASCII characters only: a sign before one digit, or one of tab, line feed, vertical tab, form feed, carriage return or space beside one digit. Non-ASCII digits and whitespace, which `int()` also accepts, are not modelled.
- Automation.OpenLoop: the source's `logic_open_shop` loops forever while the Summon Button is found but the shop never reads open, because only a missing button counts against the budget (macro.py:338-356). In the model every query past the end of the answers reads "not found", so the loop always ends after at most three more misses. The same holds for Automation.Backend.OpenShop.
- Automation.Backend.OpenShop: the endless retry of a shop that never opens is not modelled, as for OpenLoop.
- Automation.WatchRestock: the source waits forever while the watched pack stays out of stock (macro.py:410-412). In the model the answers run out, so the wait ends at FirstMiss, at the end of the answers at the latest. The same holds for Automation.Backend.WaitWhileOutOfStock.
- Automation.Backend.WaitWhileOutOfStock: the endless wait for a pack that never restocks is not modelled, as for WatchRestock.
- Automation.AfterPhase: the restock wait watches `RestockPackName`, the full name of the last pack clicked (the corrected behaviour of the finding below). The source passes the short PACK_COLORS key (macro.py:405-407). That key has no template, so the source makes no query and clicks nothing, and every later answer would be read one position earlier. `RestockAsWrittenNeverClicks` states what the source does.
- Automation.OpenedCycle: ends with AfterPhase, so it watches the corrected restock name as well.
- Automation.Cycle: ends with OpenedCycle, so it watches the corrected restock name as well.
- Automation.Backend.WaitForRestock: searches for `RestockPackName(lastPackClicked)`, the corrected full name, not the short name of macro.py:405-406.
- Automation.Backend.FinishCycle: calls WaitForRestock, so it watches the corrected restock name.
- Automation.Backend.RunOpenedCycle: reaches WaitForRestock through FinishCycle, so it watches the corrected restock name.
- Automation.Backend.RunCycle: reaches WaitForRestock through RunOpenedCycle, so it watches the corrected restock name.

## Findings

| source | as written | input that shows it | evidently intended | confidence | as-written member | corrected member |
|---|---|---|---|---|---|---|
| macro.py:405-407 | `wait_for_restock` takes the pack name from the keys of PACK_COLORS, the short names ("Dragon"). `search_and_click_pack` turns that name into the key "Dragon", which is not in image_files, so it returns False without looking and the pack being watched is never clicked | any LastPackClicked in 0..5, e.g. 0 ("Dragon") | the full name from PACK_FULL_NAMES ("Dragon Realm Pack"), whose key "DragonRealmPack" has a template | not executed | Automation.RestockAsWrittenNeverClicks | Automation.RestockClicksLastPack |

The corrected name (`Automation.RestockPackName`) is what `Automation.Backend.WaitForRestock` and `Automation.AfterPhase` use.
