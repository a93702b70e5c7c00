# Stamp card: event replay and optimistic mutators

The app keeps a reward stamp card for each of two profiles, A and B. A card
has a display name, an avatar URL, an open set of `count` stamps, a number of
`completedSets`, and a history of items. Each item is a live `stamp` or a
stamp voided as `penalty` or `redeemed`. The shared source of truth is an
append-only log of rows kept by a remote sheet.

Every poll fetches the whole log and replays it oldest first from two fresh
cards, Brownie and Snowy. Each row first copies its name and avatar onto the
card of the profile it selects, where any profile other than `'B'` means A.
Then it applies the rule for its type:

- `stamp` adds one item and rolls a full set of `MAX_STAMPS` (10) over into
  `completedSets`;
- `penalty` decrements a positive count and voids the latest live stamp;
- `undo_stamp` deletes the latest live stamp and rolls the counters back,
  borrowing a set back when the count is 0;
- `reset_all` clears counters and history;
- `redeem_gift` marks the ten earliest live stamps as redeemed and recomputes
  the counters from the live stamps that remain;
- any other type only syncs name and avatar.

Button presses do not wait for the poll. Each one that goes through updates
the active card at once and posts one row to the log. Four actions can be
refused, in which case they change nothing and post nothing:

- a penalty when the count is 0;
- an undo when the last history item is not a live stamp;
- a name that trims to nothing;
- an avatar prompt that is cancelled or answered with blank text.

Adding a stamp, resetting and redeeming a gift always go through.

The Dafny modules follow that split:

- `CardTypes` holds the data (cards, history items, log rows, the fetched
  payload) and the constants.
- `StampHistory` holds the pure functions over a history: live-stamp count,
  latest live stamp, void the latest, splice out the latest, redeem the
  earliest k.
- `ReplayRules` states each row rule as a function on a card value, and the
  whole replay as a fold over the rows.
- `SheetReplay` is the replay as the code runs it. A `ProfileCard` class's
  fields are updated in place by one method per rule, with the backward and
  forward scans as loops. Each method is proved to produce exactly the card its
  rule function gives. `FetchSheetData` runs the per-row loop over the fetched
  array.
- `JsText` models JavaScript's `String.prototype.trim`, which the name and
  avatar editors use.
- `LocalMutators` models the optimistic mutators. Each returns the new active
  card and the row it posts, and is compared with replaying that row.
- `ReplayProperties` proves properties that span several rows or rules.

## Model

| member | source | states |
|---|---|---|
| CardTypes.ProfileOf | src/App.tsx:53 | A row selects profile B exactly when its `profile` field is the string 'B'; anything else, a missing field included, selects A |
| CardTypes.ProfileOfCode | src/App.tsx:133 | The profile code a client writes reads back as that client's profile |
| ReplayRules.UnsetFieldsNeverOverwrite | src/App.tsx:57-58 | For every row type, a missing, empty or 'undefined' name (avatar) keeps the card's value, and any other value replaces it |
| ReplayRules.StampIdOf | src/App.tsx:62 | The recorded stamp id is never empty: it is the row's id when that is non-empty, and 'star' otherwise |
| ReplayRules.StampRowDefaultsToStar | src/App.tsx:62 | A 'stamp' row with a missing or empty id appends exactly a live 'star' item |
| ReplayRules.EmptyLogGivesInitialCards | src/App.tsx:46-49 | Before any row the cards are Brownie and Snowy with their fixed avatars, zero counters and no history |
| ReplayRules.SyncProfile | src/App.tsx:56-58 | The name (avatar) is replaced by the row's value exactly when it is present, non-empty and not the string 'undefined'; the counters and history are untouched |
| ReplayRules.AddStamp | src/App.tsx:61-67 | Exactly one live item with the given id is appended; an in-range card stays in range and its total (sets × 10 + count) grows by exactly one, so a full set rolls over |
| ReplayRules.Penalize | src/App.tsx:68-76 | The count drops only when positive (never below 0); completed sets are kept; the history becomes the one with its latest live stamp voided, and the live-stamp count drops by one when there was one |
| ReplayRules.RollBack | src/App.tsx:82-88 | The undo counter step keeps the counters in range and takes exactly one stamp off a positive total, borrowing a set back at count 0; at count 0 with no completed set the card is left as it is |
| ReplayRules.UndoStamp | src/App.tsx:77-91 | With no live stamp the card is unchanged; otherwise the latest live stamp is removed (history one shorter), and an in-range card loses exactly one from a positive total and stays at total 0 otherwise |
| ReplayRules.ResetAll | src/App.tsx:92-95 | Zero counters and an empty history, whatever came before; name and avatar kept |
| ReplayRules.Recount | src/App.tsx:106-109 | Counters recomputed from the live stamps are in range and their total is the number of live stamps |
| ReplayRules.RedeemGift | src/App.tsx:96-109 | The history is the one with its ten earliest live stamps redeemed, of the same length, with min(10, live) fewer live stamps; the counters are in range and total the live stamps left |
| ReplayRules.ApplyToCard | src/App.tsx:52-110 | One row on one card: the name and avatar are the synced ones for every row type, and in-range counters stay in range |
| ReplayRules.ApplyRow | src/App.tsx:53-54 | A row changes only the card of the profile it selects (anything but 'B' selects A); the other card is unchanged |
| ReplayRules.Replay | src/App.tsx:46-111 | The fold from the initial cards; both cards' counters are in range after any log |
| StampHistory.StampCount | src/App.tsx:107 | The number of live stamps is at most the history length |
| StampHistory.LastStamp | src/App.tsx:71-76 | The backward scan's result: the index of a live stamp with no live stamp after it, and None exactly when the history has no live stamp |
| StampHistory.NoStampIffZero | src/App.tsx:107 | The live-stamp count is zero exactly when no item is a live stamp |
| StampHistory.PenalizeLatestEffect | src/App.tsx:70-76 | Voiding the latest live stamp keeps the length, changes that one item to a penalty with the same stamp id, keeps every other item, and takes one off the live count; with no live stamp nothing changes |
| StampHistory.RemoveLatestStampEffect | src/App.tsx:79-81 | Splicing out the latest live stamp keeps the items before it, shifts every later item down by one, and takes one off the live count; with no live stamp nothing changes |
| StampHistory.RedeemEarliest | src/App.tsx:98-105 | The redeem scan keeps the length and leaves live count minus min(k, live count) live stamps |
| StampHistory.RedeemEarliestAt | src/App.tsx:98-105 | Item i is redeemed exactly when it is a live stamp with fewer than k live stamps before it; every other item is unchanged |
| StampHistory.StampIndicesRank | src/App.tsx:299-301 | The list of live-stamp indices has one entry per live stamp, and its k-th entry is the live stamp with exactly k live stamps before it |
| StampHistory.RedeemOneMore | src/App.tsx:304-309 | Flipping the i-th live-stamp index of the i-times-redeemed history is redeeming i + 1 stamps |
| StampHistory.RedeemBeyondStamps | src/App.tsx:304-306 | Once the budget reaches the number of live stamps, a larger budget redeems nothing more (an index past the end is skipped) |
| SheetReplay.ProfileCard.constructor | src/App.tsx:46-49 | A fresh record has the given name and avatar, zero counters and an empty history |
| SheetReplay.ProfileCard.SyncFrom | src/App.tsx:56-58 | The in-place field updates give exactly the synced card of the rule |
| SheetReplay.ProfileCard.PushStamp | src/App.tsx:61-67 | The in-place push and counter update give exactly the stamp rule's card |
| SheetReplay.ProfileCard.ApplyPenalty | src/App.tsx:68-76 | The guarded decrement and the backward loop that flips one item give exactly the penalty rule's card |
| SheetReplay.ProfileCard.ApplyUndo | src/App.tsx:77-91 | The backward loop that splices out one item and rolls the counters back gives exactly the undo rule's card |
| SheetReplay.ProfileCard.ApplyReset | src/App.tsx:92-95 | The field assignments give exactly the reset rule's card |
| SheetReplay.ProfileCard.ApplyRedeem | src/App.tsx:96-109 | The forward flipping loop and the recount give exactly the redeem rule's card |
| SheetReplay.ProfileCard.Apply | src/App.tsx:52-110 | The sync followed by the dispatch on the row type gives exactly the card the row's rule gives |
| SheetReplay.RedeemScan | src/App.tsx:98-105 | The forward loop that stops after ten flips leaves the history with its ten earliest live stamps redeemed |
| SheetReplay.ReplayOneMore | src/App.tsx:52-111 | Replaying one more object element is one more step of the fold |
| SheetReplay.FetchSheetData | src/App.tsx:38-120 | A payload that is not an array leaves the state as it was; an array containing a null leaves it as it was, because the replay throws and the error is caught; any other array sets the state to the fold of its rows from the initial cards |
| JsText.ListedInIsMembership | src/App.tsx:223-224 | The white-space test `trim` uses is exactly membership in the list of ECMA-262 white space and line terminator characters |
| JsText.TrimOffset | src/App.tsx:223-224 | The trimmed run starts at the first non-space, everything before it being white space |
| JsText.Trim | src/App.tsx:223-224 | The trimmed text is the run of the input starting at the first non-space, with only white space dropped before and after it; it is empty exactly when every character is JavaScript white space, and otherwise starts and ends with a non-space |
| LocalMutators.OrElse | src/App.tsx:134-135 | The payload's fallback from an override to the card's value: the override when present and non-empty, the card's value otherwise |
| LocalMutators.SentRow | src/App.tsx:130-141 | The posted row selects the active profile and carries the action's type |
| LocalMutators.SentRowSyncIsNeutral | src/App.tsx:133-135 | A posted row that overrides neither name nor avatar syncs the card's own values back, leaving it unchanged |
| LocalMutators.HandleAddStamp | src/App.tsx:159-183 | One live item with the selected id is appended; an in-range card stays in range with a total one larger; the card equals the replay of the posted 'stamp' row whenever the selected id is non-empty |
| LocalMutators.PickedStampConverges | src/App.tsx:166 | For every stamp the user can pick, replaying the posted 'stamp' row gives exactly the local card |
| LocalMutators.PenalizeScan | src/App.tsx:189-192 | The backward loop's result is the history with its latest live stamp voided |
| LocalMutators.HandlePenaltyStamp | src/App.tsx:185-205 | At count 0 nothing changes and nothing is posted; otherwise the card is the old one with the count one lower and the latest live stamp voided (sets, name and avatar kept), the live count drops by one when there was one, and for a positive count the card equals the replay of the posted 'penalty' row |
| LocalMutators.ExecuteReset | src/App.tsx:207-220 | Zero counters and an empty history with name and avatar kept, equal to the replay of the posted 'reset_all' row |
| LocalMutators.NameRowConverges | src/App.tsx:222-233 | Replaying a posted name change yields the renamed card if and only if the new name is not 'undefined' or the card already had that name |
| LocalMutators.SaveName | src/App.tsx:222-237 | A name that trims to nothing is dropped with nothing posted; otherwise the trimmed name is set and an 'update_profile' row for the active profile carrying that name is posted, and replaying it agrees with the local card exactly when the name is not 'undefined' or already was |
| LocalMutators.AvatarRowConverges | src/App.tsx:239-250 | Replaying a posted avatar change yields the new avatar if and only if the URL is not 'undefined' or already was |
| LocalMutators.ChangeAvatar | src/App.tsx:239-252 | A cancelled prompt or a blank answer changes nothing and posts nothing; otherwise the trimmed URL is set and an 'update_profile' row for the active profile carrying that URL is posted, and replaying it agrees exactly when the URL is not 'undefined' or already was |
| LocalMutators.HandleUndo | src/App.tsx:255-291 | Acts (and posts) if and only if the last item is a live stamp; then that item is popped, the card equals the replay of the posted 'undo_stamp' row, and an in-range card keeps its range and loses one from a positive total |
| LocalMutators.HandleRedeemGift | src/App.tsx:294-326 | The loop over the first ten live-stamp indices and the recount give exactly the redeem rule's card, so the card equals the replay of the posted 'redeem_gift' row |
| ReplayProperties.CountersFromTotal | src/App.tsx:106-109 | In-range counters are the remainder and quotient of their total by 10 |
| ReplayProperties.StampThenUndoRestores | src/App.tsx:61-91 | A stamp followed by an undo gives back an in-range card, across a set rollover too |
| ReplayProperties.StampRowThenUndoRowRestores | src/App.tsx:61-91 | A 'stamp' row followed by an 'undo_stamp' row restores count, completed sets and history, whatever names the rows carry |
| ReplayProperties.OtherRowOnlySyncs | src/App.tsx:52-110 | A row of any other type keeps counters and history |
| ReplayProperties.ResetIsTerminal | src/App.tsx:92-95 | After any log, a 'reset_all' row leaves its profile's card with zero counters and no history |
| ReplayProperties.DerivedAfterStamp | src/App.tsx:61-67 | A 'stamp' row keeps the counters derived from the live stamps |
| ReplayProperties.DerivedAfterPenalty | src/App.tsx:68-76 | A 'penalty' row keeps the derived counters if and only if it does not hit count 0 with live stamps left |
| ReplayProperties.DerivedAfterUndo | src/App.tsx:77-91 | An 'undo_stamp' row keeps the derived counters |
| ReplayProperties.DerivedKeptUnlessPenaltyAtRollover | src/App.tsx:52-110 | Every row keeps the derived counters, except exactly a 'penalty' row at count 0 with live stamps left |
| ReplayProperties.PenaltyAtRolloverBreaksDerived | src/App.tsx:68-76 | Ten stamps then a penalty leave count 0 and one set over only nine live stamps |
| ReplayProperties.ReplayOfStampRows | src/App.tsx:46-67 | A log of n stamp rows for A leaves A with total n and n live items, and B as initialised |
| ReplayProperties.TenStampsCompleteASet | src/App.tsx:61-67 | Ten stamp rows give count 0, one completed set and ten live items |
| ReplayProperties.UndoAcrossRollover | src/App.tsx:77-91 | An undo right after the tenth stamp gives count 9, no completed set and nine items |
| ReplayProperties.RedeemTakesAtMostTen | src/App.tsx:96-109 | Over fifteen live stamps the first gift takes ten (leaving count 5) and a second one the last five (leaving 0) |
| ReplayProperties.ReplayPenaltyAtZeroStillFlips | src/App.tsx:68-76 | At count 0 with a live stamp, a 'penalty' row keeps the count but still voids a stamp |
| ReplayProperties.LocalUndoStricterThanReplay | src/App.tsx:256-262 | With a voided item last and a live stamp before it, the local undo does nothing while an 'undo_stamp' row deletes that stamp |
| ReplayProperties.PostedRowTargetsActiveProfile | src/App.tsx:130-141 | Any row a local action posts, built from the active card, replays on the active profile's card and leaves the other card unchanged |

## Where the code paths disagree

The model keeps each of these as the code has it.

- Both redeem paths recompute the counters from the live stamps
  (src/App.tsx:107-109 and 312-314). The other rules update the counters step
  by step. A 'penalty' row arriving at count 0 with live stamps left breaks the
  recomputed relation (src/App.tsx:69-75). This happens, for example, right
  after a set completes: the count guard keeps 0 while the flip still voids a
  stamp. `DerivedKeptUnlessPenaltyAtRollover` proves this is the only row that
  breaks the relation.
- A `null` element anywhere in the fetched array throws at `row.profile`
  (src/App.tsx:53). The error is caught (src/App.tsx:116-117), and the
  displayed cards keep their previous values whatever the other rows say
  (`FetchSheetData`).
- The replay ignores a name or avatar that is the string 'undefined'
  (src/App.tsx:57-58). The local editors accept it (src/App.tsx:223-233 and
  241-250). The local card and the replay then disagree until the next poll
  (`SaveName`, `ChangeAvatar`).
- The local undo and penalty are narrower than their rows. Local penalty needs
  a positive count (src/App.tsx:186). Local undo needs the last item to be a
  live stamp (src/App.tsx:256-262). The rows void or delete the latest live
  stamp anywhere in the history (src/App.tsx:70-91)
  (`LocalUndoStricterThanReplay`, `ReplayPenaltyAtZeroStillFlips`).

## Left out

- Network I/O is not modelled. This covers the `fetch` GET, the JSON parse and
  the POST of `syncToSheet`. A failed fetch or an unparsable body leaves the
  state as it is, which is the `NotAnArray` case. The posted payload is
  modelled (`SentRow`); sending it is not.
- The 5-second polling, the effect's lifecycle and the `isSyncing` flag are
  timing, not logic. So is the race between a poll and a local update made
  while it runs.
- React state is left out. `setUserData` is replaced by returning the new
  active card; the caller puts it in the active profile's slot.
- Cheer messages and the service that produces them are external calls.
  Animations, the gift-box stage, `alert`, the confirm dialog, views, paging
  and all markup are presentation.
- Timestamps of rows and items, and the payload's `x`/`y`, are never read by
  any rule.
- `lastStampDate`, the stamps' emoji, colours and labels, and the profile
  configuration are display data. Only the stamp ids are kept.
- JSON field values other than strings are not modelled: a number or boolean
  in `userName`, `avatar`, `profile`, `type` or `stampId`. A missing field is
  `None`. A number or string element of the array reads as a row with every
  field missing.
- LocalMutators.HandlePenaltyStamp: the code copies the history array
  shallowly and assigns `type` on the shared item object. This also voids that
  item in the card the app still holds as its previous state. The model
  builds a new item value, so this aliasing is not captured.
- SheetReplay.ProfileCard: the history is a `seq` field that each method
  reassigns. The identity of JavaScript item objects across pushes, splices
  and in-place `type` assignments is not modelled.
- JavaScript numbers are doubles. Counts are modelled as unbounded integers,
  since they stay far below 2^53.
