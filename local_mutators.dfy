/**
 * The optimistic local mutators (src/App.tsx:159-326): what a button press
 * does to the active profile's card at once, and the row it posts to the log.
 * Each is compared with the replay rule for the row it posts.
 */
module LocalMutators {
  import opened Wrappers
  import opened CardTypes
  import opened StampHistory
  import opened ReplayRules
  import opened JsText

  /** The active card after a user action, and the row posted for it (None when the action returns early). */
  datatype Outcome = Outcome(card: Card, sent: Option<Row>)

  /** JavaScript `override || fallback` on an optional string. */
  function OrElse(override: Option<string>, fallback: string): (r: string)
    ensures override.Some? && override.value != "" ==> r == override.value
    ensures override.None? || override.value == "" ==> r == fallback
  {
    if override.Some? && override.value != "" then override.value else fallback
  }

  /**
   * The payload of `syncToSheet` (src/App.tsx:130-141), built from the card
   * as it was before the action; the row reads back as the active profile.
   */
  function SentRow(active: Profile, current: Card, rowType: RowType, overrideName: Option<string>,
                   overrideAvatar: Option<string>, selectedStampId: string): (row: Row)
    ensures ProfileOf(row.profile) == active
    ensures row.rowType == rowType
  {
    Row(Some(ProfileCode(active)), Some(OrElse(overrideName, current.name)),
        Some(OrElse(overrideAvatar, current.avatar)), rowType, Some(selectedStampId))
  }

  /** A posted row that overrides nothing syncs the card's own name and avatar back: no change. */
  lemma SentRowSyncIsNeutral(active: Profile, c: Card, rowType: RowType, selectedStampId: string)
    ensures SyncProfile(c, SentRow(active, c, rowType, None, None, selectedStampId)) == c
  {
  }

  /** `handleAddStamp`: one stamp item with the selected id, the same counter rule as a 'stamp' row. */
  function HandleAddStamp(active: Profile, c: Card, selectedStampId: string): (o: Outcome)
    ensures o.sent == Some(SentRow(active, c, StampRow, None, None, selectedStampId))
    ensures o.card.history == c.history + [HistoryItem(Stamp, selectedStampId)]
    ensures InRange(c) ==> InRange(o.card) && Total(o.card) == Total(c) + 1
    ensures selectedStampId != "" ==> ApplyToCard(c, o.sent.value) == o.card
  {
    var newCount := c.count + 1;
    var newHistory := c.history + [HistoryItem(Stamp, selectedStampId)];
    var card :=
      if newCount >= MAX_STAMPS then c.(count := 0, completedSets := c.completedSets + 1, history := newHistory)
      else c.(count := newCount, history := newHistory);
    Outcome(card, Some(SentRow(active, c, StampRow, None, None, selectedStampId)))
  }

  /** Every stamp the user can pick has a non-empty id, so replaying the posted 'stamp' row gives the local card. */
  lemma PickedStampConverges(active: Profile, c: Card, selectedStampId: string)
    requires selectedStampId in STAMP_OPTION_IDS
    ensures ApplyToCard(c, HandleAddStamp(active, c, selectedStampId).sent.value) == HandleAddStamp(active, c, selectedStampId).card
  {
    assert selectedStampId != "";
  }

  /**
   * The backward scan of `handlePenaltyStamp`: the latest Stamp item of the
   * history becomes a Penalty item; a history without one is returned as is.
   */
  method PenalizeScan(history: seq<HistoryItem>) returns (items: seq<HistoryItem>)
    ensures items == PenalizeLatest(history)
  {
    items := history;
    var i := |history| - 1;
    while i >= 0
      invariant -1 <= i < |history|
      invariant forall j :: i < j < |history| ==> history[j].kind != Stamp
    {
      if history[i].kind == Stamp {
        LastStampAt(history, i);
        items := history[i := history[i].(kind := Penalty)];
        return;
      }
      i := i - 1;
    }
  }

  /**
   * `handlePenaltyStamp`: nothing at all when the count is 0; otherwise the
   * count drops by one and the latest Stamp item (if any) becomes a Penalty item.
   */
  method HandlePenaltyStamp(active: Profile, c: Card, selectedStampId: string) returns (o: Outcome)
    ensures c.count == 0 ==> o == Outcome(c, None)
    ensures c.count != 0 ==> o.sent == Some(SentRow(active, c, PenaltyRow, None, None, selectedStampId))
    ensures c.count != 0 ==> o.card == c.(count := c.count - 1, history := PenalizeLatest(c.history))
    ensures c.count != 0 ==> StampCount(o.card.history) == if StampCount(c.history) > 0 then StampCount(c.history) - 1 else 0
    ensures c.count > 0 ==> ApplyToCard(c, o.sent.value) == o.card
  {
    if c.count == 0 {
      return Outcome(c, None);
    }
    var newHistory := PenalizeScan(c.history);
    PenalizeLatestEffect(c.history);
    o := Outcome(c.(count := c.count - 1, history := newHistory),
                 Some(SentRow(active, c, PenaltyRow, None, None, selectedStampId)));
  }

  /** `executeReset`: zero counters and an empty history, as a 'reset_all' row does. */
  function ExecuteReset(active: Profile, c: Card, selectedStampId: string): (o: Outcome)
    ensures o.card.count == 0 && o.card.completedSets == 0 && o.card.history == []
    ensures o.card.name == c.name && o.card.avatar == c.avatar
    ensures o.sent == Some(SentRow(active, c, ResetAllRow, None, None, selectedStampId))
    ensures ApplyToCard(c, o.sent.value) == o.card
  {
    Outcome(c.(count := 0, completedSets := 0, history := []),
            Some(SentRow(active, c, ResetAllRow, None, None, selectedStampId)))
  }

  /** Replaying the row a name change posts gives the renamed card, unless the name is 'undefined'. */
  lemma NameRowConverges(active: Profile, c: Card, newName: string, selectedStampId: string)
    requires newName != ""
    ensures (ApplyToCard(c, SentRow(active, c, OtherRow, Some(newName), None, selectedStampId)) == c.(name := newName))
        <==> (newName != "undefined" || c.name == "undefined")
  {
    var row := SentRow(active, c, OtherRow, Some(newName), None, selectedStampId);
    assert SyncProfile(c, row).avatar == c.avatar;
    if newName == "undefined" && c.name != "undefined" {
      assert ApplyToCard(c, row).name == c.name;
    }
  }

  /** Replaying the row an avatar change posts gives the new avatar, unless the URL is 'undefined'. */
  lemma AvatarRowConverges(active: Profile, c: Card, url: string, selectedStampId: string)
    requires url != ""
    ensures (ApplyToCard(c, SentRow(active, c, OtherRow, None, Some(url), selectedStampId)) == c.(avatar := url))
        <==> (url != "undefined" || c.avatar == "undefined")
  {
    var row := SentRow(active, c, OtherRow, None, Some(url), selectedStampId);
    assert SyncProfile(c, row).name == c.name;
    if url == "undefined" && c.avatar != "undefined" {
      assert ApplyToCard(c, row).avatar == c.avatar;
    }
  }

  /**
   * `saveName`: a name that trims to nothing is dropped; otherwise the trimmed
   * name is set and posted. Replaying that row agrees with the local card
   * unless the new name is the string 'undefined', which the replay ignores.
   */
  function SaveName(active: Profile, c: Card, tempName: string, selectedStampId: string): (o: Outcome)
    ensures Trim(tempName) == "" ==> o == Outcome(c, None)
    ensures Trim(tempName) != "" ==> o.card == c.(name := Trim(tempName))
    ensures Trim(tempName) != "" ==> o.sent == Some(SentRow(active, c, OtherRow, Some(Trim(tempName)), None, selectedStampId))
    ensures o.sent.Some? ==>
              (ApplyToCard(c, o.sent.value) == o.card <==> Trim(tempName) != "undefined" || c.name == "undefined")
  {
    var newName := Trim(tempName);
    if newName != "" then
      NameRowConverges(active, c, newName, selectedStampId);
      Outcome(c.(name := newName), Some(SentRow(active, c, OtherRow, Some(newName), None, selectedStampId)))
    else Outcome(c, None)
  }

  /**
   * `changeAvatar`: the prompt's answer (None when cancelled) is trimmed; a
   * non-empty result is set and posted. Replay agrees unless it is 'undefined'.
   */
  function ChangeAvatar(active: Profile, c: Card, answer: Option<string>, selectedStampId: string): (o: Outcome)
    ensures !(answer.Some? && Trim(answer.value) != "") ==> o == Outcome(c, None)
    ensures answer.Some? && Trim(answer.value) != "" ==> o.card == c.(avatar := Trim(answer.value))
    ensures answer.Some? && Trim(answer.value) != "" ==>
              o.sent == Some(SentRow(active, c, OtherRow, None, Some(Trim(answer.value)), selectedStampId))
    ensures o.sent.Some? ==>
              (ApplyToCard(c, o.sent.value) == o.card <==> Trim(answer.value) != "undefined" || c.avatar == "undefined")
  {
    if answer.Some? && answer.value != "" && Trim(answer.value) != "" then
      var validUrl := Trim(answer.value);
      AvatarRowConverges(active, c, validUrl, selectedStampId);
      Outcome(c.(avatar := validUrl), Some(SentRow(active, c, OtherRow, None, Some(validUrl), selectedStampId)))
    else Outcome(c, None)
  }

  /**
   * `handleUndo`: acts only when the last item is a Stamp item; it is popped
   * and the counters roll back as an 'undo_stamp' row rolls them back.
   */
  function HandleUndo(active: Profile, c: Card, selectedStampId: string): (o: Outcome)
    ensures o.sent.Some? <==> |c.history| > 0 && c.history[|c.history| - 1].kind == Stamp
    ensures o.sent.None? ==> o.card == c
    ensures o.sent.Some? ==>
              o.sent.value == SentRow(active, c, UndoStampRow, None, None, selectedStampId) &&
              o.card.history == c.history[..|c.history| - 1] &&
              ApplyToCard(c, o.sent.value) == o.card
    ensures InRange(c) ==> InRange(o.card)
    ensures InRange(c) && o.sent.Some? && Total(c) > 0 ==> Total(o.card) == Total(c) - 1
  {
    if |c.history| == 0 then Outcome(c, None)
    else if c.history[|c.history| - 1].kind != Stamp then Outcome(c, None)
    else
      var newHistory := c.history[..|c.history| - 1];
      var card :=
        if c.count == 0 && c.completedSets > 0 then c.(count := MAX_STAMPS - 1, completedSets := c.completedSets - 1)
        else if c.count > 0 then c.(count := c.count - 1)
        else c;
      assert c.history[..|c.history| - 1] + c.history[|c.history|..] == newHistory;
      Outcome(card.(history := newHistory), Some(SentRow(active, c, UndoStampRow, None, None, selectedStampId)))
  }

  /**
   * `handleRedeemGift`: the indices of the Stamp items, the first REDEEM_COST
   * of them flipped to Redeemed, then a recount; the same card a
   * 'redeem_gift' row gives.
   */
  method HandleRedeemGift(active: Profile, c: Card, selectedStampId: string) returns (o: Outcome)
    ensures o.sent == Some(SentRow(active, c, RedeemGiftRow, None, None, selectedStampId))
    ensures o.card == RedeemGift(c)
    ensures ApplyToCard(c, o.sent.value) == o.card
  {
    var validStampIndices := StampIndices(c.history);
    StampIndicesRank(c.history);
    var newHistory := c.history;
    RedeemNone(c.history);
    for i := 0 to REDEEM_COST
      invariant newHistory == RedeemEarliest(c.history, i)
    {
      if i < |validStampIndices| {
        var idx := validStampIndices[i];
        RedeemOneMore(c.history, i);
        newHistory := newHistory[idx := newHistory[idx].(kind := Redeemed)];
      } else {
        RedeemBeyondStamps(c.history, i);
      }
    }
    var validCount := StampCount(newHistory);
    o := Outcome(c.(count := validCount % MAX_STAMPS, completedSets := validCount / MAX_STAMPS, history := newHistory),
                 Some(SentRow(active, c, RedeemGiftRow, None, None, selectedStampId)));
  }
}
