/**
 * The replay as the app runs it: a fresh temporary state whose two profile
 * records are updated in place, row by row, by `data.forEach`
 * (src/App.tsx:42-115). Each method is proved equal to its rule in ReplayRules.
 */
module SheetReplay {
  import opened Wrappers
  import opened CardTypes
  import opened StampHistory
  import opened ReplayRules

  /** One profile record of the temporary replay state. */
  class ProfileCard {
    var name: string
    var avatar: string
    var count: int
    var completedSets: int
    var history: seq<HistoryItem>

    function Snapshot(): Card
      reads this
    {
      Card(name, avatar, count, completedSets, history)
    }

    constructor (name: string, avatar: string)
      ensures Snapshot() == FreshCard(name, avatar)
    {
      this.name := name;
      this.avatar := avatar;
      count := 0;
      completedSets := 0;
      history := [];
    }

    method SyncFrom(row: Row)
      modifies this
      ensures Snapshot() == SyncProfile(old(Snapshot()), row)
    {
      if IsSet(row.userName) {
        name := row.userName.value;
      }
      if IsSet(row.avatar) {
        avatar := row.avatar.value;
      }
    }

    method PushStamp(stampId: string)
      modifies this
      ensures Snapshot() == AddStamp(old(Snapshot()), stampId)
    {
      history := history + [HistoryItem(Stamp, stampId)];
      count := count + 1;
      if count >= MAX_STAMPS {
        count := 0;
        completedSets := completedSets + 1;
      }
    }

    /** Backward scan for the latest Stamp item, which becomes a Penalty item. */
    method ApplyPenalty()
      modifies this
      ensures Snapshot() == Penalize(old(Snapshot()))
    {
      if count > 0 {
        count := count - 1;
      }
      var i := |history| - 1;
      while i >= 0
        invariant -1 <= i < |history|
        invariant history == old(history)
        invariant forall j :: i < j < |history| ==> history[j].kind != Stamp
      {
        if history[i].kind == Stamp {
          history := history[i := history[i].(kind := Penalty)];
          break;
        }
        i := i - 1;
      }
    }

    /** Backward scan for the latest Stamp item, which is spliced out; the counters roll back. */
    method ApplyUndo()
      modifies this
      ensures Snapshot() == UndoStamp(old(Snapshot()))
    {
      var i := |history| - 1;
      while i >= 0
        invariant -1 <= i < |history|
        invariant Snapshot() == old(Snapshot())
        invariant forall j :: i < j < |history| ==> history[j].kind != Stamp
      {
        if history[i].kind == Stamp {
          history := history[..i] + history[i + 1..];
          if count == 0 && completedSets > 0 {
            count := MAX_STAMPS - 1;
            completedSets := completedSets - 1;
          } else if count > 0 {
            count := count - 1;
          }
          break;
        }
        i := i - 1;
      }
    }

    method ApplyReset()
      modifies this
      ensures Snapshot() == ResetAll(old(Snapshot()))
    {
      count := 0;
      completedSets := 0;
      history := [];
    }

    /** Forward scan flipping Stamp items to Redeemed until REDEEM_COST are flipped; then a recount. */
    method ApplyRedeem()
      modifies this
      ensures Snapshot() == RedeemGift(old(Snapshot()))
    {
      history := RedeemScan(history);
      var validStamps := StampCount(history);
      count := validStamps % MAX_STAMPS;
      completedSets := validStamps / MAX_STAMPS;
    }

    /** One row on this record: sync name and avatar, then dispatch on the row's type. */
    method Apply(row: Row)
      modifies this
      ensures Snapshot() == ApplyToCard(old(Snapshot()), row)
    {
      SyncFrom(row);
      match row.rowType
      case StampRow => PushStamp(StampIdOf(row));
      case PenaltyRow => ApplyPenalty();
      case UndoStampRow => ApplyUndo();
      case ResetAllRow => ApplyReset();
      case RedeemGiftRow => ApplyRedeem();
      case OtherRow =>
    }
  }

  /**
   * The redeem row's loop over a history: flip Stamp items to Redeemed from
   * the oldest on, stopping once REDEEM_COST have been flipped.
   */
  method RedeemScan(history: seq<HistoryItem>) returns (items: seq<HistoryItem>)
    ensures items == RedeemEarliest(history, REDEEM_COST)
  {
    items := history;
    var deducted := 0;
    var i := 0;
    while i < |items|
      invariant 0 <= i <= |items| == |history|
      invariant deducted == StampCount(history[..i]) < REDEEM_COST
      invariant items == RedeemedUpTo(history, i, REDEEM_COST)
    {
      RedeemScanStep(history, i, REDEEM_COST, items);
      if items[i].kind == Stamp {
        items := items[i := items[i].(kind := Redeemed)];
        deducted := deducted + 1;
        if deducted >= REDEEM_COST {
          RedeemDone(history, i + 1, REDEEM_COST);
          return;
        }
      }
      i := i + 1;
    }
    RedeemFinished(history, i, REDEEM_COST);
  }

  /** The replay of one more element of an array of objects. */
  lemma ReplayOneMore(elements: seq<Element>, i: int)
    requires 0 <= i < |elements| && AllObjects(elements[..i]) && elements[i].ObjectElement?
    ensures AllObjects(elements[..i + 1])
    ensures Replay(RowsOf(elements[..i + 1])) == ApplyRow(Replay(RowsOf(elements[..i])), elements[i].row)
  {
    var longer := RowsOf(elements[..i + 1]);
    assert longer[..i] == RowsOf(elements[..i]);
    assert longer[i] == elements[i].row;
  }

  /**
   * One poll's effect on the app's state. A payload that is not an array leaves
   * `current` as it was; an array is replayed from the initial cards, and the
   * result replaces `current`, unless an element is `null`: reading its
   * `profile` throws, the exception is caught, and `current` stays.
   */
  method FetchSheetData(payload: Payload, current: UserData) returns (next: UserData)
    ensures payload.NotAnArray? ==> next == current
    ensures payload.JsonArray? && !AllObjects(payload.elements) ==> next == current
    ensures payload.JsonArray? && AllObjects(payload.elements) ==> next == Replay(RowsOf(payload.elements))
  {
    match payload
    case NotAnArray =>
      next := current;
    case JsonArray(elements) =>
      var profileA := new ProfileCard(INITIAL.profileA.name, INITIAL.profileA.avatar);
      var profileB := new ProfileCard(INITIAL.profileB.name, INITIAL.profileB.avatar);
      var i := 0;
      while i < |elements|
        invariant 0 <= i <= |elements|
        invariant fresh(profileA) && fresh(profileB) && profileA != profileB
        invariant AllObjects(elements[..i])
        invariant UserData(profileA.Snapshot(), profileB.Snapshot()) == Replay(RowsOf(elements[..i]))
      {
        match elements[i]
        case NullElement =>
          next := current;
          return;
        case ObjectElement(row) =>
          ghost var before := UserData(profileA.Snapshot(), profileB.Snapshot());
          var target := if ProfileOf(row.profile) == B then profileB else profileA;
          target.Apply(row);
          assert UserData(profileA.Snapshot(), profileB.Snapshot()) == ApplyRow(before, row);
          ReplayOneMore(elements, i);
          i := i + 1;
      }
      assert elements[..i] == elements;
      next := UserData(profileA.Snapshot(), profileB.Snapshot());
  }
}
