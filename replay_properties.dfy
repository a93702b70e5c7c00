/**
 * Properties of the replay that span several rows or several rules: undo
 * undoes a stamp, the derived-counter relation and the one rule that breaks
 * it, reset as a terminal state, the worked examples of a full set and of a
 * capped redemption, and where the local mutators refuse what replay does.
 */
module ReplayProperties {
  import opened Wrappers
  import opened CardTypes
  import opened StampHistory
  import opened ReplayRules
  import opened LocalMutators

  /** In-range counters are the quotient and remainder of the total by MAX_STAMPS. */
  lemma CountersFromTotal(c: Card, n: int)
    requires InRange(c) && Total(c) == n
    ensures c.count == n % MAX_STAMPS && c.completedSets == n / MAX_STAMPS
  {
  }

  /** A stamp followed by an undo gives back the card, across a set rollover too. */
  lemma StampThenUndoRestores(c: Card, stampId: string)
    requires InRange(c)
    ensures UndoStamp(AddStamp(c, stampId)) == c
  {
    var stamped := AddStamp(c, stampId);
    var h := stamped.history;
    assert LastStamp(h) == Some(|c.history|);
    assert h[..|c.history|] + h[|c.history| + 1..] == c.history;
  }

  /** The same at the level of log rows: counters and history come back, whatever the rows' names. */
  lemma StampRowThenUndoRowRestores(c: Card, stamp: Row, undo: Row)
    requires InRange(c) && stamp.rowType == StampRow && undo.rowType == UndoStampRow
    ensures var r := ApplyToCard(ApplyToCard(c, stamp), undo);
            r.count == c.count && r.completedSets == c.completedSets && r.history == c.history
  {
    var synced := SyncProfile(c, stamp);
    var stamped := AddStamp(synced, StampIdOf(stamp));
    assert ApplyToCard(c, stamp) == stamped;
    var resynced := SyncProfile(stamped, undo);
    assert resynced == stamped.(name := resynced.name, avatar := resynced.avatar);
    UndoKeepsNames(stamped, resynced.name, resynced.avatar);
    StampThenUndoRestores(synced, StampIdOf(stamp));
    assert ApplyToCard(stamped, undo) == UndoStamp(resynced);
  }

  /** Undo does not look at name and avatar. */
  lemma UndoKeepsNames(c: Card, name: string, avatar: string)
    ensures UndoStamp(c.(name := name, avatar := avatar)) == UndoStamp(c).(name := name, avatar := avatar)
  {
  }

  /** A row of any type other than the five with rules changes nothing but name and avatar. */
  lemma OtherRowOnlySyncs(c: Card, row: Row)
    requires row.rowType == OtherRow
    ensures var r := ApplyToCard(c, row);
            r.count == c.count && r.completedSets == c.completedSets && r.history == c.history
  {
  }

  /** Whatever came before, a 'reset_all' row leaves its profile with zero counters and no history. */
  lemma ResetIsTerminal(rows: seq<Row>, reset: Row)
    requires reset.rowType == ResetAllRow
    ensures var card := CardOf(Replay(rows + [reset]), ProfileOf(reset.profile));
            card.count == 0 && card.completedSets == 0 && card.history == []
  {
    assert (rows + [reset])[..|rows|] == rows;
  }

  /**
   * The counters as both redeem paths recompute them from the live stamps
   * (src/App.tsx:107-109 and 312-314): in range, and MAX_STAMPS per completed
   * set plus the open count is the number of Stamp items (by CountersFromTotal,
   * the remainder and quotient form of those recounts).
   */
  predicate Derived(c: Card) {
    InRange(c) && Total(c) == StampCount(c.history)
  }

  lemma DerivedAfterStamp(c: Card, row: Row)
    requires Derived(c) && row.rowType == StampRow
    ensures Derived(ApplyToCard(c, row))
  {
    var item := HistoryItem(Stamp, StampIdOf(row));
    StampCountAppend(c.history, [item]);
    assert [item][1..] == [];
  }

  lemma DerivedAfterPenalty(c: Card, row: Row)
    requires Derived(c) && row.rowType == PenaltyRow
    ensures Derived(ApplyToCard(c, row)) <==> !(c.count == 0 && StampCount(c.history) > 0)
  {
  }

  lemma DerivedAfterUndo(c: Card, row: Row)
    requires Derived(c) && row.rowType == UndoStampRow
    ensures Derived(ApplyToCard(c, row))
  {
    var synced := SyncProfile(c, row);
    assert ApplyToCard(c, row) == UndoStamp(synced);
    NoStampIffZero(c.history);
    match LastStamp(c.history)
    case None =>
    case Some(i) =>
      RemoveLatestStampEffect(c.history);
      assert StampCount(UndoStamp(synced).history) == StampCount(c.history) - 1;
      assert Total(UndoStamp(synced)) == Total(c) - 1;
  }

  /**
   * Every row keeps the derived relation, except a 'penalty' row at the
   * instant a set has just completed (count 0, live stamps left): its count
   * guard keeps 0 while its flip still voids a stamp.
   */
  lemma DerivedKeptUnlessPenaltyAtRollover(c: Card, row: Row)
    requires Derived(c)
    ensures Derived(ApplyToCard(c, row)) <==>
              !(row.rowType == PenaltyRow && c.count == 0 && StampCount(c.history) > 0)
  {
    match row.rowType
    case StampRow => DerivedAfterStamp(c, row);
    case PenaltyRow => DerivedAfterPenalty(c, row);
    case UndoStampRow => DerivedAfterUndo(c, row);
    case ResetAllRow =>
    case RedeemGiftRow =>
    case OtherRow =>
  }

  /** The concrete case: ten stamps then a penalty leave count 0 and one set, over nine live stamps. */
  lemma PenaltyAtRolloverBreaksDerived(c: Card)
    requires Derived(c) && c.count == 0 && StampCount(c.history) == MAX_STAMPS
    ensures Penalize(c).count == 0 && Penalize(c).completedSets == 1
    ensures StampCount(Penalize(c).history) == MAX_STAMPS - 1 && !Derived(Penalize(c))
  {
  }

  /** A stamp adds one item and it is live. */
  lemma StampAddsOneLive(c: Card, stampId: string)
    ensures |AddStamp(c, stampId).history| == |c.history| + 1
    ensures StampCount(AddStamp(c, stampId).history) == StampCount(c.history) + 1
  {
    var item := HistoryItem(Stamp, stampId);
    StampCountAppend(c.history, [item]);
    assert [item][1..] == [];
  }

  /** A log of stamp rows for profile A only: A's card counts them, B's card is untouched. */
  lemma {:induction false} ReplayOfStampRows(rows: seq<Row>)
    requires forall i :: 0 <= i < |rows| ==> rows[i].rowType == StampRow && ProfileOf(rows[i].profile) == A
    ensures Total(Replay(rows).profileA) == |rows|
    ensures |Replay(rows).profileA.history| == |rows| && StampCount(Replay(rows).profileA.history) == |rows|
    ensures Replay(rows).profileB == INITIAL.profileB
  {
    if rows != [] {
      var n := |rows| - 1;
      assert forall i :: 0 <= i < n ==> rows[..n][i] == rows[i];
      ReplayOfStampRows(rows[..n]);
      var synced := SyncProfile(Replay(rows[..n]).profileA, rows[n]);
      assert Replay(rows).profileA == AddStamp(synced, StampIdOf(rows[n]));
      StampAddsOneLive(synced, StampIdOf(rows[n]));
    }
  }

  /** Ten stamps complete a set: count 0, one completed set, ten live stamp items. */
  lemma TenStampsCompleteASet(rows: seq<Row>)
    requires |rows| == 10
    requires forall i :: 0 <= i < |rows| ==> rows[i].rowType == StampRow && ProfileOf(rows[i].profile) == A
    ensures Replay(rows).profileA.count == 0 && Replay(rows).profileA.completedSets == 1
    ensures |Replay(rows).profileA.history| == 10 && StampCount(Replay(rows).profileA.history) == 10
  {
    ReplayOfStampRows(rows);
  }

  /** An undo right after the tenth stamp borrows the set back: count 9, no set, nine items. */
  lemma UndoAcrossRollover(rows: seq<Row>, undo: Row)
    requires |rows| == 10
    requires forall i :: 0 <= i < |rows| ==> rows[i].rowType == StampRow && ProfileOf(rows[i].profile) == A
    requires undo.rowType == UndoStampRow && ProfileOf(undo.profile) == A
    ensures Replay(rows + [undo]).profileA.count == 9 && Replay(rows + [undo]).profileA.completedSets == 0
    ensures |Replay(rows + [undo]).profileA.history| == 9
  {
    ReplayOfStampRows(rows);
    assert (rows + [undo])[..|rows|] == rows;
    NoStampIffZero(Replay(rows).profileA.history);
  }

  /**
   * A card holding fifteen live stamps (as fifteen stamp rows leave it), then
   * two 'redeem_gift' rows: the first takes ten, the second the last five.
   */
  lemma RedeemTakesAtMostTen(c: Card, gift1: Row, gift2: Row)
    requires Derived(c) && StampCount(c.history) == 15
    requires gift1.rowType == RedeemGiftRow && gift2.rowType == RedeemGiftRow
    ensures ApplyToCard(c, gift1).count == 5 && ApplyToCard(c, gift1).completedSets == 0
    ensures StampCount(ApplyToCard(c, gift1).history) == 5
    ensures ApplyToCard(ApplyToCard(c, gift1), gift2).count == 0
    ensures ApplyToCard(ApplyToCard(c, gift1), gift2).completedSets == 0
    ensures StampCount(ApplyToCard(ApplyToCard(c, gift1), gift2).history) == 0
  {
  }

  /** Where local penalty refuses: at count 0 a 'penalty' row still voids the latest stamp. */
  lemma ReplayPenaltyAtZeroStillFlips(c: Card)
    requires c.count == 0 && StampCount(c.history) > 0
    ensures Penalize(c).count == 0 && Penalize(c).history != c.history
  {
  }

  /**
   * Where local undo refuses: with a voided item last and a stamp before it,
   * the local undo does nothing, while an 'undo_stamp' row deletes that stamp.
   */
  lemma LocalUndoStricterThanReplay(active: Profile, c: Card, selectedStampId: string)
    requires |c.history| > 0 && c.history[|c.history| - 1].kind != Stamp && StampCount(c.history) > 0
    ensures HandleUndo(active, c, selectedStampId) == Outcome(c, None)
    ensures |UndoStamp(c).history| == |c.history| - 1
  {
    NoStampIffZero(c.history);
  }

  /**
   * A row posted by a local action, built from the active card, replays on that
   * card and leaves the other profile's card unchanged.
   */
  lemma PostedRowTargetsActiveProfile(u: UserData, active: Profile, rowType: RowType, overrideName: Option<string>,
                                      overrideAvatar: Option<string>, selectedStampId: string)
    ensures var row := SentRow(active, CardOf(u, active), rowType, overrideName, overrideAvatar, selectedStampId);
            CardOf(ApplyRow(u, row), active) == ApplyToCard(CardOf(u, active), row) &&
            CardOf(ApplyRow(u, row), OtherProfile(active)) == CardOf(u, OtherProfile(active))
  {
  }
}
