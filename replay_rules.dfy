/**
 * The replay fold as pure functions: the rule each log row applies to the
 * card of the profile it selects (src/App.tsx:52-111), the fold over the whole
 * log from the initial cards, and the guard on the fetched payload.
 */
module ReplayRules {
  import opened Wrappers
  import opened CardTypes
  import opened StampHistory

  /** The counters are in range: an open set of fewer than MAX_STAMPS stamps. */
  predicate InRange(c: Card) {
    0 <= c.count < MAX_STAMPS && 0 <= c.completedSets
  }

  /** Stamps earned so far, counting each completed set as MAX_STAMPS. */
  function Total(c: Card): int {
    c.completedSets * MAX_STAMPS + c.count
  }

  /** A name or avatar field updates the card only when truthy and not the string 'undefined'. */
  predicate IsSet(v: Option<string>) {
    v.Some? && v.value != "" && v.value != "undefined"
  }

  /** Step 1 of every row: copy the row's name and avatar onto the card. */
  function SyncProfile(c: Card, row: Row): (r: Card)
    ensures r.count == c.count && r.completedSets == c.completedSets && r.history == c.history
    ensures r.name == if IsSet(row.userName) then row.userName.value else c.name
    ensures r.avatar == if IsSet(row.avatar) then row.avatar.value else c.avatar
  {
    var named := if IsSet(row.userName) then c.(name := row.userName.value) else c;
    if IsSet(row.avatar) then named.(avatar := row.avatar.value) else named
  }

  /** The stamp id a 'stamp' row records: its own id when that is non-empty, otherwise the default 'star'. */
  function StampIdOf(row: Row): (id: string)
    ensures id != ""
    ensures row.stampId.Some? && row.stampId.value != "" ==> id == row.stampId.value
    ensures row.stampId.None? || row.stampId.value == "" ==> id == DEFAULT_STAMP_ID
  {
    if row.stampId.Some? && row.stampId.value != "" then row.stampId.value else DEFAULT_STAMP_ID
  }

  /** A 'stamp' row: one more stamp item; a full set rolls over into completedSets. */
  function AddStamp(c: Card, stampId: string): (r: Card)
    ensures r.name == c.name && r.avatar == c.avatar
    ensures r.history == c.history + [HistoryItem(Stamp, stampId)]
    ensures InRange(c) ==> InRange(r) && Total(r) == Total(c) + 1
  {
    var next := c.count + 1;
    var stamped := c.(history := c.history + [HistoryItem(Stamp, stampId)]);
    if next >= MAX_STAMPS then stamped.(count := 0, completedSets := c.completedSets + 1)
    else stamped.(count := next)
  }

  /**
   * A 'penalty' row: the count drops only when positive; independently, the
   * latest Stamp item (if any) is voided as a Penalty item.
   */
  function Penalize(c: Card): (r: Card)
    ensures r.name == c.name && r.avatar == c.avatar && r.completedSets == c.completedSets
    ensures r.count == if c.count > 0 then c.count - 1 else c.count
    ensures InRange(c) ==> InRange(r)
    ensures r.history == PenalizeLatest(c.history)
    ensures StampCount(r.history) == if StampCount(c.history) > 0 then StampCount(c.history) - 1 else 0
  {
    PenalizeLatestEffect(c.history);
    c.(count := if c.count > 0 then c.count - 1 else c.count, history := PenalizeLatest(c.history))
  }

  /** The undo rule's counter step: borrow back across a set boundary. */
  function RollBack(c: Card): (r: Card)
    ensures InRange(c) ==> InRange(r)
    ensures InRange(c) ==> Total(r) == if Total(c) > 0 then Total(c) - 1 else 0
    ensures c.count == 0 && c.completedSets == 0 ==> r == c
    ensures r.history == c.history && r.name == c.name && r.avatar == c.avatar
  {
    if c.count == 0 && c.completedSets > 0 then c.(count := MAX_STAMPS - 1, completedSets := c.completedSets - 1)
    else if c.count > 0 then c.(count := c.count - 1)
    else c
  }

  /**
   * An 'undo_stamp' row: with a Stamp item present, delete the latest one and
   * roll the counters back; with none, change nothing.
   */
  function UndoStamp(c: Card): (r: Card)
    ensures LastStamp(c.history).None? ==> r == c
    ensures LastStamp(c.history).Some? ==>
              r.history == RemoveLatestStamp(c.history) && |r.history| == |c.history| - 1
    ensures LastStamp(c.history).Some? && InRange(c) ==> Total(r) == if Total(c) > 0 then Total(c) - 1 else 0
    ensures InRange(c) ==> InRange(r)
    ensures r.name == c.name && r.avatar == c.avatar
  {
    match LastStamp(c.history)
    case None => c
    case Some(i) => RollBack(c.(history := c.history[..i] + c.history[i + 1..]))
  }

  /** A 'reset_all' row: zero counters and an empty history. */
  function ResetAll(c: Card): (r: Card)
    ensures r.count == 0 && r.completedSets == 0 && r.history == []
    ensures r.name == c.name && r.avatar == c.avatar
  {
    c.(count := 0, completedSets := 0, history := [])
  }

  /** The counters recomputed from the live stamps (`validStamps % MAX_STAMPS`, `Math.floor(validStamps / MAX_STAMPS)`). */
  function Recount(c: Card): (r: Card)
    ensures InRange(r) && Total(r) == StampCount(c.history)
    ensures r.history == c.history && r.name == c.name && r.avatar == c.avatar
  {
    var valid := StampCount(c.history);
    c.(count := valid % MAX_STAMPS, completedSets := valid / MAX_STAMPS)
  }

  /**
   * A 'redeem_gift' row: the first REDEEM_COST Stamp items become Redeemed,
   * then the counters are recomputed from what is left.
   */
  function RedeemGift(c: Card): (r: Card)
    ensures r.history == RedeemEarliest(c.history, REDEEM_COST)
    ensures |r.history| == |c.history|
    ensures StampCount(r.history) == StampCount(c.history) - Min(REDEEM_COST, StampCount(c.history))
    ensures InRange(r) && Total(r) == StampCount(r.history)
    ensures r.name == c.name && r.avatar == c.avatar
  {
    Recount(c.(history := RedeemEarliest(c.history, REDEEM_COST)))
  }

  /** One row applied to the card it selects: sync name and avatar, then the row's rule. */
  function ApplyToCard(c: Card, row: Row): (r: Card)
    ensures r.name == if IsSet(row.userName) then row.userName.value else c.name
    ensures r.avatar == if IsSet(row.avatar) then row.avatar.value else c.avatar
    ensures InRange(c) ==> InRange(r)
  {
    var synced := SyncProfile(c, row);
    match row.rowType
    case StampRow => AddStamp(synced, StampIdOf(row))
    case PenaltyRow => Penalize(synced)
    case UndoStampRow => UndoStamp(synced)
    case ResetAllRow => ResetAll(synced)
    case RedeemGiftRow => RedeemGift(synced)
    case OtherRow => synced
  }

  /** One row applied to both cards: only the selected profile's card changes. */
  function ApplyRow(u: UserData, row: Row): (r: UserData)
    ensures CardOf(r, ProfileOf(row.profile)) == ApplyToCard(CardOf(u, ProfileOf(row.profile)), row)
    ensures CardOf(r, OtherProfile(ProfileOf(row.profile))) == CardOf(u, OtherProfile(ProfileOf(row.profile)))
  {
    var p := ProfileOf(row.profile);
    WithCard(u, p, ApplyToCard(CardOf(u, p), row))
  }

  /** The whole log folded oldest-first over the initial cards; both cards stay in range. */
  function Replay(rows: seq<Row>): (r: UserData)
    ensures InRange(r.profileA) && InRange(r.profileB)
  {
    if rows == [] then INITIAL
    else ApplyRow(Replay(rows[..|rows| - 1]), rows[|rows| - 1])
  }

  /** Before any row, the replay holds the two initial cards: Brownie and Snowy, with nothing stamped. */
  lemma EmptyLogGivesInitialCards()
    ensures Replay([]).profileA == Card("Brownie", "https://picsum.photos/id/237/200/200", 0, 0, [])
    ensures Replay([]).profileB == Card("Snowy", "https://picsum.photos/id/1025/200/200", 0, 0, [])
  {
  }

  /** A 'stamp' row without a stamp id, or with an empty one, records a 'star' stamp. */
  lemma StampRowDefaultsToStar(c: Card, row: Row)
    requires row.rowType == StampRow && (row.stampId.None? || row.stampId.value == "")
    ensures ApplyToCard(c, row).history == c.history + [HistoryItem(Stamp, "star")]
  {
  }

  /**
   * Whatever the row's type, a missing, empty or 'undefined' name (avatar) keeps
   * the card's name (avatar), and any other value replaces it.
   */
  lemma UnsetFieldsNeverOverwrite(c: Card, row: Row)
    ensures row.userName == None || row.userName == Some("") || row.userName == Some("undefined") ==>
              ApplyToCard(c, row).name == c.name
    ensures row.userName.Some? && row.userName.value != "" && row.userName.value != "undefined" ==>
              ApplyToCard(c, row).name == row.userName.value
    ensures row.avatar == None || row.avatar == Some("") || row.avatar == Some("undefined") ==>
              ApplyToCard(c, row).avatar == c.avatar
    ensures row.avatar.Some? && row.avatar.value != "" && row.avatar.value != "undefined" ==>
              ApplyToCard(c, row).avatar == row.avatar.value
  {
  }

  predicate AllObjects(elements: seq<Element>) {
    forall i :: 0 <= i < |elements| ==> elements[i].ObjectElement?
  }

  function RowsOf(elements: seq<Element>): (rows: seq<Row>)
    requires AllObjects(elements)
    ensures |rows| == |elements|
    ensures forall i :: 0 <= i < |elements| ==> rows[i] == elements[i].row
  {
    seq(|elements|, i requires 0 <= i < |elements| => elements[i].row)
  }
}
