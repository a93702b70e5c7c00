/**
 * The data of the stamp-card widget: the two profiles' cards, their history
 * items, and the rows of the remote event log (src/types.ts, src/constants.tsx).
 */
module CardTypes {
  import opened Wrappers

  /** Stamps that complete one set (src/constants.tsx:5). */
  const MAX_STAMPS: int := 10

  /** Stamp items consumed by one gift redemption (the literal 10 of both redeem loops). */
  const REDEEM_COST: int := 10

  /** Ids of the stamps the user can pick (src/constants.tsx:7-14). */
  const STAMP_OPTION_IDS: seq<string> := ["cat", "bear", "rabbit", "panda", "frog", "chick"]

  /** Stamp id recorded when a stamp row carries none or an empty one. */
  const DEFAULT_STAMP_ID: string := "star"

  /** The two fixed profiles. */
  datatype Profile = A | B

  /** The `type` of a history item: a live stamp, or one voided by a penalty or a redemption. */
  datatype ItemKind = Stamp | Penalty | Redeemed

  datatype HistoryItem = HistoryItem(kind: ItemKind, stampId: string)

  /**
   * One profile's card (`StampData`): the stamps of the open set, the completed
   * sets, and every item ever stamped, oldest first.
   */
  datatype Card = Card(name: string, avatar: string, count: int, completedSets: int, history: seq<HistoryItem>)

  datatype UserData = UserData(profileA: Card, profileB: Card)

  /**
   * The `type` column of a log row. 'stamp', 'penalty', 'undo_stamp',
   * 'reset_all' and 'redeem_gift' each have a rule; every other value,
   * 'update_profile' and a missing type included, is OtherRow.
   */
  datatype RowType = StampRow | PenaltyRow | UndoStampRow | ResetAllRow | RedeemGiftRow | OtherRow

  /** One row of the log; absent JSON fields are None. The timestamp is not modelled. */
  datatype Row = Row(
    profile: Option<string>,
    userName: Option<string>,
    avatar: Option<string>,
    rowType: RowType,
    stampId: Option<string>)

  /**
   * One element of the fetched JSON array. A JSON `null` has no fields to read;
   * every other element reads its fields like an object (numbers and strings
   * read as a Row whose fields are all None).
   */
  datatype Element = NullElement | ObjectElement(row: Row)

  /** What the log endpoint answered: a JSON array, or anything else. */
  datatype Payload = NotAnArray | JsonArray(elements: seq<Element>)

  /** The profile a row selects: B exactly for the code 'B', A for anything else or nothing. */
  function ProfileOf(p: Option<string>): (r: Profile)
    ensures r == B <==> p == Some("B")
  {
    if p == Some("B") then B else A
  }

  /** The `profile` value a client writes for its active profile. */
  function ProfileCode(p: Profile): string {
    match p
    case A => "A"
    case B => "B"
  }

  /** A client's own profile code reads back as that profile. */
  lemma ProfileOfCode(p: Profile)
    ensures ProfileOf(Some(ProfileCode(p))) == p
  {
  }

  function FreshCard(name: string, avatar: string): Card {
    Card(name, avatar, 0, 0, [])
  }

  /** Both cards as the app starts, and as every replay starts (src/App.tsx:17-20, 46-49). */
  const INITIAL: UserData := UserData(
    FreshCard("Brownie", "https://picsum.photos/id/237/200/200"),
    FreshCard("Snowy", "https://picsum.photos/id/1025/200/200"))

  function CardOf(u: UserData, p: Profile): Card {
    match p
    case A => u.profileA
    case B => u.profileB
  }

  function WithCard(u: UserData, p: Profile, c: Card): UserData {
    match p
    case A => u.(profileA := c)
    case B => u.(profileB := c)
  }

  function OtherProfile(p: Profile): Profile {
    match p
    case A => B
    case B => A
  }
}
