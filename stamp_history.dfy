/**
 * Pure functions over a card's history: counting live stamps, finding the
 * latest one, and the three ways the replay rewrites history around it.
 */
module StampHistory {
  import opened Wrappers
  import opened CardTypes

  function Min(a: int, b: int): int {
    if a <= b then a else b
  }

  /** Number of items still of kind Stamp (`history.filter(h => h.type === 'stamp').length`). */
  function StampCount(h: seq<HistoryItem>): (n: nat)
    ensures n <= |h|
  {
    if h == [] then 0 else (if h[0].kind == Stamp then 1 else 0) + StampCount(h[1..])
  }

  lemma {:induction false} StampCountAppend(a: seq<HistoryItem>, b: seq<HistoryItem>)
    ensures StampCount(a + b) == StampCount(a) + StampCount(b)
  {
    if a == [] {
      assert a + b == b;
    } else {
      assert (a + b)[1..] == a[1..] + b;
      StampCountAppend(a[1..], b);
    }
  }

  /** Counting around one item: the stamps before it, the item itself, and the stamps after it. */
  lemma StampCountAround(p: seq<HistoryItem>, x: HistoryItem, q: seq<HistoryItem>)
    ensures StampCount(p + [x] + q) == StampCount(p) + (if x.kind == Stamp then 1 else 0) + StampCount(q)
  {
    StampCountAppend(p + [x], q);
    StampCountAppend(p, [x]);
    assert [x][1..] == [];
  }

  /** Counting up to position i + 1 adds one exactly when item i is a stamp. */
  lemma StampCountStep(h: seq<HistoryItem>, i: int)
    requires 0 <= i < |h|
    ensures StampCount(h[..i + 1]) == StampCount(h[..i]) + (if h[i].kind == Stamp then 1 else 0)
  {
    assert h[..i + 1] == h[..i] + [h[i]];
    StampCountAppend(h[..i], [h[i]]);
    assert [h[i]][1..] == [];
  }

  /** Stamps before a position never outnumber stamps before a later one. */
  lemma StampCountMonotone(h: seq<HistoryItem>, i: int, j: int)
    requires 0 <= i <= j <= |h|
    ensures StampCount(h[..i]) + StampCount(h[i..j]) == StampCount(h[..j])
    ensures StampCount(h[..i]) <= StampCount(h[..j]) <= StampCount(h)
  {
    StampCountSplit(h[..j], i);
    assert h[..j][..i] == h[..i] && h[..j][i..] == h[i..j];
    StampCountSplit(h, j);
  }

  /** The stamps of a history are those before position k plus those from k on. */
  lemma StampCountSplit(h: seq<HistoryItem>, k: int)
    requires 0 <= k <= |h|
    ensures StampCount(h[..k]) + StampCount(h[k..]) == StampCount(h)
  {
    assert h == h[..k] + h[k..];
    StampCountAppend(h[..k], h[k..]);
  }

  lemma {:induction false} NoStampIffZero(h: seq<HistoryItem>)
    ensures StampCount(h) == 0 <==> forall i :: 0 <= i < |h| ==> h[i].kind != Stamp
  {
    if h != [] {
      NoStampIffZero(h[1..]);
      assert forall i :: 1 <= i < |h| ==> h[i] == h[1..][i - 1];
    }
  }

  /** Index of the most recent Stamp item: the backward scan of the penalty and undo rules. */
  function LastStamp(h: seq<HistoryItem>): (r: Option<nat>)
    ensures r.Some? ==> r.value < |h| && h[r.value].kind == Stamp
    ensures r.Some? ==> forall j :: r.value < j < |h| ==> h[j].kind != Stamp
    ensures r.None? <==> forall j :: 0 <= j < |h| ==> h[j].kind != Stamp
  {
    if h == [] then None
    else if h[|h| - 1].kind == Stamp then Some(|h| - 1)
    else LastStamp(h[..|h| - 1])
  }

  /** A Stamp item with no Stamp item after it is the latest one. */
  lemma LastStampAt(h: seq<HistoryItem>, i: int)
    requires 0 <= i < |h| && h[i].kind == Stamp
    requires forall j :: i < j < |h| ==> h[j].kind != Stamp
    ensures LastStamp(h) == Some(i)
  {
  }

  /** The penalty rule's history step: the latest Stamp item becomes a Penalty item. */
  function PenalizeLatest(h: seq<HistoryItem>): (r: seq<HistoryItem>)
    ensures |r| == |h|
  {
    match LastStamp(h)
    case None => h
    case Some(i) => h[i := h[i].(kind := Penalty)]
  }

  /** The undo rule's history step: the latest Stamp item is spliced out. */
  function RemoveLatestStamp(h: seq<HistoryItem>): (r: seq<HistoryItem>)
  {
    match LastStamp(h)
    case None => h
    case Some(i) => h[..i] + h[i + 1..]
  }

  /** A penalty voids exactly one live stamp when there is one, and changes nothing else. */
  lemma PenalizeLatestEffect(h: seq<HistoryItem>)
    ensures |PenalizeLatest(h)| == |h|
    ensures LastStamp(h).None? ==> PenalizeLatest(h) == h
    ensures LastStamp(h).Some? ==>
              var i := LastStamp(h).value;
              PenalizeLatest(h)[i] == HistoryItem(Penalty, h[i].stampId) &&
              forall j :: 0 <= j < |h| && j != i ==> PenalizeLatest(h)[j] == h[j]
    ensures StampCount(PenalizeLatest(h)) == if StampCount(h) > 0 then StampCount(h) - 1 else 0
  {
    NoStampIffZero(h);
    match LastStamp(h)
    case None =>
    case Some(i) =>
      var before, after := h[..i], h[i + 1..];
      assert h == before + [h[i]] + after;
      ReplaceAt(before, h[i], after, h[i].(kind := Penalty));
      StampCountAround(before, h[i], after);
      StampCountAround(before, h[i].(kind := Penalty), after);
  }

  /** An undo deletes exactly the latest live stamp and keeps every other item in order. */
  lemma RemoveLatestStampEffect(h: seq<HistoryItem>)
    ensures LastStamp(h).None? ==> RemoveLatestStamp(h) == h
    ensures LastStamp(h).Some? ==>
              var i := LastStamp(h).value;
              |RemoveLatestStamp(h)| == |h| - 1 &&
              (forall j :: 0 <= j < i ==> RemoveLatestStamp(h)[j] == h[j]) &&
              (forall j :: i < j < |h| ==> RemoveLatestStamp(h)[j - 1] == h[j])
    ensures StampCount(RemoveLatestStamp(h)) == if StampCount(h) > 0 then StampCount(h) - 1 else 0
  {
    NoStampIffZero(h);
    match LastStamp(h)
    case None =>
    case Some(i) =>
      SpliceOut(h, i);
      SpliceOutStamp(h, i);
  }

  /** Splicing out a Stamp item leaves one live stamp fewer. */
  lemma SpliceOutStamp(h: seq<HistoryItem>, i: int)
    requires 0 <= i < |h| && h[i].kind == Stamp
    ensures StampCount(h[..i] + h[i + 1..]) == StampCount(h) - 1
  {
    var before, after := h[..i], h[i + 1..];
    assert h == before + [h[i]] + after;
    StampCountAround(before, h[i], after);
    StampCountAppend(before, after);
  }

  /** Splicing out position i shifts every later element down by one. */
  lemma SpliceOut<T>(h: seq<T>, i: int)
    requires 0 <= i < |h|
    ensures |h[..i] + h[i + 1..]| == |h| - 1
    ensures forall j :: 0 <= j < i ==> (h[..i] + h[i + 1..])[j] == h[j]
    ensures forall j :: i < j < |h| ==> (h[..i] + h[i + 1..])[j - 1] == h[j]
  {
  }

  /**
   * The redeem rule's history step: the first k Stamp items, in index order,
   * become Redeemed (all of them when there are fewer than k).
   */
  function RedeemEarliest(h: seq<HistoryItem>, k: nat): (r: seq<HistoryItem>)
    ensures |r| == |h|
    ensures StampCount(r) == StampCount(h) - Min(k, StampCount(h))
  {
    if h == [] then []
    else if h[0].kind == Stamp && k > 0 then [h[0].(kind := Redeemed)] + RedeemEarliest(h[1..], k - 1)
    else [h[0]] + RedeemEarliest(h[1..], k)
  }

  /** Item i is redeemed exactly when it is a stamp with fewer than k stamps before it. */
  lemma {:induction false} RedeemEarliestAt(h: seq<HistoryItem>, k: nat, i: int)
    requires 0 <= i < |h|
    ensures RedeemEarliest(h, k)[i] ==
              if h[i].kind == Stamp && StampCount(h[..i]) < k then h[i].(kind := Redeemed) else h[i]
  {
    if i > 0 {
      var k' := if h[0].kind == Stamp && k > 0 then k - 1 else k;
      RedeemEarliestAt(h[1..], k', i - 1);
      assert h[..i][1..] == h[1..][..i - 1];
    }
  }

  lemma {:induction false} RedeemNone(h: seq<HistoryItem>)
    ensures RedeemEarliest(h, 0) == h
  {
    if h != [] {
      RedeemNone(h[1..]);
    }
  }

  /** The forward redeem scan, one position further, while fewer than k stamps were flipped. */
  lemma RedeemStep(h: seq<HistoryItem>, i: int, k: nat)
    requires 0 <= i < |h| && StampCount(h[..i]) < k
    ensures RedeemEarliest(h[..i + 1], k) ==
              RedeemEarliest(h[..i], k) + [if h[i].kind == Stamp then h[i].(kind := Redeemed) else h[i]]
  {
    var longer, shorter := RedeemEarliest(h[..i + 1], k), RedeemEarliest(h[..i], k);
    var y := if h[i].kind == Stamp then h[i].(kind := Redeemed) else h[i];
    forall j | 0 <= j <= i
      ensures longer[j] == (shorter + [y])[j]
    {
      RedeemEarliestAt(h[..i + 1], k, j);
      assert h[..i + 1][..j] == h[..j];
      if j < i {
        RedeemEarliestAt(h[..i], k, j);
        assert h[..i][..j] == h[..j];
      }
    }
  }

  /** Once k stamps were flipped, the rest of the history is left as it is. */
  lemma RedeemDone(h: seq<HistoryItem>, i: int, k: nat)
    requires 0 <= i <= |h| && StampCount(h[..i]) >= k
    ensures RedeemEarliest(h, k) == RedeemedUpTo(h, i, k)
  {
    var whole, prefix := RedeemEarliest(h, k), RedeemEarliest(h[..i], k);
    forall j | 0 <= j < |h|
      ensures whole[j] == (prefix + h[i..])[j]
    {
      RedeemEarliestAt(h, k, j);
      if j < i {
        RedeemEarliestAt(h[..i], k, j);
        assert h[..i][..j] == h[..j];
      } else {
        StampCountMonotone(h, i, j);
      }
    }
  }

  /** A history whose first i items went through the redeem scan and whose rest is untouched. */
  function RedeemedUpTo(h: seq<HistoryItem>, i: int, k: nat): seq<HistoryItem>
    requires 0 <= i <= |h|
  {
    RedeemEarliest(h[..i], k) + h[i..]
  }

  /**
   * One step of the forward redeem scan over a history that is redeemed up to
   * position i and untouched from there on.
   */
  lemma RedeemScanStep(h: seq<HistoryItem>, i: int, k: nat, current: seq<HistoryItem>)
    requires 0 <= i < |h| && StampCount(h[..i]) < k
    requires current == RedeemedUpTo(h, i, k)
    ensures |current| == |h| && current[i] == h[i]
    ensures h[i].kind == Stamp ==> current[i := current[i].(kind := Redeemed)] == RedeemedUpTo(h, i + 1, k)
    ensures h[i].kind != Stamp ==> current == RedeemedUpTo(h, i + 1, k)
    ensures StampCount(h[..i + 1]) == StampCount(h[..i]) + (if h[i].kind == Stamp then 1 else 0)
  {
    RedeemStep(h, i, k);
    StampCountStep(h, i);
    var prefix := RedeemEarliest(h[..i], k);
    assert h[i..] == [h[i]] + h[i + 1..];
    assert current == prefix + [h[i]] + h[i + 1..];
    if h[i].kind == Stamp {
      ReplaceAt(prefix, h[i], h[i + 1..], h[i].(kind := Redeemed));
    }
  }

  /** Replacing the element between a prefix and a suffix. */
  lemma ReplaceAt<T>(prefix: seq<T>, x: T, suffix: seq<T>, y: T)
    ensures (prefix + [x] + suffix)[|prefix| := y] == prefix + [y] + suffix
  {
  }

  /** A forward redeem scan that reached the end of the history has redeemed all of it. */
  lemma RedeemFinished(h: seq<HistoryItem>, i: int, k: nat)
    requires i == |h|
    ensures RedeemedUpTo(h, i, k) == RedeemEarliest(h, k)
  {
    assert h[..i] == h && h[i..] == [];
  }

  /** Indices of the Stamp items, in order (`history.map((h, i) => ...).filter(i => i !== -1)`). */
  function StampIndices(h: seq<HistoryItem>): (r: seq<nat>)
    ensures forall k :: 0 <= k < |r| ==> r[k] < |h|
  {
    if h == [] then []
    else StampIndices(h[..|h| - 1]) + (if h[|h| - 1].kind == Stamp then [|h| - 1] else [])
  }

  /** The k-th index is the stamp that has exactly k stamps before it. */
  lemma {:induction false} StampIndicesRank(h: seq<HistoryItem>)
    ensures |StampIndices(h)| == StampCount(h)
    ensures forall k :: 0 <= k < |StampIndices(h)| ==>
              StampIndices(h)[k] < |h| && h[StampIndices(h)[k]].kind == Stamp &&
              StampCount(h[..StampIndices(h)[k]]) == k
  {
    if h != [] {
      var n := |h| - 1;
      var p := h[..n];
      StampIndicesRank(p);
      StampCountStep(h, n);
      assert h[..n + 1] == h;
      forall k | 0 <= k < |StampIndices(p)|
        ensures StampIndices(h)[k] < |h| && h[StampIndices(h)[k]].kind == Stamp
        ensures StampCount(h[..StampIndices(h)[k]]) == k
      {
        var m := StampIndices(p)[k];
        assert StampIndices(h)[k] == m;
        assert p[..m] == h[..m];
      }
    }
  }

  /** Two stamps with the same number of stamps before them are the same item. */
  lemma StampRankUnique(h: seq<HistoryItem>, i: int, j: int)
    requires 0 <= i < |h| && 0 <= j < |h|
    requires h[i].kind == Stamp && h[j].kind == Stamp
    requires StampCount(h[..i]) == StampCount(h[..j])
    ensures i == j
  {
    if i < j {
      StampCountStep(h, i);
      StampCountMonotone(h, i + 1, j);
    } else if j < i {
      StampCountStep(h, j);
      StampCountMonotone(h, j + 1, i);
    }
  }

  /**
   * Redeeming one stamp more: the local loop's step, which flips the i-th
   * stamp index, is the replay's redeem with a budget one larger.
   */
  lemma RedeemOneMore(h: seq<HistoryItem>, i: nat)
    requires i < |StampIndices(h)|
    ensures var m := StampIndices(h)[i];
            RedeemEarliest(h, i + 1) == RedeemEarliest(h, i)[m := RedeemEarliest(h, i)[m].(kind := Redeemed)]
  {
    StampIndicesRank(h);
    var m := StampIndices(h)[i];
    var r0, r1 := RedeemEarliest(h, i), RedeemEarliest(h, i + 1);
    var flipped := r0[m := r0[m].(kind := Redeemed)];
    forall j | 0 <= j < |h|
      ensures r1[j] == flipped[j]
    {
      RedeemEarliestAt(h, i, j);
      RedeemEarliestAt(h, i + 1, j);
      if j != m && h[j].kind == Stamp && StampCount(h[..j]) == i {
        StampRankUnique(h, j, m);
      }
    }
  }

  /** With no stamp left to flip, a larger budget redeems nothing more. */
  lemma {:induction false} RedeemBeyondStamps(h: seq<HistoryItem>, i: nat)
    requires i >= StampCount(h)
    ensures RedeemEarliest(h, i + 1) == RedeemEarliest(h, i)
  {
    if h != [] {
      if h[0].kind == Stamp {
        RedeemBeyondStamps(h[1..], i - 1);
      } else {
        RedeemBeyondStamps(h[1..], i);
      }
    }
  }
}
