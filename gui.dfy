/**
 * The card-selection state of the game window: one flag per card position, reset
 * between moves and turned into the ascending list of selected positions that is
 * handed to checkMove.
 */
module Gui {
  import opened Wrappers
  import opened Cards
  import Rules

  /** Number of card positions a player's hand can show. */
  const MaxCards := 13

  /** Positions whose flag is set, in ascending order. */
  function SelectedIndices(flags: seq<bool>): seq<int>
  {
    if flags == [] then []
    else SelectedIndices(flags[..|flags| - 1]) + if flags[|flags| - 1] then [|flags| - 1] else []
  }

  /** Number of flags set. */
  function CountSet(flags: seq<bool>): nat
  {
    if flags == [] then 0
    else CountSet(flags[..|flags| - 1]) + if flags[|flags| - 1] then 1 else 0
  }

  /**
   * The selected positions are strictly increasing, each one is a position whose flag
   * is set, every set flag's position is listed, and there are as many as flags set.
   */
  lemma {:induction false} SelectedIndicesSpec(flags: seq<bool>)
    ensures |SelectedIndices(flags)| == CountSet(flags)
    ensures forall k, l :: 0 <= k < l < |SelectedIndices(flags)| ==>
      SelectedIndices(flags)[k] < SelectedIndices(flags)[l]
    ensures forall k :: 0 <= k < |SelectedIndices(flags)| ==>
      0 <= SelectedIndices(flags)[k] < |flags| && flags[SelectedIndices(flags)[k]]
    ensures forall j :: 0 <= j < |flags| && flags[j] ==> j in SelectedIndices(flags)
  {
    if flags != [] {
      var init := flags[..|flags| - 1];
      SelectedIndicesSpec(init);
      assert forall j :: 0 <= j < |init| ==> init[j] == flags[j];
    }
  }

  /** A prefix of the flags has no more set than the whole. */
  lemma {:induction false} CountSetPrefix(flags: seq<bool>, i: nat)
    requires i <= |flags|
    ensures CountSet(flags[..i]) <= CountSet(flags)
  {
    if i < |flags| {
      var init := flags[..|flags| - 1];
      assert init[..i] == flags[..i];
      CountSetPrefix(init, i);
    } else {
      assert flags[..i] == flags;
    }
  }

  /** No selection exactly when no flag is set. */
  lemma {:induction false} NothingSelected(flags: seq<bool>)
    ensures CountSet(flags) == 0 <==> forall j :: 0 <= j < |flags| ==> !flags[j]
  {
    if flags != [] {
      NothingSelected(flags[..|flags| - 1]);
    }
  }

  /**
   * A selection taken from flags that lie over a hand's cards is one checkMove
   * accepts as input: positions in the hand, in strictly increasing order.
   */
  lemma SelectionFitsHand(flags: seq<bool>, hand: seq<Card>)
    requires forall j :: 0 <= j < |flags| && flags[j] ==> j < |hand|
    ensures Rules.SelectionOk(hand, Some(SelectedIndices(flags)))
  {
    SelectedIndicesSpec(flags);
  }

  class BigTwoGUI {
    /** selected[j] holds when the card at position j is selected. */
    const selected: array<bool>

    constructor ()
      ensures selected.Length == MaxCards
      ensures forall j :: 0 <= j < selected.Length ==> !selected[j]
    {
      selected := new bool[MaxCards](_ => false);
    }

    /** resetSelected: clear every flag. */
    method ResetSelected()
      modifies selected
      ensures forall j :: 0 <= j < selected.Length ==> !selected[j]
    {
      for j := 0 to selected.Length
        invariant forall k :: 0 <= k < j ==> !selected[k]
      {
        selected[j] := false;
      }
    }

    /**
     * getSelected: count the set flags; if there are none the result is null,
     * otherwise a new array filled with the set positions in ascending order.
     */
    method GetSelected() returns (cardIdx: array?<int>)
      ensures cardIdx == null <==> forall j :: 0 <= j < selected.Length ==> !selected[j]
      ensures cardIdx != null ==> cardIdx.Length == CountSet(selected[..])
      ensures cardIdx != null ==> cardIdx[..] == SelectedIndices(selected[..])
    {
      var flags := selected[..];
      NothingSelected(flags);
      SelectedIndicesSpec(flags);
      var count := 0;
      for j := 0 to selected.Length
        invariant count == CountSet(flags[..j])
      {
        assert flags[..j + 1][..j] == flags[..j];
        if selected[j] {
          count := count + 1;
        }
      }
      assert flags[..selected.Length] == flags;
      cardIdx := null;
      if count != 0 {
        var result := new int[count];
        var count1 := 0;
        for j := 0 to selected.Length
          invariant count1 == |SelectedIndices(flags[..j])|
          invariant count1 <= count
          invariant result[..count1] == SelectedIndices(flags[..j])
        {
          assert flags[..j + 1][..j] == flags[..j];
          SelectedIndicesSpec(flags[..j + 1]);
          CountSetPrefix(flags, j + 1);
          if selected[j] {
            result[count1] := j;
            count1 := count1 + 1;
          }
        }
        assert flags[..selected.Length] == flags;
        cardIdx := result;
      }
    }
  }
}
