/** Lemmas that state the rules' outcome on small concrete boards. */
module Scenarios {
  import opened Cards
  import opened Columns
  import opened App

  /** A new three-entry card, as the form creates it. */
  const Fresh := Card("A", [Item("a", false, None), Item("b", false, None), Item("c", false, None)], false, None)

  lemma DoneCountOfThree(x: Item, y: Item, z: Item)
    ensures DoneCount([x, y, z]) == (if x.done then 1 else 0) + (if y.done then 1 else 0) + (if z.done then 1 else 0)
  {
    assert [z][1..] == [];
    assert DoneCount([z]) == if z.done then 1 else 0;
    assert [y, z][1..] == [z];
    assert DoneCount([y, z]) == (if y.done then 1 else 0) + (if z.done then 1 else 0);
    assert [x, y, z][1..] == [y, z];
  }

  /** The same card with its first entry checked. */
  function OneChecked(now: Stamp): Card {
    Card("A", [Item("a", true, Some(now)), Item("b", false, None), Item("c", false, None)], false, None)
  }

  /** The same card with its first two entries checked. */
  function TwoChecked(now: Stamp): Card {
    Card("A", [Item("a", true, Some(now)), Item("b", true, Some(now)), Item("c", false, None)], false, None)
  }

  /** Checking one entry of a new three-entry card leaves it at 33% in column 1. */
  lemma OneOfThreeStays(now: Stamp)
    ensures WellFormed(Fresh) && CheckedCard(Fresh, 0, now) == OneChecked(now)
    ensures Completion(OneChecked(now)) == 33
    ensures CheckItemEffect(Layout([Fresh], [], []), 1, 0, 0, now) == Layout([OneChecked(now)], [], [])
  {
    assert !Fresh.items[0].done;
    var c := OneChecked(now);
    DoneCountOfThree(c.items[0], c.items[1], c.items[2]);
    assert c.items == [c.items[0], c.items[1], c.items[2]];
  }

  /** Checking a second entry puts the card at 66% (the floor of 200/3), and it
      moves to the end of column 2. */
  lemma TwoOfThreeMigrates(now: Stamp)
    ensures WellFormed(OneChecked(now)) && CheckedCard(OneChecked(now), 1, now) == TwoChecked(now)
    ensures Completion(TwoChecked(now)) == 66
    ensures CheckItemEffect(Layout([OneChecked(now)], [], []), 1, 0, 1, now) == Layout([], [TwoChecked(now)], [])
  {
    assert !OneChecked(now).items[1].done;
    var c := TwoChecked(now);
    DoneCountOfThree(c.items[0], c.items[1], c.items[2]);
    assert c.items == [c.items[0], c.items[1], c.items[2]];
  }

  /** With column 2 full, the same card stays in column 1 at 66%. */
  lemma FullSecondColumnHolds(now: Stamp, filler: Card)
    ensures WellFormed(OneChecked(now))
    ensures var full := [filler, filler, filler, filler, filler];
      CheckItemEffect(Layout([OneChecked(now)], full, []), 1, 0, 1, now) == Layout([TwoChecked(now)], full, [])
  {
    TwoOfThreeMigrates(now);
  }

  /** Checking the last open entry of a card in column 2 stamps the card and
      moves it to column 3. */
  lemma LastEntryFinishes(now: Stamp)
    ensures WellFormed(TwoChecked(now))
    ensures var r := CheckItemEffect(Layout([], [TwoChecked(now)], []), 2, 0, 2, now);
      r.first == [] && r.second == [] && |r.third| == 1
      && AllDone(r.third[0].items) && r.third[0].completedAt == Some(now)
  {
    var c := TwoChecked(now);
    assert !c.items[2].done;
    var c3 := ToggleItem(c, 2, now);
    assert AllDone(c3.items);
  }
}
