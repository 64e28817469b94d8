/** The root instance of the page: the three columns, the stored lock flag and
    the draft of the card being written, with the operations the page and its
    cards call. */
module App {
  import opened Text
  import opened Cards
  import opened Columns

  /** The new-card form: a title, three to five entry texts and the priority box. */
  datatype Draft = Draft(title: string, items: seq<string>, isPriority: bool)

  /** The form as the page starts it and resets it after a submission. */
  const EmptyDraft := Draft("", ["", "", ""], false)

  predicate DraftOk(d: Draft) {
    MinItems <= |d.items| <= MaxItems
  }

  /** A text the form accepts: trim leaves something. */
  predicate Filled(s: string) {
    Trim(s) != []
  }

  predicate DraftFilled(d: Draft) {
    Filled(d.title) && forall i :: 0 <= i < |d.items| ==> Filled(d.items[i])
  }

  /** The form is accepted exactly when neither the title nor any entry is
      made of white space alone. */
  lemma DraftFilledIffNotBlank(d: Draft)
    ensures DraftFilled(d) <==> !Blank(d.title) && forall i :: 0 <= i < |d.items| ==> !Blank(d.items[i])
  {
    TrimEmptyIffBlank(d.title);
    forall i | 0 <= i < |d.items| ensures Filled(d.items[i]) <==> !Blank(d.items[i]) {
      TrimEmptyIffBlank(d.items[i]);
    }
  }

  /** The card a submitted form creates: every entry unchecked, no stamps. */
  function NewCard(d: Draft): (c: Card)
    requires DraftOk(d)
    ensures c.title == d.title && c.isPriority == d.isPriority && c.completedAt == None
    ensures |c.items| == |d.items|
    ensures forall i :: 0 <= i < |c.items| ==> c.items[i] == Item(d.items[i], false, None)
    ensures WellFormed(c)
  {
    var c := Card(d.title, seq(|d.items|, i requires 0 <= i < |d.items| => Item(d.items[i], false, None)), d.isPriority, None);
    assert !c.items[0].done;
    c
  }

  /** A new card starts at 0%. */
  lemma NewCardStartsAtZero(d: Draft)
    requires DraftOk(d)
    ensures Completion(NewCard(d)) == 0
  {
    DoneCountAll(NewCard(d).items);
  }

  /** Replacing one column keeps a board well-formed when the new column holds
      well-formed cards and fits its capacity. */
  lemma ReplaceColumnKeepsOk(l: Layout, n: ColumnNumber, s: seq<Card>)
    requires LayoutOk(l)
    requires forall c :: c in s ==> WellFormed(c)
    requires n == 1 ==> |s| <= FirstCapacity
    requires n == 2 ==> |s| <= SecondCapacity
    ensures LayoutOk(l.WithColumn(n, s))
  {
    var r := l.WithColumn(n, s);
    forall c | c in r.AllCards() ensures WellFormed(c) {
      if c !in s {
        assert c in r.first || c in r.second || c in r.third;
        assert c in l.AllCards();
      }
    }
  }

  /** A successful move keeps a board well-formed: column 1 only loses cards,
      and column 2 only gains one while it has room. */
  lemma MoveKeepsOk(l: Layout, from: ColumnNumber, index: nat, to: ColumnNumber)
    requires LayoutOk(l) && from < to && index < |l.Column(from)|
    requires to == 2 ==> |l.second| < SecondCapacity
    ensures LayoutOk(Move(l, from, index, to))
  {
    var r := Move(l, from, index, to);
    forall c | c in r.AllCards() ensures WellFormed(c) {
      assert c in multiset(r.AllCards());
    }
  }

  /** The board after a permitted click on entry `itemIndex` of the card at
      `index` of column `column`: the card is toggled and stamped in place,
      then migrates if the decision says so. */
  function CheckItemEffect(l: Layout, column: ColumnNumber, index: nat, itemIndex: nat, now: Stamp): (r: Layout)
    requires index < |l.Column(column)| && itemIndex < |l.Column(column)[index].items|
    requires WellFormed(l.Column(column)[index])
    ensures |r.AllCards()| == |l.AllCards()|
  {
    var card := CheckedCard(l.Column(column)[index], itemIndex, now);
    var placed := l.WithColumn(column, l.Column(column)[index := card]);
    var target := MigrationTarget(column, Completion(card), |placed.second|);
    assert |placed.AllCards()| == |l.AllCards()|;
    if target.Some? then Move(placed, column, index, target.value) else placed
  }

  /** Writing the clicked card back in place keeps a board well-formed. */
  lemma PlaceKeepsOk(l: Layout, column: ColumnNumber, index: nat, card: Card)
    requires LayoutOk(l) && index < |l.Column(column)| && WellFormed(card)
    ensures LayoutOk(l.WithColumn(column, l.Column(column)[index := card]))
  {
    var s := l.Column(column)[index := card];
    assert forall c :: c in s ==> c == card || c in l.Column(column);
    assert forall c :: c in l.Column(column) ==> c in l.AllCards();
    ReplaceColumnKeepsOk(l, column, s);
  }

  /** A click keeps every invariant of the board: the capacities of columns 1
      and 2, three to five entries per card, and a stamp on every 100% card. */
  lemma CheckItemKeepsOk(l: Layout, column: ColumnNumber, index: nat, itemIndex: nat, now: Stamp)
    requires LayoutOk(l)
    requires index < |l.Column(column)| && itemIndex < |l.Column(column)[index].items|
    ensures WellFormed(l.Column(column)[index])
    ensures LayoutOk(CheckItemEffect(l, column, index, itemIndex, now))
  {
    var old_ := l.Column(column)[index];
    assert old_ in l.AllCards();
    var card := CheckedCard(old_, itemIndex, now);
    PlaceKeepsOk(l, column, index, card);
    var placed := l.WithColumn(column, l.Column(column)[index := card]);
    var target := MigrationTarget(column, Completion(card), |placed.second|);
    if target.Some? {
      MoveKeepsOk(placed, column, index, target.value);
    }
  }

  /** A click moves at most the clicked card, and only forward: either it stays
      at its place (updated) and nothing else changes, or it leaves its column
      for the end of the next one and the remaining column is untouched. Which
      of the two happens is the migration decision on the updated card. */
  lemma CheckItemForwardOnly(l: Layout, column: ColumnNumber, index: nat, itemIndex: nat, now: Stamp)
    requires index < |l.Column(column)| && itemIndex < |l.Column(column)[index].items|
    requires WellFormed(l.Column(column)[index])
    ensures var r := CheckItemEffect(l, column, index, itemIndex, now);
      var card := CheckedCard(l.Column(column)[index], itemIndex, now);
      (r.Column(column) == l.Column(column)[index := card]
        && forall m: ColumnNumber :: m != column ==> r.Column(m) == l.Column(m))
      || (column < 3 && r.Column(column) == RemoveAt(l.Column(column), index)
        && r.Column(column + 1) == l.Column(column + 1) + [card]
        && forall m: ColumnNumber :: m != column && m != column + 1 ==> r.Column(m) == l.Column(m))
    ensures var r := CheckItemEffect(l, column, index, itemIndex, now);
      var card := CheckedCard(l.Column(column)[index], itemIndex, now);
      var t := MigrationTarget(column, Completion(card), |l.second|);
      (t.None? ==> r == l.WithColumn(column, l.Column(column)[index := card]))
      && (t.Some? ==>
            r.Column(column) == RemoveAt(l.Column(column), index) && r.Column(t.value) == l.Column(t.value) + [card])
  {
    var card := CheckedCard(l.Column(column)[index], itemIndex, now);
    var placed := l.WithColumn(column, l.Column(column)[index := card]);
    assert RemoveAt(placed.Column(column), index) == RemoveAt(l.Column(column), index);
  }

  datatype MoveOutcome = Moved | SecondColumnFull
  datatype AddOutcome = Added | FirstColumnLocked | BlankInput | FirstColumnFull
  datatype CheckOutcome = NotEditable | Checked(target: Option<ColumnNumber>)

  /** Which way a submission of the form goes: the stored lock is checked
      first, then the texts, then the capacity of column 1. */
  function AddDecision(blocked: bool, d: Draft, firstCount: nat): (r: AddOutcome)
    ensures r == FirstColumnLocked <==> blocked
    ensures r == BlankInput <==> !blocked && !DraftFilled(d)
    ensures r == FirstColumnFull <==> !blocked && DraftFilled(d) && firstCount >= FirstCapacity
    ensures r == Added <==> !blocked && DraftFilled(d) && firstCount < FirstCapacity
  {
    if blocked then FirstColumnLocked
    else if !DraftFilled(d) then BlankInput
    else if firstCount < FirstCapacity then Added
    else FirstColumnFull
  }

  class Board {
    var columns: Layout
    /** The lock of the new-card form; recomputed only after a move. */
    var blockFirstColumn: bool
    var draft: Draft

    ghost predicate Valid()
      reads this
    {
      LayoutOk(columns) && DraftOk(draft)
    }

    /** The board as the page loads it: the stored columns, an unlocked form and an empty draft. */
    constructor (stored: Layout)
      requires LayoutOk(stored)
      ensures Valid()
      ensures columns == stored && !blockFirstColumn && draft == EmptyDraft
    {
      columns := stored;
      blockFirstColumn := false;
      draft := EmptyDraft;
    }

    /** `updateCard`: writes the completion stamp of one card. */
    method UpdateCard(index: nat, column: ColumnNumber, completedAt: Stamp)
      requires index < |columns.Column(column)|
      modifies this
      ensures columns == old(columns).WithColumn(column,
        old(columns.Column(column))[index := old(columns.Column(column)[index]).(completedAt := Some(completedAt))])
      ensures blockFirstColumn == old(blockFirstColumn) && draft == old(draft)
    {
      var col := columns.Column(column);
      columns := columns.WithColumn(column, col[index := col[index].(completedAt := Some(completedAt))]);
    }

    /** `checkBlockFirstColumn`: recomputes the stored lock flag. */
    method CheckBlockFirstColumn()
      modifies this
      ensures blockFirstColumn == FirstColumnBlocked(columns)
      ensures columns == old(columns) && draft == old(draft)
    {
      blockFirstColumn := FirstColumnBlocked(columns);
    }

    /** `moveCard`: refuses a move into a full column 2; otherwise relocates the
        card and recomputes the lock flag. */
    method MoveCard(from: ColumnNumber, index: nat, to: ColumnNumber) returns (r: MoveOutcome)
      requires Valid() && from < to && index < |columns.Column(from)|
      modifies this
      ensures Valid() && draft == old(draft)
      ensures r == SecondColumnFull <==> to == 2 && |old(columns.second)| >= SecondCapacity
      ensures r == SecondColumnFull ==> columns == old(columns) && blockFirstColumn == old(blockFirstColumn)
      ensures r == Moved ==> columns == Move(old(columns), from, index, to)
      ensures r == Moved ==> blockFirstColumn == FirstColumnBlocked(columns)
    {
      if to == 2 && |columns.second| >= SecondCapacity {
        return SecondColumnFull;
      }
      MoveKeepsOk(columns, from, index, to);
      var card := columns.Column(from)[index];
      columns := columns.WithColumn(from, RemoveAt(columns.Column(from), index));
      columns := columns.WithColumn(to, columns.Column(to) + [card]);
      CheckBlockFirstColumn();
      r := Moved;
    }

    /** `sortedCards`: puts the priority cards of column `n` first, in place. */
    method SortColumn(n: ColumnNumber) returns (sorted: seq<Card>)
      requires Valid()
      modifies this
      ensures Valid() && blockFirstColumn == old(blockFirstColumn) && draft == old(draft)
      ensures columns == old(columns).WithColumn(n, sorted)
      ensures sorted == PriorityFirst(old(columns.Column(n)))
      ensures PriorityOrdered(sorted) && multiset(sorted) == multiset(old(columns.Column(n)))
    {
      sorted := PriorityFirst(columns.Column(n));
      PriorityFirstPermutes(columns.Column(n));
      assert forall c :: c in sorted ==> c in multiset(columns.Column(n));
      ReplaceColumnKeepsOk(columns, n, sorted);
      columns := columns.WithColumn(n, sorted);
    }

    /** `addItem`: one more entry field, up to five. */
    method AddItem()
      requires Valid()
      modifies this
      ensures Valid() && columns == old(columns) && blockFirstColumn == old(blockFirstColumn)
      ensures draft == if |old(draft.items)| < MaxItems then old(draft).(items := old(draft.items) + [""]) else old(draft)
    {
      if |draft.items| < MaxItems {
        draft := draft.(items := draft.items + [""]);
      }
    }

    /** `removeItem`: drops entry field `index` while more than three remain;
        an index past the end removes nothing, as `splice` does. */
    method RemoveItem(index: nat)
      requires Valid()
      modifies this
      ensures Valid() && columns == old(columns) && blockFirstColumn == old(blockFirstColumn)
      ensures draft == if |old(draft.items)| > MinItems && index < |old(draft.items)|
        then old(draft).(items := old(draft.items)[..index] + old(draft.items)[index + 1..]) else old(draft)
    {
      if |draft.items| > MinItems && index < |draft.items| {
        draft := draft.(items := draft.items[..index] + draft.items[index + 1..]);
      }
    }

    /** The success path of `addNewCard`: push the card onto column 1, then
        sort column 1 priority-first. */
    method PushFirst(card: Card)
      requires Valid() && WellFormed(card) && |columns.first| < FirstCapacity
      modifies this
      ensures Valid() && blockFirstColumn == old(blockFirstColumn) && draft == old(draft)
      ensures columns.second == old(columns.second) && columns.third == old(columns.third)
      ensures multiset(columns.first) == multiset(old(columns.first)) + multiset{card}
      ensures PriorityOrdered(columns.first)
    {
      var grown := columns.first + [card];
      ReplaceColumnKeepsOk(columns, 1, grown);
      columns := columns.(first := grown);
      var sorted := PriorityFirst(grown);
      PriorityFirstPermutes(grown);
      assert forall c :: c in sorted ==> c in multiset(grown);
      ReplaceColumnKeepsOk(columns, 1, sorted);
      columns := columns.(first := sorted);
    }

    /** `addNewCard`: refused while the stored lock is set, for a blank title or
        entry, and when column 1 already holds three cards; otherwise the new
        card joins column 1, which is put in priority-first order. The form is
        reset after any submission that got past the blank check. */
    method AddNewCard() returns (r: AddOutcome)
      requires Valid()
      modifies this
      ensures Valid() && blockFirstColumn == old(blockFirstColumn)
      ensures r == AddDecision(old(blockFirstColumn), old(draft), |old(columns.first)|)
      ensures r != Added ==> columns == old(columns)
      ensures r == Added ==> columns.second == old(columns.second) && columns.third == old(columns.third)
      ensures r == Added ==> multiset(columns.first) == multiset(old(columns.first)) + multiset{NewCard(old(draft))}
      ensures r == Added ==> PriorityOrdered(columns.first)
      ensures draft == if r == Added || r == FirstColumnFull then EmptyDraft else old(draft)
    {
      if blockFirstColumn {
        return FirstColumnLocked;
      }
      if DraftFilled(draft) {
        var card := NewCard(draft);
        if |columns.first| < FirstCapacity {
          PushFirst(card);
          r := Added;
        } else {
          r := FirstColumnFull;
        }
        assert LayoutOk(columns) && DraftOk(EmptyDraft);
        draft := EmptyDraft;
      } else {
        r := BlankInput;
      }
    }

    /** The first part of `checkItem`: toggle and stamp the entry, then stamp
        the card if it has just reached 100%; returns its completion. */
    method ToggleAndStamp(column: ColumnNumber, index: nat, itemIndex: nat, now: Stamp) returns (completed: int)
      requires Valid()
      requires index < |columns.Column(column)| && itemIndex < |columns.Column(column)[index].items|
      modifies this
      ensures Valid() && draft == old(draft) && blockFirstColumn == old(blockFirstColumn)
      ensures var checked := CheckedCard(old(columns.Column(column)[index]), itemIndex, now);
        columns == old(columns).WithColumn(column, old(columns.Column(column))[index := checked])
        && completed == Completion(checked)
    {
      ghost var before := columns;
      var card := columns.Column(column)[index];
      assert card in columns.AllCards();
      ghost var checked := CheckedCard(card, itemIndex, now);
      PlaceKeepsOk(before, column, index, checked);
      var toggled := ToggleItem(card, itemIndex, now);
      columns := columns.WithColumn(column, columns.Column(column)[index := toggled]);
      completed := Completion(toggled);
      if completed == 100 && toggled.completedAt.None? {
        UpdateCard(index, column, now);
      }
      assert columns == before.WithColumn(column, before.Column(column)[index := checked]);
    }

    /** `checkItem`: a click on entry `itemIndex` of the card at `index` of column
        `column`. Nothing happens unless the column is editable or the card is a
        priority card; otherwise the entry is toggled and stamped, the card is
        stamped on first reaching 100%, and it migrates as decided. */
    method CheckItem(column: ColumnNumber, index: nat, itemIndex: nat, now: Stamp) returns (r: CheckOutcome)
      requires Valid()
      requires index < |columns.Column(column)| && itemIndex < |columns.Column(column)[index].items|
      modifies this
      ensures Valid() && draft == old(draft)
      ensures r == NotEditable <==> !old(CanEditCards(column, columns)) && !old(columns.Column(column)[index].isPriority)
      ensures r == NotEditable ==> columns == old(columns) && blockFirstColumn == old(blockFirstColumn)
      ensures r.Checked? ==> columns == CheckItemEffect(old(columns), column, index, itemIndex, now)
      ensures r.Checked? ==>
        r.target == MigrationTarget(column, Completion(CheckedCard(old(columns.Column(column)[index]), itemIndex, now)), |old(columns.second)|)
      ensures r.Checked? && r.target.None? ==> blockFirstColumn == old(blockFirstColumn)
      ensures r.Checked? && r.target.Some? ==> blockFirstColumn == FirstColumnBlocked(columns)
    {
      var card := columns.Column(column)[index];
      if !CanEditCards(column, columns) && !card.isPriority {
        return NotEditable;
      }
      CheckItemKeepsOk(columns, column, index, itemIndex, now);
      var completed := ToggleAndStamp(column, index, itemIndex, now);
      var target := MigrationTarget(column, completed, |columns.second|);
      if target.Some? {
        var moved := MoveCard(column, index, target.value);
      }
      r := Checked(target);
    }
  }
}
