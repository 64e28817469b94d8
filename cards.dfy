/** The Card component: a checklist card, its completion percentage, the toggle
    of one entry, the one-time completion stamp and the decision where a card
    migrates after a toggle. */
module Cards {

  datatype Option<T> = None | Some(value: T)

  /** A wall-clock reading as the page shows it; produced outside the model. */
  type Stamp = string

  /** The board's columns are numbered 1, 2 and 3. */
  type ColumnNumber = n: int | 1 <= n <= 3 witness 1

  /** Bounds on the number of entries of a card (the draft form keeps them). */
  const MinItems := 3
  const MaxItems := 5

  /** Column 2 holds at most this many cards. */
  const SecondCapacity := 5

  /** A checklist entry; `timestamp` is the time of its latest toggle. */
  datatype Item = Item(text: string, done: bool, timestamp: Option<Stamp>)

  /** A card; `completedAt` is the time it first reached 100%. */
  datatype Card = Card(title: string, items: seq<Item>, isPriority: bool, completedAt: Option<Stamp>)

  predicate AllDone(items: seq<Item>) {
    forall i :: 0 <= i < |items| ==> items[i].done
  }

  predicate NoneDone(items: seq<Item>) {
    forall i :: 0 <= i < |items| ==> !items[i].done
  }

  /** The number of entries that are checked (`list.filter(item => item.done).length`). */
  function DoneCount(items: seq<Item>): (n: nat)
    ensures n <= |items|
  {
    if items == [] then 0 else (if items[0].done then 1 else 0) + DoneCount(items[1..])
  }

  lemma {:induction false} DoneCountAll(items: seq<Item>)
    ensures DoneCount(items) == |items| <==> AllDone(items)
    ensures DoneCount(items) == 0 <==> NoneDone(items)
  {
    if items != [] {
      DoneCountAll(items[1..]);
      if AllDone(items[1..]) && items[0].done {
        forall i | 0 <= i < |items| ensures items[i].done {
          if i > 0 { assert items[i] == items[1..][i - 1]; }
        }
      }
      if NoneDone(items[1..]) && !items[0].done {
        forall i | 0 <= i < |items| ensures !items[i].done {
          if i > 0 { assert items[i] == items[1..][i - 1]; }
        }
      }
    }
  }

  /** The sign of `a` follows from the sign of the multiple `a * n` of a positive `n`. */
  lemma SignOfMultiple(a: int, n: int)
    requires n > 0
    ensures a * n <= 0 ==> a <= 0
    ensures a * n < 0 ==> a < 0
    ensures a * n > -n ==> a >= 0
  {
  }

  /** For 0 <= d <= n, floor(100 * d / n) lies in [0, 100] and is 100 only when d == n. */
  lemma PercentBounds(d: nat, n: nat)
    requires 0 < n && d <= n
    ensures 0 <= (100 * d) / n <= 100
    ensures (100 * d) / n == 100 <==> d == n
  {
    var q, m := (100 * d) / n, (100 * d) % n;
    assert q * n + m == 100 * d && 0 <= m < n;
    assert (q - 100) * n == q * n - 100 * n;
    SignOfMultiple(q - 100, n);
    SignOfMultiple(q, n);
  }

  /** The completion percentage `Math.floor(done / length * 100)`, taken as an
      integer division. */
  function Completion(c: Card): (p: int)
    requires |c.items| > 0
    ensures 0 <= p <= 100
    ensures p == 100 <==> AllDone(c.items)
  {
    DoneCountAll(c.items);
    PercentBounds(DoneCount(c.items), |c.items|);
    (100 * DoneCount(c.items)) / |c.items|
  }

  /** With three to five entries, a card is over 50% exactly when more than
      half of its entries are checked. */
  lemma OverHalf(c: Card)
    requires MinItems <= |c.items| <= MaxItems
    ensures Completion(c) > 50 <==> 2 * DoneCount(c.items) > |c.items|
  {
    var d, n := DoneCount(c.items), |c.items|;
    assert n == 3 || n == 4 || n == 5;
    assert d == 0 || d == 1 || d == 2 || d == 3 || d == 4 || d == 5;
  }

  /** A card as the model requires of every stored card: three to five
      entries, and a card whose entries are all checked (a 100% card, by
      Completion's contract) carries its completion stamp. */
  predicate WellFormed(c: Card) {
    MinItems <= |c.items| <= MaxItems && (AllDone(c.items) ==> c.completedAt.Some?)
  }

  /** The CSS class of a card: priority cards are styled apart. */
  function CardClass(c: Card): (cls: string)
    ensures cls == "priority-card" <==> c.isPriority
    ensures cls == "" <==> !c.isPriority
  {
    if c.isPriority then "priority-card" else ""
  }

  /** A click on entry `i`: the checkbox binding flips `done`, then the handler
      stamps the entry with the current time. */
  function ToggleItem(c: Card, i: nat, now: Stamp): (r: Card)
    requires i < |c.items|
    ensures r.title == c.title && r.isPriority == c.isPriority && r.completedAt == c.completedAt
    ensures |r.items| == |c.items| && r.items[i].text == c.items[i].text
    ensures r.items[i].done != c.items[i].done && r.items[i].timestamp == Some(now)
    ensures forall j :: 0 <= j < |c.items| && j != i ==> r.items[j] == c.items[j]
  {
    c.(items := c.items[i := Item(c.items[i].text, !c.items[i].done, Some(now))])
  }

  /** A toggle moves the checked count by exactly one, up or down. */
  lemma {:induction false} ToggleShiftsDoneCount(items: seq<Item>, i: nat, x: Item)
    requires i < |items| && x.done != items[i].done
    ensures DoneCount(items[i := x]) == if x.done then DoneCount(items) + 1 else DoneCount(items) - 1
  {
    if i > 0 {
      assert items[i := x][1..] == items[1..][i - 1 := x];
      ToggleShiftsDoneCount(items[1..], i - 1, x);
    }
  }

  /** Toggling the same entry twice restores every checked flag. */
  lemma ToggleTwiceRestores(c: Card, i: nat, t1: Stamp, t2: Stamp)
    requires i < |c.items|
    ensures var r := ToggleItem(ToggleItem(c, i, t1), i, t2);
      |r.items| == |c.items| && forall j :: 0 <= j < |c.items| ==> r.items[j].done == c.items[j].done
  {
  }

  /** The completion stamp written after a toggle: set to `now` when the card
      is at 100% and has no stamp yet, otherwise left as it was. */
  function StampIfComplete(c: Card, now: Stamp): (r: Card)
    requires |c.items| > 0
    ensures r.title == c.title && r.items == c.items && r.isPriority == c.isPriority
    ensures c.completedAt.Some? ==> r.completedAt == c.completedAt
    ensures r.completedAt.Some? <==> c.completedAt.Some? || AllDone(c.items)
    ensures r.completedAt != c.completedAt ==> r.completedAt == Some(now)
  {
    if Completion(c) == 100 && c.completedAt.None? then c.(completedAt := Some(now)) else c
  }

  /** The card after a permitted click on entry `i`: toggled, then stamped. */
  function CheckedCard(c: Card, i: nat, now: Stamp): (r: Card)
    requires i < |c.items|
    ensures WellFormed(c) ==> WellFormed(r)
    ensures c.completedAt.Some? ==> r.completedAt == c.completedAt
    ensures r.isPriority == c.isPriority && |r.items| == |c.items|
  {
    StampIfComplete(ToggleItem(c, i, now), now)
  }

  /** Where a card goes after a toggle: from column 1 to column 2 once over
      50% while column 2 has room, from column 2 to column 3 at 100%;
      otherwise it stays. */
  function MigrationTarget(column: ColumnNumber, completion: int, secondCount: nat): (t: Option<ColumnNumber>)
    ensures t.Some? ==> t.value == column + 1
    ensures t == Some(2) ==> secondCount < SecondCapacity && completion > 50
    ensures t == Some(3) ==> completion == 100
  {
    if column == 1 && completion > 50 && secondCount < SecondCapacity then Some(2)
    else if column == 2 && completion == 100 then Some(3)
    else None
  }

  /** The migration decision, case by case: a card in column 3 never moves, and
      a card that qualifies always moves. */
  lemma MigrationDecision(column: ColumnNumber, completion: int, secondCount: nat)
    ensures column == 3 ==> MigrationTarget(column, completion, secondCount) == None
    ensures column == 1 && completion > 50 && secondCount < SecondCapacity
      ==> MigrationTarget(column, completion, secondCount) == Some(2)
    ensures column == 1 && (completion <= 50 || secondCount >= SecondCapacity)
      ==> MigrationTarget(column, completion, secondCount) == None
    ensures column == 2 ==> (MigrationTarget(column, completion, secondCount) == Some(3) <==> completion == 100)
  {
  }
}
