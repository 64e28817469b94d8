/** The Column component and the board-wide rules that read the three
    columns: the priority-first order, the edit lock, the stored lock flag's
    rule and the relocation of one card. */
module Columns {
  import opened Cards

  /** Column 1 holds at most this many cards. */
  const FirstCapacity := 3

  /** The three card sequences of the board, in display order. */
  datatype Layout = Layout(first: seq<Card>, second: seq<Card>, third: seq<Card>) {

    function Column(n: ColumnNumber): seq<Card> {
      if n == 1 then first else if n == 2 then second else third
    }

    /** The layout with column `n` replaced by `s`. */
    function WithColumn(n: ColumnNumber, s: seq<Card>): (r: Layout)
      ensures r.Column(n) == s
      ensures forall m: ColumnNumber :: m != n ==> r.Column(m) == Column(m)
    {
      if n == 1 then this.(first := s) else if n == 2 then this.(second := s) else this.(third := s)
    }

    /** Every card on the board, column by column. */
    function AllCards(): seq<Card> {
      first + second + third
    }
  }

  /** What every reachable board satisfies: the capacities of columns 1 and 2
      and well-formed cards. */
  predicate LayoutOk(l: Layout) {
    |l.first| <= FirstCapacity && |l.second| <= SecondCapacity
    && forall c :: c in l.AllCards() ==> WellFormed(c)
  }

  /** Some card of `cards` is over 50% (a card without entries never is). */
  predicate HasProgressingCard(cards: seq<Card>) {
    exists i :: 0 <= i < |cards| && |cards[i].items| > 0 && Completion(cards[i]) > 50
  }

  predicate HasPriorityCard(cards: seq<Card>) {
    exists i :: 0 <= i < |cards| && cards[i].isPriority
  }

  /** The rule behind the stored `blockFirstColumn` flag: column 2 is full and
      some card of column 1 is over 50%. */
  predicate FirstColumnBlocked(l: Layout) {
    |l.second| >= SecondCapacity && HasProgressingCard(l.first)
  }

  /** On a well-formed board, column 1 is blocked exactly when column 2 is full
      and some column-1 card has more than half of its entries checked. */
  lemma FirstColumnBlockedByHalf(l: Layout)
    requires LayoutOk(l)
    ensures FirstColumnBlocked(l) <==>
      |l.second| == SecondCapacity && exists i :: 0 <= i < |l.first| && 2 * DoneCount(l.first[i].items) > |l.first[i].items|
  {
    forall i | 0 <= i < |l.first|
      ensures WellFormed(l.first[i]) && Completion(l.first[i]) > 50 <==> 2 * DoneCount(l.first[i].items) > |l.first[i].items|
    {
      assert l.first[i] in l.AllCards();
      OverHalf(l.first[i]);
    }
  }

  /** Whether the cards of column `n` may be edited: not in column 1 while it is
      blocked, and in no column while a priority card sits in column 1 or 2. */
  function CanEditCards(n: ColumnNumber, l: Layout): (r: bool)
    ensures HasPriorityCard(l.first) || HasPriorityCard(l.second) ==> !r
    ensures n == 1 && FirstColumnBlocked(l) ==> !r
    ensures !r ==> HasPriorityCard(l.first) || HasPriorityCard(l.second) || (n == 1 && FirstColumnBlocked(l))
  {
    if n == 1 && |l.second| >= SecondCapacity && HasProgressingCard(l.first) then false
    else !(HasPriorityCard(l.first) || HasPriorityCard(l.second))
  }

  /** The priority cards of `s`, in their order. */
  function Priorities(s: seq<Card>): (r: seq<Card>)
    ensures |r| <= |s|
    ensures forall c :: c in r ==> c in s && c.isPriority
  {
    if s == [] then [] else (if s[0].isPriority then [s[0]] else []) + Priorities(s[1..])
  }

  /** The other cards of `s`, in their order. */
  function Others(s: seq<Card>): (r: seq<Card>)
    ensures |r| <= |s|
    ensures forall c :: c in r ==> c in s && !c.isPriority
  {
    if s == [] then [] else (if s[0].isPriority then [] else [s[0]]) + Others(s[1..])
  }

  /** Every priority card comes before every other card. */
  predicate PriorityOrdered(s: seq<Card>) {
    forall i, j :: 0 <= i < j < |s| && s[j].isPriority ==> s[i].isPriority
  }

  /** The order `sortedCards` gives a column: a stable sort by the comparator
      that ranks priority cards first and ties everything else. */
  function PriorityFirst(s: seq<Card>): (r: seq<Card>)
    ensures |r| == |s|
    ensures PriorityOrdered(r)
  {
    PartitionSize(s);
    Priorities(s) + Others(s)
  }

  lemma {:induction false} PartitionSize(s: seq<Card>)
    ensures |Priorities(s)| + |Others(s)| == |s|
  {
    if s != [] {
      PartitionSize(s[1..]);
    }
  }

  /** Sorting only reorders: the multiset of cards is unchanged. */
  lemma {:induction false} PriorityFirstPermutes(s: seq<Card>)
    ensures multiset(PriorityFirst(s)) == multiset(s)
  {
    if s != [] {
      PriorityFirstPermutes(s[1..]);
      assert s == [s[0]] + s[1..];
    }
  }

  /** A column already in priority-first order is left as it is, so sorting
      twice is sorting once. */
  lemma {:induction false} PriorityFirstKeepsOrdered(s: seq<Card>)
    requires PriorityOrdered(s)
    ensures PriorityFirst(s) == s
  {
    if s != [] {
      assert PriorityOrdered(s[1..]) by {
        forall i, j | 0 <= i < j < |s[1..]| && s[1..][j].isPriority ensures s[1..][i].isPriority {
          assert s[1..][i] == s[i + 1] && s[1..][j] == s[j + 1];
        }
      }
      PriorityFirstKeepsOrdered(s[1..]);
      if !s[0].isPriority {
        assert forall j :: 0 <= j < |s| ==> !s[j].isPriority;
        NoPriorities(s[1..]);
      }
    }
  }

  lemma {:induction false} NoPriorities(s: seq<Card>)
    requires forall j :: 0 <= j < |s| ==> !s[j].isPriority
    ensures Priorities(s) == []
  {
    if s != [] {
      NoPriorities(s[1..]);
    }
  }

  lemma SortTwice(s: seq<Card>)
    ensures PriorityFirst(PriorityFirst(s)) == PriorityFirst(s)
  {
    PriorityFirstKeepsOrdered(PriorityFirst(s));
  }

  /** `s` without its element at `i` (`splice(i, 1)`). */
  function RemoveAt(s: seq<Card>, i: nat): (r: seq<Card>)
    requires i < |s|
    ensures |r| == |s| - 1
    ensures forall j :: 0 <= j < i ==> r[j] == s[j]
    ensures forall j :: i <= j < |r| ==> r[j] == s[j + 1]
    ensures multiset(r) + multiset{s[i]} == multiset(s)
  {
    assert s == s[..i] + [s[i]] + s[i + 1..];
    s[..i] + s[i + 1..]
  }

  /** A successful `moveCard`: the card at `index` of column `from` leaves it and
      is appended to column `to`; the remaining column is untouched and no
      card is lost or duplicated. */
  function Move(l: Layout, from: ColumnNumber, index: nat, to: ColumnNumber): (r: Layout)
    requires from != to && index < |l.Column(from)|
    ensures r.Column(from) == RemoveAt(l.Column(from), index)
    ensures r.Column(to) == l.Column(to) + [l.Column(from)[index]]
    ensures forall m: ColumnNumber :: m != from && m != to ==> r.Column(m) == l.Column(m)
    ensures multiset(r.AllCards()) == multiset(l.AllCards())
  {
    var card := l.Column(from)[index];
    var removed := l.WithColumn(from, RemoveAt(l.Column(from), index));
    var r := removed.WithColumn(to, removed.Column(to) + [card]);
    MultisetOfColumns(l);
    MultisetOfColumns(removed);
    MultisetOfColumns(r);
    r
  }

  lemma MultisetOfColumns(l: Layout)
    ensures multiset(l.AllCards()) == multiset(l.Column(1)) + multiset(l.Column(2)) + multiset(l.Column(3))
  {
  }
}
