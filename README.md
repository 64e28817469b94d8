# Three-column checklist board — a Dafny model

The page keeps notes as cards in three columns. A card has a title, three to
five checklist entries, a priority flag and a completion stamp. Checking
entries raises the card's completion percentage. A card in column 1 moves to
column 2 once it is over 50%, as long as column 2 holds fewer than five cards.
A card in column 2 moves to column 3 at 100%. New cards enter column 1, which
holds at most three cards. A stored lock flag blocks new cards while column 2
is full and some column-1 card is over 50%. Editing is refused in every column
while a priority card sits in column 1 or 2. Priority cards are shown first
and may always be edited.

The model has five modules:

- `Text` (`text.dfy`) models the JavaScript `trim` the form uses to reject blank texts.
- `Cards` (`cards.dfy`) models the Card component. It covers the completion percentage, the toggle
  of one entry, the one-time completion stamp and the migration decision.
- `Columns` (`columns.dfy`) models the Column component and the board-wide rules: the
  priority-first order, the edit lock, the rule behind the stored lock flag,
  and the relocation of one card.
- `App` (`board.dfy`) models the root instance as the class `Board`. It holds the three columns (a
  `Layout` value), the stored `blockFirstColumn` flag and the draft of the
  new-card form. Its methods change them in place, as the page does.
- `Scenarios` (`scenarios.dfy`) holds lemmas that state the rules' outcome on small concrete boards.

`Board.Valid()` holds on every board the operations reach. It says that:

- column 1 holds at most 3 cards and column 2 at most 5;
- every card has 3 to 5 entries;
- a card with every entry checked carries its completion stamp;
- the draft has 3 to 5 entries.

`blockFirstColumn` is a stored field. Only `MoveCard` recomputes it, as on the page.
`AddNewCard` reads it and may therefore see a stale value.

Four behaviours of the code worth noting:

- Two of three entries checked gives 66%, not 67%. The code floors the percentage.
- The lock flag is not recomputed after every change. Only a successful move updates it.
- `canEditCards` applies both lock rules. Column 1 is locked while column 2 is full and
  some column-1 card is over 50%. Every column is locked while a priority card
  sits in column 1 or 2.
- `addNewCard` checks the lock first, then blank texts, then the capacity of column 1. It
  resets the form after a capacity refusal as well as after a success.

## Model

| member | source | states |
|---|---|---|
| `Text.TrimStart` | js/main.js:189 | the result is the suffix of the input after its leading white space, and it starts with a non-white-space character unless it is empty |
| `Text.TrimEnd` | js/main.js:189 | the result is the prefix of the input before its trailing white space, and it ends with a non-white-space character unless it is empty |
| `Text.Trim` | js/main.js:189 | a non-empty result starts and ends with a non-white-space character |
| `Text.TrimRemovesBlankEnds` | js/main.js:189 | trim's result is the stretch of the input that starts where the leading white space ends: every character before it and every character after it is white space |
| `Text.TrimEmptyIffBlank` | js/main.js:189 | trim yields the empty string exactly when the text is all white space |
| `Cards.DoneCount` | js/main.js:16 | the number of checked entries never exceeds the number of entries |
| `Cards.DoneCountAll` | js/main.js:16 | the count equals the length exactly when every entry is checked, and it is 0 exactly when none is checked |
| `Cards.PercentBounds` | js/main.js:17 | for 0 <= done <= n with n > 0, floor(100*done/n) lies in [0,100] and is 100 only when done == n |
| `Cards.Completion` | js/main.js:15-18 | the percentage lies in [0,100] and is 100 exactly when every entry is checked |
| `Cards.OverHalf` | js/main.js:30-31 | with 3 to 5 entries a card is over 50% exactly when more than half of its entries are checked |
| `Cards.CardClass` | js/main.js:19-21 | the priority style is given exactly to priority cards |
| `Cards.ToggleItem` | js/main.js:27-28 | a click flips only the clicked entry, stamps it with the click time and leaves title, priority, stamp and the other entries as they were |
| `Cards.ToggleShiftsDoneCount` | js/main.js:30 | a toggle raises or lowers the checked count by exactly one |
| `Cards.ToggleTwiceRestores` | js/main.js:51 | toggling the same entry twice restores every checked flag |
| `Cards.StampIfComplete` | js/main.js:33-36 | a set stamp is never overwritten; after the step the card is stamped exactly when it was stamped before or is at 100%; a new stamp is the click time |
| `Cards.CheckedCard` | js/main.js:27-36 | a permitted click keeps a card well-formed and keeps an existing stamp |
| `Cards.MigrationTarget` | js/main.js:39-43 | a card only ever moves to the next column; it enters column 2 only while column 2 has room and the card is over 50%; it enters column 3 only at 100% |
| `Cards.MigrationDecision` | js/main.js:39-43 | column 3 is terminal; a column-1 card over 50% moves exactly when column 2 has room; a column-2 card moves exactly at 100% |
| `Columns.FirstColumnBlockedByHalf` | js/main.js:160-167 | the lock rule (`FirstColumnBlocked`, using `HasProgressingCard` for the `some` at lines 162-165) holds on a well-formed board exactly when column 2 has 5 cards and some column-1 card has more than half its entries checked |
| `Columns.CanEditCards` | js/main.js:86-102 | with `HasProgressingCard` for the `some` at lines 89-92 and `HasPriorityCard` for lines 98-99: editing is refused in every column while a priority card is in column 1 or 2, and in column 1 while the lock rule holds; in no other case |
| `Columns.PriorityFirst` | js/main.js:79-85 | sorting keeps the length and puts every priority card before every other card |
| `Columns.PriorityFirstPermutes` | js/main.js:80 | sorting keeps the multiset of cards |
| `Columns.PriorityFirstKeepsOrdered` | js/main.js:80-84 | a column already in priority-first order is unchanged by the sort |
| `Columns.SortTwice` | js/main.js:79-85 | sorting twice gives the same order as sorting once |
| `Columns.RemoveAt` | js/main.js:155 | removing one card shifts the later cards down by one and removes exactly that card from the multiset |
| `Columns.Move` | js/main.js:155-156 | the moved card leaves its column and is appended to the end of the target; the remaining column is untouched; the multiset of all cards is unchanged |
| `App.DraftFilledIffNotBlank` | js/main.js:189 | the form's acceptance test (`DraftFilled`, the condition at line 189) holds, i.e. the form is accepted, exactly when neither the title nor any entry is all white space |
| `App.NewCard` | js/main.js:190-194 | the new card keeps the form's title, texts and priority, has every entry unchecked and unstamped, and is well-formed |
| `App.NewCardStartsAtZero` | js/main.js:192 | a new card is at 0% |
| `App.MoveKeepsOk` | js/main.js:150-156 | a permitted move keeps the capacities and the card invariants |
| `App.CheckItemEffect` | js/main.js:24-44 | a permitted click keeps the number of cards on the board |
| `App.CheckItemKeepsOk` | js/main.js:24-44 | a permitted click keeps the capacities of columns 1 and 2, 3 to 5 entries per card and a stamp on every complete card |
| `App.CheckItemForwardOnly` | js/main.js:39-43 | a click changes only the clicked card. When `MigrationTarget` gives no target the card stays in place and nothing else changes; when it gives one, the card leaves its column for the end of that next column and the remaining column is untouched |
| `App.AddDecision` | js/main.js:185-206 | a submission is refused for the lock exactly when the lock is set. It is refused as blank exactly when unlocked with a blank text, and as full exactly when column 1 already holds 3 cards. Otherwise the card is added |
| `App.Board.constructor` | js/main.js:127-141 | the board starts with the stored columns, the lock off and an empty three-entry draft |
| `App.Board.UpdateCard` | js/main.js:144-147 | exactly the addressed card gets the given completion stamp |
| `App.Board.CheckBlockFirstColumn` | js/main.js:160-168 | the flag becomes the lock rule; the columns do not change |
| `App.Board.MoveCard` | js/main.js:148-159 | a move into a full column 2 is refused and changes nothing. Otherwise the columns become `Move` of the old ones, the flag is recomputed and the invariants hold |
| `App.Board.SortColumn` | js/main.js:79-85 | the column is replaced by its priority-first order, which is a permutation of it; nothing else changes |
| `App.Board.AddItem` | js/main.js:174-178 | an empty entry is appended while the draft has fewer than 5; the draft stays within 3 to 5 |
| `App.Board.RemoveItem` | js/main.js:179-183 | the entry is removed while the draft has more than 3; an index past the end removes nothing; the draft stays within 3 to 5 |
| `App.Board.PushFirst` | js/main.js:195-197 | column 1 gains exactly the new card and ends in priority-first order; the other columns do not change |
| `App.Board.AddNewCard` | js/main.js:184-207 | the outcome is `AddDecision`. On a refusal the columns do not change. On success column 1 gains exactly the new card and ends priority-first. The form is reset after a success or a full column 1. The invariants, including at most 3 cards in column 1, hold |
| `App.Board.ToggleAndStamp` | js/main.js:27-36 | the clicked card becomes `CheckedCard` of itself in place; the returned percentage is its completion |
| `App.Board.CheckItem` | js/main.js:24-44 | a click is refused, with no change, exactly when the column is not editable and the card is not priority. Otherwise the board becomes `CheckItemEffect`, the migration target is reported, the lock flag is recomputed only when the card moved, and the invariants hold |
| `Scenarios.OneOfThreeStays` | js/main.js:30-43 | one checked entry of three leaves a new card at 33% in column 1 |
| `Scenarios.TwoOfThreeMigrates` | js/main.js:39-40 | two checked entries of three put the card at 66% and move it to column 2 |
| `Scenarios.FullSecondColumnHolds` | js/main.js:39 | with 5 cards in column 2 the same card stays in column 1 |
| `Scenarios.LastEntryFinishes` | js/main.js:33-42 | checking the last open entry of a column-2 card stamps it with the click time and moves it to column 3 |

## Left out

- Persistence is not modelled: `saveData` and reading the columns back from `localStorage` through JSON
  (js/main.js:136-138, 169-173). The constructor takes the stored columns as a parameter and requires them
  to satisfy the board invariant.
- The time of a click (`new Date().toLocaleString()`) is the parameter `now`. Both readings in one
  click get the same value.
- The percentage is computed with integer division. For 3 to 5 entries this gives the same floors as the
  floating-point expression.
- A card without entries is not modelled. In JavaScript its percentage would be NaN, and no operation
  creates such a card. `Completion` requires at least one entry.
- Vue rendering, the templates, `Vue.set`, the alerts and `console.log` are not modelled. The refusals
  are result values (`MoveOutcome`, `AddOutcome`, `CheckOutcome`).
- The text bindings of the form (js/main.js:217, 222) are not modelled. The draft changes only
  through `AddItem`, `RemoveItem` and `AddNewCard`. The form has no control for the priority flag. The
  model still allows a draft with either value.
- The page runs `sortedCards` whenever it renders a column. The model offers this as
  `App.Board.SortColumn`, to be called by whoever renders.
- The checkbox binding flips an entry before `checkItem` runs, and the checkbox is disabled when the
  click would be refused. `CheckItem` therefore changes nothing on a refused click.
- The locals `isPriorityCardInFirstColumn` and `isPriorityCardInSecondColumn` (js/main.js:96-97) are
  never read. The prop `isPriorityCardInFirstColumn` (js/main.js:75, 240) is never used either.
  Neither is modelled.
- App.Board.MoveCard: requires the card index to lie inside the source column and the target to come
  after the source. Its only callers pass the clicked card's index and the next column. An index past
  the end, which would push `undefined`, is not modelled.
- App.Board.AddNewCard: states only that column 1 ends in priority-first order and holds the old cards
  plus the new one. It does not state the order inside each group. The comparator at js/main.js:197
  is not consistent, so the engine decides that order.
