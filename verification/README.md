# Storefront cart, discount, quiz and checkout logic in Dafny

This project models the client-side logic of a React storefront: the shopping
cart that the whole application shares, the checks the cart page runs before it
applies a discount code, the lead-generation quiz (its scored recommendation and
its step wizard), the catalogue's category filter, and the checkout page's
e-mail pattern, order number and order record.

Modules, one per source file plus three shared ones:

- `Wrappers`, `Types`: `Option` and the records of `src/types/index.ts`
  (`Product`, `CartItem`, `DiscountCode`).
- `Seqs`: `Array.prototype.filter` as a function with the facts the pages
  rely on (membership in both directions, multiplicities, order preserved).
- `Text`: `trim` and the whitespace it removes, and ASCII `toUpperCase`.
- `CartContext` (`src/context/CartContext.tsx`): every update body of the
  cart as a pure function over the item list, the derived values
  (`subtotal`, `discountAmount`, `total`, `itemCount`), and class `Cart`,
  whose `items` and `discount` fields are replaced by its methods the way
  `setItems`/`setDiscountCode` replace the React state. The invariants
  "product ids are unique" and "every quantity is in 1..10" are proved to be
  kept by every operation.
- `CartPage` (`src/pages/CartPage.tsx`): the discount lookup and checks as a
  decision function `Decide` (the first failing check, or `Accepted`), the
  early-return handler `DiscountForm.HandleApply` proved against it, and the
  quantity buttons.
- `Quiz` (`src/components/quiz/QuizModal.tsx`): the three score tables, the
  tier thresholds, `CalculateRecommendation`, the question table with its
  required fields, and class `Wizard` for `currentStep`.
- `Portfolio` (`src/pages/PortfolioPage.tsx`): the category filter and the
  empty-state rule.
- `Checkout` (`src/pages/CheckoutPage.tsx`): the e-mail regular expression
  (the quiz's e-mail step uses the same one), proved equal to a direct scan; the order number; the order record; the
  redirect on an empty cart.

Money is modelled with exact reals, so a percentage discount
`subtotal * value / 100` has no rounding. Points in time are abstract integers.
The clock, `Math.random`, and the backend's discount table are parameters.

At most one discount code is active because `Cart.discount` is an `Option`. The
page shows the code-entry form only while it is `None`
(src/pages/CartPage.tsx:225).

## Model

| member | source | states |
|---|---|---|
| `Seqs.Filter` | src/context/CartContext.tsx:74 | every element of the result is in the input and satisfies the predicate; every input element that satisfies it is in the result; the result is an order-preserving subsequence no longer than the input |
| `Seqs.FilterMultiplicity` | src/context/CartContext.tsx:74 | each value that satisfies the predicate occurs in the result exactly as often as in the input, every other value not at all |
| `Seqs.FilterKeepsAll` | src/pages/PortfolioPage.tsx:35 | filtering with a predicate every element satisfies returns the list unchanged |
| `Text.IsBlank` | src/pages/CartPage.tsx:23 | the input is blank iff `trim` leaves nothing |
| `Text.Trim` | src/pages/CartPage.tsx:23 | `trim` leaves a string that neither starts nor ends with whitespace |
| `Text.TrimIsInnerSlice` | src/pages/CartPage.tsx:23 | the result of `trim` is a contiguous slice of the input with only whitespace before and after it, so nothing but leading and trailing whitespace is removed |
| `Text.Upper` | src/pages/CartPage.tsx:30 | `toUpperCase` (also at line 234 and at src/pages/CheckoutPage.tsx:38): the same length, each character upper-cased, ASCII letters only |
| `Text.UpperIdempotent` | src/pages/CartPage.tsx:30 | upper-casing twice is upper-casing once, so the lookup key equals a field filled through line 234 |
| `CartContext.Find` | src/context/CartContext.tsx:61 | finds an entry iff some entry has the product id; the entry found is the first one with that id |
| `CartContext.SetQuantities` | src/context/CartContext.tsx:63-67 | same length; every entry with the id gets the new quantity, every other entry is unchanged |
| `CartContext.AddTo` | src/context/CartContext.tsx:59-70 | a new product is appended at the end with quantity 1 and the old entries unchanged; for a product already present the length and order stay, its entry's quantity becomes min(q+1, 10) and the others are unchanged |
| `CartContext.RemoveFrom` | src/context/CartContext.tsx:73-75 | no remaining entry has the id; every entry with another id is kept; the result is an order-preserving subsequence |
| `CartContext.UpdateIn` | src/context/CartContext.tsx:77-84 | a quantity below 1 or above 10 leaves the items unchanged; otherwise only the entries with the id change, and only their quantity |
| `CartContext.SubtotalOf` | src/context/CartContext.tsx:99 | the sum of price times quantity over the entries, folded from the left; non-negative when every price and quantity is |
| `CartContext.ItemCountOf` | src/context/CartContext.tsx:109 | the sum of the quantities; with every quantity in 1..10 it lies between the number of entries and ten times that number |
| `CartContext.DiscountAmountOf` | src/context/CartContext.tsx:101-105 | the discount is non-negative for a non-negative value and subtotal; a percentage of at most 100 never exceeds the subtotal; a fixed code gives its value |
| `CartContext.TotalOf` | src/context/CartContext.tsx:107 | the total is max(subtotal - discount, 0): non-negative, at least the difference, and equal to one of the two |
| `CartContext.AddItemPreservesValid` | src/context/CartContext.tsx:61-69 | adding keeps product ids unique and quantities in 1..10 |
| `CartContext.RemovePreservesUniqueIds` | src/context/CartContext.tsx:74 | removing keeps product ids unique |
| `CartContext.RemoveItemPreservesValid` | src/context/CartContext.tsx:74 | removing keeps product ids unique and quantities in 1..10 |
| `CartContext.UpdateQuantityPreservesValid` | src/context/CartContext.tsx:78-83 | a quantity update keeps product ids unique and quantities in 1..10 |
| `CartContext.SubtotalAppend` | src/context/CartContext.tsx:99 | the subtotal of two concatenated lists is the sum of their subtotals |
| `CartContext.ItemCountAppend` | src/context/CartContext.tsx:109 | the item count of two concatenated lists is the sum of their counts |
| `CartContext.ReplaceOne` | src/context/CartContext.tsx:99-109 | replacing one entry changes the subtotal and the item count by exactly the difference between the old and the new entry |
| `CartContext.AddNewItemTotals` | src/context/CartContext.tsx:69 | adding a product not yet in the cart raises the item count by 1 and the subtotal by its price |
| `CartContext.AddExistingIsPointUpdate` | src/context/CartContext.tsx:61-68 | with unique ids, adding a product already at index k replaces exactly entry k |
| `CartContext.UpdateExistingIsPointUpdate` | src/context/CartContext.tsx:78-83 | with unique ids, a valid update of the product at index k replaces exactly entry k |
| `CartContext.AddExistingItemTotals` | src/context/CartContext.tsx:61-68 | adding a product already present raises the item count by 1 and the subtotal by its price, unless its quantity is already 10, when both stay |
| `CartContext.TotalProperties` | src/context/CartContext.tsx:99-107 | the total is never negative, equals the subtotal when no code is applied, and is at most the subtotal when the discount value is non-negative |
| `CartContext.Cart.constructor` | src/context/CartContext.tsx:25-26 | a new cart has no items and no code |
| `CartContext.Cart.Subtotal` | src/context/CartContext.tsx:99 | the subtotal of a valid cart with non-negative prices is non-negative |
| `CartContext.Cart.ItemCount` | src/context/CartContext.tsx:109 | in a valid cart the item count lies between the number of rows and ten times that number |
| `CartContext.Cart.DiscountAmount` | src/context/CartContext.tsx:101-105 | the discount is 0 when no code is applied |
| `CartContext.Cart.Total` | src/context/CartContext.tsx:107 | the total is non-negative and, with no code, equals a non-negative subtotal |
| `CartContext.Cart.AddItem` | src/context/CartContext.tsx:59-71 | the new items are `AddTo` of the old ones; the discount is unchanged; the cart invariant is kept |
| `CartContext.Cart.RemoveItem` | src/context/CartContext.tsx:73-75 | the new items are `RemoveFrom` of the old ones; the discount is unchanged; the invariant is kept |
| `CartContext.Cart.UpdateQuantity` | src/context/CartContext.tsx:77-84 | an out-of-range quantity returns early with nothing changed; otherwise the items become `UpdateIn` of the old ones; the discount is unchanged; the invariant is kept |
| `CartContext.Cart.ApplyDiscount` | src/context/CartContext.tsx:86-88 | the code becomes the applied one and the items are untouched |
| `CartContext.Cart.RemoveDiscount` | src/context/CartContext.tsx:90-92 | no code is applied afterwards and the items are untouched |
| `CartContext.Cart.ClearCart` | src/context/CartContext.tsx:94-97 | the items are empty and no code is applied |
| `CartPage.MatchingRows` | src/pages/CartPage.tsx:27-31 | the query returns the active rows whose code equals the key, each as often as in the table and in table order, and nothing else |
| `CartPage.LookUp` | src/pages/CartPage.tsx:27-37 | a failed request is an error; a returned row is an active row of the table with that code; no matching active row gives no data |
| `CartPage.UniqueRowIsFound` | src/pages/CartPage.tsx:27-32 | with exactly one active row of that name, `maybeSingle` returns that row |
| `CartPage.SeveralRowsFail` | src/pages/CartPage.tsx:27-32 | with two or more active rows of that name, `maybeSingle` reports an error |
| `CartPage.IsExpired` | src/pages/CartPage.tsx:41 | a code without an expiry never counts as expired; an expired code's date is strictly before now, so one expiring exactly now still passes |
| `CartPage.IsUsedUp` | src/pages/CartPage.tsx:46 | a code with no limit or a limit of 0 is never used up; with a positive limit it is used up iff the use count has reached the limit |
| `CartPage.IsBelowMinimum` | src/pages/CartPage.tsx:51 | a subtotal equal to the minimum passes; a code without a positive minimum never fails this check for a non-negative subtotal |
| `CartPage.CheckCode` | src/pages/CartPage.tsx:41-54 | expired is reported first; the usage limit only for an unexpired code; the minimum only when both earlier checks pass; the code is accepted iff all three pass |
| `CartPage.Decide` | src/pages/CartPage.tsx:22-63 | blank input (and only blank input) does nothing; no unique active row with the upper-cased name is rejected as invalid; otherwise the verdict is the first failing check; an accepted code is an active row of the table, named by the upper-cased input, unexpired, under its limit, and its minimum is at most the subtotal |
| `CartPage.UniqueRowDecides` | src/pages/CartPage.tsx:22-63 | for non-blank input with exactly one active row of the upper-cased name, the verdict is that row's checks, and the code is accepted iff it passes all three |
| `CartPage.AcceptedCodeIsUnique` | src/pages/CartPage.tsx:27-37 | an accepted code is the only active row with the upper-cased name |
| `CartPage.DuplicateRowsAreInvalid` | src/pages/CartPage.tsx:32-37 | two active rows with the same name make `maybeSingle` fail, and the code is rejected as invalid |
| `CartPage.CheckBoundaries` | src/pages/CartPage.tsx:41-51 | a code that expires exactly now and a subtotal equal to the minimum are both accepted |
| `CartPage.ZeroLimitIsNoLimit` | src/pages/CartPage.tsx:46 | a `max_uses` of 0 behaves as no limit |
| `CartPage.DiscountForm.constructor` | src/pages/CartPage.tsx:14-15 | the field starts empty and not validating |
| `CartPage.DiscountForm.Type` | src/pages/CartPage.tsx:234 | the field holds the upper-cased text, which upper-casing again leaves unchanged |
| `CartPage.DiscountForm.HandleApply` | src/pages/CartPage.tsx:22-69 | the verdict is `Decide` of the input, table, time and subtotal; only an accepted code is applied and clears the field; any other verdict leaves the cart's code and the field unchanged; the items never change; every run past the blank check ends with `validating` false |
| `CartPage.DecrementEnabled` | src/pages/CartPage.tsx:146 | the minus button is enabled exactly when one less passes the lower guard of `updateQuantity` |
| `CartPage.IncrementEnabled` | src/pages/CartPage.tsx:154 | the plus button is enabled exactly when one more passes the upper guard of `updateQuantity` |
| `CartPage.PressDecrement` | src/pages/CartPage.tsx:144-150 | a click changes only the entries with the row's product id; the row's quantity drops by one when it is in 2..11 and otherwise stays |
| `CartPage.PressIncrement` | src/pages/CartPage.tsx:152-158 | a click changes only the entries with the row's product id; the row's quantity rises by one when it is in 0..9 and otherwise stays |
| `CartPage.DecrementStaysInRange` | src/pages/CartPage.tsx:144-150 | on a valid cart an enabled minus button requests a quantity in 1..10; a click lowers exactly that row by one (a disabled button does nothing) and keeps the cart valid |
| `CartPage.IncrementStaysInRange` | src/pages/CartPage.tsx:152-158 | on a valid cart an enabled plus button requests a quantity in 1..10; a click raises exactly that row by one (a disabled button does nothing) and keeps the cart valid |
| `Quiz.ScoreOr` | src/components/quiz/QuizModal.tsx:99-117 | `table[key] \|\| fallback`: the table's score when the key is present with a non-zero score, the fallback otherwise |
| `Quiz.BudgetScore` | src/components/quiz/QuizModal.tsx:91-99 | the budget score is in 1..5; unknown values score 1; exactly '$10k+' and 'Custom' score 5 |
| `Quiz.SizeScore` | src/components/quiz/QuizModal.tsx:102-108 | the size score is in 1..4; unknown values score 1; exactly '51+' scores 4 |
| `Quiz.TimelineScore` | src/components/quiz/QuizModal.tsx:111-117 | the timeline score is in 0..3; unknown values score 0; exactly the urgent option scores 3 |
| `Quiz.TierFor` | src/components/quiz/QuizModal.tsx:120-135 | the package rank is 0 up to a score of 3, 4 from a score of 10, and (score - 2) / 2 between, so each middle package covers two consecutive scores |
| `Quiz.TierMonotone` | src/components/quiz/QuizModal.tsx:120-135 | a higher score never gives a smaller package |
| `Quiz.SlugsDistinct` | src/components/quiz/QuizModal.tsx:120-135 | the five recommendation slugs are distinct |
| `Quiz.CalculateRecommendation` | src/components/quiz/QuizModal.tsx:81-138 | the score is the sum of the three table scores and lies in 2..12; the recommendation is the slug of the tier for that score |
| `Quiz.RecommendationExtremes` | src/components/quiz/QuizModal.tsx:86-137 | the lowest answers give ai-creative-starter with score 2; the highest give enterprise-amplification with score 12 |
| `Quiz.QuestionTable` | src/components/quiz/QuizModal.tsx:29-78 | there are 8 questions and 9 steps; every question but the eighth (additional_notes) is required |
| `Quiz.IsRequired` | src/components/quiz/QuizModal.tsx:327-341 | radio questions are always required; a question that is not required is the additional_notes textarea (line 341) |
| `Quiz.NextEnabledAsWritten` | src/components/quiz/QuizModal.tsx:403 | the written rule is stricter than the intended one, and agrees with it on every required question |
| `Quiz.NextEnabled` | src/components/quiz/QuizModal.tsx:341 | the intended rule never blocks an optional question |
| `Quiz.EmptyNotesBlockNext` | src/components/quiz/QuizModal.tsx:399-408 | with the button rule as written, empty notes disable Next on the last question although that question is optional |
| `Quiz.RequiredAnswersEnableNext` | src/components/quiz/QuizModal.tsx:341 | with the intended rule, answering the required questions enables Next on every question |
| `Quiz.NextRuleDiffersOnlyOnNotes` | src/components/quiz/QuizModal.tsx:399-408 | the intended rule agrees with the written one on every question except the optional one |
| `Quiz.Wizard.constructor` | src/components/quiz/QuizModal.tsx:141 | the wizard starts at step 0 |
| `Quiz.Wizard.OnEmailStep` | src/components/quiz/QuizModal.tsx:305 | in a valid wizard the e-mail step is exactly the last of the 9 steps |
| `Quiz.Wizard.NextStep` | src/components/quiz/QuizModal.tsx:249-258 | the step goes up by one only while it is below 8, so it stays in 0..8 |
| `Quiz.Wizard.PrevStep` | src/components/quiz/QuizModal.tsx:260-264 | the step goes down by one only while it is above 0, so it stays in 0..8 |
| `Quiz.Wizard.ClickNext` | src/components/quiz/QuizModal.tsx:399-408 | a click on Next advances exactly when a question is showing and its answer is non-empty, the rule as written |
| `Quiz.Wizard.ClickNextIntended` | src/components/quiz/QuizModal.tsx:341 | under the intended rule a click advances exactly when a question is showing and it is optional or answered |
| `Portfolio.FilterProducts` | src/pages/PortfolioPage.tsx:34-36 | for a category other than 'All' every shown product has it; every fetched product the filter accepts is shown; the result is an order-preserving subsequence of the fetched list |
| `Portfolio.Shows` | src/pages/PortfolioPage.tsx:35 | 'All' shows every product; any other category shows exactly the products in it |
| `Portfolio.AllShowsEverything` | src/pages/PortfolioPage.tsx:35 | with 'All' the result is exactly the fetched list |
| `Portfolio.FilteredProducts` | src/pages/PortfolioPage.tsx:34-36 | there is a filtered list iff the products are loaded, and then it is the filter of them |
| `Portfolio.EmptyStateIffNoneInCategory` | src/pages/PortfolioPage.tsx:103-108 | the empty-state message shows iff the products are loaded and none of them is in the selected category |
| `Checkout.IsValidEmail` | src/pages/CheckoutPage.tsx:116 | the scan accepts exactly the strings the pattern matches: a non-empty local part of letters, digits and `._%+-`, '@', a non-empty domain of letters, digits, '.' and '-', then '.' and at least two letters that end the string |
| `Checkout.AcceptedHasOneAt` | src/pages/CheckoutPage.tsx:116 | an accepted address is non-empty and holds exactly one '@' |
| `Checkout.CaseInsensitive` | src/pages/CheckoutPage.tsx:116 | an address is accepted iff its upper-cased form is |
| `Checkout.Slice` | src/pages/CheckoutPage.tsx:38 | `slice`/`substring` give at most end-start characters, and exactly that range when it is inside the string |
| `Checkout.RemoveDashes` | src/pages/CheckoutPage.tsx:38 | the result has no '-', and every other character of the input stays, in order and as often as it occurs |
| `Checkout.OrderNumber` | src/pages/CheckoutPage.tsx:38 | every order number starts with "AMP-" |
| `Checkout.DateDigits` | src/pages/CheckoutPage.tsx:38 | removing the dashes from `YYYY-MM-DD` leaves the eight digits `YYYYMMDD` |
| `Checkout.OrderNumberShape` | src/pages/CheckoutPage.tsx:38 | for an ISO timestamp the order number is "AMP-", the 8 date digits, '-', and at most four random characters with no lower-case letter (13 to 17 characters) |
| `Checkout.BuildOrder` | src/pages/CheckoutPage.tsx:43-52 | the record copies the cart's items, subtotal, discount amount and total (never negative), sets tax 0 and status 'pending', and stores the code's name only when a code with a non-empty name is applied |
| `Checkout.ViewFor` | src/pages/CheckoutPage.tsx:26-32 | an empty cart (and only an empty one) is sent to /cart and renders nothing (lines 80-82); any other cart shows the form |

## Findings

| source | as written | input that shows it | evidently intended | confidence | as-written member | corrected member |
|---|---|---|---|---|---|---|
| src/components/quiz/QuizModal.tsx:403 | Next is disabled whenever the watched answer is empty, including on the eighth question, additional_notes, which line 341 declares optional | every required answer given and `additional_notes` left empty: Next stays disabled on step 7 and the e-mail step cannot be reached | Next is disabled only while a required answer is missing | medium, not executed | `Quiz.EmptyNotesBlockNext` | `Quiz.RequiredAnswersEnableNext` |

The wizard's `ClickNext` follows the rule as written (`Quiz.NextEnabledAsWritten`).
`ClickNextIntended` uses the corrected rule (`Quiz.NextEnabled`).

## Left out

- Persistence of the cart and the code in `localStorage`, with its JSON parsing (src/context/CartContext.tsx:28-57). This is browser I/O. A cart restored from storage need not satisfy the invariant, so the `Cart` methods promise to keep the invariant rather than require it.
- Backend calls are left out: the discount-code query, order insert, quiz upsert/insert and product fetch. The discount table and the fetched products are inputs. The `catch` branch of the apply handler ("Failed to validate discount code", src/pages/CartPage.tsx:64-65) is not modelled, because the client library reports request failures as an error value, and that value is modelled.
- Toasts, analytics events, navigation and animation are left out. One detail: the success toast shows the discount amount from before the code is applied (src/pages/CartPage.tsx:57).
- The minimum purchase is checked only when a code is applied. The model, like the source, does not re-check it when items are later removed.
- `Cart.UpdateQuantity` takes an integer quantity. The source's guard would also accept fractional numbers, but the buttons only ever send integers.
- JavaScript numbers are floating point. The model uses exact reals, so rounding in the subtotal and discount is not captured.
- `expires_at` is an abstract integer time. An empty or unparseable date is modelled as no expiry, because the source's check is false in both cases.
- `CartPage.DiscountForm.Type`: the field is upper-cased on ASCII letters only. JavaScript's `toUpperCase` also maps other letters ('é' to 'É', and 'ß' to "SS", which changes the length), so for such input the field differs from the source's.
- `CartPage.Decide`: the lookup key is the input upper-cased on ASCII letters only. For non-ASCII letters it differs from the source's `toUpperCase()` key (line 30), so the model can look up a different code name than the page does.
- `Text.Upper`: only ASCII letters are upper-cased; the full Unicode case mapping of `toUpperCase` is not modelled.
- `Checkout.CaseInsensitive`: upper-casing is modelled on ASCII letters only. JavaScript's `toUpperCase` also maps some non-ASCII letters to ASCII ones (dotless 'ı' becomes 'I'), and for those the equivalence does not hold.
- The browser's own `type="email"` validation and the other checkout fields (names, company, phone) are not part of this model. The async submit handler is not part of it either. Only the order number, the record it inserts and the empty-cart redirect are modelled.
- The long marketing text stored with each recommendation is left out. It is a fixed string per tier, and the model keeps the tier's slug.
- The quiz's progress bar percentage is display-only floating point. The quiz submission and its subscriber upsert are backend calls.
- The score tables are JavaScript objects, so a key inherited from `Object.prototype` (such as "constructor") would not score as an unknown value. The radio buttons never produce such keys, and the model treats every non-table value as unknown.
- Analytics (`src/lib/analytics.ts`) and the purely presentational components and pages are not part of this model. This includes the product card, whose only logic is a call to `addItem`.
- The results page reads the table `quiz_responses`, while the quiz writes `quiz_results`. Both tables sit behind backend calls and are outside this model.
