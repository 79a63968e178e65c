# StudentGear storefront core in Dafny

StudentGear is a demo marketplace for engineering students. Its browser half
keeps a catalogue of products grouped by branch code (CSE, ECE, MECH, ...).
It builds `PRODUCT_LOOKUP` from every lower-cased product name and alias. It
ranks products for a search query with a fixed bonus table, a fuzzy
`levenshtein` match and three multiplicative boosts. It answers chat
messages by the first lookup key a message mentions, and it shows a branch
view with sorting, category buttons and pages. It also holds three
different carts and a filter panel. Its backend keeps one cart per demo
token.

This project models that core and proves what each piece promises:

- **Library modules**:
  - `Text`: JavaScript's `trim`, `split(/\s+/)`, `includes`, `\b`, ASCII
    case mapping and digit runs.
  - `Utf8`: UTF-8 bytes as section 3 of RFC 3629 lays them out, with a hex
    writing.
  - `Sorting`: ECMAScript's stable sort.
  - `Common`: cart lines and the `quantity || 1` rule.
- **Search**:
  - `Catalog`: the lookup, an object with its key order.
  - `Levenshtein`: the distance matrix filled in place in an `array2`.
  - `Ranking` and `Search`: `findProducts`.
- **Pages**:
  - `Chatbot`: the chat replies.
  - `Affiliates`: `affiliateManager`.
  - `Purchase`: `buyProduct`.
  - `PriceFormat`: prices written with `en-IN` grouping.
  - `Storefront`: the shared catalogue state, `loadCustomProducts` and the
    default metadata written when a branch opens.
  - `BranchView`: the branch modal as a class.
  - `SearchPage`: suggestions and the `performSearch` dispatch.
  - `Login`: the login e-mail check.
- **Carts, filters and server**:
  - `ManagedCart.CartManager`: the merging cart of the cart preview.
  - `ListCart.CartManager`: the plain list cart.
  - `PageCart.CartPage`: the page cart and wishlist.
  - `Filters.FilterPanel`: the filter panel.
  - `Backend.CartServer`: the server's carts.

Products are referred to by their position in the flattened catalogue. The
position stands for JavaScript object identity: one product reached by
several keys is one candidate, and metadata written into a shared product
object is seen by later searches. `bundle` below is `frontend/app.bundle.js`.
Its first IIFE repeats the chat, catalogue, lookup, `levenshtein`,
`findProducts`, branch view, filter and `CartManager` code of the other
files. That shared logic is modelled once, and the rows name the bundle lines
where they also apply.

## Model

| member | source | states |
|---|---|---|
| Text.Trim | frontend/script.js:743 | `trim()`: the result is the input without leading and trailing ECMAScript white space; it is empty exactly when the input is all white space |
| Text.ToLower | frontend/script.js:743 | `toLowerCase()` character by character, same length |
| Text.ToUpper | frontend/search.js:104 | `toUpperCase()` character by character, same length |
| Text.Split | frontend/script.js:744 | `split(/\s+/)`: never empty, no piece holds white space, a space-free string is its only piece |
| Text.SplitJoin | frontend/script.js:744 | splitting undoes joining non-empty words with single spaces |
| Text.SplitTrimmedNonEmpty | frontend/script.js:743-744 | a trimmed non-empty query splits into non-empty pieces only |
| Text.FirstDigitRun | frontend/script.js:777 | `term.match(/\d+/)`: `None` exactly when the term has no digit, else a non-empty digit run contained in the term |
| Text.ParseShow | frontend/script.js:778 | `parseInt` of the decimal writing of a number gives the number |
| Text.IndexOf | frontend/filters.js:34 | `indexOf`: the first occurrence at or after the start, and none before it |
| Text.DeleteFirst | frontend/filters.js:34 | `replace` with a string pattern removes only the first occurrence, or nothing |
| Text.Before | backend/server.js:35 | `split('@')[0]`: the prefix before the first `@`, holding no `@` |
| Text.ToLowerIdempotent | frontend/script.js:753 | lower-casing twice is lower-casing once |
| Text.WordImpliesContains | frontend/script.js:766-771 | a `\bterm\b` match is also a substring match |
| Utf8.DecodeEncode | backend/server.js:36 | `Buffer.from(email)`: decoding the UTF-8 bytes gives the string back |
| Utf8.UnhexHex | backend/server.js:36 | `toString('hex')`: two lower-case digits per byte, read back to the same bytes |
| Backend.EmailOfToken | backend/server.js:36 | the demo token of an address decodes to that address |
| Backend.TokenInjective | backend/server.js:36 | different addresses get different tokens |
| Backend.CartServer.constructor | backend/server.js:17 | no carts |
| Backend.CartServer.CartOf | backend/server.js:45 | `carts[token] \|\| []` |
| Backend.ChooseToken | backend/server.js:44 | header token, else the query or body token, else `anonymous`; each picked only when truthy |
| Backend.CartServer.Login | backend/server.js:31-40 | missing or empty email or password: rejected, carts unchanged; otherwise the hex token, the user name before the first `@`, and an empty cart only when the token had none |
| Backend.CartServer.GetCart | backend/server.js:43-47 | replies with the token's cart or `[]` and changes nothing |
| Backend.CartServer.PostCart | backend/server.js:50-59 | a missing or nameless item is 400 with no change; otherwise the token's cart becomes `Posted(...)` and unique names stay unique |
| Backend.Posted | backend/server.js:54-57 | an existing name counts `(old||1) + (item.quantity||1)` on its first line; a new name is appended with `item.quantity||1` |
| Backend.PostKeepsUnique | backend/server.js:55-57 | posting keeps the cart's names unique and the item's name present |
| Backend.PostAddsCount | backend/server.js:55-57 | with positive quantities posting adds the item's count to the cart's item count |
| Backend.PostAgreesWithAdd | backend/server.js:55-57 | for an item counting one, the server's merge equals the browser's `addToCart` |
| Backend.CartServer.PutCart | backend/server.js:62-75 | no name or no number is 400 before `carts` is touched; otherwise the empty cart is created, an absent name is 404, quantity ≤ 0 drops every line with the name, any other sets the first |
| Backend.Putted | backend/server.js:67-73 | `None` exactly for an absent name; ≤ 0 removes all lines with the name; otherwise sets the first line's quantity |
| Backend.PutKeepsUnique | backend/server.js:69-73 | setting or dropping keeps unique names unique |
| Backend.PutAgreesWithUpdate | backend/server.js:69-73 | the quantity the browser sends after `updateQuantity` makes the server's cart equal the browser's |
| Backend.CartServer.DeleteCart | backend/server.js:78-83 | every line with the name goes, the others keep their order, an absent name is not an error, and the token's cart exists afterwards |
| Common.Qty | frontend/cart-manager.js:57 | `quantity || 1`: a missing or zero quantity reads as 1 |
| Common.FirstIndex | frontend/cart-manager.js:184 | `find`/`findIndex` by name: the first line with the name, `None` exactly when no line has it |
| Common.WithoutName | frontend/cart-manager.js:309 | `filter(i => i.name !== name)`: keeps exactly the lines of other names; also `server.js` 70 and 81 |
| Common.WithoutNameConcat | frontend/cart-manager.js:309 | the filter keeps the order of the lines it keeps |
| Common.WithoutNameKeepsUnique | backend/server.js:70 | filtering keeps unique names unique |
| Common.RemoveFirst | frontend/cart-enhancements.js:42-51 | `findIndex` then `splice(index, 1)`: the first line with the name goes; an absent name changes nothing |
| Common.RemoveAt | frontend/cart-enhancements.js:45 | `splice(index, 1)`: one shorter, the entries before kept, the ones after moved down by one |
| Common.RemoveFirstTakesOne | frontend/cart-enhancements.js:43-45 | removal takes away exactly one copy of that line |
| Common.Checkout | frontend/cart-enhancements.js:127-136 | without a login, checkout only prompts for one |
| ManagedCart.TotalItemsAtLeastLines | frontend/cart-manager.js:56-58 | with positive quantities the item count is at least the number of lines |
| ManagedCart.BadgeVisibleIffLines | frontend/cart-manager.js:60-70 | with positive quantities the badge shows exactly when the cart has a line |
| ManagedCart.Shipping | frontend/cart-manager.js:108 | shipping is 0 exactly from a subtotal of 10000 on, otherwise 499 |
| ManagedCart.PreviewOf | frontend/cart-manager.js:82 | an empty cart shows the empty view, and only an empty one |
| ManagedCart.PreviewSummary | frontend/cart-manager.js:106-136 | for a non-empty cart: count and subtotal, free shipping exactly from 10000, total = subtotal + shipping, hint exactly when shipping is charged |
| ManagedCart.HintIsLeastTopUp | frontend/cart-manager.js:128-133 | the hinted amount is positive and is the least extra spending that makes shipping free |
| ManagedCart.AddedTo | frontend/cart-manager.js:199-209 | a present name's first line counts one more and the length is kept; otherwise the product is appended with quantity 1; the name is present afterwards |
| ManagedCart.AddKeepsUnique | frontend/cart-manager.js:199-209 | adding keeps names unique |
| ManagedCart.AddCountsOneMore | frontend/cart-manager.js:199-209 | with positive quantities adding raises `getTotalItems` by exactly one |
| ManagedCart.AddCostsOneMore | frontend/cart-manager.js:199-209 | adding raises the subtotal by the price of the line that grew |
| ManagedCart.Removed | frontend/cart-manager.js:304-316 | with the preview row on the page every line with the name goes and the others stay; without it nothing changes |
| ManagedCart.QuantityUpdated | frontend/cart-manager.js:183-197 | an unknown name changes nothing; a new quantity below 1 delegates to removal; otherwise only the first line with the name is set |
| ManagedCart.UpdateKeepsUnique | frontend/cart-manager.js:183-197 | updating a quantity keeps names unique |
| ManagedCart.EnabledMinusDecrements | frontend/cart-manager.js:159 | a minus button that is not disabled lowers the first line's count by one and touches no other line |
| ManagedCart.HiddenRowDecrementKeepsCart | frontend/cart-manager.js:186-188 | decrementing a single-item line while its preview row is off the page leaves the cart as it was |
| ManagedCart.Adopted | frontend/cart-manager.js:29-36 | signed in with an OK reply carrying an array: the cart is replaced by it; in every other case it is kept |
| ManagedCart.AdoptIdempotent | frontend/cart-manager.js:325-329 | adopting the same reply twice equals adopting it once |
| ManagedCart.GetAuthToken | frontend/cart-manager.js:18-22 | nothing stored or text that is not JSON gives no token; otherwise the `token` field |
| ManagedCart.NoAuthKeepsCart | frontend/cart-manager.js:24-27 | without a stored token no server reply changes the cart |
| ManagedCart.CartManager.AddToCart | frontend/cart-manager.js:199-209 | the cart becomes `AddedTo(old cart, p)`; also bundle line 100 |
| ManagedCart.CartManager.UpdateQuantity | frontend/cart-manager.js:183-197 | the cart becomes `QuantityUpdated(old cart, ...)`; also bundle line 100 |
| ManagedCart.CartManager.RemoveFromCart | frontend/cart-manager.js:304-316 | the cart becomes `Removed(old cart, name, rowShown)` |
| ManagedCart.CartManager.AdoptServerReply | frontend/cart-manager.js:340-342 | the cart becomes `Adopted(old cart, token, reply)`; the same ending as lines 32-36 and 354 |
| ManagedCart.CartManager.constructor | frontend/cart-manager.js:5 | the stored cart, or empty |
| ListCart.BadgeCount | frontend/cart-enhancements.js:113-124 | the badge shows the number of entries and is visible exactly when there is one |
| ListCart.AddRaisesTotal | frontend/cart-enhancements.js:34-36 | appending adds the product's price to `calculateCartTotal` and one to the count, duplicates included |
| ListCart.RemoveLowersTotal | frontend/cart-enhancements.js:42-51 | removing the first entry with a name lowers the total by its price and the count by one; an absent name changes nothing |
| ListCart.AddThenRemoveRestores | frontend/cart-enhancements.js:34-51 | adding a product that was not in the cart and removing it by name gives the cart back |
| ListCart.CartManager.AddToCart | frontend/cart-enhancements.js:34-39 | always appended, duplicates allowed |
| ListCart.CartManager.RemoveFromCart | frontend/cart-enhancements.js:42-51 | the cart becomes `RemoveFirst(old cart, name)` |
| ListCart.CartManager.constructor | frontend/cart-enhancements.js:4 | the stored cart, or empty |
| PageCart.Toggled | frontend/cart.js:14-25 | an absent name is appended at the end; a present one has its first entry spliced out |
| PageCart.RemoveAtKeepsUnique | frontend/cart.js:19-20 | splicing out an entry keeps names unique and removes its name |
| PageCart.ToggleFlips | frontend/cart.js:14-22 | from distinct names a toggle keeps names distinct and flips whether the product's name is present |
| PageCart.ToggleTwiceRestores | frontend/cart.js:14-22 | toggling an absent product twice restores the list |
| PageCart.ToggleKeepsOthers | frontend/cart.js:14-22 | the entries of other names keep their order |
| PageCart.CartButtonText | frontend/cart.js:28-36 | "In Cart" exactly when some entry has the card's name, "Add to Cart" otherwise |
| PageCart.WishlistActive | frontend/cart.js:39-46 | the wishlist button is active exactly when some entry has the card's name; `PageCart.ToggleShowsWishlist` relates it to a toggle |
| PageCart.ToggleShowsWishlist | frontend/cart.js:26-46 | from distinct names, a toggle flips the toggled card's wishlist button and leaves every other card's button as it was |
| PageCart.AddShowsInCart | frontend/cart.js:6-11 | after adding, the product's card reads "In Cart", and no "In Cart" card goes back |
| PageCart.CartPage.AddToCart | frontend/cart.js:6-11 | always appended; the wishlist is untouched |
| PageCart.CartPage.ToggleWishlist | frontend/cart.js:14-25 | the wishlist becomes `Toggled(old wishlist, p)`; the cart is untouched |
| PageCart.CartPage.constructor | frontend/cart.js:2-3 | cart and wishlist as stored, or empty |
| Filters.ParseInt | frontend/filters.js:50 | `parseInt` base ten: `NaN` exactly when no digit follows the white space and the sign |
| Filters.ParseFloat | frontend/filters.js:34 | `parseFloat`: `NaN` only when no digit follows the white space and the sign |
| Filters.BoundOf | frontend/filters.js:50 | `parseInt(p) || Infinity`: an absent piece is `Infinity`, and no finite bound is 0 |
| Filters.NothingSelectedShowsAll | frontend/filters.js:36-57 | with nothing selected every card is visible |
| Filters.CategoryAlone | frontend/filters.js:39-41 | a category alone shows exactly the cards of that category in any letter case |
| Filters.BrandAlone | frontend/filters.js:44-46 | a brand alone shows exactly the cards whose lower-cased name contains the lower-cased brand |
| Filters.InfiniteMinHidesPriced | frontend/filters.js:51 | a lower bound of `Infinity` hides every card with a number for a price |
| Filters.InfiniteMaxNoLimit | frontend/filters.js:51 | an upper bound of `Infinity` sets no upper limit |
| Filters.ZeroLowerBound | frontend/filters.js:50 | in `min-max`, a minimum reading 0 becomes `Infinity`; the maximum is its number, or `Infinity` for 0 |
| Filters.ZeroToFiveThousand | frontend/filters.js:49-54 | `'0-5000'` hides every card with a number for a price |
| Filters.RupeeTextNeverHidden | frontend/filters.js:34 | with the misread sign `'â‚¹'` a card text starting with `₹` parses to `NaN`, and no range hides it |
| Filters.RupeeTextRead | frontend/app.bundle.js:86 | with the real sign `₹`, digits with one comma read as the number the digits write |
| Filters.ParseFloatStopsAtComma | frontend/app.bundle.js:86 | `parseFloat` of digits, a comma and more reads the digits before the comma |
| Filters.FormattedPriceRead | frontend/app.bundle.js:86 | a card price below one lakh, written by `toLocaleString('en-IN')` after `₹`, reads back as the price |
| Filters.SecondCommaStops | frontend/app.bundle.js:86 | of `₹` and digits with two commas, only the first comma goes and the number ends at the second |
| Filters.LakhPriceMisread | frontend/app.bundle.js:86 | from one lakh up to one crore a card price is read in thousands (`₹1,23,456` as 123) |
| Filters.FilterPanel.SetCategory | frontend/filters.js:22 | the change listener sets the category and nothing else |
| Filters.FilterPanel.SetBrand | frontend/filters.js:23 | the change listener sets the brand and nothing else |
| Filters.FilterPanel.SetPriceRange | frontend/filters.js:24 | the change listener sets the range and nothing else |
| Filters.FilterPanel.ApplyFilters | frontend/filters.js:28-71 | each card's visibility is `Visible(selection, card)`, and the "no results" message is present exactly when no card is visible; also bundle line 86 |
| Filters.FilterPanel.ResetFilters | frontend/filters.js:74-94 | all three selections cleared, every card shown, the message gone; also bundle line 87 |
| Filters.FilterPanel.constructor | frontend/filters.js:2-6 | nothing selected |
| Filters.ResetThenApply | frontend/filters.js:74-94 | after a reset, applying the filters shows every card, as the reset did |
| Levenshtein.CellIsEditDistance | frontend/script.js:696-707 | each matrix cell is the textbook insert/delete/substitute distance of the two prefixes |
| Levenshtein.Neighbours | frontend/script.js:702-703 | neighbouring cells differ by at most one |
| Levenshtein.CellSymmetric | frontend/script.js:696-707 | swapping the arguments transposes the matrix |
| Levenshtein.CellBounds | frontend/script.js:696-707 | a cell lies between the length difference and the longer length |
| Levenshtein.CellZero | frontend/script.js:696-707 | a cell is 0 exactly when the prefixes are equal |
| Levenshtein.DistSymmetric | frontend/script.js:696-707 | `levenshtein` is symmetric, `Infinity` included; also bundle line 38 |
| Levenshtein.DistFacts | frontend/script.js:696-707 | for non-empty strings the result is finite, 0 exactly for equal strings, and between the length difference and the longer length |
| Levenshtein.FillRow | frontend/script.js:701-704 | the inner loop fills row `i` with its final values and keeps the done rows and column 0 |
| Levenshtein.ComputeDistance | frontend/script.js:696-707 | the method that fills an `array2` returns `Dist(a, b)`, `Infinity` for an empty argument |
| Sorting.InsertSorted | frontend/script.js:820 | inserting into a sorted sequence keeps it sorted |
| Sorting.SortSorted | frontend/script.js:820 | the sort orders by its key |
| Sorting.SortStable | frontend/script.js:820 | the sort is stable: the elements with each key keep their order |
| Catalog.PutAll | frontend/script.js:729-733 | assignments in order: the keys gained are the written ones; each written key holds the new value; old keys keep their positions and new ones are appended |
| Catalog.Put | frontend/script.js:730 | one assignment: the key maps to the value; an old key keeps its position, a new one is appended |
| Catalog.ProductKeys | frontend/script.js:730-733 | the lower-cased name first, then one lower-cased key per alias |
| Catalog.Build | frontend/script.js:710-738 | the lookup is well formed and leads only to catalogue positions |
| Catalog.BuildStep | frontend/script.js:712-735 | one more product adds exactly the keys it writes and overwrites them, leaving the other keys |
| Catalog.BuildHasKey | frontend/script.js:710-738 | a key is in the lookup exactly when some named product writes it; also bundle line 39 |
| Catalog.BuildLastWriter | frontend/script.js:729-733 | last write wins: a key names the last named product that writes it |
| Catalog.BuildKeysGrow | frontend/script.js:712 | later products never move a key: the keys of a catalogue prefix are a prefix of the keys |
| Catalog.Values | frontend/script.js:747 | `Object.values`: one entry per key, in key order |
| Catalog.Dedup | frontend/script.js:748 | `Array.from(new Set(list))`: no repeats, the same members, never longer |
| Catalog.DedupDistinct | frontend/script.js:748 | a list without repeats comes out unchanged |
| Catalog.Candidates | frontend/script.js:747-748 | the distinct products the lookup reaches, each once |
| Catalog.Reachable | frontend/script.js:710-748 | a product is a search candidate exactly when it is named and some key of its own is written by no later product, so a product all of whose keys are taken over later becomes unreachable |
| Ranking.RankIds | frontend/script.js:819-822 | the returned products are exactly the candidates with a positive score |
| Ranking.RankMembers | frontend/script.js:817-819 | a ranked entry is a candidate paired with its own score, exactly when that score is positive |
| Ranking.RankAll | frontend/script.js:751-817 | one `{ product, score }` per candidate, in candidate order |
| Ranking.Positive | frontend/script.js:819 | `filter(x => x.score > 0)`: exactly the entries of positive score |
| Ranking.Ids | frontend/script.js:822 | `map(x => x.product)`: one id per entry, in order |
| Ranking.RankOrdered | frontend/script.js:820 | the returned products come in non-increasing score |
| Ranking.RankDistinct | frontend/script.js:748-822 | distinct candidates give distinct results |
| Ranking.RankStable | frontend/script.js:820 | products of equal score keep their candidate order |
| Search.Terms | frontend/script.js:743-744 | at least one term, none with white space; a blank query gives the single term `""`; otherwise no term is empty |
| Search.ExactBonus | frontend/script.js:762-763 | the exact-match bonuses lie between 0 and 180 |
| Search.WordBonus | frontend/script.js:766-768 | the word-boundary bonuses lie between 0 and 110 |
| Search.SubstringBonus | frontend/script.js:771-773 | the substring bonuses lie between 0 and 140 |
| Search.SpecialBonus | frontend/script.js:784-794 | 0 or 40 (the corrected lookup of the five keywords) |
| Search.SpecialBonusAsWritten | frontend/script.js:784-794 | 0 or 40 (the lookup as written, inherited `constructor` included) |
| Search.ConstructorTermFinding | frontend/script.js:792 | as written the term `constructor` earns 40 for every product; corrected it earns nothing |
| Search.TermScore | frontend/script.js:760-800 | one term's bonuses lie between 0 and the sum of the caps |
| Search.Score | frontend/script.js:760-801 | the summed score is never negative |
| Search.SpecialBands | frontend/script.js:784-794 | the five price keywords select exactly their documented bands; any other term earns nothing |
| Search.PriceBonus | frontend/script.js:776-781 | 0 or 45, and 45 only for a term with `under` or `below` and a digit |
| Search.UnderPriceTerm | frontend/script.js:776-781 | `under40000` earns 45 exactly for prices up to 40000 |
| Search.SeparatedPriceTerms | frontend/script.js:776-781 | neither `under` nor `40000` alone earns the price bonus |
| Search.SeparatedPriceQuery | frontend/script.js:744 | `under 40000` splits into the two terms `under` and `40000` |
| Search.FuzzyBonus | frontend/script.js:797-800 | the fuzzy bonus lies between 0 and 40 |
| Search.NameTermScore | frontend/script.js:762-800 | a term equal to the lower-cased name earns at least 100 + 60 + 40 |
| Search.ScoreAdditive | frontend/script.js:760-801 | the bonuses of separate terms add up |
| Search.Boost | frontend/script.js:803-815 | the multiplier lies between 1 and 1.1 × 1.05 × 1.05 |
| Search.FinalScore | frontend/script.js:803-817 | the boosted score is never below the sum and is positive exactly when the sum is |
| Search.FindProducts | frontend/script.js:741-823 | a falsy query returns `[]`; never more results than candidates; also bundle line 40 |
| Search.FindProductsMembers | frontend/script.js:741-823 | a product is returned exactly when the query is non-empty, the lookup reaches it and some term matched it |
| Search.FindProductsOrdered | frontend/script.js:819-820 | results come in non-increasing final score |
| Search.FindProductsScores | frontend/script.js:803-817 | the order is by the boosted score of each product |
| Search.FindProductsDistinct | frontend/script.js:748 | no product is returned twice |
| Search.FindProductsStable | frontend/script.js:820 | equal scores keep the order of the products' first lookup keys |
| Search.BlankQueryReturnsAll | frontend/script.js:743-771 | a white-space query returns every reachable product |
| Search.TermsOfWords | frontend/script.js:743-744 | lower-case words joined by single spaces are exactly the query's terms |
| Chatbot.FirstMentioned | frontend/script.js:86 | `find` over the keys: the first mentioned key, none before it, `None` exactly when no key is mentioned |
| Chatbot.OfferedKey | frontend/script.js:86-87 | the first mentioned key, unless that key is the falsy empty string |
| Chatbot.GetBotResponse | frontend/script.js:81-114 | a product reply exactly when a key is offered, with that key's product; buy wording exactly on a buy keyword; otherwise help, then catalogue, then default text; also bundle line 33 |
| Chatbot.FirstKeyWins | frontend/script.js:86-88 | the first key in lookup order wins, not the longest |
| Chatbot.NoKeyNoProduct | frontend/script.js:104-113 | a message mentioning no key falls through to a text reply |
| Chatbot.SendMessage | frontend/script.js:27-44 | a blank input sends nothing; otherwise the trimmed, lower-cased message is answered |
| Chatbot.QuickReply | frontend/script.js:1550-1554 | quick replies are answered lower-cased but untrimmed; its partners are the two rows below |
| Chatbot.QuickReplyAsTyped | frontend/script.js:1550-1554 | a non-empty, already trimmed quick text gets the reply the same text typed into the box gets |
| Chatbot.BlankQuickReply | frontend/script.js:1550-1554 | a blank quick text, which the box would not send, gets the default hint when no non-empty key is blank |
| Affiliates.DefaultLinks | frontend/script.js:674-678 | a product without links gets the Amazon and Flipkart search URLs of its encoded name |
| Affiliates.UpdateAll | frontend/script.js:681-685 | the keys afterwards are the old ones and the lower-cased names the updates mention |
| Affiliates.UpdateAllSnoc | frontend/script.js:682-684 | one more update is one more `set` of its lower-cased name |
| Affiliates.UpdateAllLast | frontend/script.js:681-685 | the last update for a name decides its links |
| Affiliates.UpdateAllUntouched | frontend/script.js:681-685 | a name that no update mentions keeps its links |
| Affiliates.AffiliateManager.UpdateAffiliateLinks | frontend/script.js:663-665 | the links of the lower-cased name are set |
| Affiliates.AffiliateManager.BulkUpdateAffiliateLinks | frontend/script.js:681-685 | the updates applied in order, as `UpdateAll` |
| Affiliates.AffiliateManager.GetAffiliateLinks | frontend/script.js:668-679 | the stored links of the lower-cased name, else the default search URLs |
| Affiliates.AffiliateManager.constructor | frontend/script.js:660 | an empty `Map` |
| Storefront.NormalizedLinks | frontend/script.js:717-727 | after the lookup pass a named product has an image, and its non-empty affiliate URLs become product links; the pass is idempotent |
| Storefront.Normalize | frontend/script.js:717-728 | only `amazonLink`, `flipkartLink` and `imageUrl` change, and an unnamed product is skipped |
| Storefront.NormalizeAll | frontend/script.js:712-736 | each product normalised in place, same positions |
| Storefront.NormalizeKeepsLookup | frontend/script.js:717-733 | the normalisation changes no key the lookup gets |
| Storefront.OwnLinksWin | frontend/script.js:690-722 | a product's own `affiliates`, with no later same-named product, beats the overrides registered first |
| Storefront.BranchProducts | frontend/script.js:653-655 | the branch's list, `[]` for an unknown branch; also bundle line 36 |
| Storefront.Codes | frontend/script.js:130-651 | the branch codes of the literal, in order |
| Storefront.BranchTable | frontend/script.js:130-651 | a branch-to-positions table over exactly the literal's codes |
| Storefront.BranchTableAt | frontend/script.js:712 | a branch's positions are its own run in `Object.values(...).flat()` |
| Storefront.Initial | frontend/script.js:130-738 | the state after the page script is well formed |
| Storefront.InitialBranchAt | frontend/script.js:653-655 | the `i`-th literal branch lists its normalised products |
| Storefront.Storefront.constructor | frontend/script.js:688-738 | the state is `Initial(catalog)`, and the affiliate manager holds the overrides, then each product's own `affiliates` in catalogue order |
| Storefront.Storefront.GetBranchProducts | frontend/script.js:653-655 | an unknown branch gives `[]`; a known one gives, in order, the stored product at each of its positions |
| Storefront.InitialBranchProducts | frontend/script.js:130-655 | each literal branch lists its (normalised) catalogue products, and an unknown branch lists none |
| Storefront.BuildProductLookup | frontend/script.js:710-738 | the loop returns `Build(ps)` and the normalised products, and registers the affiliates in order |
| Storefront.WriteKeys | frontend/script.js:729-733 | the inner `forEach` is `PutAll` |
| Storefront.AddCustom | frontend/script.js:1802-1812 | one stored product: the branch (default CSE, upper-cased) exists afterwards, the product is appended to the store, and its keys point at it |
| Storefront.BranchOf | frontend/script.js:1803 | `(p.branch \|\| 'CSE').toUpperCase()` is never empty |
| Storefront.AddCustomKeys | frontend/script.js:1804 | afterwards the branches are the old ones plus the product's |
| Storefront.PushedMeansNoneNamed | frontend/script.js:1806-1807 | the product is pushed exactly when no product of its branch has its name |
| Storefront.AddCustomOwnBranch | frontend/script.js:1802-1806 | the product joins its branch exactly when no product of the branch has exactly its name |
| Storefront.AddCustomOtherBranch | frontend/script.js:1802-1806 | every other branch keeps its list |
| Storefront.AddCustomLookup | frontend/script.js:1809-1810 | the product's name and aliases now lead to it even when it was not pushed; every other key keeps its product |
| Storefront.AddCustomUnique | frontend/script.js:1804-1806 | distinct names in every branch stay distinct |
| Storefront.AddCustomOwnUnique | frontend/script.js:1806-1807 | the product's own branch keeps distinct names |
| Storefront.Storefront.AddCustomProduct | frontend/script.js:1803-1812 | the state becomes `AddCustom(old state, c)` |
| Storefront.AddAllCustom | frontend/script.js:1802-1816 | merging stored products in order keeps the state well formed |
| Storefront.AddAllStep | frontend/script.js:1802 | each stored product is merged after the ones before it |
| Storefront.Storefront.LoadCustomProducts | frontend/script.js:1796-1819 | nothing stored leaves the state; otherwise each stored product is merged in order |
| Storefront.WithDefaults | frontend/script.js:1027-1031 | missing date, rating and popularity are filled (rating 3.0-4.9, popularity 1-1000) and present ones are kept |
| Storefront.DefaultsBoost | frontend/script.js:1027-1031 | the defaults switch on the popularity boost exactly for list positions up to 166 and the recency boost for the first 30 |
| Storefront.ApplyDefaults | frontend/script.js:1027-1031 | only the branch's products change, and no name or alias changes |
| Storefront.ApplyDefaultsAt | frontend/script.js:1027-1031 | each product of the branch's list gets the defaults of its list position |
| Storefront.DefaultsKeepLookup | frontend/script.js:1027-1031 | the defaults change no lookup key |
| Storefront.Storefront.OpenBranch | frontend/script.js:976-1215 | opening a branch writes the defaults into the shared products, keeps branches and lookup, and opens the view |
| BranchView.TotalPages | frontend/script.js:1106 | at least one page, and exactly enough pages of 12 for the items |
| BranchView.PageItems | frontend/script.js:1060-1063 | page `k` holds items `(k-1)·12` up to `k·12` |
| BranchView.FirstPagesPrefix | frontend/script.js:1060-1063 | pages `1..k` together are the first `k·12` items: nothing lost or repeated |
| BranchView.AllPages | frontend/script.js:1104-1111 | all pages together are all the items |
| BranchView.NextDisabledMeansLastPage | frontend/script.js:1111 | Next is disabled exactly when no item lies beyond the page |
| BranchView.Categories | frontend/script.js:998 | each label once, exactly the labels of the products |
| BranchView.Label | frontend/script.js:998 | `p.category \|\| p.badge \|\| 'Other'` is never empty |
| BranchView.Labels | frontend/script.js:998 | one label per product |
| BranchView.WithLabel | frontend/script.js:1156 | exactly the products whose label is the selected one |
| BranchView.CategoryNonEmpty | frontend/script.js:1138-1157 | every category button selects at least one product |
| BranchView.SortProducts | frontend/script.js:1034-1052 | a sorted permutation for the six modes; an unknown mode keeps the order |
| BranchView.PriceAscending | frontend/script.js:1043-1044 | Price: Low to High orders by non-decreasing `price || 0` |
| BranchView.PriceDescending | frontend/script.js:1045-1046 | Price: High to Low orders by non-increasing price |
| BranchView.PriceStable | frontend/script.js:1043-1044 | products of one price keep their order |
| BranchView.InitialItems | frontend/script.js:1204-1210 | the opening items are products of the branch; CSE with laptops opens on laptops only, `min(30, laptops)` of them; CSE without laptops and every other branch open on all products |
| BranchView.Laptops | frontend/script.js:1205-1208 | exactly the products with category `laptops` or badge `laptop` in any case |
| BranchView.CategoryItems | frontend/script.js:1146-1162 | a category click shows a permutation of the category's products sorted by the selected mode |
| BranchView.CategoryItemsAsWritten | frontend/script.js:1146-1179 | the click as written: the category's products, sorted by newest whatever the selected mode |
| BranchView.CategorySortFinding | frontend/script.js:1161-1179 | as written, a cheap old and a dear new product under Price: Low to High show the dear one first; corrected, the cheap one |
| BranchView.BranchView.SelectCategory | frontend/script.js:1146-1166 | the shown items become `CategoryItems` and the page resets to 1 |
| BranchView.BranchView.ChangeSort | frontend/script.js:1169-1174 | the shown items are re-sorted and the page resets to 1 |
| BranchView.BranchView.NextPage | frontend/script.js:1122-1127 | moves on unless this is the last page |
| BranchView.BranchView.PrevPage | frontend/script.js:1115-1121 | moves back unless this is the first page |
| BranchView.BranchView.Shown | frontend/script.js:1060-1063 | at most 12 products, all of the current items, some when there are items |
| BranchView.BranchView.constructor | frontend/script.js:1204-1222 | the branch's products, sort mode newest, page 1, the opening items sorted by newest |
| PriceFormat.FormatRoundTrip | frontend/script.js:1075 | `toLocaleString('en-IN')` of a whole price is the price's digits with only commas inserted |
| Purchase.ResolveProduct | frontend/script.js:1563-1573 | an empty id finds nothing; a lower-cased lookup key finds its product; otherwise a product of the lookup with exactly that name, found exactly when one exists |
| Purchase.FindByName | frontend/script.js:1569 | `find(p => p.name === productId)`: a product of that exact name, `None` exactly when there is none |
| Purchase.AffiliateEntry | frontend/script.js:1578 | `product.affiliates?.market`: found exactly when the entry is present and non-empty, and then it is that entry |
| Purchase.AmazonLink | frontend/script.js:1578 | `amazonLink` when non-empty, else the affiliate entry |
| Purchase.FlipkartLink | frontend/script.js:1579 | `flipkartLink` when non-empty, else the affiliate entry |
| Purchase.BuyProduct | frontend/script.js:1562-1585 | links open exactly when a product is found with a product-level or affiliate link for either market, and those links are the ones opened |
| Purchase.NameFallbackUnused | frontend/script.js:1569 | on the built lookup the exact-name fallback never finds a product the key missed |
| SearchPage.Suggestions | frontend/search.js:17-31 | under two characters of trimmed input, none; otherwise hidden exactly when nothing is found, else the first `min(3, n)` results in rank order |
| SearchPage.SuggestionsAreTop | frontend/search.js:25 | the suggestions are distinct and none scores below a result left out |
| SearchPage.SuggestionsMatch | frontend/search.js:25 | every suggestion is a reachable product some term matched |
| SearchPage.RawQuery | frontend/search.js:91 | a truthy passed query is used untrimmed, else the trimmed input |
| SearchPage.PerformSearch | frontend/search.js:87-135 | empty: prompt; a branch code in any case: that branch, before any search; then none, one or several matches as notice, buy options or list in `findProducts` order |
| SearchPage.BranchCodeInAnyCase | frontend/search.js:103-107 | a passed or typed branch code in any letter case opens its branch |
| SearchPage.BlankInputPrompts | frontend/search.js:91-95 | an empty box with nothing passed in only prompts |
| SearchPage.NoMatchesScoreNothing | frontend/search.js:115-118 | a term finding nothing matches no reachable product |
| SearchPage.OneMatchOnlyScorer | frontend/search.js:120-124 | a term finding one product matches it and no other reachable product |
| SearchPage.BlankPassedQueryListsAll | frontend/search.js:91-127 | a passed-in blank query that names no branch lists every reachable product, given two or more |
| SearchPage.BuyTarget | frontend/search.js:193-199 | the `index`-th Buy button opens `matches[index]`, and exists only inside the list |
| SearchPage.BuyButtonsFollowRank | frontend/search.js:193-199 | different buttons open different products, and a higher button never opens a lower-scored product |
| Login.ValidEmailIffPattern | frontend/script.js:2036 | `^[^\s@]+@[^\s@]+\.[^\s@]+$` matches exactly the addresses with one `@`, no white space, a non-empty local part and a `.` inside the domain, neither first nor last |
| Login.SubmitLogin | frontend/script.js:2030-2037 | blank e-mail or empty password asks for both fields; the login is sent exactly for a password and a trimmed e-mail that matches, with the trimmed e-mail and the raw password |
| Login.SentAddressNamesUser | frontend/script.js:2032-2037 | a sent address has one `@` and a non-empty user part before it |

## Left out

- Rendering, modals, notifications, animations, focus handling and the add-product form: they draw the page and decide nothing the model states.
- `debounce`, `setTimeout` delays and promises: a call is one step. The delayed removal in `CartManager.removeFromCart` is a step guarded by whether the line's preview row is on the page.
- `fetch`, `localStorage`, JSON and Express routing: their results are parameters (an `Option` for what is stored, a `Reply` for what the server answered, parsed request fields for the handlers).
- The clock: `now` and `dateAdded` are integer milliseconds passed in; a date string is its instant.
- Search.FinalScore: the ×1.1 and ×1.05 boosts are exact reals, with no floating-point rounding. The rating default `3 + (idx % 20) * 0.1` is exact tenths.
- Text.ToLower, Text.ToUpper: case mapping covers the ASCII letters only; JavaScript maps other letters too (`"cſe".toUpperCase()` is `"CSE"`, a branch code the model does not see in that term).
- Catalog.Values, Catalog.Build: the lookup keeps every key in insertion order. A JavaScript object lists integer-index keys (such as `"2024"`) first, in ascending order, so for a product name of that form the candidate order of the exact-name fallback and the chatbot's first mentioned key can differ.
- Chatbot.InfoText: a product without a description contributes `""`; `frontend/script.js:99` prints `undefined` there.
- BranchView.BranchView.SelectCategory: the class follows the corrected category click (`BranchView.CategoryItems`, sorted by the selected mode); `frontend/script.js:1165` and `1179` sort the items again by newest, which `BranchView.CategoryItemsAsWritten` models (see Findings).
- Search.FindProducts: terms are required to hold no regular-expression syntax characters. `new RegExp` throws on terms such as `(` and gives other terms a different meaning.
- Search.SpecialBonus: terms are lower-cased, so the only inherited `Object.prototype` names the keyword lookup can hit are `constructor` (one of the findings) and `__proto__`, whose value is not callable and makes the call throw; the model gives both no bonus.
- Search.FindProducts: scores with the corrected keyword lookup (`Search.SpecialBonus`), so the term `constructor` earns nothing here; `Search.ConstructorTermFinding` models the source's +40 (see Findings).
- The `localeCompare` order of the name sort is a parameter, and so is the `encodeURIComponent` text in the default links.
- Backend.CartServer.PutCart: only integers count as numbers; fractional and `NaN` quantities are not modelled. Request fields that are not strings are not modelled.
- Backend.CartServer: tokens that name `Object.prototype` members (`carts['constructor']`) are treated as ordinary keys.
- Utf8.EncodeChar: strings are sequences of Unicode scalar values; lone surrogates (which `Buffer.from` encodes as U+FFFD) are not modelled.
- Filters.ParseFloat: exponent notation, `Infinity` and `parseInt`'s `0x` prefix are not modelled.
- `CartManager.addToCart` sets `quantity` on the argument object itself, which aliases the pushed object. Lines are values here.
- `BranchView` keeps its own copy of the branch's products, with the defaults already written. The objects it shares with the search are not modelled beyond `ApplyDefaults` on the store.
- The catalogue literal itself (about 500 products) is not transcribed; every catalogue enters as a parameter. Concrete consequences follow from the general lemmas:
  - `'cad workstation'` leads to the AUTO product and never to the MECH one, and alias `'developer laptop'` leads to IS's "Developer Laptop" (Catalog.BuildLastWriter, Catalog.Reachable);
  - the empty branches of the bundle list nothing (Storefront.InitialBranchProducts);
  - `'raspbery pi'` finds a product through the term `pi`, and `'buy nvidia gpu laptop'` gets a product reply through the first mentioned key (Search.FindProductsMembers, Chatbot.FirstKeyWins).
- The `performSearch` copy in `frontend/script.js` (1439-1540) gives the same `Outcome`. Its single-match case calls `buyProduct` with the product's name, which `Purchase.BuyProduct` covers. Its suggestion copy (1389-1399) leaves old suggestions on the page instead of hiding them; `SearchPage.Suggestions` follows `frontend/search.js`.
- The three-digit groups of `toLocaleString('en-IN')` for negative and fractional amounts: prices are integers.
- `auth.js`, `firebase-auth-ui.js`, `contact.js` and `app.loader.js` are not part of this model. They are login UI over `fetch`, storage and Firebase, a contact form stub and a loader.

## Findings

| source | as written | input that shows it | evidently intended | confidence | as-written member | corrected member |
|---|---|---|---|---|---|---|
| frontend/script.js:784-794 | `specialCategories[term]` on an object literal also finds the inherited `constructor` function, and `Object(p)` is truthy | the single-term query `constructor` earns +40 for every product, whatever its price | only the five listed price keywords earn the bonus | high, not executed | Search.ConstructorTermFinding | Search.SpecialBands |
| frontend/script.js:1146-1179 | the category click sorts by the selected mode, then `initializeGrid` sorts the result again by newest | with "Price: Low to High" selected, clicking "All" on a cheap old product and a dear new one shows the dear one first | the shown items stay sorted by the selected mode | medium, not executed | BranchView.CategorySortFinding | BranchView.CategoryItems |
