# Ordering and reservation pages, modelled in Dafny

This project models the browser-side logic of a small shop and event site.
Customers order products and book childcare. Staff manage products, orders
and meeting-room reservations. Each page controller is one Dafny module:

- `ProductOrder` (`cart.dfy`) is the customer ordering page. It covers the
  product dialog with its option selects, quantity stepper and live price;
  the cart, keyed by product and chosen options, with its 10-per-line limit;
  the running total and item count; the order payload and the
  success/failure handling; and the order-history total.
- `LegacyOrder` (`legacy_cart.dfy`) is the older ordering page. Its cart
  has one line per product, registered when the product list loads.
- `OrderStatus` (`order_status.dfy`) is the customer's order-status dialog.
  It trims the typed order id, keeps the last id for the session (also the
  id of an order just placed on the same page), and shows an order's lines
  and total.
- `Childcare` (`childcare.dfy`) is the childcare booking form. It finds the
  next open Wednesday (the fourth Wednesday of December and the third of
  August are closed), prefills the form, checks a reservation against every
  rule of the form in the order the form checks them, and computes the price.
- `ProductAdmin` (`product_admin.dfy`) is the product editor of the admin
  page. `ProductRegister` (`product_register.dfy`) is the product
  registration form. `ProductOptions` (`product_options.dfy`) holds what
  both share: the option-group rows ("values" and "prices" typed as
  comma-separated text) and the allergen check boxes and multi-select.
- `OrderBoard` (`order_board.dfy`) is the store's order board. It groups
  the order rows by order id, totals each order, and marks the current
  status in each status select.
- `ReservationAdmin` (`reservation_admin.dfy`) is the reservation
  management page. It filters the list by status, offers the status changes
  each status allows, and remembers the change awaiting confirmation.
- `MultiSelect` (`multi_select.dfy`) is the multi-select dropdown widget
  that replaces a native `<select multiple>`.
- `DynamicForm` (`dynamic_form.dfy`) renders the question-driven form parts
  of the reservation pages and collects their answers.

Shared modules:

- `Wrappers` holds `Option`, `Result` and the `x || d` default of a parsed
  number.
- `Text` holds JavaScript's `trim`, `split`/`join`, lenient decimal
  `parseInt`, ASCII `toLowerCase` and `includes`.
- `OrderLines` holds an order's lines and their totals.
- `Calendar` holds proleptic Gregorian dates, day numbers and weekdays.

Page state that the scripts keep in globals or object fields is modelled as
Dafny classes whose methods change those fields. Pure computations are
functions, and loops are methods with invariants. A JavaScript object used
as a dictionary becomes a `map`; where its insertion order matters it also
gets a `seq` of keys, which stands for the order `Object.values` walks
string keys in (integer-like keys are the exception, see below). Network replies, the clock and the DOM are passed in
as parameters.

## Model

| member | source | states |
|---|---|---|
| Wrappers.OrDefault | docs/product_order/js/script.js:240 | `parseInt(x) \|\| d`: a parsed number other than 0 is kept; NaN and 0 both give the default |
| Text.Trim | docs/product_order/js/script.js:434 | the result has no white space at either end, is a contiguous piece of the input with only white space outside it, and a string already without white space at its ends is returned unchanged |
| Text.TrimCut | docs/product_order/js/script.js:434 | trimming the start and then the end leaves a contiguous piece of the input with only white space cut off on either side |
| Text.TrimKeepsInner | docs/product_order/js/script.js:434 | a string with any character that is not white space does not trim to nothing |
| Text.IndexOf | docs/js/multi-select-dropdown.js:164 | the index of a present element is its first occurrence |
| Text.OrDash | docs/store/js/store.js:139 | `s \|\| '-'` is never empty and keeps any non-empty text |
| Text.RemoveFirstAppended | docs/product_order/js/script.js:263 | `replace(':', '')` on a colon-free text followed by one colon gives the text back |
| Text.Split | docs/admin/js/product_management.js:212 | splitting always gives at least one piece, and no piece contains the separator |
| Text.SplitJoin | docs/admin/js/product_management.js:212 | splitting a join of pieces free of the separator gives the pieces back |
| Text.JoinSplit | docs/admin/js/product_management.js:320 | joining the pieces of a split with the separator gives the text back |
| Text.ParseShow | docs/admin/js/product_management.js:232 | `parseInt` reads back every integer written in decimal |
| Text.ParseShowThen | docs/admin/js/product_management.js:213 | `parseInt` of a number's decimal text followed by a non-digit still reads the number |
| Text.DigitRunOf | docs/js/product_register.js:102 | the digits `parseInt` reads from a digit string followed by a non-digit are exactly that digit string |
| Text.ContainsAt | docs/js/multi-select-dropdown.js:154 | `includes` holds exactly when the term occurs at some index of the text |
| Text.ContainsEmpty | docs/js/multi-select-dropdown.js:154 | every text includes the empty term |
| OrderLines.SumItemTotalsSnoc | docs/product_order/js/customer_order_status.js:71-78 | one more line adds exactly that line's `(price + adjustment) * quantity` to the total |
| ProductOrder.ModalEntries | docs/product_order/js/script.js:162-174 | each option select lists "no option" at price 0 first, then every value with its own price, in order |
| ProductOrder.ValueEntries | docs/product_order/js/script.js:166-173 | the k-th value entry carries the k-th value and the k-th price |
| ProductOrder.GroupNameOfLabel | docs/product_order/js/script.js:263 | the group name read back from a select's label text is the group's name, for names without a colon |
| ProductOrder.SelectedOptions | docs/product_order/js/script.js:256-271 | an option is stored exactly when some select chose it and it is not "no option", with its group name taken from the label; at most one per select |
| ProductOrder.SelectedOptionsAppend | docs/product_order/js/script.js:256-271 | the selects are read in order: the options stored for two runs of selects are those of the first followed by those of the second, and one select stores its own choice or nothing |
| ProductOrder.EntryTextRoundTrip | docs/product_order/js/script.js:258-259 | a value without a bar and its price are read back unchanged from the `value|price` text the option element was given |
| ProductOrder.BarInValueSplits | docs/product_order/js/script.js:258-259 | a value with one bar in it is read back as the piece before the bar, and the piece after it is parsed as the price |
| ProductOrder.BarInValueCut | docs/product_order/js/script.js:258-259 | a value with a bar in it is cut at the bar and its price reads as NaN |
| ProductOrder.AdjustmentOfSelected | docs/product_order/js/script.js:256-271 | the adjustments of the stored options add up to the adjustment the dialog price used |
| ProductOrder.ModalPriceIsLinePrice | docs/product_order/js/script.js:206-224 | the dialog's live unit price equals the unit price of the cart line it adds |
| ProductOrder.ChangeQuantity | docs/product_order/js/script.js:187-204 | the stepper never goes above 10; within the input's minimum and 10 it moves by the step, below the minimum it stops there, above 10 it stops at 10 |
| ProductOrder.SumQuantitiesAppend | docs/product_order/js/script.js:445-459 | the quantity of two lists of order lines is the sum of their quantities |
| ProductOrder.CountMatchesOrderLines | docs/product_order/js/script.js:334-366 | the badge count equals the quantities sent with the order, and the order is empty exactly when the count is 0 |
| ProductOrder.SumQuantitiesNonNegative | docs/product_order/js/script.js:445-459 | order lines with positive quantities sum to 0 only when there are none |
| ProductOrder.AppendKeepsShape | docs/product_order/js/script.js:285-296 | a new key appended to the cart keeps the keys distinct and covering every line |
| ProductOrder.TotalAfterLineChange | docs/product_order/js/script.js:334-345 | changing one line changes the total and the count by exactly that line's difference |
| ProductOrder.Unaffected | docs/product_order/js/script.js:334-345 | a line outside the key list does not enter the total or the count |
| ProductOrder.TotalAfterNewLine | docs/product_order/js/script.js:285-296 | a new line adds its amount to the total and its quantity to the count |
| ProductOrder.EmptiedCart | docs/product_order/js/script.js:513-518 | a cart whose lines are all at quantity 0 totals 0, counts 0 and orders nothing |
| ProductOrder.LineAmountAdd | docs/product_order/js/script.js:297 | adding q to a line's quantity adds q unit prices to its amount |
| ProductOrder.ClampQuantity | docs/product_order/js/script.js:396-401 | a typed quantity is kept between 1 and 10: lower becomes 1, higher becomes 10, anything between is kept |
| ProductOrder.Cart.constructor | docs/product_order/js/script.js:12 | the cart starts empty |
| ProductOrder.Cart.InsertLine | docs/product_order/js/script.js:285-296 | a new line is appended, and the total and the count grow by that line |
| ProductOrder.Cart.ReplaceLine | docs/product_order/js/script.js:297 | one line is replaced in place, and the total and the count change by the difference |
| ProductOrder.Cart.AddFromModal | docs/product_order/js/script.js:236-312 | the outcome and the cart afterwards are those of `AddToCart` on the cart before, and the cart keeps its shape |
| ProductOrder.AddEffect | docs/product_order/js/script.js:236-300 | with a product open, an add succeeds exactly when the quantity is positive and the line stays within 10; it then raises that one line by the quantity, appending the key only when new; a refused add changes nothing |
| ProductOrder.AddKeepsLimit | docs/product_order/js/script.js:276-283 | no add takes a line past 10 |
| ProductOrder.AddTotal | docs/product_order/js/script.js:273-300 | a successful add changes the cart total by the difference of the one line it touches |
| ProductOrder.Cart.UpdateCart | docs/product_order/js/script.js:315-323 | the line's quantity becomes the parsed input or 0, and the total changes by that line only |
| ProductOrder.Cart.UpdateItemQuantity | docs/product_order/js/script.js:388-405 | a typed value or a step sets the line's quantity clamped to 1..10; no line passes 10 |
| ProductOrder.Cart.RemoveItem | docs/product_order/js/script.js:410-415 | the line's quantity becomes 0 and the total drops by its amount |
| ProductOrder.Cart.RenderCart | docs/product_order/js/script.js:328-376 | the shown total and count are the cart's total and count, and "empty" is shown exactly when nothing would be ordered |
| ProductOrder.Cart.SubmitOrder | docs/product_order/js/script.js:431-474 | a blank name and an empty cart are refused, in that order; otherwise the payload carries the LINE user id, the trimmed name and the notes each behind a zero-width space, the trimmed e-mail and phone, and exactly the lines with a positive quantity in cart order |
| ProductOrder.ZeroLinesFacts | docs/product_order/js/script.js:513-517 | zeroing the lines of a list of keys keeps every key, zeroes exactly the named lines and leaves the others as they were |
| ProductOrder.Cart.HandleOrderSuccess | docs/product_order/js/script.js:498-523 | success zeroes every line and reports the order id; failure keeps the cart and reports the message |
| ProductOrder.ZeroAll | docs/product_order/js/script.js:513-517 | zeroing every line keeps the cart's lines, leaves a total of 0 and nothing to order |
| ProductOrder.OrderHistoryTotal | docs/product_order/js/script.js:642-663 | an order's history total is the sum of its line totals, or NaN (None) when any line lacks its adjustment |
| LegacyOrder.RegisterLines | docs/js/script.js:55-62 | after loading, a plain key has a line exactly when it was there before or its product is listed, and a listed product's line is fresh |
| LegacyOrder.RegisterKeepsShape | docs/js/script.js:55-62 | registering one product keeps the key list distinct and covering the lines |
| LegacyOrder.RegisterShape | docs/js/script.js:55-62 | registering any prefix of the list keeps the key list distinct, covering the lines, and the lines option-free |
| LegacyOrder.RegisterKeepsAndAdds | docs/js/script.js:55-62 | after registering a whole list every earlier line is still there and every listed product has a line |
| LegacyOrder.RegisterProducts | docs/js/script.js:55-62 | the loop's lines and key order are those of registering the whole list one product after another, and the cart keeps its shape |
| LegacyOrder.LoadError | docs/js/script.js:45-48 | an error is shown exactly when the reply is an error or an empty list |
| LegacyOrder.ChangeQuantity | docs/js/script.js:122-135 | the stepper moves by the step and never goes below the input's minimum |
| LegacyOrder.LegacyCart.constructor | docs/js/script.js:9-11 | the page starts with an empty cart, no products and no open dialog |
| LegacyOrder.LegacyCart.DisplayProducts | docs/js/script.js:41-62 | an error reply changes nothing; a list is kept and each product gets its line |
| LegacyOrder.LegacyCart.OpenModal | docs/js/script.js:99-118 | a listed product is opened with its line's quantity, or 1 when that is 0 or less; an unknown id changes nothing |
| LegacyOrder.LegacyCart.CloseModal | docs/js/script.js:137-142 | closing forgets the open product and changes nothing else |
| LegacyOrder.LegacyCart.AddFromModal | docs/js/script.js:147-166 | with a product open and a positive quantity the line's quantity is set to it; otherwise nothing changes |
| LegacyOrder.LegacyCart.UpdateCart | docs/js/script.js:171-179 | the line's quantity becomes the parsed input or 0 |
| LegacyOrder.LegacyCart.RenderCart | docs/js/script.js:184-208 | the shown total and count are the cart's, and "empty" is shown exactly when nothing would be ordered |
| LegacyOrder.LegacyCart.SubmitOrder | docs/js/script.js:229-254 | a blank name and an empty cart are refused; otherwise the payload carries the trimmed name, the notes and the positive lines |
| LegacyOrder.LegacyCart.HandleOrderSuccess | docs/js/script.js:294-311 | success zeroes every line; failure keeps the cart |
| Calendar.NextDayNumber | docs/childcare_reservation/js/script.js:253 | the next day is a valid date whose day number is one more |
| Calendar.AddDaysNumber | docs/childcare_reservation/js/script.js:253 | n steps of the next day add n to the day number and advance the weekday by n, modulo 7 |
| Calendar.DayNumberInjective | docs/childcare_reservation/js/script.js:227 | two valid dates with the same day number are the same date, so comparing day numbers compares dates |
| Calendar.WeekdayInMonth | docs/childcare_reservation/js/script.js:218-225 | within a month the weekday of day d is the first day's weekday shifted by d - 1 |
| Calendar.AddDaysAdd | docs/childcare_reservation/js/script.js:253 | stepping m days then n days is stepping m + n days |
| Calendar.AddDaysShort | docs/childcare_reservation/js/script.js:218-225 | stepping up to 28 days stays in the month or lands in the next one, with the day of the month carried over |
| Calendar.WeekdayRepeats | docs/childcare_reservation/js/script.js:253 | stepping a whole number of weeks keeps the weekday |
| Calendar.DaysInYear | docs/childcare_reservation/js/script.js:253 | a year has 366 days when it is a leap year and 365 otherwise |
| Childcare.FirstWednesday | docs/childcare_reservation/js/script.js:216-226 | the first Wednesday of a month falls on day 1 to 7 |
| Childcare.NthWednesday | docs/childcare_reservation/js/script.js:216-243 | the n-th Wednesday, n at most 4, falls within days 1 to 28 |
| Childcare.IsWednesdayDay | docs/childcare_reservation/js/script.js:220 | a day is a Wednesday exactly when it is the first Wednesday plus a multiple of 7 |
| Childcare.CountToNthWednesday | docs/childcare_reservation/js/script.js:216-226 | the counting loop stops on the n-th Wednesday of the month: a Wednesday with n - 1 Wednesdays before it |
| Childcare.ClosingWindows | docs/childcare_reservation/js/script.js:208-247 | a Wednesday is the counted 4th Wednesday of December or 3rd of August exactly when it falls on December 22-28 or August 15-21 |
| Childcare.IsClosedByCounting | docs/childcare_reservation/js/script.js:212-246 | the search's counting checks mark a Wednesday closed exactly when it is the 4th Wednesday of December or the 3rd of August |
| Childcare.AfterClosingIsOpen | docs/childcare_reservation/js/script.js:208-247 | the Wednesday a week after a day of a closing window is an open Wednesday |
| Childcare.OpenWithinTwoWeeks | docs/childcare_reservation/js/script.js:202-255 | from any day an open Wednesday comes within 14 days, so the search ends |
| Childcare.FindNextAvailableWednesday | docs/childcare_reservation/js/script.js:202-255 | the result is the first open Wednesday on or after the start, less than 14 days later |
| Childcare.SearchStart | docs/childcare_reservation/js/script.js:266-270 | the search starts today, or tomorrow from 17:00 on |
| Childcare.InitializeReservationForm | docs/childcare_reservation/js/script.js:260-293 | the form is prefilled with the first open Wednesday from the search start, the 17:00 notice when due, and a 09:30 start |
| Childcare.InitializeReservationFormFromTomorrow | docs/childcare_reservation/js/script.js:266-270 | the prefilled date is the first open Wednesday after today |
| Childcare.ValidateReservation | docs/childcare_reservation/js/script.js:304-423 | the checks run in the form's order and the first failing one is reported |
| Childcare.AcceptedExactly | docs/childcare_reservation/js/script.js:304-423 | a reservation is accepted exactly when it is an open Wednesday after today, starts between 09:30 and 16:30 on a quarter hour, ends by 17:30, and names an age from 0 to 15 and a gender |
| Childcare.CalculatePrice | docs/childcare_reservation/js/script.js:428-431 | the fee is 500 yen for every hour of care |
| Childcare.AcceptedBounds | docs/childcare_reservation/js/script.js:428-431 | an accepted reservation lasts at most 8 hours, so its price is at most 4000 yen |
| Childcare.LastDropOffImplied | docs/childcare_reservation/js/script.js:397-408 | an end by 17:30 with at least one hour of use implies a start by 16:30, so the drop-off rule never refuses a reservation the end rule accepts |
| Childcare.LaterOpenDatePassesDateRules | docs/childcare_reservation/js/script.js:313-366 | an open Wednesday after today passes every date rule |
| Childcare.SameDayPrefillRejected | docs/childcare_reservation/js/script.js:266-318 | on an open Wednesday before 17:00 the prefilled date is today, which validation refuses |
| Childcare.SameDayRejected | docs/childcare_reservation/js/script.js:303-317 | a reservation for today itself is refused as not after today, whatever else it holds |
| ProductOptions.ParsePrices | docs/admin/js/product_management.js:213 | one parsed price per piece |
| ProductOptions.Numbers | docs/admin/js/product_management.js:213 | the numbers of an all-numeric parse, position by position |
| ProductOptions.ParseGroupCases | docs/admin/js/product_management.js:199-227 | a row is refused for an empty field, then for a count mismatch, then for a non-numeric price, and otherwise gives its trimmed values and parsed prices |
| ProductOptions.ParseRows | docs/admin/js/product_management.js:203-227 | each row is parsed on its own |
| ProductOptions.CollectOptions | docs/admin/js/product_management.js:199-227 | the loop returns the first refused row's error, or every row's group in order |
| ProductOptions.FirstErrorMeaning | docs/admin/js/product_management.js:199-227 | the rows are accepted exactly when each row is, and an error is the one of the first refused row |
| ProductOptions.AllAccepted | docs/admin/js/product_management.js:199-227 | when every row is accepted the result is the list of their groups |
| ProductOptions.ParseAllRows | docs/admin/js/product_management.js:199-227 | the options are accepted exactly when every row parses, with the groups in row order |
| ProductOptions.ShowsHaveNoComma | docs/admin/js/product_management.js:321 | a price written in decimal contains no comma |
| ProductOptions.PrefillThenParse | docs/admin/js/product_management.js:319-321 | a group written into a row and parsed back is the same group, for values without commas or outer spaces |
| ProductOptions.ValuesRoundTrip | docs/admin/js/product_management.js:320 | joining comma-free values without outer white space, then splitting and trimming them, gives them back; empty values are kept too, unless the only value is empty |
| ProductOptions.PricesRoundTrip | docs/admin/js/product_management.js:321 | joining prices and splitting and parsing them gives them back |
| ProductOptions.ShownPricesParse | docs/admin/js/product_management.js:213 | every shown price parses back to itself |
| ProductOptions.ShownPriceParses | docs/admin/js/product_management.js:213 | one shown price, trimmed and parsed, is itself |
| ProductOptions.CommaValueSplits | docs/admin/js/product_management.js:320 | a value containing a comma does not survive the round trip: the row is refused for a count mismatch |
| ProductOptions.ChosenValues | docs/admin/js/product_management.js:189-191 | the collected values are exactly the values of the checked boxes |
| ProductOptions.NoneChosen | docs/admin/js/product_management.js:189-191 | with nothing checked nothing is collected |
| ProductOptions.ValuesOf | docs/admin/js/product_management.js:189-191 | the k-th listed value is the k-th box's value |
| ProductOptions.Listed | docs/admin/js/product_management.js:134 | a value is kept exactly when it is listed and wanted |
| ProductOptions.SelectListed | docs/admin/js/product_management.js:132-135 | each multi-select option ends selected exactly when the product lists it, and no option is added or moved |
| ProductOptions.SelectThenCollect | docs/admin/js/product_management.js:194-196 | collecting right after prefilling the multi-select gives the product's listed values in option order |
| ProductOptions.ClearAll | docs/admin/js/product_management.js:96-106 | clearing unchecks every box and keeps the boxes |
| ProductOptions.CheckFirst | docs/admin/js/product_management.js:124-129 | checking a value checks the first box with that value and nothing else |
| ProductOptions.CheckFirstValues | docs/admin/js/product_management.js:124-129 | checking a value keeps every box's value in its place |
| ProductOptions.CheckEach | docs/admin/js/product_management.js:124-129 | checking a list of values keeps the boxes and their order |
| ProductOptions.CheckEachMarks | docs/admin/js/product_management.js:124-129 | with distinct box values, a box ends checked exactly when it was checked or its value is wanted |
| ProductAdmin.ChooseAction | docs/admin/js/product_management.js:175-176 | a form with a product id updates, one without adds |
| ProductAdmin.PrefillRows | docs/admin/js/product_management.js:145-149 | one row per option group of the product |
| ProductAdmin.PrefillRowsParse | docs/admin/js/product_management.js:145-149 | the rows prefilled from a product's plain groups parse back to those groups |
| ProductAdmin.EditRoundTrip | docs/admin/js/product_management.js:89-159 | opening a stored product and saving it unchanged sends an update with its price, options and allergens |
| ProductAdmin.CheckedAfterClear | docs/admin/js/product_management.js:96-129 | after clearing and checking, a value is collected exactly when it has a box and the product lists it |
| ProductAdmin.ProductForm.constructor | docs/admin/js/product_management.js:9-23 | the form starts with empty fields, no option rows, and the page's check boxes and select options all unchecked |
| ProductAdmin.ProductForm.OpenProductModal | docs/admin/js/product_management.js:89-159 | the form is cleared; with a product it is filled with its fields, its allergens checked and one row per option group |
| ProductAdmin.ProductForm.Reset | docs/admin/js/product_management.js:90-107 | the text inputs are emptied, the option rows removed and every allergen box and option unchecked, keeping their values |
| ProductAdmin.ProductForm.ClearAllergens | docs/admin/js/product_management.js:96-106 | every allergen box and recommended option is unchecked, keeping its value and place |
| ProductAdmin.ProductForm.FillFields | docs/admin/js/product_management.js:111-122 | the text inputs show the stored id, name, price in decimal, ingredients and remarks |
| ProductAdmin.ProductForm.FillAllergens | docs/admin/js/product_management.js:124-135 | the product's specified allergens are checked and its recommended ones selected |
| ProductAdmin.ProductForm.AddOptionGroup | docs/admin/js/product_management.js:300-318 | an empty row is appended |
| ProductAdmin.ProductForm.RemoveOptionGroup | docs/admin/js/product_management.js:324-326 | exactly that row is removed, the others keep their order |
| ProductAdmin.ProductForm.Submit | docs/admin/js/product_management.js:171-239 | a refused option row stops the save with its error; otherwise the request carries the form's fields, the checked allergens and the parsed groups |
| ProductRegister.SubmitRegistration | docs/js/product_register.js:34-109 | a missing name or price is refused first, then a refused option row; otherwise the payload carries the fields, the parsed price and the groups |
| ProductRegister.NonNumericPrice | docs/js/product_register.js:102 | a price with no leading digits is sent as NaN (None) |
| ProductRegister.TrailingTextDropped | docs/js/product_register.js:102 | trailing text after the digits of a price is ignored |
| OrderBoard.Ids | docs/store/js/store.js:66 | one order id per row |
| OrderBoard.FirstAppearances | docs/store/js/store.js:94 | the orders shown are exactly the ids of the rows |
| OrderBoard.FirstAppearancesDistinct | docs/store/js/store.js:94 | each order is shown once |
| OrderBoard.GroupOrders | docs/store/js/store.js:65-91 | the grouped orders have exactly the rows' ids, each with its rows' items in row order and their amounts summed |
| OrderBoard.Reduce | docs/store/js/store.js:65-91 | one row adds its id if new, with the first row's fields, appends its item and adds its amount; other orders are untouched |
| OrderBoard.NoRowsYet | docs/store/js/store.js:67-77 | an order with no rows yet has no items and amount 0 |
| OrderBoard.GroupOfStep | docs/store/js/store.js:79-85 | a further row of a known order appends its item and adds its amount |
| OrderBoard.GroupOfFirst | docs/store/js/store.js:67-77 | an order's first row gives its date, name, notes and status |
| OrderBoard.SameGroupExtended | docs/store/js/store.js:65-91 | a further row of a known order appends its item and adds its amount to that order, and sets the options text only if it was still empty |
| OrderBoard.GroupKeysStep | docs/store/js/store.js:65-91 | after one more row the board has the earlier orders and the row's own |
| OrderBoard.GroupValuesStep | docs/store/js/store.js:65-91 | one reduce step keeps every grouped order matching the rows read so far |
| OrderBoard.GroupValueOfRow | docs/store/js/store.js:66-89 | the row's own order is created at its first row and extended at every later one, as its specification says |
| OrderBoard.RenderOrders | docs/store/js/store.js:56-94 | no rows show the placeholder; otherwise the rows are grouped |
| OrderBoard.TotalIsSumOfItems | docs/store/js/store.js:79-85 | an order's total is the sum of its items' amounts |
| OrderBoard.RowListedInItsGroup | docs/store/js/store.js:79-83 | every row appears as an item of its own order |
| OrderBoard.OneMoreRow | docs/store/js/store.js:79-85 | one more row adds one item and its amount to exactly one order |
| OrderBoard.GroupsPartitionRows | docs/store/js/store.js:65-94 | the shown orders hold every row once: their item counts add up to the rows and their totals to the rows' amounts |
| OrderBoard.CountAppend | docs/store/js/store.js:94 | one more order adds its items and its total |
| OrderBoard.Marked | docs/store/js/store.js:117-125 | one option per status, marked exactly when it is the order's status |
| OrderBoard.MarkedDistinct | docs/store/js/store.js:117-125 | with distinct statuses at most one option is marked, and the shown value is the marked one or else the first |
| OrderBoard.StatusesDistinct | docs/store/js/store.js:11-18 | the six statuses of the status select are distinct |
| OrderBoard.StatusMarking | docs/store/js/store.js:11-18 | a known status is the one marked and shown; an unknown one marks nothing and the select shows the first status |
| MultiSelect.ValuesOf | docs/js/multi-select-dropdown.js:178 | the k-th value is the k-th native option's value |
| MultiSelect.TextsOf | docs/js/multi-select-dropdown.js:199-200 | the k-th text is the k-th native option's text |
| MultiSelect.PreSelectedMembers | docs/js/multi-select-dropdown.js:74-101 | the starting selection holds exactly the values of the natively selected options |
| MultiSelect.RemoveAt | docs/js/multi-select-dropdown.js:167 | `splice(index, 1)` removes exactly one occurrence of that element |
| MultiSelect.RemoveAtDistinct | docs/js/multi-select-dropdown.js:167 | on a duplicate-free selection splicing out an element removes that value and keeps the rest |
| MultiSelect.RemovedMembers | docs/js/multi-select-dropdown.js:216-219 | removing a value from a duplicate-free selection drops it and keeps everything else |
| MultiSelect.ToggledMembers | docs/js/multi-select-dropdown.js:162-175 | toggling adds a value exactly when it was absent, keeps the others and keeps the selection duplicate-free |
| MultiSelect.ToggleTwice | docs/js/multi-select-dropdown.js:162-175 | toggling twice gives the same members back, and the same list when the value was absent |
| MultiSelect.DistinctCard | docs/js/multi-select-dropdown.js:179 | a duplicate-free list has as many members as elements |
| MultiSelect.FullLengthMeansAll | docs/js/multi-select-dropdown.js:177-179 | the "all selected" length test holds exactly when every option is selected |
| MultiSelect.ToLowerTwice | docs/js/multi-select-dropdown.js:151-153 | lower-casing twice is lower-casing once |
| MultiSelect.MatchesIgnoresCase | docs/js/multi-select-dropdown.js:150-160 | the filter ignores the case of the term and of the text, and the empty term shows everything |
| MultiSelect.TextOf | docs/js/multi-select-dropdown.js:198-201 | a value's text is the text of the first option with that value, or empty for an unknown value |
| MultiSelect.SharedTextChipRemovesNothing | docs/js/multi-select-dropdown.js:198-219 | as written, two options sharing a text make the item of the second carry the first's value, and removing it removes nothing |
| MultiSelect.SelectedChips | docs/js/multi-select-dropdown.js:198-205 | one item per selected value, carrying that value and its text |
| MultiSelect.DisplayOf | docs/js/multi-select-dropdown.js:194-205 | the placeholder is shown exactly when nothing is selected; otherwise one item per selected value, in order |
| MultiSelect.SameLabelsSameDisplay | docs/js/multi-select-dropdown.js:229-233 | the display depends only on the options' values and texts, not on their native selected flags |
| MultiSelect.SelectedChipRemoves | docs/js/multi-select-dropdown.js:206-219 | every item's remove button takes its own value, and only it, off the selection |
| MultiSelect.DistinctTextsShowSelected | docs/js/multi-select-dropdown.js:198-205 | when no two options share a text the display as written equals the intended one |
| MultiSelect.Populate | docs/js/multi-select-dropdown.js:74-101 | one row per native option with its value, text and selected flag, and the selection is the natively selected values |
| MultiSelect.FilterRows | docs/js/multi-select-dropdown.js:150-160 | a row is hidden exactly when its text does not include the term, ignoring case |
| MultiSelect.MarkRows | docs/js/multi-select-dropdown.js:180-190 | every row is marked or unmarked, nothing else changes |
| MultiSelect.SyncNative | docs/js/multi-select-dropdown.js:229-233 | every native option ends selected exactly when its value is in the selection |
| MultiSelect.FirstRowWith | docs/js/multi-select-dropdown.js:220 | the first row carrying the value, or past the end when none does |
| MultiSelect.MultiSelectDropdown.constructor | docs/js/multi-select-dropdown.js:2-22 | the rows mirror the native options, the selection is the natively selected values and the display shows it |
| MultiSelect.MultiSelectDropdown.FilterOptions | docs/js/multi-select-dropdown.js:150-160 | each row is hidden exactly when its text does not match the term |
| MultiSelect.MultiSelectDropdown.UpdateSelectedDisplay | docs/js/multi-select-dropdown.js:194-214 | the display shows the current selection, each item carrying its own value |
| MultiSelect.MultiSelectDropdown.UpdateNativeSelect | docs/js/multi-select-dropdown.js:229-234 | the native options' selected flags follow the selection, and nothing shown changes |
| MultiSelect.MultiSelectDropdown.ToggleOption | docs/js/multi-select-dropdown.js:162-175 | the row's value is added when absent and removed when present, its mark follows, and the native select and the display follow |
| MultiSelect.MultiSelectDropdown.ToggleSelectAll | docs/js/multi-select-dropdown.js:177-192 | a full selection is emptied, anything else becomes every option's value; every row's mark, the native select and the display follow |
| MultiSelect.MultiSelectDropdown.RemoveSelectedOption | docs/js/multi-select-dropdown.js:216-227 | a selected value is removed and its row unmarked; an unselected value changes nothing |
| ReservationAdmin.StatusLabel | docs/reservation_management/js/script.js:87 | a known status shows its Japanese label, an unknown one itself |
| ReservationAdmin.FilterAppend | docs/reservation_management/js/script.js:75-78 | the filter keeps list order |
| ReservationAdmin.FilterMeaning | docs/reservation_management/js/script.js:75-78 | `all` keeps every reservation; another filter keeps exactly those with that status |
| ReservationAdmin.ActionsMoveForward | docs/reservation_management/js/script.js:89-103 | every offered change moves forward, none leads back to Pending, and the final statuses offer nothing |
| ReservationAdmin.ChainsAreShort | docs/reservation_management/js/script.js:89-103 | following the offered buttons a reservation changes status at most twice |
| ReservationAdmin.RenderReservations | docs/reservation_management/js/script.js:72-103 | the placeholder shows exactly when the filter keeps nothing; otherwise one row per kept reservation |
| ReservationAdmin.PlaceholderOnlyWhenNothingKept | docs/reservation_management/js/script.js:80-83 | under `all` the placeholder shows exactly for an empty list |
| ReservationAdmin.ConfirmMessage | docs/reservation_management/js/script.js:146-154 | a question is asked exactly for the three statuses a button offers |
| ReservationAdmin.ReservationPage.constructor | docs/reservation_management/js/script.js:14-17 | no reservations and no pending change |
| ReservationAdmin.ReservationPage.Loaded | docs/reservation_management/js/script.js:53-57 | a successful fetch replaces the list, a failed one keeps it |
| ReservationAdmin.ReservationPage.OpenConfirmActionModal | docs/reservation_management/js/script.js:141-158 | the change is recorded, the question set and the dialog opened |
| ReservationAdmin.ReservationPage.CloseConfirmActionModal | docs/reservation_management/js/script.js:160-164 | the dialog closes and the recorded change is forgotten |
| ReservationAdmin.ReservationPage.ConfirmClicked | docs/reservation_management/js/script.js:155 | "yes" sends the recorded change and closes the dialog |
| ReservationAdmin.OpenThenConfirm | docs/reservation_management/js/script.js:123-134 | a row's button followed by "yes" sends that row's offered change, which moves the status forward |
| OrderStatus.StatusClass | docs/product_order/js/customer_order_status.js:96 | the class suffix is the status lower-cased character by character with every space turned into a hyphen, so it is as long as the status and contains no space |
| OrderStatus.OptionsTextShape | docs/product_order/js/customer_order_status.js:80-83 | the option text is "group: value" entries joined by ", " |
| OrderStatus.DisplayOrderStatus | docs/product_order/js/customer_order_status.js:67-102 | the shown total is the sum of the line totals, each item is shown in order, and the placeholder shows exactly for no items |
| OrderStatus.SumItemTotalsAppend | docs/product_order/js/customer_order_status.js:71-78 | the total of two lists of lines is the sum of their totals |
| OrderStatus.MissingAdjustmentIsZero | docs/product_order/js/customer_order_status.js:75 | a missing adjustment counts as 0 |
| OrderStatus.OrderStatusDialog.constructor | docs/product_order/js/customer_order_status.js:132-136 | a stored empty id counts as none; a stored id is filled in, the loading text shows and the details are empty |
| OrderStatus.OrderStatusDialog.CheckClicked | docs/product_order/js/customer_order_status.js:113-123 | an id that trims to nothing is refused with a message and the stored id stays; otherwise the trimmed id is stored and looked up, the loading text shows; the details are cleared either way |
| OrderStatus.OrderStatusDialog.OpenOrderStatusModal | docs/product_order/js/customer_order_status.js:11-24 | opening looks up the stored id, if there is one: it is filled in, the loading text shows and the details are cleared; without one nothing but the open flag changes |
| OrderStatus.OrderStatusDialog.ShowLookupResult | docs/product_order/js/customer_order_status.js:49-62 | a found order is shown in the details and the result line is emptied; no order gives the "not found" text with the id; a failure gives the error text with its message |
| OrderStatus.OrderStatusDialog.OrderPlaced | docs/product_order/js/script.js:505-508 | a successful order with an id stores that id as the one the dialog looks up next; any other reply keeps the stored id |
| OrderStatus.OrderThenOpen | docs/product_order/js/script.js:505-508 | after a successful order, opening the status dialog fills in and looks up the new order's id |
| OrderStatus.OrderStatusDialog.CloseOrderStatusModal | docs/product_order/js/customer_order_status.js:27-34 | closing clears the result, the details and the input |
| DynamicForm.SortByOrder | docs/js/dynamic_form_common.js:39 | the questions end sorted by order number, as a permutation of the original |
| DynamicForm.InsertLast | docs/js/dynamic_form_common.js:39 | one insertion step extends the sorted prefix by one and permutes the array |
| DynamicForm.SwapStep | docs/js/dynamic_form_common.js:39 | swapping the moving question with a larger predecessor keeps the rest ascending, the exception moving one place down |
| DynamicForm.SortedExceptStops | docs/js/dynamic_form_common.js:39 | once the moving question is at the front or behind a predecessor not larger, the prefix ascends |
| DynamicForm.Dashed | docs/js/dynamic_form_common.js:146 | every white-space character of an option text becomes a dash, nothing else changes |
| DynamicForm.ControlForKnown | docs/js/dynamic_form_common.js:51-175 | a question gets a control exactly when its input type is known |
| DynamicForm.GroupsFollowKnownQuestions | docs/js/dynamic_form_common.js:39-177 | one form group per question of known type, in order, each with the question's key, label and control |
| DynamicForm.SelectOptions | docs/js/dynamic_form_common.js:106-136 | a select is multiple exactly for the room page's equipment; otherwise it offers the prompt and then each option, as equipment each option only |
| DynamicForm.SelectForOptions | docs/js/dynamic_form_common.js:106-136 | the select of a question offers the prompt and its options, or for the equipment list its options only and multiple |
| DynamicForm.ChoiceChecks | docs/js/dynamic_form_common.js:137-171 | one button per option, a radio button checked exactly when the initial value is its text and a check box exactly when the initial list includes it; with distinct texts at most one radio button is checked |
| DynamicForm.ChoicesForChecks | docs/js/dynamic_form_common.js:137-171 | the choice group has one item per option text, checked exactly as the initial value says |
| DynamicForm.InputAttributes | docs/js/dynamic_form_common.js:51-96 | an input gets the page-specific attributes: 30- or 15-minute time steps, counters from 1 on the room page, an age from 0 to 15 on the childcare page, none elsewhere |
| DynamicForm.RenderDynamicQuestions | docs/js/dynamic_form_common.js:31-189 | the questions are sorted in place and the form groups follow them |
| DynamicForm.CheckedValues | docs/js/dynamic_form_common.js:206-207 | the values of exactly the checked inputs of that name |
| DynamicForm.FirstCheckedValue | docs/js/dynamic_form_common.js:209-210 | the first checked value of that name, or empty |
| DynamicForm.GetDynamicQuestionsData | docs/js/dynamic_form_common.js:196-222 | the loop collects the answer of every question whose element exists, stopping when one cannot be read |
| DynamicForm.NoneStaysNone | docs/js/dynamic_form_common.js:216 | once an answer cannot be read, nothing is collected |
| DynamicForm.CollectedSome | docs/js/dynamic_form_common.js:196-222 | on a page where every answer can be read, data is collected |
| DynamicForm.CollectedKeys | docs/js/dynamic_form_common.js:198-219 | the data holds exactly the keys of the questions whose element exists |
| DynamicForm.AsksKeySnoc | docs/js/dynamic_form_common.js:198-219 | a list of questions asks a key exactly when its front does or its last question has it |
| DynamicForm.CollectedLastWins | docs/js/dynamic_form_common.js:219 | a key's answer is the answer of the last question with that key |
| DynamicForm.MissingElementLeftOut | docs/js/dynamic_form_common.js:199-203 | a question whose element is missing adds nothing |

## Left out

- Network calls are not modelled. This covers `fetch` and the PHP/Apps Script endpoints: loading products, orders, reservations and questions, posting orders and status changes, and login checks. Their replies are parameters of the model instead.
- The DOM is not modelled: `innerHTML` markup, modal display styles, loading overlays, snackbars and `toLocaleString` formatting. The model keeps the state those pages show.
- `parseInt` is modelled for decimal text only. A `0x` prefix and precision loss on very long digit runs are not modelled, and floating point does not appear.
- Dates are year/month/day values in the proleptic Gregorian calendar from 1970. Parsing of date strings, time zones and `Date` objects are not modelled. The clock is a `Now` parameter.
- Timers and polling (`setInterval`, the legacy `setTimeout(closeModal)`), `sessionStorage` beyond the order-status dialog's last id, URL parameters, LINE login and `FileReader` image loading are not modelled.
- The `JSON.parse` of a question's options is not modelled: questions carry their parsed option list.
- `DynamicForm.SortByOrder`: a stable sort by a numeric `order_num` is assumed. The comparator's behaviour on non-numeric values and the engine's sort stability are not modelled.
- `OrderBoard.GroupOrders`: the order of `Object.values` over the grouped orders is not modelled. The model promises which orders are shown and their contents, not their order on the board.
- The ordering page's cart key is the product id followed by the JSON text of the chosen options, `currentProduct.id + JSON.stringify(selectedOptions)`. It is modelled as the `CartKey` datatype, whose equality stands for equality of that joined text. Two different id/options pairs never give the same text, because the options' JSON is `[]` or starts with `[{`.
- The dropdown's open/close toggling, the document click handler that closes it, and the `change` event it dispatches are not modelled.
- `statusMap` lookups of inherited object properties are not modelled: only its four own keys count.
- `OrderBoard.GroupOrders`, `OrderBoard.Reduce`: an order id that names an inherited object property (such as "constructor") would make `acc[orderId]` truthy before its first row. The model treats every id as absent until its first row.
- `LegacyOrder.LegacyCart.SubmitOrder`: the payload lines are in registration order. `Object.values` lists integer-like product ids first, in ascending order, and that reordering is not modelled. The model promises which lines are sent and their contents. The ordering page's cart is not affected: its keys are a product id followed by a JSON array, so they end in `]` and are never integer-like.
- `ProductOrder.ModalEntries`, `ProductOrder.SelectedOptions`: an option's value and price are kept apart instead of in the option element's `value|price` text. `ProductOrder.EntryTextRoundTrip` shows this loses nothing for values without a bar. `ProductOrder.BarInValueCut` shows how a value with a bar is cut.
- `Text.ToLower`: only ASCII letters are lower-cased. JavaScript's full Unicode case mapping, including mappings that change the length, is not modelled. The same holds for `MultiSelect.Matches`, `MultiSelect.FilterRows` and `OrderStatus.StatusClass`, which use it.
- `MultiSelect.MultiSelectDropdown.constructor`: the new dropdown shows the corrected display, `MultiSelect.DisplayOf`, where each item carries its own selected value. The display as written, `MultiSelect.ChipsOf`, differs from it only when two options share a text; see Findings.
- `MultiSelect.MultiSelectDropdown.UpdateSelectedDisplay`: it sets the corrected display, `MultiSelect.DisplayOf`, where each item carries its own selected value. The display as written, `MultiSelect.ChipsOf`, differs from it only when two options share a text; see Findings.
- `MultiSelect.MultiSelectDropdown.ToggleOption`: afterwards the dropdown shows the corrected display, `MultiSelect.DisplayOf`, where each item carries its own selected value. The display as written, `MultiSelect.ChipsOf`, differs from it only when two options share a text; see Findings.
- `MultiSelect.MultiSelectDropdown.ToggleSelectAll`: afterwards the dropdown shows the corrected display, `MultiSelect.DisplayOf`, where each item carries its own selected value. The display as written, `MultiSelect.ChipsOf`, differs from it only when two options share a text; see Findings.
- `MultiSelect.MultiSelectDropdown.RemoveSelectedOption`: afterwards the dropdown shows the corrected display, `MultiSelect.DisplayOf`, where each item carries its own selected value. The display as written, `MultiSelect.ChipsOf`, differs from it only when two options share a text; see Findings.
- The `MultiSelectDropdown` that docs/js/dynamic_form_common.js attaches to the equipment select is not modelled separately. It is the same class, so `MultiSelect.MultiSelectDropdown` covers it.
- `LegacyOrder.LoadError`: an error reply whose text is empty is not an error on the page. `products.error` is then falsy and the object has no length, so the page goes on and fails at `products.forEach`. The model shows the default message instead.
- `ReservationAdmin.ReservationPage.ConfirmClicked`: when no change is recorded the page would send `(null, null)`. The model sends nothing, and the button cannot be reached then because its dialog is closed.
- The first, `async` `initializeReservationForm` in `docs/childcare_reservation/js/script.js` is not modelled. It is replaced by the later declaration of the same name and never runs.
- `multiSelectDropdownInstance.reset`/`update` in the product editor are not modelled. The variable is never assigned, so those calls never run.
- docs/js/store.js, docs/room_reservation/js/script.js and docs/room_reservation/js/line_login.js are not part of this model.
- `ProductOrder.OrderHistoryTotal` returns None where the page would show `NaN`. None stands for a missing adjustment only. A JSON `null` adjustment counts as 0 on the page (`price + null` is `price`), and that case is not modelled. The string concatenation a string-typed amount would cause is not modelled either.

## Findings

| source | as written | input that shows it | evidently intended | confidence | as-written member | corrected member |
|---|---|---|---|---|---|---|
| docs/childcare_reservation/js/script.js:266-318 | before 17:00 the date search starts today, so an open Wednesday prefills today's date, and validation refuses any date not after today | 2025-10-15, a Wednesday, at 10:00: the form shows 2025-10-15, and submitting it is refused as not after today | prefill the first open Wednesday after today, which passes the date rules | not executed; medium | Childcare.SameDayPrefillRejected | Childcare.InitializeReservationFormFromTomorrow |
| docs/js/multi-select-dropdown.js:198-219 | the display maps each selected value to its text and then maps the text back to the first option with that text, so the item carries that option's value | options `a`/"X" and `b`/"X" with `b` selected: the item carries `a`, and its remove button removes nothing | each item carries its own selected value, so its remove button removes it | not executed; high | MultiSelect.SharedTextChipRemovesNothing | MultiSelect.SelectedChipRemoves |
