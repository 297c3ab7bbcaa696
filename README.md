# joycy.bakery — a verified model of the storefront's decision rules

The bakery storefront is a React client over a hosted document store plus one cloud
function that relays the contact form by email. Almost everything it does is a remote
read or write followed by rendering. This project models, in Dafny, the rules that sit
between those calls:

- the staff order console: the loaded list sorted newest first, the status filter and
  its button counts, the forward-only status actions, and targeted update and delete
  (`OrderManagement`);
- the staff vacation console: the end-before-start check, the list sorted by start date,
  the inclusive day count, and the past / current / upcoming classification
  (`VacationManagement`);
- the order calendar: one event per order, dated by delivery date, else creation time,
  else the time of loading, plus the details panel's selection (`CalendarView`);
- the team console: the name-and-role check, the record written (empty contacts stored
  as null, empty schedule), the list sorted newest first, reset and delete (`TeamManagement`);
- the public catalogue: available products only, then the category buttons (`Products`);
- the custom-order page: the submission check, the cart line built, the reset, and the
  quantity and price input coercions (`Personnalisation`);
- the `sendContactEmail` cloud function: the field check before the configuration check,
  the mail built for the transport, and the result or error returned (`ContactFunction`).

Shared pieces:

- `Types` holds the records of `src/types/index.ts`.
- `Seqs` holds `Array.prototype.filter` and facts about subsequences and unique document ids.
- `StableSort` holds the stable sort that `Array.prototype.sort` performs with a numeric
  comparator. `InsertionSort` is its specification. `SortInPlace` sorts an array in place
  and is proved to produce exactly `InsertionSort`'s result.

How the model represents the system:

- The three admin consoles that write (orders, vacations, team members) are classes. Each
  one's document collection is its field `store`, in the order a full fetch returns it.
  The list it displays is a separate field.
- In those consoles, a load fetches `store`, copies it into an array, sorts that array in
  place and assigns the result.
- Firestore's write calls (`addDoc`, `updateDoc`, `deleteDoc`) become updates of `store`.
- The catalogue page and the calendar only read. Their state is a datatype (`Page`,
  `CalendarState`), and the fetched list is a parameter of a pure `Loaded` function.
  Nothing is sorted there: the catalogue filters the fetch to the available products,
  and the calendar maps each order to one event.
- The position at which a new document appears in later fetches is chosen by the
  database, so it is a parameter `at`.
- Dates are integer milliseconds since the epoch.
- Order totals are integer cents.
- The custom-order price is a `real`.

## Model

| member | source | states |
|---|---|---|
| OrderManagement.NextAction | src/components/admin/OrderManagement.tsx:158-181 | an advance action is offered exactly for pending, confirmed and ready orders; it moves one step forward and never writes cancelled or pending |
| OrderManagement.RunAdvancesRank | src/components/admin/OrderManagement.tsx:158-181 | pressing the offered actions n times moves an order exactly n steps along pending → confirmed → ready → completed |
| OrderManagement.NeverCancelled | src/components/admin/OrderManagement.tsx:158-181 | no non-empty sequence of offered actions produces cancelled |
| OrderManagement.PendingToCompleted | src/components/admin/OrderManagement.tsx:158-181 | from pending the actions pass through confirmed and ready and reach completed after exactly three presses and no other number |
| OrderManagement.StatusColor | src/components/admin/OrderManagement.tsx:64-73 | each status badge colour is a `#rrggbb` text: `#` followed by six lower-case hexadecimal digits |
| OrderManagement.StatusColorsDistinct | src/components/admin/OrderManagement.tsx:64-73 | distinct statuses get distinct colours |
| OrderManagement.FilterOrders | src/components/admin/OrderManagement.tsx:60-62 | 'all' returns the list unchanged; a status filter returns only orders of that status, all drawn from the list |
| OrderManagement.FilterOrdersExact | src/components/admin/OrderManagement.tsx:60-62 | a status filter keeps exactly the orders of that status, with their multiplicities, in their original relative order; cancelled orders appear only under 'all' |
| OrderManagement.ButtonCount | src/components/admin/OrderManagement.tsx:91-115 | each filter button's number is the length of that filter's result and at most the 'all' count |
| OrderManagement.CountsPartition | src/components/admin/OrderManagement.tsx:91-115 | the four status buttons plus the cancelled orders add up to the 'all' button |
| OrderManagement.NewestFirst | src/components/admin/OrderManagement.tsx:23-27 | the loaded list is a permutation of the fetched list in descending `createdAt.seconds`, a missing timestamp counting as 0 |
| OrderManagement.NewestFirstKeepsTies | src/components/admin/OrderManagement.tsx:23-27 | orders with equal time, including all those without a timestamp, keep their fetch order |
| OrderManagement.SetStatus | src/components/admin/OrderManagement.tsx:37-42 | a status update changes only `status` and `updatedAt` of the orders with that id; every other field and every other order is unchanged |
| OrderManagement.RemoveOrder | src/components/admin/OrderManagement.tsx:49-53 | after a delete no order has that id and every remaining order was in the collection |
| OrderManagement.RemoveOrderExact | src/components/admin/OrderManagement.tsx:49-53 | a delete removes exactly the order with that id: all others stay, in order, and the count drops by one exactly when the id was present |
| OrderManagement.OrderManagement.constructor | src/components/admin/OrderManagement.tsx:7-9 | the console starts with an empty list, loading, filter 'all' |
| OrderManagement.OrderManagement.LoadOrders | src/components/admin/OrderManagement.tsx:15-35 | the list becomes the in-place newest-first sort of the collection and loading ends; the collection and filter are unchanged |
| OrderManagement.OrderManagement.FilteredOrders | src/components/admin/OrderManagement.tsx:60-62 | under 'all' the loaded list is shown; under a status filter exactly the loaded orders of that status, never a cancelled one |
| OrderManagement.OrderManagement.SetFilter | src/components/admin/OrderManagement.tsx:87-116 | a filter button sets the filter and nothing else |
| OrderManagement.OrderManagement.UpdateOrderStatus | src/components/admin/OrderManagement.tsx:37-47 | for a known id the collection gets the targeted status update and the list is reloaded; for an unknown id the write fails and nothing changes |
| OrderManagement.OrderManagement.AdvanceOrder | src/components/admin/OrderManagement.tsx:158-181 | for an order with a next action, that status and the update time are written to it and the list reloaded, loading off; without an action, or for an id the collection lacks, nothing changes; the filter is kept; no order becomes cancelled |
| OrderManagement.OrderManagement.DeleteOrder | src/components/admin/OrderManagement.tsx:49-58 | declining the confirmation changes nothing; accepting removes that order, reloads the list newest first and ends loading |
| StableSort.SortInPlace | src/components/admin/OrderManagement.tsx:23-27 | the in-place sort rearranges the array into exactly the stable ascending insertion-sort order of its key |
| StableSort.InsertionSortPermutes | src/components/admin/VacationManagement.tsx:29-31 | sorting is a permutation of its input |
| StableSort.InsertionSortSorted | src/components/admin/VacationManagement.tsx:29-31 | the sorted result is in ascending key order |
| StableSort.InsertionSortStable | src/components/admin/TeamManagement.tsx:30-32 | elements with equal keys keep their original relative order |
| StableSort.InsertionSortOfSorted | src/components/admin/TeamManagement.tsx:30-32 | sorting an already ordered list leaves it unchanged |
| VacationManagement.Duration | src/components/admin/VacationManagement.tsx:94-99 | the day count is at least 1 and is one more than the ceiling of the distance in days |
| VacationManagement.DurationSymmetric | src/components/admin/VacationManagement.tsx:94-99 | the count ignores which date comes first and is 1 exactly when the dates coincide |
| VacationManagement.DurationOfWholeDays | src/components/admin/VacationManagement.tsx:97-98 | for dates d whole days apart the count is \|d\| + 1, an inclusive count |
| VacationManagement.CardPhase | src/components/admin/VacationManagement.tsx:170-175 | the card says past exactly when `isPast`, current exactly when `isCurrent`; for start ≤ end it says upcoming exactly when `isUpcoming`, and past and upcoming never hold together |
| VacationManagement.LastDayShownAsPast | src/components/admin/VacationManagement.tsx:170 | for every vacation of whole days, at every moment after the UTC midnight that starts its end day and before that day ends, the card says past, although that moment lies within the days its own duration counts |
| VacationManagement.CardPhaseInclusive | src/components/admin/VacationManagement.tsx:170-172 | with the end day counted inclusively, a vacation is current exactly from its start until its end day is over |
| VacationManagement.CurrentExactlyDuringDuration | src/components/admin/VacationManagement.tsx:94-99 | with the inclusive end, a vacation is current exactly during the `getDuration` days from its start |
| VacationManagement.EarliestFirst | src/components/admin/VacationManagement.tsx:29-31 | the loaded list is a permutation of the fetched list in ascending start date |
| VacationManagement.EarliestFirstKeepsTies | src/components/admin/VacationManagement.tsx:29-31 | vacations starting on the same date keep their fetch order |
| VacationManagement.NewVacation | src/components/admin/VacationManagement.tsx:50-55 | the written vacation has the form's start and end dates (start ≤ end), the entered reason, the given id and the server's creation time |
| VacationManagement.SameDayAccepted | src/components/admin/VacationManagement.tsx:44 | an end date equal to the start date passes the strict check and lasts one day |
| VacationManagement.VacationManagement.constructor | src/components/admin/VacationManagement.tsx:7-15 | the console starts empty, loading, with the form hidden and empty |
| VacationManagement.VacationManagement.LoadVacations | src/components/admin/VacationManagement.tsx:21-39 | the list becomes the in-place start-date sort of the collection and loading ends |
| VacationManagement.VacationManagement.ToggleForm | src/components/admin/VacationManagement.tsx:111 | the header button flips the form's visibility and nothing else |
| VacationManagement.VacationManagement.ResetForm | src/components/admin/VacationManagement.tsx:76-83 | all three fields become empty and the form is hidden |
| VacationManagement.VacationManagement.HandleSubmit | src/components/admin/VacationManagement.tsx:41-63 | an end before the start is rejected with no write and no change, loading included; otherwise exactly one vacation is written, the form reset, the list reloaded and loading ended |
| VacationManagement.VacationManagement.DeleteVacation | src/components/admin/VacationManagement.tsx:65-74 | declining the confirmation changes nothing; accepting removes that vacation, reloads the list and ends loading |
| CalendarView.DecimalRoundTrip | src/components/admin/CalendarView.tsx:48 | the decimal text of a number reads back as that number |
| CalendarView.FormatCents | src/components/admin/CalendarView.tsx:48 | `toFixed(2)` yields digits, a point and exactly two decimals |
| CalendarView.FormatCentsRoundTrip | src/components/admin/CalendarView.tsx:48 | the amount text reads back as exactly the order's total |
| CalendarView.EventDate | src/components/admin/CalendarView.tsx:40-44 | the date is the delivery date if set, else the creation seconds × 1000 if non-zero, else the time of loading |
| CalendarView.TitleShowsOrder | src/components/admin/CalendarView.tsx:48 | the title starts with the customer's email, shows the total, and ends with the status in parentheses |
| CalendarView.ToEvent | src/components/admin/CalendarView.tsx:46-53 | the event has the order's id as id and orderId, type order, and start equal to end equal to the event date |
| CalendarView.EventsFor | src/components/admin/CalendarView.tsx:39 | exactly one event per order, in the orders' order |
| CalendarView.EventsMatchOrders | src/components/admin/CalendarView.tsx:39-54 | every event is a single instant of its own order |
| CalendarView.EventsForAppend | src/components/admin/CalendarView.tsx:39 | the events of a concatenation are the concatenation of the events |
| CalendarView.Loaded | src/components/admin/CalendarView.tsx:56-60 | loading stores the events and ends loading, keeping the selection |
| CalendarView.FirstLoad | src/components/admin/CalendarView.tsx:23-28 | the calendar mounts empty, loading and with nothing selected; its first load shows one event per fetched order, ends loading and still selects nothing |
| CalendarView.SelectEvent | src/components/admin/CalendarView.tsx:64-66 | selecting an event shows that event and changes nothing else |
| CalendarView.CloseDetails | src/components/admin/CalendarView.tsx:114-119 | closing clears the selection and changes nothing else |
| CalendarView.CloseUndoesSelect | src/components/admin/CalendarView.tsx:64-66 | when no event was shown before, closing right after selecting returns to the state before the selection |
| TeamManagement.OrNull | src/components/admin/TeamManagement.tsx:53-54 | an optional contact is stored as null exactly when it is empty |
| TeamManagement.OrNullRoundTrip | src/components/admin/TeamManagement.tsx:53-54 | the stored contact reads back as the text entered, and is never the empty text |
| TeamManagement.NewMember | src/components/admin/TeamManagement.tsx:50-56 | the written member has name and role as entered (both non-empty), contacts as entered or null, and an empty schedule |
| TeamManagement.NewestFirst | src/components/admin/TeamManagement.tsx:30-32 | the loaded list is a permutation of the fetched list in descending `createdAt.seconds` |
| TeamManagement.NewestFirstKeepsTies | src/components/admin/TeamManagement.tsx:30-32 | members created in the same second keep their fetch order |
| TeamManagement.TeamManagement.constructor | src/components/admin/TeamManagement.tsx:7-16 | the console starts empty, loading, with the form hidden and empty |
| TeamManagement.TeamManagement.LoadTeamMembers | src/components/admin/TeamManagement.tsx:22-39 | the list becomes the in-place newest-first sort of the collection and loading ends |
| TeamManagement.TeamManagement.ToggleForm | src/components/admin/TeamManagement.tsx:101-102 | the header button flips the form's visibility and nothing else |
| TeamManagement.TeamManagement.ResetForm | src/components/admin/TeamManagement.tsx:83-91 | all four fields become empty and the form is hidden |
| TeamManagement.TeamManagement.HandleSubmit | src/components/admin/TeamManagement.tsx:41-66 | an empty name or role is rejected with no write and no change, loading included; otherwise exactly one member is written, the form reset, the list reloaded newest first and loading ended |
| TeamManagement.TeamManagement.DeleteMember | src/components/admin/TeamManagement.tsx:68-81 | declining the confirmation changes nothing; accepting removes that member, reloads the list newest first and ends loading |
| Products.LoadProducts | src/pages/Products.tsx:23 | the kept products are exactly the available fetched ones, each as often as fetched, in fetch order |
| Products.FilteredProducts | src/pages/Products.tsx:33-35 | 'all' shows the loaded list; any other category shows exactly the loaded products of that category, each as often as loaded, in order |
| Products.FilteredProductsIdempotent | src/pages/Products.tsx:33-35 | applying the same category filter twice gives the same list |
| Products.DisplayedFromFetched | src/pages/Products.tsx:23-35 | what is displayed is a subsequence of the fetched list and consists of available products |
| Products.AdminCategoryListedOnlyUnderAll | src/pages/Products.tsx:31-35 | a product carrying one of the administration form's category values is listed under 'all' and under no category button |
| Products.Loaded | src/pages/Products.tsx:15-29 | loading stores the available products and ends loading, keeping a valid selection valid |
| Products.SelectCategory | src/pages/Products.tsx:50-58 | a button click makes the clicked category, one of the five fixed ones, the selection and changes nothing else |
| Products.FirstLoadShowsAllAvailable | src/pages/Products.tsx:9 | on first load 'all' is selected and every available product is shown |
| Personnalisation.TypeNameInjective | src/pages/Personnalisation.tsx:14 | only the empty option has empty text, and distinct product types have distinct texts |
| Personnalisation.CustomLine | src/pages/Personnalisation.tsx:24-31 | the cart line has type custom, the name "<type> - <creation name>", the form's positive price, the form's quantity and customization, and the product type as description |
| Personnalisation.CustomLineName | src/pages/Personnalisation.tsx:26 | the line's name is the type, " - ", then the creation's name |
| Personnalisation.CustomLineNameInjective | src/pages/Personnalisation.tsx:26 | the name determines the type and the creation's name |
| Personnalisation.CoerceQuantity | src/pages/Personnalisation.tsx:121 | an unparsable or zero quantity becomes 1; any other integer, negatives included, passes through |
| Personnalisation.CoercePrice | src/pages/Personnalisation.tsx:133 | an unparsable price becomes 0; any other number passes through |
| Personnalisation.UnparsablePriceBlocksSubmit | src/pages/Personnalisation.tsx:19 | after an unparsable or zero price input the form cannot be submitted |
| Personnalisation.ResetFormRejected | src/pages/Personnalisation.tsx:36-42 | the reset form is rejected until filled again |
| Personnalisation.Personnalisation.constructor | src/pages/Personnalisation.tsx:6-12 | the form starts with no type, empty name, quantity 1, empty customization, price 0 |
| Personnalisation.Personnalisation.HandleSubmit | src/pages/Personnalisation.tsx:16-43 | with the quantity the browser's `min="1"` allows, a form with no type, no name or a price ≤ 0 is rejected and nothing changes; otherwise exactly one line, with a quantity of at least 1, goes to the cart and the form is reset |
| Personnalisation.Personnalisation.OnQuantityInput | src/pages/Personnalisation.tsx:121 | the quantity becomes the coerced input; nothing else changes |
| Personnalisation.Personnalisation.OnPriceInput | src/pages/Personnalisation.tsx:133 | the price becomes the coerced input; nothing else changes |
| Personnalisation.Personnalisation.OnTypeInput | src/pages/Personnalisation.tsx:94 | the type becomes the option chosen; nothing else changes |
| Personnalisation.Personnalisation.OnNameInput | src/pages/Personnalisation.tsx:109 | the creation name becomes the text entered; nothing else changes |
| Personnalisation.Personnalisation.OnCustomizationInput | src/pages/Personnalisation.tsx:144 | the customization becomes the text entered; nothing else changes |
| ContactFunction.OrElse | functions/src/index.ts:45 | `a \|\| b` gives a when it is a non-empty text, else b |
| ContactFunction.ReplaceNewlines | functions/src/index.ts:55 | no line break remains, and the text grows by three characters per line break |
| ContactFunction.ReplaceNewlinesAtBreak | functions/src/index.ts:55 | a line break becomes `<br>` in place: the text before it is kept and the rest is replaced in turn |
| ContactFunction.ReplaceNewlinesKeepsPlainText | functions/src/index.ts:55 | a message without line breaks is sent as written |
| ContactFunction.ReplaceNewlinesAppend | functions/src/index.ts:55 | replacing distributes over concatenation |
| ContactFunction.HtmlShowsPhoneAndMessage | functions/src/index.ts:48-58 | the body has the phone line, showing "Not provided" when no phone was given, and the message paragraph with breaks replaced |
| ContactFunction.MailFor | functions/src/index.ts:43-59 | from is the config user, to is the recipient if set else the user, replyTo is the submitter, the subject is prefixed with "Contact Form: ", the body is the filled template |
| ContactFunction.SendContactEmail | functions/src/index.ts:15-72 | missing name, email, subject or message gives invalid-argument; else missing config, user or pass gives failed-precondition; else the mail is handed over and success or internal follows its delivery |
| ContactFunction.FieldsCheckedBeforeConfig | functions/src/index.ts:19-33 | invalid input gives the same invalid-argument outcome whatever the configuration |
| ContactFunction.PhoneOptional | functions/src/index.ts:19-24 | with valid fields and configuration a call without phone still sends, with "Not provided" in the body |
| Seqs.FilterIsSubsequence | src/pages/Products.tsx:35 | a filter result is a subsequence of its input |
| Seqs.SubsequenceTransitive | src/pages/Products.tsx:23-35 | a subsequence of a subsequence is a subsequence |
| Seqs.FilterIdempotent | src/pages/Products.tsx:35 | filtering twice by the same predicate equals filtering once |
| Seqs.RemoveKeyExact | src/components/admin/TeamManagement.tsx:74 | removing a unique id keeps every other element, in order, and shrinks by one exactly when the id was present |

## Left out

- Firestore itself is not modelled. Queries, snapshots, network failures and the `catch`
  branches that only log or alert are left out. A write to a missing order id is the one
  failure modelled: nothing changes.
- `serverTimestamp()` and the document id chosen by `addDoc` are parameters, and so is the
  position at which the new document appears in later fetches.
- Two admins editing at once (last write wins) is not modelled.
- Firebase Auth, routing, tab switching and all JSX rendering are not modelled. So are the
  react-big-calendar widget and its date-fns localizer, `alert` and `confirm` dialogs
  (`confirm` is a boolean parameter).
- Parsing date texts with `new Date(text)` and time zones are not modelled. Dates are
  already-parsed milliseconds, and the vacation form's empty date input is `None`.
- `toLocaleString`, `toLocaleDateString` and `formatDate` are not modelled.
- `toFixed(2)` is modelled only for totals that are whole cents.
- Floating-point rounding is not modelled. The custom-order price is a `real`, and NaN is
  the `None` of a parse.
- Comparators that meet NaN or a missing `createdAt` on a team member are not modelled.
  In the source such a comparison yields NaN or throws.
- OrderManagement.OrderManagement.UpdateOrderStatus: an order id that occurs twice in the
  collection is excluded by the invariant that document ids are unique, which Firestore
  guarantees.
- CalendarView.EventDate: `new Date()` is evaluated once per order in the source, but the
  model uses one time `now` for the whole load.
- Personnalisation.Personnalisation.HandleSubmit: the browser's checks on the inputs are
  modelled only for the quantity's `min="1"`, as a precondition. The price input's
  `min="0"` and `step="0.01"` are not modelled, so a price with more than two decimals is
  accepted. The `required` attributes add nothing to the handler's own check.
- The cart manager (`src/context/CartContext`) is not part of this model. The lines given
  to its `addToCart` are recorded in `sentToCart`.
- The nodemailer transport and `sendMail` are not modelled. Whether a mail is delivered is
  the parameter `delivers`.
- The per-day overlap view of orders, deliveries and vacations is not modelled. The
  system's design describes it, but `CalendarView.tsx` only maps each order to one event,
  and the model follows that code.
- Home, Bio, Promotions and Contact pages are not modelled: they are static or only
  simulate sending.
- The product administration form, the data list and the seeding script are not modelled:
  they are plain form binding plus CRUD.

## Findings

| source | as written | input that shows it | evidently intended | confidence | as-written member | corrected member |
|---|---|---|---|---|---|---|
| src/components/admin/VacationManagement.tsx:170 | `isPast` compares the end date, which parses to UTC midnight at the start of the end day, with now, so the vacation is "past" for the whole of its last day (in a time zone west of UTC, such as the shop's, from the evening before it) | start day 0, end day 10 (duration 11 days), now = day 10 at noon UTC: `CardPhase` says Past | a vacation is current until its inclusive end day is over, as `getDuration` counts it | medium, not executed | VacationManagement.LastDayShownAsPast | VacationManagement.CurrentExactlyDuringDuration |
