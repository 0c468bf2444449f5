# Restaurant front end: cart, product list, user admin and error texts in Dafny

This project models the logic inside four parts of a restaurant web front end (React) and proves properties of it:

- **Product page** (`src/pages/ProductDetails.jsx`):
  - the quantity counter;
  - the add-on selection (a map from add-on group id to the chosen option ids), with single-choice replace and multiple-choice toggle;
  - the price computation;
  - the add-to-cart handler. It refuses an inactive product or a missing required group. Otherwise it merges into a line with the same product and an identical selection, or appends a new line;
  - the add-on groups built from the fetched menu item;
  - weekday names and Arabic-Indic digits.
- **Home page** (`src/pages/Home.jsx`):
  - the quick-add cart;
  - the product search;
  - the local list updates after an active-status flip or a delete.
- **User administration** (`src/pages/AdminUsers.jsx`):
  - form validity and form reset;
  - the user search;
  - the "signed-in user first" ordering;
  - role toggle, role assignment and the roles still offered;
  - the local list updates after a delete or a status change.
- **Error translation** (`src/utils/ErrorTranslator.js`): the Arabic text shown for a failed request's error payload.

Modules:

| module | contents |
|---|---|
| `Wrappers` | Option |
| `Seqs` | filter, map, the "remove if present, append if absent" toggle, sums |
| `Text` | ASCII lower-casing, substring test, trimming |
| `Locale` | day names, Arabic-Indic digits |
| `Selection` | the add-on selection |
| `Pricing` | the price computation |
| `ProductCart` | the product page's cart; `ProductView` is a class whose fields are the page's state and whose methods are its handlers |
| `Home` | the home page |
| `AdminUsers` | the user administration page |
| `ErrorTranslator` | the error translation |

Modelling choices:

- Prices are whole minor units (`int`).
- A selection is a `map<int, seq<int>>`. Group ids are taken to be array-index integers (0 to 4294967294). JavaScript lists such keys in ascending order, so two selections then serialise to the same JSON text exactly when they are equal maps. The price loops visit groups in that same ascending order.
- `getDayName` appears identically in `ProductDetails.jsx:163-174` and `Home.jsx:176-187`. It is modelled once, as `Locale.DayName`.
- Handlers that follow a server request model only the local state change after the request succeeds. The server's data is a parameter.

## Model

| member | source | states |
|---|---|---|
| Selection.ModeOf | src/pages/ProductDetails.jsx:185-190 | only the type "single" replaces; every other type toggles |
| Selection.SelectAddon | src/pages/ProductDetails.jsx:185-209 | no other group changes; single sets the group to exactly [option]; multiple removes a chosen option and appends one that is not chosen; a present group is never empty; no-empty-group and no-duplicate shape are preserved |
| Selection.ToggleTwiceRestoresSelection | src/pages/ProductDetails.jsx:191-205 | toggling an unchosen option twice gives back the selection, whether or not the group existed |
| Selection.ClicksKeepSelectionWellFormed | src/pages/ProductDetails.jsx:185-209 | from `{}`, no series of clicks leaves an empty group or a repeated option |
| Pricing.FindOption | src/pages/ProductDetails.jsx:219 | the result is the first option with that id; none exactly when no option has it |
| Pricing.SelectionChargeOf | src/pages/ProductDetails.jsx:216-225 | the outer loop visits the groups in ascending key order and adds each group's chosen-id charge, which is the selection's surcharge |
| Pricing.ListChargeOf | src/pages/ProductDetails.jsx:217-224 | the middle loop adds the charge of every chosen id of one group |
| Pricing.OptionChargeOf | src/pages/ProductDetails.jsx:218-223 | the inner loop adds, for every group whose options hold the id, the first such option's price times the multiplier |
| Pricing.CalculateTotalPrice | src/pages/ProductDetails.jsx:211-228 | 0 without a product; otherwise price times quantity plus the surcharges, which equals quantity times the unit price |
| Pricing.TotalIsQuantityTimesUnitPrice | src/pages/ProductDetails.jsx:211-228 | the total at any quantity is that quantity times (base price + surcharges at quantity 1) |
| Pricing.SelectionChargeLinear | src/pages/ProductDetails.jsx:214-225 | surcharges at quantity q are q times the surcharges at quantity 1 |
| Pricing.OptionChargeLinear | src/pages/ProductDetails.jsx:218-223 | one id's charge over all groups is linear in the quantity |
| Pricing.ListChargeLinear | src/pages/ProductDetails.jsx:217-224 | one group's id list's charge is linear in the quantity |
| Pricing.AppendLargerKey | src/pages/ProductDetails.jsx:216 | visiting one more group, with a larger key, adds exactly that group's charge |
| Pricing.EmptySelectionCostsBasePrice | src/pages/ProductDetails.jsx:214 | with nothing chosen the total is price times quantity |
| Pricing.UnknownOptionAddsNothing | src/pages/ProductDetails.jsx:219-222 | an id found in no group adds nothing |
| Pricing.TotalNonNegative | src/pages/ProductDetails.jsx:211-228 | with non-negative prices the total is never negative |
| Pricing.SelectionChargeNonNegative | src/pages/ProductDetails.jsx:216-225 | non-negative option prices give non-negative surcharges |
| Pricing.ListChargeNonNegative | src/pages/ProductDetails.jsx:217-224 | non-negative option prices give a non-negative charge for a group's ids |
| Pricing.OptionChargeNonNegative | src/pages/ProductDetails.jsx:218-223 | non-negative option prices give a non-negative charge for one id |
| Pricing.WorkedExample | src/pages/ProductDetails.jsx:211-228 | base 50, quantity 2 and one option of price 10 cost 120 |
| ProductCart.Increment | src/pages/ProductDetails.jsx:181 | the quantity grows, with no upper bound |
| ProductCart.Decrement | src/pages/ProductDetails.jsx:182-183 | never below 1; one less when above 1 |
| ProductCart.QuantityStepsUndo | src/pages/ProductDetails.jsx:181-183 | minus undoes plus from any valid quantity; plus undoes minus above 1; minus at 1 stays at 1 |
| ProductCart.TransformAddons | src/pages/ProductDetails.jsx:79-91 | one group per fetched type, in order, titled by its name, "multiple" and not required; options keep id, name and price; nothing fetched gives no groups |
| ProductCart.FetchedGroupsNeverMissing | src/pages/ProductDetails.jsx:79-91 | fetched groups never trip the required-group check and always toggle |
| ProductCart.FindLine | src/pages/ProductDetails.jsx:277-281 | the first line with the product's id and an identical selection, or none when no line has both |
| ProductCart.MissingRequired | src/pages/ProductDetails.jsx:245-248 | exactly the required groups with no entry in the selection, in their order |
| ProductCart.CartCount | src/pages/ProductDetails.jsx:35 | an empty cart counts 0; non-negative quantities give a non-negative count; with every quantity at least 1 the count is at least the number of lines |
| ProductCart.OutcomeOfAdd | src/pages/ProductDetails.jsx:230-281 | refused as unavailable exactly for an inactive product; refused for missing choices exactly for an active product with a required group unchosen, with one title per such group; otherwise merged into the first line with the same product and selection, or appended when no line has both |
| ProductCart.CartAfterAdd | src/pages/ProductDetails.jsx:269-301 | a refused add leaves the cart as it is; a successful one leaves a line with the product and the selection; the cart grows by at most one line |
| ProductCart.InactiveProductRefused | src/pages/ProductDetails.jsx:231-243 | an inactive product is refused whatever is chosen, and the cart is unchanged |
| ProductCart.MissingRequiredRefused | src/pages/ProductDetails.jsx:245-267 | a required group without an entry is refused, its title is in the warning, and the cart is unchanged |
| ProductCart.MergeChangesOnlyThatLine | src/pages/ProductDetails.jsx:277-299 | a merge keeps the length and every other line; the merged line's quantity grows by the added quantity and its total equals the page total at the new quantity |
| ProductCart.AppendAddsOneLine | src/pages/ProductDetails.jsx:269-301 | without a matching line, exactly one line is appended after the untouched old lines, with the quantity, the selection and the page total |
| ProductCart.AddRaisesCountByQuantity | src/pages/ProductDetails.jsx:35 | every successful add raises the cart count by exactly the added quantity |
| ProductCart.AddingTwiceMerges | src/pages/ProductDetails.jsx:269-301 | adding the same item twice leaves one line holding the sum of the quantities |
| ProductCart.ProductView.constructor | src/pages/ProductDetails.jsx:25-33 | the page starts with nothing chosen, quantity 1 and an empty cart |
| ProductCart.ProductView.IncrementQuantity | src/pages/ProductDetails.jsx:181 | the quantity becomes one more |
| ProductCart.ProductView.DecrementQuantity | src/pages/ProductDetails.jsx:182-183 | the quantity becomes one less, but at least 1 |
| ProductCart.ProductView.SelectOption | src/pages/ProductDetails.jsx:185-209 | the selection becomes the clicked selection and stays well formed |
| ProductCart.ProductView.AddToCart | src/pages/ProductDetails.jsx:230-321 | the outcome and the new cart are those of the add-to-cart rules above; the quantity resets to 1 after a successful add only |
| Locale.DayName | src/pages/ProductDetails.jsx:163-174 | 1..7 give the seven day names, any other number the empty string |
| Locale.DayNamesDistinct | src/pages/Home.jsx:176-187 | different day numbers in 1..7 never share a name |
| Locale.ToArabicNumbers | src/pages/ProductDetails.jsx:176-179 | the length is kept; every ASCII digit becomes an Arabic-Indic digit; every other character is kept |
| Locale.ArabicNumbersRoundTrip | src/pages/ProductDetails.jsx:176-179 | text without Arabic-Indic digits is recovered from its rendering |
| Home.CartCount | src/pages/Home.jsx:718 | an empty cart counts 0; with every quantity at least 1 the count is at least the number of lines |
| Home.QuickAdd | src/pages/Home.jsx:211-237 | an inactive product leaves the cart as it is; the cart grows by one line exactly for an active product not yet in it; every old line keeps its product; afterwards the product has a line exactly when it is active or already had one |
| Home.InactiveNotAdded | src/pages/Home.jsx:214-223 | an inactive product leaves the cart and its count unchanged |
| Home.QuickAddBumpsOnlyItsLine | src/pages/Home.jsx:225-234 | with unique ids, only the product's line changes, and only its quantity, by one |
| Home.QuickAddAppendsNewLine | src/pages/Home.jsx:235-236 | a product not in the cart is appended at the end with quantity 1 |
| Home.QuickAddCountsOne | src/pages/Home.jsx:225-236 | each accepted add raises the item count by exactly one and keeps ids unique |
| Home.SearchProducts | src/pages/Home.jsx:189-205 | an empty term shows all; otherwise an order-preserving subsequence holding exactly the products whose name, description or an ingredient contains the term, ignoring case, each as many times as in the list |
| Home.EmptyTermMatchesAll | src/pages/Home.jsx:189-193 | the empty-term shortcut gives what the filter would |
| Home.SearchIdempotent | src/pages/Home.jsx:195-204 | searching the result again changes nothing |
| Home.ToggleActive | src/pages/Home.jsx:300-306 | isActive flips exactly for the products with the id; nothing else changes |
| Home.ToggleActiveTwice | src/pages/Home.jsx:300-306 | flipping twice restores the list |
| Home.ToggleKeepsSearchConsistent | src/pages/Home.jsx:300-314 | flipping the shown list equals searching the flipped list |
| Home.DeleteProduct | src/pages/Home.jsx:270 | the products with the id are gone; every other product stays, as many times as before, in order |
| Home.DeleteKeepsSearchConsistent | src/pages/Home.jsx:270 | searching after a delete equals deleting from the search result |
| AdminUsers.IsFormValid | src/pages/AdminUsers.jsx:50-62 | valid exactly when names and email are non-blank, there is a role, and, when not adding, the password is non-blank |
| AdminUsers.IsFormValidCorrected | src/pages/AdminUsers.jsx:50-62 | the same, but the password is demanded when adding |
| AdminUsers.BlankPasswordAcceptedWhileAdding | src/pages/AdminUsers.jsx:57-59 | a form with a blank password passes as written while adding, and fails the corrected test |
| AdminUsers.CorrectedAgreesOnNonBlankPassword | src/pages/AdminUsers.jsx:50-62 | both tests agree whenever the password is filled in |
| AdminUsers.SubmitEnabled | src/pages/AdminUsers.jsx:945 | the button uses the test as written: enabled means names, email and a role are filled in, and the password too only when not adding |
| AdminUsers.BlankPasswordEnablesSubmit | src/pages/AdminUsers.jsx:57-59 | while adding, a form with names, email and a role enables the button even with a blank password, which the corrected test refuses |
| AdminUsers.ToggleFormRole | src/pages/AdminUsers.jsx:172-179 | an absent role is appended at the end; a present role is removed, every copy, the other roles keeping their order and number; other fields are unchanged |
| AdminUsers.ToggleFormRoleTwice | src/pages/AdminUsers.jsx:172-179 | choosing an unchosen role twice restores the form |
| AdminUsers.ResetForm | src/pages/AdminUsers.jsx:322-333 | empty strings, roles ["Restaurant"], not adding, password hidden |
| AdminUsers.ResetFormNeverValid | src/pages/AdminUsers.jsx:322-333 | a reset form can never be submitted |
| AdminUsers.SearchUsers | src/pages/AdminUsers.jsx:132-149 | a term blank after trimming shows all; otherwise an order-preserving subsequence holding exactly the users whose first name, last name or email contains the term ignoring case, or whose phone contains it as typed, each as many times as in the list |
| AdminUsers.UserWithoutDetailsNotFound | src/pages/AdminUsers.jsx:139-146 | missing fields never match |
| AdminUsers.SortedUsers | src/pages/AdminUsers.jsx:151-162 | the list unchanged without a signed-in user; otherwise the same length, and an entry has the signed-in email exactly when it lies among the first k, k being the number of such users |
| AdminUsers.GetSortedUsers | src/pages/AdminUsers.jsx:151-162 | the result is the list unchanged without a signed-in user, else the users with the signed-in email and then the others |
| AdminUsers.SortedUsersIsPermutation | src/pages/AdminUsers.jsx:151-162 | the ordering is a permutation |
| AdminUsers.SortedUsersPutsCurrentFirst | src/pages/AdminUsers.jsx:155-159 | the signed-in user's entries precede all others; a present signed-in user comes first |
| AdminUsers.SortedUsersIsStable | src/pages/AdminUsers.jsx:151-162 | each part keeps its original relative order |
| AdminUsers.IsCurrentUser | src/pages/AdminUsers.jsx:391-393 | true exactly when there is a signed-in user with the same email |
| AdminUsers.AvailableRolesToAssign | src/pages/AdminUsers.jsx:395-398 | an order-preserving subsequence of the offered roles, holding exactly those the user does not hold, each as many times as offered |
| AdminUsers.AssignRole | src/pages/AdminUsers.jsx:223-229 | users with the id get the role appended, missing roles counting as none; everyone else is unchanged |
| AdminUsers.AssignedRoleNoLongerOffered | src/pages/AdminUsers.jsx:223-229 | after assignment the user is offered the old offer less that role |
| AdminUsers.DeleteUser | src/pages/AdminUsers.jsx:264 | exactly the users with the email are removed; every other user stays, as many times as before, in order |
| AdminUsers.ToggleStatus | src/pages/AdminUsers.jsx:284-302 | users with the clicked user's id get the opposite of its status; nothing else changes |
| AdminUsers.ToggleStatusTwice | src/pages/AdminUsers.jsx:284-302 | the clicked user's status flips, and clicking the updated entry restores the list |
| Seqs.Toggle | src/pages/AdminUsers.jsx:174-177 | a present value is removed, every copy, the others keeping their order and number; an absent one is appended at the end |
| Seqs.ToggleTwiceRestores | src/pages/AdminUsers.jsx:174-177 | toggling an absent value twice restores the list |
| ErrorTranslator.TranslateCode | src/utils/ErrorTranslator.js:5-15 | the text is never empty; it is one of the three fixed texts or the error's own description; an unknown code with a description shows it, or the generic text when it is empty |
| ErrorTranslator.FirstErrorDecides | src/utils/ErrorTranslator.js:5-15 | only the first error is read; an unknown code gives its description or the generic text |
| ErrorTranslator.ApplyRules | src/utils/ErrorTranslator.js:87-104 | the first passing test answers whatever later tests pass; a message passing none is kept |
| ErrorTranslator.PasswordLengthRuleFirst | src/utils/ErrorTranslator.js:87-92 | a message naming 6 characters gets the length text, even if it also says "required" |
| ErrorTranslator.EnteredChars | src/utils/ErrorTranslator.js:23-24 | the inserted text is all digits |
| ErrorTranslator.EnteredCharsReadsCount | src/utils/ErrorTranslator.js:23-24 | "You entered n characters" yields exactly the digits of n |
| ErrorTranslator.EnteredCharsSkipsLead | src/utils/ErrorTranslator.js:23 | the leftmost match is taken; text without a capital Y before it is skipped |
| ErrorTranslator.NoMentionNoCount | src/utils/ErrorTranslator.js:23-24 | without "You entered " the inserted text is empty |
| ErrorTranslator.EnteredCharsAfterLead | src/utils/ErrorTranslator.js:23-24 | "You entered n characters" after text without a capital Y yields exactly the digits of n |
| ErrorTranslator.FirstNameLengthRule | src/utils/ErrorTranslator.js:20-27 | a first-name message with the length phrase gets the length text around the count it reports, even if it also says "required" |
| ErrorTranslator.Lookup | src/utils/ErrorTranslator.js:20 | none exactly when no entry has the key; otherwise an entry's list |
| ErrorTranslator.LookupFindsEntry | src/utils/ErrorTranslator.js:20 | with distinct keys, the list found is exactly the one stored under the key |
| ErrorTranslator.CollectedCount | src/utils/ErrorTranslator.js:17-132 | every message under every key gives exactly one output message |
| ErrorTranslator.KnownMessagesIgnoreKeyOrder | src/utils/ErrorTranslator.js:20-115 | the six known fields come out in their fixed order whatever the key order |
| ErrorTranslator.CombineKeepsEveryMessage | src/utils/ErrorTranslator.js:134-142 | with several messages each one appears in the joined text |
| ErrorTranslator.ObjectBranchByCount | src/utils/ErrorTranslator.js:134-147 | no message gives the title or the default; one gives that message; several give a text holding every message |
| ErrorTranslator.ClassifyMessage | src/utils/ErrorTranslator.js:150-167 | a message mentioning "invalid" or "credentials" in any case gets the credentials text; one matching no test is returned as it is |
| ErrorTranslator.UnrecognisedMessageShownAsIs | src/utils/ErrorTranslator.js:150-167 | a plain message matching no test is shown exactly as sent |
| ErrorTranslator.CredentialsAgreeAcrossBranches | src/utils/ErrorTranslator.js:150-153 | the credentials code and an "Invalid credentials" message get the same text |
| ErrorTranslator.PushKnown | src/utils/ErrorTranslator.js:20-115 | the six field blocks append, in their fixed order, each known field's translated messages |
| ErrorTranslator.PushTranslated | src/utils/ErrorTranslator.js:20-34 | one field block appends that field's translated messages |
| ErrorTranslator.PushOthers | src/utils/ErrorTranslator.js:117-132 | the last pass appends every other key's messages unchanged, in key order |
| ErrorTranslator.CollectMessages | src/utils/ErrorTranslator.js:17-132 | the loops build the six known blocks in order, then the others |
| ErrorTranslator.JoinBlocks | src/utils/ErrorTranslator.js:135-142 | the loop joins the message blocks, in order, into one text |
| ErrorTranslator.CombineMessages | src/utils/ErrorTranslator.js:134-147 | several messages are joined as blocks, one is returned as it is, none gives the title or the default |
| ErrorTranslator.Translate | src/utils/ErrorTranslator.js:2-171 | the text is the translation of the payload, branch by branch |

## Left out

- Server requests, toasts and dialogs, navigation, `localStorage`, animation, markup, and the scroll, drag and touch handlers are not modelled. Every handler is modelled from the point where the request has succeeded.
- The product page's own status flip and delete handlers are not modelled. They are outside the cart logic.
- The clock reading stored in a cart line is a parameter of `ProductView.AddToCart`.
- Floating-point prices and `toFixed(2)` are left out. Prices are whole minor units.
- `num.toString()` is left out. `Locale.ToArabicNumbers` takes the number's decimal text.
- Selection keys that are not array-index integers (negative or fractional group ids) are not modelled. JavaScript lists such keys in insertion order, so two equal selections built in different orders could serialise differently and fail to merge; the model treats them as the same item.
- `Home.SearchProducts`: assumes every product has a string name and description. The source calls `toLowerCase()` on both without a guard, so a missing one throws; the model has no missing case.
- Lower-casing and trimming are ASCII only. Unicode case mapping and Unicode white space are not modelled.
- The `isArabic` direction test is not modelled. It only affects display.
- `ProductView.AddToCart`: does not model that the merged cart line is updated in place on the object the old cart shares. The model replaces the line with a new value.
- `AdminUsers.GetSortedUsers`: does not call a general sort with the source's comparator. It builds the same stable order by two passes over a copied array. If several users shared the signed-in email, the comparator would be inconsistent and the engine's order would be unspecified. The model keeps their original order.
- `ErrorTranslator.Translate`: requires a non-empty `errors` array. The source reads `errors[0].code` and would throw on an empty array.
- An `errors` value that is neither an array nor an object, or a message list that is not an array, is not modelled. The model's `NoErrors` stands for an absent or falsy `errors`.
- The multi-message join uses the source's template text exactly. Markup inside a message is not interpreted.
- Fields of the fetched product that the logic never reads are not modelled: image, category, calories, preparation times and schedules.

## Findings

| source | as written | input that shows it | evidently intended | confidence | as-written member | corrected member |
|---|---|---|---|---|---|---|
| src/pages/AdminUsers.jsx:57-59 | a non-blank password is demanded only when `isAdding` is false, yet the form and its submit button exist only while `isAdding` is true (line 778), and the password field is marked required (lines 878-893) | first name "Sara", last name "Ali", email "sara@example.com", password "   " (blank), roles ["Restaurant"], `isAdding` true: accepted | demand a non-blank password while adding | medium, not executed | AdminUsers.BlankPasswordAcceptedWhileAdding | AdminUsers.IsFormValidCorrected |
