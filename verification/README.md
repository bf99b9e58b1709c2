# Inventory listing and username field validator of an e-commerce back office

This project is a Dafny model of the two pieces of logic in a small Django
back-office application that are more than framework glue.

- **The dashboard's inventory listing.** This is the `inventory` view in
  `E-Commerce/dashboard/views.py`. It takes a list of item records and three
  optional query parameters: `q`, `category` and `status`. It returns three things:
  - the items that pass every given criterion, in their original order;
  - the sorted, duplicate-free list of the categories of *all* items;
  - four totals over the kept items: item count, stock, low-stock count, and stock value at purchase price.
- **The validator of the registration form's username field.** This is in
  `E-Commerce/accounts/forms.py`. The field's own checks demand 1 to 150
  characters, every one matching `[a-zA-Z0-9 @.+-_]`. The form is a model form
  on Django's `User`, whose own username validator and uniqueness check also run
  at registration; those are not part of this model (see "Left out").

Modules:

- `Text` (`text.dfy`): ASCII `lower()`, and the substring test `q in text`. The substring test is checked against a reference definition based on offsets.
- `Ordering` (`ordering.dfy`): Python's string order `<`, checked against a reference definition based on the first differing position, and `sorted(set(...))` as insertion into a strictly ascending list. The lemma `AscendingListingUnique` shows that there is only one such list for a given set of strings.
- `Subsequence` (`subsequence.dfy`): order-preserving subsequences.
- `Inventory` (`inventory.dfy`): the item record, the criteria, the filter, the category list and the totals. It also has the view itself, as the method `RunInventory`, with loops shaped like the view's loops.
- `InventoryExamples` (`inventory_examples.dfy`): the six hard-coded sample items of the view, and what the listing shows for some of their queries.
- `Username` (`username.dfy`): the field validator's character class as written, the length bounds, and the rule that the error message describes.

Some modelling choices:

- Item records are immutable datatypes. Stock and prices are `nat`, because the view's data are non-negative integers and no floating point is involved.
- The status is a plain string, compared exactly, as in the code (`"Aktif"`, `"Nonaktif"`, `"Habis"`). An unknown status value matches nothing, and this is not an error.
- A query parameter is `Absent` or `Given(value)`. `request.GET.get(key) or ""` turns both `Absent` and `Given("")` into the empty string, and the empty string means "no constraint". So an empty criterion also keeps items whose category or status is itself empty.
- The view lower-cases the joined string `name + " " + sku`. `Text.LowerConcat` shows that this equals joining the lower-cased parts.

## Model

| member | source | states |
|---|---|---|
| Text.LowerIdempotent | E-Commerce/dashboard/views.py:62-68 | after `lower()` no capital letter is left; lowering twice is lowering once; a string without capitals is unchanged |
| Text.LowerConcat | E-Commerce/dashboard/views.py:68 | lowering `name + " " + sku` equals joining the lowered name, a space and the lowered SKU |
| Text.Lower | E-Commerce/dashboard/views.py:62-68 | `lower()` keeps the length and maps each character on its own, capitals to small letters and everything else to itself |
| Text.Contains | E-Commerce/dashboard/views.py:70 | the scanning test `q in text` holds exactly when `q` occurs in `text` at some offset, in both directions |
| Ordering.Less | E-Commerce/dashboard/views.py:79 | Python's `a < b` on strings holds exactly when, at the first position where they differ, `a` has ended while `b` goes on or `a`'s character has the smaller code point |
| Ordering.LessTransitive | E-Commerce/dashboard/views.py:79 | Python's string order `<` is transitive |
| Ordering.LessTrichotomy | E-Commerce/dashboard/views.py:79 | two different strings are ordered one way round and never both, so `sorted` has a total order |
| Ordering.SortedDistinct | E-Commerce/dashboard/views.py:79 | `sorted(set(xs))` is strictly ascending, names exactly the strings that occur in `xs`, and is no longer than `xs` |
| Ordering.AscendingListingUnique | E-Commerce/dashboard/views.py:79 | two strictly ascending lists with the same elements are equal, so the sorted set listing is unique |
| Inventory.Normalize | E-Commerce/dashboard/views.py:62-64 | the free text is the given text lower-cased: it has no capitals and lowers to the same string as the given text, with the same length; a missing parameter and an empty one both mean "no constraint"; a given category or status is used verbatim |
| Inventory.SearchText | E-Commerce/dashboard/views.py:68 | the searched text is the lowered name, a space and the lowered SKU |
| Inventory.Matches | E-Commerce/dashboard/views.py:69-75 | an item is kept exactly when the query is empty or occurs in its search text, the category criterion is empty or equals its category, and the status criterion is empty or equals its status (both compared case-sensitively) |
| Inventory.Filter | E-Commerce/dashboard/views.py:66-77 | the filtered list is never longer than the item list |
| Inventory.FilterSpec | E-Commerce/dashboard/views.py:66-77 | the filtered list is an order-preserving subsequence of the items; an item is in it exactly when it is in the items and passes all three criteria, and it occurs there as often as in the items |
| Inventory.FilterAppend | E-Commerce/dashboard/views.py:66-77 | the loop's one pass in order: filtering a concatenation gives the concatenation of the filtered parts |
| Inventory.FilterNoCriteria | E-Commerce/dashboard/views.py:69-77 | with all three criteria empty the filtered list is the item list itself, with the same elements in the same order |
| Inventory.FilterMonotone | E-Commerce/dashboard/views.py:70-75 | setting more criteria never enlarges the result: the more constrained result is a subsequence of the less constrained one, no longer than it, and holds no item it lacks |
| Inventory.FilterRefined | E-Commerce/dashboard/views.py:70-75 | filtering the less constrained result with the more constrained criteria gives the more constrained result directly |
| Inventory.QueryCaseInsensitive | E-Commerce/dashboard/views.py:62-70 | two queries with the same lower-cased text select the same items, because the query is lowered before matching |
| Inventory.Categories | E-Commerce/dashboard/views.py:79 | the category list is strictly ascending (so duplicate-free), and names exactly the categories of the unfiltered items; it takes no criteria |
| Inventory.CategoriesUnique | E-Commerce/dashboard/views.py:79 | any strictly ascending list of exactly the items' categories is the category list |
| Inventory.TotalStock | E-Commerce/dashboard/views.py:83 | the stock total is at least the stock of every single item (its zero case is `TotalsZero`, its split over a concatenation `SummarizeAppend`) |
| Inventory.TotalValue | E-Commerce/dashboard/views.py:85 | the value total is at least `stock * buy_price` of every single item (its zero case is `TotalsZero`, its split over a concatenation `SummarizeAppend`) |
| Inventory.LowStockCount | E-Commerce/dashboard/views.py:84 | the number of items with `stock <= min_stock` never exceeds the number of items |
| Inventory.Summarize | E-Commerce/dashboard/views.py:82-85 | `total_items` is the length of the kept list, `low_stock` is at most `total_items`, and an empty list gives four zeros |
| Inventory.SummarizeAppend | E-Commerce/dashboard/views.py:83-85 | each of the stock, low-stock and value totals of a concatenation is the sum of the totals of the parts |
| Inventory.LowStockExtremes | E-Commerce/dashboard/views.py:84 | `low_stock` equals the item count exactly when every item is low, and is zero exactly when no item is low |
| Inventory.TotalsZero | E-Commerce/dashboard/views.py:83-85 | `total_stock` is zero exactly when every item has no stock; `total_value` is zero exactly when every item has no stock or no purchase price |
| Inventory.SelectMatching | E-Commerce/dashboard/views.py:66-77 | the match loop, which tests each item against each criterion in turn, produces the filtered list |
| Inventory.Totals | E-Commerce/dashboard/views.py:82-85 | one accumulating pass over the kept items produces the four aggregates of `Summarize` |
| Inventory.RunInventory | E-Commerce/dashboard/views.py:62-85 | the view returns the filter of the items under the normalised criteria, the category list of all the items whatever the criteria, and the aggregates of the filtered items only |
| InventoryExamples.SampleCategories | E-Commerce/dashboard/views.py:53-79 | for the six sample items the category list is `["Aksesoris", "Alat Tulis", "Kertas"]` |
| InventoryExamples.KertasQuery | E-Commerce/dashboard/views.py:53-85 | `?category=Kertas` keeps Kertas A4 and Amplop Coklat in that order, with totals 2, 35, 2 and 1225000 |
| InventoryExamples.NonaktifQuery | E-Commerce/dashboard/views.py:53-85 | `?status=Nonaktif` keeps only Tinta Printer, with totals 1, 10, 1 and 800000 |
| InventoryExamples.PenFoundInAnyCase | E-Commerce/dashboard/views.py:54-70 | both `?q=pl` and `?q=PL` match Pulpen Pilot through its SKU `PL-001` |
| Username.AllSatisfy | E-Commerce/accounts/forms.py:12 | the left-to-right scan accepts exactly when every character satisfies the class predicate |
| Username.InClass | E-Commerce/accounts/forms.py:12 | the class `[a-zA-Z0-9 @.+-_]` is exactly space, `'+'..'_'` (0x2B..0x5F) and `'a'..'z'` |
| Username.IsValid | E-Commerce/accounts/forms.py:8-16 | the field's own checks accept a username exactly when it has 1 to 150 characters, each being space, in `'+'..'_'`, or in `'a'..'z'` |
| Username.Validate | E-Commerce/accounts/forms.py:8-16 | the scan that stops at the first bad character accepts exactly the non-empty strings of at most 150 characters drawn from the field's class |
| Username.ClassMembers | E-Commerce/accounts/forms.py:12 | letters, digits and `space @ . + - _` are accepted; so are `, / : ; < = > ? [ \ ] ^` through the range; `! " # $ % & ' ( ) * backquote { pipe } ~` and everything outside space..`z` are rejected |
| Username.LengthBounds | E-Commerce/accounts/forms.py:8-12 | the field rejects the empty username (the field is required, and the class is quantified with `+`) and any username over 150 characters (`max_length`) |
| Username.IsValidDocumented | E-Commerce/accounts/forms.py:12-13 | the rule the message describes accepts exactly the strings of 1 to 150 letters, digits and `space @ . + - _`, and everything it accepts the field's validator as written accepts too |
| Username.ClassExceedsDocumented | E-Commerce/accounts/forms.py:12-13 | the class as written accepts, beyond the message's characters, exactly `, / : ; < = > ? [ \ ] ^` |
| Username.AngleBracketAccepted | E-Commerce/accounts/forms.py:12-13 | `"a<b"` is accepted by the field's validator as written and rejected by the rule the message describes |

## Findings

| source | as written | input that shows it | evidently intended | confidence | as-written member | corrected member |
|---|---|---|---|---|---|---|
| E-Commerce/accounts/forms.py:12-13 | the class `[a-zA-Z0-9 @.+-_]` reads `+-_` as the range 0x2B..0x5F | `"a<b"` passes the field's validator, although the message on line 13 allows only letters, digits, space and `@ . + - _` | `+`, `-` and `_` as three separate characters, as the message says | high, not executed | Username.IsValid, shown by Username.AngleBracketAccepted | Username.IsValidDocumented |

`Username.IsValid` remains the model of the field's validator as it behaves. At registration the `User` model's own username validator also runs and happens to reject `<` and the other extra characters, so the discrepancy shows in the field's checks but not in which accounts can be created. `Username.IsValidDocumented` is the corrected rule, and the model proves that it accepts exactly what the message describes.

## Left out

- Django request plumbing is not modelled: `request.GET`, `render` and the context dictionary, `@login_required`. The view's parameters and results become the method's in- and out-parameters.
- The item list is a parameter of the operations. The six hard-coded items appear only in `InventoryExamples`.
- The status choices `["Aktif", "Nonaktif", "Habis"]` (views.py:80) are only passed to the template and take part in no computation, so they are not modelled.
- `Text.LowerIdempotent`, `Text.LowerConcat`: `str.lower()` is modelled as ASCII case mapping only. Full Unicode lower-casing can change string lengths and is not modelled.
- Python regex `$`, which also matches before a final newline, is not modelled.
- The form field's whitespace stripping before validation is not modelled.
- Django's order of field checks is not modelled: the `required` check rejects the empty value before any validator runs, and all errors are collected. So the model gives one accept/reject verdict and no error list or message.
- The `User` model's own username validator (letters, digits and `@ . + - _` only) and its uniqueness check are not modelled. They run when the registration form is validated and reject characters such as `<` and space that the field's validator accepts. They belong to Django's identity machinery.
- The password and e-mail checks of the registration form, and saving the user, are not modelled. They are framework identity machinery.
- The `home` view, the add/edit/category handlers that only print or discard their input, supplier CRUD, the `Supplier` model, the other forms and URL routing are not part of this model.
