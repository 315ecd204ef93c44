# School payments: create-payment handler and transaction screens

A Dafny model of a school-fee payment service. It has two parts.

**The backend's create-payment handler.** The handler validates the request
body. It writes an Order document, signs a payload that expires after five
minutes, and posts it to the payment gateway. It then writes an OrderStatus
document with status `pending`. The answer holds the gateway's redirect link
and the order id.

The two collections are sequences in a class, `Payment.PaymentService`. Each
library call is a parameter of `CreatePayment` carrying that call's outcome: a
fresh id or a thrown error for the Order write, the clock reading or a thrown
error for signing, the response data or a rejection for the gateway, and
success or a thrown error for the OrderStatus write.
So the contract covers every combination of successes and failures.

**Three frontend pieces.**

- The generic table (`Table`): dotted-path cell lookup, the case-insensitive
  status badge, and rows and cells.
- The status-check page (`StatusCheck`): the check handler's state changes, the
  case-sensitive status badge, and the amount rows.
- The per-school search page (`SchoolTransactions`): the trimmed school id, the
  numbering of fetched rows, the column filter and the choice of display.

How React draws a value placed as a child is modelled by `React.Child`:
strings and numbers as text, nothing for `null`, `undefined` and booleans, an
array as its items, and a plain object not at all, because rendering it throws
and the whole render is abandoned (this code has no error boundary).

JavaScript values are modelled by `Js.Value`. `undefined` is kept apart from
`null` by `Js.Option`. Truthiness, `?.`, `??` and `hasOwnProperty` are written
out in `Js`.

The model follows the code as written. In particular:

- The request is rejected only when `school_id`, `student_info` or
  `order_amount` is falsy. So an amount of `0` is rejected but a negative amount
  is accepted. There is no `order_amount <= 0` check.
- The Order document does not store the amount. Only the OrderStatus does.
- The OrderStatus is written with `collect_id`, `order_amount`, `status` and
  `gateway_name`. The handler sets no `custom_order_id` and no
  `transaction_amount`.
- A `null` or `undefined` gateway response body makes
  `response.data.redirect_url` throw after both documents are written. The
  answer is then a 500, although the OrderStatus exists.

`CreatePayment` requires that a successful Order write returns an id not already
in use. That is the database's guarantee for generated ids, not a demand the
handler makes of its callers. With it, the store invariant
`PaymentService.Valid` is preserved:

- ids are unique;
- every OrderStatus belongs to an existing Order;
- no Order has two OrderStatus records.

## Model

| member | source | states |
|---|---|---|
| Payment.PaymentService.CreatePayment | BACKEND/controllers/payment.controller.js:6-59 | A 400 "Missing required fields" exactly when a required field is falsy, and then nothing is written or sent. Otherwise the Order (school, student, gateway, no amount) is appended first. The gateway receives `{collect_id, order_amount}` and a token only after the Order write and signing succeed. The pending OrderStatus (new order id, request amount, same gateway) is appended last, only after dispatch succeeds. Any failure after the Order write is a 500 "Payment creation Failed" that leaves that Order orphaned. The 200 answer is `{payment_url, order_id}`. The store invariant is kept. |
| Payment.PaymentService.constructor | BACKEND/controllers/payment.controller.js:3-4 | The Order and OrderStatus collections start empty, which satisfies the store invariant. |
| Payment.Complete | BACKEND/controllers/payment.controller.js:11 | The validation: all three required fields are truthy. No contract of its own; `CreatePayment` answers 400 exactly when it fails, and `ValidationIsTruthiness` pins its edge cases. |
| Payment.NewOrder | BACKEND/controllers/payment.controller.js:19-23 | The Order written: school, student and chosen gateway, no amount. No contract of its own; specified by `RecordsLinked` and `CreatePayment`. |
| Payment.InitialStatus | BACKEND/controllers/payment.controller.js:41-46 | The OrderStatus written: the new order's id, the request amount, `pending` and the same gateway. No contract of its own; specified by `RecordsLinked` and `CreatePayment`. |
| Payment.RedirectReadError | BACKEND/controllers/payment.controller.js:49 | The message `response.data.redirect_url` throws on a `null` or `undefined` reply body, passed on as the 500's details. No contract of its own. |
| Payment.GatewayName | BACKEND/controllers/payment.controller.js:16 | The gateway is the request's `gateway_name` when truthy, otherwise `"UPI"`. It is always truthy. |
| Payment.RecordsLinked | BACKEND/controllers/payment.controller.js:19-46 | The OrderStatus points at its Order's id and repeats its gateway. Its status is `pending` and it carries the request amount. |
| Payment.IssueToken | BACKEND/controllers/payment.controller.js:26-31 | The token carries the payload `{collect_id, order_amount}` and expires 300 seconds after issue. |
| Payment.PaymentUrl | BACKEND/controllers/payment.controller.js:48-49 | For reply data that is not `null` (nor `undefined`, by its type), `payment_url` is the reply's `redirect_url` when truthy, otherwise `null`. |
| Payment.ValidationIsTruthiness | BACKEND/controllers/payment.controller.js:11-13 | Amount `0` and an empty school id are rejected. A negative amount is accepted. |
| Text.ToUpper | FRONTEND/src/components/Table.jsx:9 | Upper-casing keeps the length and upper-cases each letter. |
| Text.ToLower | FRONTEND/src/components/Table.jsx:11 | Lower-casing keeps the length and lower-cases each letter. |
| Text.ToLowerMatches | FRONTEND/src/components/Table.jsx:11-23 | Comparing the lower-cased text with a lower-case keyword is the same as comparing ignoring case, in both directions. |
| Text.ToUpperOfToLower | FRONTEND/src/components/Table.jsx:9-11 | Upper-casing does not depend on the original casing. |
| Text.Split | FRONTEND/src/components/Table.jsx:3 | `split(".")` gives at least one piece. No piece contains a dot, and joining the pieces with dots gives the key back. |
| Text.SplitNoSeparator | FRONTEND/src/components/Table.jsx:3 | A key without dots splits into itself alone. |
| Text.SplitJoin | FRONTEND/src/components/Table.jsx:3 | Splitting recovers any dot-free parts joined with dots, so splitting and joining are inverses. |
| Text.SplitPrefix | FRONTEND/src/components/Table.jsx:3 | A leading dot-free segment followed by a dot splits off as the first piece. |
| Text.TrimStart | FRONTEND/src/pages/SchoolTransactions.jsx:24 | `trimStart` leaves a suffix of the input that does not start with white space. |
| Text.TrimStartDropsSpace | FRONTEND/src/pages/SchoolTransactions.jsx:24 | What `trimStart` drops is all white space. |
| Text.TrimEnd | FRONTEND/src/pages/SchoolTransactions.jsx:24 | `trimEnd` leaves a prefix of the input that does not end with white space. |
| Text.TrimEndDropsSpace | FRONTEND/src/pages/SchoolTransactions.jsx:24 | What `trimEnd` drops is all white space. |
| Text.Trim | FRONTEND/src/pages/SchoolTransactions.jsx:24 | The trimmed id neither starts nor ends with white space. |
| Text.TrimShape | FRONTEND/src/pages/SchoolTransactions.jsx:24 | The input is white space, then the trimmed id, then white space. |
| Text.TrimStartDrops | FRONTEND/src/pages/SchoolTransactions.jsx:24 | `trimStart` removes exactly a white-space prefix placed in front of text that does not start with white space. |
| Text.TrimEndDrops | FRONTEND/src/pages/SchoolTransactions.jsx:24 | `trimEnd` removes exactly a white-space suffix placed after text that does not end with white space. |
| Text.TrimUnique | FRONTEND/src/pages/SchoolTransactions.jsx:24 | Trimming white space around a tight middle gives exactly that middle. |
| Text.TrimEmpty | FRONTEND/src/pages/SchoolTransactions.jsx:24-31 | The trimmed id is empty exactly when the input is all white space. |
| Text.TrimIdempotent | FRONTEND/src/pages/SchoolTransactions.jsx:24 | Trimming twice is trimming once. |
| Status.ParseStatus | FRONTEND/src/pages/StatusCheck.jsx:32-48 | Reading a status string matches `pending`, `success` and `failed` exactly (in both directions) and otherwise keeps the text. Printing it gives the string back. |
| Status.ParseStatusText | FRONTEND/src/pages/StatusCheck.jsx:32-48 | Reading a printed canonical status gives the status back. |
| Table.Step | FRONTEND/src/components/Table.jsx:3 | One step of the reduce, `acc?.[k]`. No contract of its own; specified by `WalkFromNone` and `GetValueBrokenPath`. |
| Table.Walk | FRONTEND/src/components/Table.jsx:3 | The reduce over the key's segments, left to right. No contract of its own; specified by `WalkFromNone` and `WalkAppend`. |
| Table.GetValue | FRONTEND/src/components/Table.jsx:2-3 | The lookup never yields `null` or `undefined` (the `?? ""`). `GetValueField`, `GetValueNested` and `GetValueBrokenPath` give its value. |
| Table.WalkFromNone | FRONTEND/src/components/Table.jsx:3 | Once the lookup reaches `undefined`, every further segment keeps it `undefined`. |
| Table.WalkAppend | FRONTEND/src/components/Table.jsx:3 | Following a path in two pieces is following it whole, left to right. |
| Table.GetValueField | FRONTEND/src/components/Table.jsx:2-3 | A dot-free key returns the row's own field when present and not null, so `0`, `false` and `""` are kept. Otherwise it returns `""`. |
| Table.GetValueNested | FRONTEND/src/components/Table.jsx:2-3 | A key `a.b` returns field `b` of field `a`, or `""`. |
| Table.GetValueBrokenPath | FRONTEND/src/components/Table.jsx:2-3 | If any segment before the last reaches `undefined` or `null`, the result is `""`. |
| Table.RenderValue | FRONTEND/src/components/Table.jsx:6-40 | Non-status columns return the value unchanged, for React to draw. In the status column, exactly the non-string, non-null values throw. |
| Table.StatusToneIgnoresCase | FRONTEND/src/components/Table.jsx:7-28 | Any casing of success, failed or pending selects green, red or yellow. Everything else is gray. |
| Table.CaseVariant | FRONTEND/src/components/Table.jsx:9-11 | A case variant of a lower-case keyword lower-cases to the keyword and upper-cases like it. |
| Table.SuccessForms | FRONTEND/src/components/Table.jsx:9-13 | Any casing of `success` lower-cases to `success` and upper-cases to `SUCCESS`. |
| Table.FailedForms | FRONTEND/src/components/Table.jsx:9-16 | Any casing of `failed` lower-cases to `failed` and upper-cases to `FAILED`. |
| Table.PendingForms | FRONTEND/src/components/Table.jsx:9-20 | Any casing of `pending` lower-cases to `pending` and upper-cases to `PENDING`. |
| Table.StatusCaptionKnown | FRONTEND/src/components/Table.jsx:9-23 | Any casing of a recognised status gets its colour and the keyword in capitals as caption. |
| Table.StatusCaptionOther | FRONTEND/src/components/Table.jsx:24-27 | An unrecognised status is gray. Its caption is the upper-cased text, or `UNKNOWN` only when the text is empty. |
| Table.Header | FRONTEND/src/components/Table.jsx:49-56 | One header per column, in column order, showing the column's label. |
| Table.RenderRow | FRONTEND/src/components/Table.jsx:66-73 | A row has one cell per column, in column order. Each cell renders the lookup of that column's key. |
| Table.RenderRows | FRONTEND/src/components/Table.jsx:61-75 | One row per record, in data order; row i is record i rendered across the columns. |
| Table.RenderBody | FRONTEND/src/components/Table.jsx:60-85 | The placeholder appears exactly for empty data. It spans all columns and reads "No data available". The render is abandoned exactly when a row is `null` (reading its `custom_order_id` for the row's key throws) or some cell throws: the status renderer's `TypeError`, or a value holding a plain object, which React refuses as a child. Otherwise the body is the rows. |
| Table.ObjectCellCrashes | FRONTEND/src/components/Table.jsx:71 | A record holding a plain object under a column other than `status` abandons the whole table's render. |
| Table.BooleanCellEmpty | FRONTEND/src/components/Table.jsx:71 | A boolean outside the `status` column does not throw and leaves its cell empty. |
| React.Child | FRONTEND/src/components/Table.jsx:71 | A child throws exactly when it holds a plain object, looking inside arrays. Otherwise it draws only text: a string or number as itself, nothing for `null` or a boolean. |
| React.Children | FRONTEND/src/components/Table.jsx:71 | An array child throws exactly when one of its items holds a plain object, and otherwise draws only text. |
| StatusCheck.StatusBadge | FRONTEND/src/pages/StatusCheck.jsx:29-54 | No badge exactly for a falsy result or an error result. Exactly `success`, `pending` and `failed`, compared case-sensitively, get their own badge. A missing or null status is `UNKNOWN`. A non-string status throws. |
| StatusCheck.OtherStatusBadge | FRONTEND/src/pages/StatusCheck.jsx:50-54 | Any other status string gets a gray, icon-less badge. Its caption is the upper-cased text, or `UNKNOWN` when empty. |
| StatusCheck.StatusBadgeAsWritten | FRONTEND/src/pages/StatusCheck.jsx:32-54 | As written, the lookup also hits inherited object members. It gives an empty badge exactly for those names and otherwise agrees with `StatusBadge`. |
| StatusCheck.InheritedKeyBadge | FRONTEND/src/pages/StatusCheck.jsx:50 | A status naming an inherited member, such as `toString`, gets an empty badge as written. The fallback promises a gray badge captioned with the upper-cased status. |
| StatusCheck.AmountSlot | FRONTEND/src/pages/StatusCheck.jsx:115-134 | An amount row is attempted exactly for a truthy amount. It throws exactly when the amount holds a plain object, and otherwise shows what React draws for the amount. An amount of `0` shows no row, only a stray `0`. |
| StatusCheck.Suppressed | FRONTEND/src/pages/StatusCheck.jsx:30 | No badge and no details for a falsy result or one with a truthy `error`. No contract of its own; `StatusBadge` gives no badge exactly when it holds. |
| StatusCheck.Result | FRONTEND/src/pages/StatusCheck.jsx:97-171 | A result of `0` shows only the text `0`, which React draws for `{0 && …}`. Any other falsy result shows nothing. An error result shows its `error` as React draws it, so `true` gives an empty box. The render is abandoned exactly when the `error`, or without one an amount, holds a plain object, or the badge throws. Otherwise the badge exactly as the page draws it (never "no badge", blank for an inherited member's name) and the two amount rows are shown. |
| StatusCheck.ErrorChildren | FRONTEND/src/pages/StatusCheck.jsx:99-102 | An `error` that is a plain object abandons the render. `error: true` draws an empty error box. |
| StatusCheck.ResultIntended | FRONTEND/src/pages/StatusCheck.jsx:50-54 | The result area with the corrected badge. It equals the page as written except where that draws a blank badge, and there it shows the fallback badge with the same amount rows. |
| StatusCheck.StatusCheckPage.constructor | FRONTEND/src/pages/StatusCheck.jsx:10-12 | The page starts with an empty id, a `null` result and no loading. |
| StatusCheck.StatusCheckPage.Edit | FRONTEND/src/pages/StatusCheck.jsx:80 | Typing sets the custom order id. |
| StatusCheck.StatusCheckPage.BeginCheck | FRONTEND/src/pages/StatusCheck.jsx:14-17 | With an empty id nothing changes and no request is made. Otherwise loading is on and the result is cleared. |
| StatusCheck.StatusCheckPage.FinishCheck | FRONTEND/src/pages/StatusCheck.jsx:18-26 | The result is the response body, or `{error: "Failed to fetch status"}` on a rejection. Loading is off either way. |
| StatusCheck.StatusCheckPage.HandleCheck | FRONTEND/src/pages/StatusCheck.jsx:14-27 | The whole handler: no change for an empty id. Otherwise loading ends off and the result is the body or the error record. |
| StatusCheck.StatusCheckPage.View | FRONTEND/src/pages/StatusCheck.jsx:96-171 | While a check is loading, no result is shown. The page invariant (loading implies the result was cleared) is kept by every handler. |
| StatusCheck.FailedCheckShowsError | FRONTEND/src/pages/StatusCheck.jsx:23 | A failed check shows exactly the error text and never a badge. |
| StatusCheck.CaseSensitivityContrast | FRONTEND/src/pages/StatusCheck.jsx:50 | Any casing of `success` other than the lower-case one, such as `SUCCESS`, is green in the table but an unrecognised gray status on this page. Both caption it `SUCCESS`. |
| SchoolTransactions.NumberRow | FRONTEND/src/pages/SchoolTransactions.jsx:40-43 | `{ srNo: n, ...tx }`. No contract of its own; specified by `NumberRowFields`. |
| SchoolTransactions.NumberRowFields | FRONTEND/src/pages/SchoolTransactions.jsx:40-43 | A numbered row has every original field plus `srNo`. `srNo` is the given number unless the row has its own `srNo`, which wins. |
| SchoolTransactions.NumberFrom | FRONTEND/src/pages/SchoolTransactions.jsx:40-43 | Numbering keeps the length. The row at index i gets number start + i. |
| SchoolTransactions.Numbered | FRONTEND/src/pages/SchoolTransactions.jsx:40-43 | The numbered list has the data's length. Row i is row i of the data with `srNo = i + 1`. |
| SchoolTransactions.Listing | FRONTEND/src/pages/SchoolTransactions.jsx:40 | Absent or falsy data gives an empty list. An array is numbered. Any other truthy data throws. |
| SchoolTransactions.OwnedColumns | FRONTEND/src/pages/SchoolTransactions.jsx:83-85 | A column is kept exactly when it is in the list and the first row has its key, as many times as the list holds it. The kept columns keep the list's order. |
| SchoolTransactions.FilterColumns | FRONTEND/src/pages/SchoolTransactions.jsx:83-85 | The filter throws exactly when there is a column to test and the row's own `hasOwnProperty` field shadows the method. Otherwise it gives the owned columns. |
| SchoolTransactions.NumberedHasSrNo | FRONTEND/src/pages/SchoolTransactions.jsx:40-43 | Every numbered row has its own `srNo`. |
| SchoolTransactions.SrNoFirst | FRONTEND/src/pages/SchoolTransactions.jsx:12-20 | A row with `srNo` shows the `Sr No` column, and shows it first. |
| SchoolTransactions.SrNoColumnFirst | FRONTEND/src/pages/SchoolTransactions.jsx:12-20 | For numbered rows the `Sr No` column is always shown, and shown first. |
| SchoolTransactions.ViewOf | FRONTEND/src/pages/SchoolTransactions.jsx:75-102 | Precedence: loading, then, when rows exist, the table with the filtered columns, or an abandoned render exactly when the first row owns a `hasOwnProperty` field; then "No transactions found" for a non-empty id, otherwise the prompt. |
| SchoolTransactions.SchoolTransactionsPage.constructor | FRONTEND/src/pages/SchoolTransactions.jsx:6-9 | The page starts with empty input, id and list, and no loading. The page invariant (every listed transaction has its `srNo`) holds, and every handler keeps it. |
| SchoolTransactions.SchoolTransactionsPage.Edit | FRONTEND/src/pages/SchoolTransactions.jsx:68 | Typing sets the raw input. |
| SchoolTransactions.SchoolTransactionsPage.Debounce | FRONTEND/src/pages/SchoolTransactions.jsx:23-26 | The searched id is the trimmed input. |
| SchoolTransactions.SchoolTransactionsPage.View | FRONTEND/src/pages/SchoolTransactions.jsx:75-102 | Under the page invariant, a table on the page always leads with the `Sr No` column. `ViewOf` gives the choice of display. |
| SchoolTransactions.SchoolTransactionsPage.SchoolIdChanged | FRONTEND/src/pages/SchoolTransactions.jsx:29-36 | An empty id empties the list and makes no request. Otherwise loading starts and the list is kept. |
| SchoolTransactions.SchoolTransactionsPage.FinishLoad | FRONTEND/src/pages/SchoolTransactions.jsx:37-49 | A listing replaces the list. A rejection, or data that cannot be mapped, leaves the list unchanged. Loading ends either way. |
| SchoolTransactions.SearchBlank | FRONTEND/src/pages/SchoolTransactions.jsx:23-33 | A white-space-only input gives an empty id and an empty list, and makes no request. |

## Findings

| source | as written | input that shows it | evidently intended | confidence | as-written member | corrected member |
|---|---|---|---|---|---|---|
| FRONTEND/src/pages/StatusCheck.jsx:50 | `mapping[status.status]` looks the status up on a plain object literal. A status that names an inherited member of `Object.prototype` therefore finds a function (or the prototype) instead of `undefined`, and the badge is drawn with no caption and no colour. | a status record `{status: "toString"}`; likewise `constructor`, `valueOf`, `__proto__` and the other inherited names | the gray fallback badge captioned `TOSTRING` | not executed; follows from JavaScript property lookup | StatusCheck.StatusBadgeAsWritten, StatusCheck.InheritedKeyBadge | StatusCheck.StatusBadge, StatusCheck.ResultIntended |

`StatusCheck.Result` draws the result area as the page is written. `StatusCheck.ResultIntended` draws it with the corrected badge, and differs from it only in that blank badge.

## Left out

- Persistence. The Order and OrderStatus schemas (`models/Order`, `models/OrderStatus`) are not part of this model. Mongoose casting, validation, defaults and timestamps are not modelled. A write the schema would refuse is represented by that write's `Threw` outcome.
- Cryptography and network. The JWT signature itself (HMAC with the environment key) is not modelled. The token is a value holding its claims, issue time and expiry. No token is ever verified in this code. The gateway URL, the `pg_key` header and HTTP transport are not modelled; the gateway reply is a parameter.
- Logging (`console.log`, `console.error`) and the `details` text of library errors, which is passed through as given.
- Concurrency. Concurrent requests against the shared collections, and overlapping loads on the search page, are not modelled. Each method runs to completion on its own.
- Numbers are integers. Fractional amounts, `NaN` and `-0` are not modelled.
- Properties exist only on objects. Reading a property of a string or array (`length`, an index) gives `undefined` in the model. So `Table.GetValue` does not follow array indexes in a dotted key.
- Text.ToUpper: only ASCII letters change case. JavaScript's full Unicode case mapping (for example `ß` to `SS`) is not modelled.
- Text.ToLower: only ASCII letters change case. JavaScript's full Unicode case mapping is not modelled.
- StatusCheck.StatusBadge: every non-string, non-null status is modelled as throwing. JavaScript first uses the value's string form as the mapping key, so an array such as `["success"]` would find the success badge.
- StatusCheck.StatusBadgeAsWritten: the same string-form key is not modelled; an array such as `["toString"]` is modelled as throwing, where the page would find the inherited member and draw a blank badge.
- SchoolTransactions.NumberRowFields: spreading a row that is a string or an array would copy its index keys. The model copies fields only from objects, which is what the backend returns.
- Table.GetValue: a segment is looked up among the object's own fields only, so inherited members such as `constructor` are not found. The keys it is given are the fixed column keys, none of which names an inherited member.
- React: an array child's `key` warnings and a function child (drawn as nothing, with a warning) are not modelled; a function never reaches a child here. Numbers are drawn as their value, not formatted.
- StatusCheck.Result: a falsy result other than `0` is modelled as showing nothing. For `""` React draws an empty text node, which shows nothing visible.
- Object key order is not modelled (fields are a map). Nothing modelled here depends on it.
- Presentation: CSS classes (only the colour family is kept), icons' sizes, React `key` values (except that reading a `null` row's `custom_order_id` throws, which `Table.RenderBody` models), the table's `rowClassName` prop, the mobile card layout (which renders the same cells) and the check button's disabled state.
- The 500 ms debounce timer and its cleanup. Only the timer firing (`Debounce`) is modelled.
- The rest of the repository: Express setup, security headers and error handlers (`BACKEND/app.js`); the route table (`BACKEND/routes/transactions.route.js`); and the API client (`FRONTEND/src/services/api.js`). Also the login, navigation, layout, update, payment-widget and analytics screens. The status lookup, status update and listing handlers live in `controllers/transaction.controller.js`, which is not part of this model.
