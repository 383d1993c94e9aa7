# Retail dashboard client — a Dafny model of its screen logic

The client is a single-page retail dashboard with three screens. The
**dashboard** fetches totals, top products, a sparse daily-sales series and
the low-stock list. It shows the daily sales as a contiguous window of the
last 7 or 30 days, and it hosts a voice assistant. The assistant answers a
wake phrase with a spoken acknowledgement and sends any other utterance, with a snapshot
of the dashboard, to a summarization endpoint. The **restock** screen keeps
the low-stock list and a pending quantity per product. The **add-product**
screen edits a seven-field product form, checks image sizes, and can merge
in fields filled by an AI endpoint.

This project models the logic inside those screens as pure functions over
sequences, maps and records. It does not model rendering. Network replies,
speech transcripts and file sizes are inputs. Requests, speech and
recognition restarts are returned as values (effects, a request option, a
notice).

Modules, one file each:

- `Wrappers` (`wrappers.dfy`): `Option` and the `Result` of a round trip.
- `Decimal` (`decimal.dfy`): integer-to-text as JavaScript renders it, and
  `parseInt` in base ten. Proved: the round trip, injectivity, skipping of
  leading white space.
- `Records` (`records.dfy`): the backend's shapes and the toast `Notice`.
- `SalesWindow` (`sales_window.dfy`): `getPastNDates` and the reindexing of
  the daily-sales series.
- `Dashboard` (`dashboard.dfy`): the all-or-nothing refresh of the four
  pieces of dashboard state.
- `Assistant` (`assistant.dfy`): the `isListening` guard and the
  transitions of the voice loop.
- `Restock` (`restock.dfy`): the restock working set.
- `Json` (`json.dfy`): JavaScript values, truthiness, `typeof`, and what
  object spread copies.
- `ProductForm` (`product_form.dfy`): the add-product form.

Days are integers. A day's ISO key and its display label are function
parameters (`iso`, `display`), so calendar arithmetic and time zones stay
outside the model. Money is an integer.

The model keeps some behaviours of the code that a reader might not
expect:

- A failed summarize request does not re-arm listening. The `catch` branch
  never calls `startListening`, and `isListening` stays true. After such a
  failure the microphone button does nothing until Stop is pressed
  (`Assistant.FailedSummaryNeedsStop`).
- Only a thrown error, such as a failed request or an unparsable body,
  falls back to the fixed error text. A parsed body without `output` is
  not modelled (see Left out).
- A successful restock removes every list item whose `_id` equals the
  product id, not just one item. With distinct ids these are the same.
- After a wake phrase the summary keeps the text "Processing...". The code
  sets it before branching and never replaces it on that path.

## Model

| member | source | states |
|---|---|---|
| SalesWindow.PastNDates | src/components/Home.jsx:46-60 | Returns exactly `n` days, consecutive and ascending, from `today - (n-1)` to `today`. Each day carries its own ISO key and label. |
| SalesWindow.SalesOn | src/components/Home.jsx:63-64 | A day's revenue comes from the first server record whose `_id` equals the day's key. It is 0 when no record has that key. |
| SalesWindow.FormatSales | src/components/Home.jsx:62-65 | Gives one point per generated day, in window order. Each point has the day's label and the revenue found for its key. |
| SalesWindow.SalesOnDistinct | src/components/Home.jsx:63-64 | When `_id`s are distinct, a day's revenue is that of the one record with its key, wherever that record sits. |
| SalesWindow.SalesOnIgnoresOtherKey | src/components/Home.jsx:63 | Inserting a record with another key, at any position, does not change the revenue found for a key. |
| SalesWindow.OutsideWindowIgnored | src/components/Home.jsx:62-65 | A server record for a day outside the window has no effect on the chart. |
| SalesWindow.SalesOnUniform | src/components/Home.jsx:63-64 | When every record with the key is the same record, the revenue is that record's, however many copies there are. |
| SalesWindow.ServerOrderIrrelevant | src/components/Home.jsx:62-65 | When `_id`s are distinct, any reordering of the server series gives the same chart. |
| SalesWindow.SingleDayExample | src/components/Home.jsx:46-65 | The series `[{_id: "2025-01-03", dailyRevenue: 500}]` over 7 days ending 2025-01-03 gives six zero days, then 500. |
| Dashboard.Refresh | src/components/Home.jsx:25-77 | If all four fetches and parses succeed, all four pieces of state are set together. The chart then has `range` points from the window. If any one fails, nothing changes. |
| Assistant.ToLower | src/components/Home.jsx:99 | Keeps the length and removes every upper-case ASCII letter. A capital becomes its lower-case letter, and every other character is kept. |
| Assistant.Includes | src/components/Home.jsx:102 | True exactly when the pattern occurs at some index of the text. This is a substring test, not equality. |
| Assistant.Start | src/components/Home.jsx:79-88 | While listening, a click is a no-op. Otherwise it sets the flag. In a browser with a recognition constructor it also starts exactly one new recognition session. Without one it stops there: flag set, no session, no effect. The summary is unchanged. |
| Assistant.Stop | src/components/Home.jsx:131-135 | Always clears the flag and cancels speech. It aborts recognition exactly when a session was ever created. It starts nothing and requests nothing. |
| Assistant.OnError | src/components/Home.jsx:127 | A recognition error restarts recognition once and changes no state. |
| Assistant.OnResult | src/components/Home.jsx:98-125 | A wake transcript gets the spoken acknowledgement and a re-listen, with no summarize request. Any other transcript sends exactly one request with the lower-cased query and the snapshot. On success the output becomes the summary and is spoken before re-listening. On failure the summary is the fallback text and there is no re-listen. The flag never changes. |
| Assistant.Remount | src/components/Home.jsx:14-23 | Entering the dashboard again resets the on-screen summary to the prompt. The module-level flag, instance and session count are kept, and nothing is requested. |
| Assistant.Run | src/components/Home.jsx:14-15 | Over any sequence of events the session count never decreases, and a created session stays recorded. |
| Assistant.SessionsBoundedByStops | src/components/Home.jsx:79-81 | Over any sequence of events, sessions created stay within one plus the number of stops. Without a stop, at most one session is ever created. |
| Assistant.SessionsFromIdle | src/components/Home.jsx:14-15 | From a fresh page, sessions created stay within one plus the number of stops. |
| Assistant.SecondStartIgnored | src/components/Home.jsx:80 | A second click while listening changes nothing and starts nothing, whatever the first click did. |
| Assistant.StopThenStartAccepted | src/components/Home.jsx:131-135 | After Stop, the next click in a supporting browser starts exactly one new session. |
| Assistant.NoRecognizerLocksButton | src/components/Home.jsx:80-84 | Without a recognition constructor the first click leaves the flag set and no instance. Later clicks do nothing, and Stop aborts nothing and only cancels speech. |
| Assistant.RemountKeepsFlag | src/components/Home.jsx:14-15 | Leaving the dashboard while listening and coming back shows the prompt again. The flag survives, so a click does nothing until Stop, and after Stop it starts a session. |
| Assistant.FailedSummaryNeedsStop | src/components/Home.jsx:120-123 | After a failed request the flag stays set and nothing re-arms. A click then does nothing; a Stop then a click restarts. |
| Assistant.WakeIgnoresReply | src/components/Home.jsx:102-104 | The wake path does not depend on any summarize reply. |
| Assistant.WakeAnywhere | src/components/Home.jsx:99-102 | Text whose lower case is the wake phrase wakes the assistant wherever it appears in the utterance. |
| Assistant.CapitalisedPhraseWakes | src/components/Home.jsx:99-102 | "Hello Gemini" with any text before and after wakes the assistant. |
| Restock.PendingQuantity | src/components/Restock.jsx:23 | A product without an entry reads as quantity 0. Otherwise its stored value is read. |
| Restock.RemoveId | src/components/Restock.jsx:36-38 | The result holds exactly the items whose `_id` differs from the id. If no item has that id, the list is unchanged. |
| Restock.HandleRestock | src/components/Restock.jsx:22-45 | A request goes out exactly when the pending quantity is positive, and it carries that quantity. On an ok reply, the product's entry becomes 0 and the list loses the product, with a success notice. On rejection, a non-ok reply or a thrown error, the state is unchanged. The error notice is the server's error text or the fixed fallback. |
| Restock.HandleQuantityChange | src/components/Restock.jsx:47-50 | `NaN` leaves the map unchanged. Otherwise only that id's entry is set to the parsed value, zero and negatives included. |
| Restock.InputValue | src/components/Restock.jsx:108 | Shows "" exactly when the quantity is 0 or absent. Otherwise it shows text that parses back to the stored quantity. |
| Restock.RemoveIdIdempotent | src/components/Restock.jsx:36-38 | Removing a product twice equals removing it once. |
| Restock.RemoveIdAppend | src/components/Restock.jsx:36-38 | Removal distributes over concatenation, so the remaining items keep their relative order. |
| Restock.SuccessResetsOnlyTarget | src/components/Restock.jsx:33-35 | After a successful restock every other product's pending quantity is unchanged. An immediate second restock of the same product is rejected without a request. |
| Restock.TypedQuantityIsSent | src/components/Restock.jsx:47-49 | Typing text that reads as a positive number sends exactly that number, and the input shows it back. |
| Restock.NonPositiveRejectedAtSubmit | src/components/Restock.jsx:24 | Zero or negative input is stored as typed. At submit it is refused with no request and no change. |
| Decimal.ParseInt | src/components/Restock.jsx:48 | A number is read only from text that contains a digit. |
| Decimal.ParseShow | src/components/Restock.jsx:48 | The decimal text of any integer, followed by anything that cannot continue the digits, parses back to that integer. |
| Decimal.ParseSkipsSpace | src/components/Restock.jsx:48 | Leading white space does not change what `parseInt` reads. |
| Decimal.FractionCut | src/components/Restock.jsx:48 | "2.5" reads as 2. |
| Decimal.ExponentIgnored | src/components/Restock.jsx:48 | "1e3" reads as 1. |
| Decimal.ShowNat | src/components/Restock.jsx:108 | Non-empty decimal digits whose value is the number, with no leading zero. |
| Decimal.Show | src/components/Restock.jsx:108 | `String(n)` of an integer: the digits of `n` with no leading zero, preceded by a minus sign exactly when `n` is negative. |
| Json.Spread | src/components/Addproduct.jsx:68 | Spreading an object copies its fields. Spreading an array keys its elements by index text. Spreading other non-strings copies nothing. |
| Json.Truthy | src/components/Addproduct.jsx:64 | A value is falsy exactly when it is `undefined`, `null`, `false`, `0` or `""`. Every array and object is truthy, even an empty one. |
| Json.TypeOf | src/components/Addproduct.jsx:64 | `typeof` yields one of five type names, and yields "object" exactly for `null`, arrays and objects. |
| Json.TruthyObjectIsContainer | src/components/Addproduct.jsx:64 | The guard "truthy and of type object" admits exactly arrays and objects. |
| ProductForm.Initial | src/components/Addproduct.jsx:7-15 | The form has exactly the seven fields, and all of them are "". |
| ProductForm.HandleChange | src/components/Addproduct.jsx:17-20 | Only the named field is set, to the input's text. All other fields are unchanged. |
| ProductForm.Submit | src/components/Addproduct.jsx:22-44 | Success resets the seven fields to "" with a success notice. Failure leaves the form unchanged with an error notice. |
| ProductForm.PickImage | src/components/Addproduct.jsx:119-129 | A file over 2 MiB is refused and the form is unchanged. Any other file sets only `imgUrl`, to the data URL. No file changes nothing. |
| ProductForm.Output | src/components/Addproduct.jsx:64 | Reading `output` throws exactly for a null body. An object's `output` field is read, and anything else reads as `undefined`. |
| ProductForm.FillWithAI | src/components/Addproduct.jsx:52-74 | A reply that fails the guard, or a thrown error, leaves the form unchanged with an error notice. Otherwise it merges shallowly: output keys override, other fields are kept, extra keys are added. |
| ProductForm.MergeEmptyIsIdentity | src/components/Addproduct.jsx:68 | Merging `{output: {}}` leaves the form unchanged. |
| ProductForm.MergeIdempotent | src/components/Addproduct.jsx:68 | Merging the same reply twice equals merging it once. |
| ProductForm.StringOutputRefused | src/components/Addproduct.jsx:64-67 | A non-empty string `output` is refused and the form is unchanged. |
| ProductForm.ArrayOutputAddsIndexKeys | src/components/Addproduct.jsx:64-68 | An array `output` passes the guard, and its elements are added under the keys "0", "1", …. |
| ProductForm.ImageLimitIsInclusive | src/components/Addproduct.jsx:121 | A file of exactly 2 MiB is accepted. One byte more is refused. |
| ProductForm.EditsThenSubmit | src/components/Addproduct.jsx:17-39 | Edits keep the seven fields, and a successful submit after an edit gives back the empty form. |

## Left out

- Rendering, charts, CSS, routing (`App.jsx`, `AppLayout.jsx`, `Header.jsx`) and the low-stock fetch on the restock screen's mount: presentation and plumbing only.
- Real dates: `new Date()`, `setDate` in local time against `toISOString` in UTC, and `toLocaleDateString`. They are the parameters `iso` and `display`.
- Async timing: a summarize reply arriving after Stop, overlapping requests, stale dashboard data captured by the recognition handler, and the wait for speech to finish. Each handler is modelled as one atomic step.
- Browser speech recognition and synthesis and `FileReader`. They appear as events (transcript, error, file size, data-URL text) and as effects.
- Toast loading and dismissal, and the "Processing..." text shown while the request is pending. Only the final summary and notice are modelled.
- The fill-product request itself (`POST /api/ai/fill-product` with the transcript). Only its reply is an input.
- Floating-point money, prices and JSON numbers: integers stand in for them, and NaN is not a JSON value here.
- Dashboard.Refresh: a response with an error status still counts as a success when its body parses, because `fetch` does not reject on status. The model assumes every successful parse has the documented shape.
- Assistant.Run: after the dashboard is left and entered again, a reply to a session started before is delivered to the page that was left, so the new page's summary never shows it. The model keeps one summary and writes such replies into it.
- Assistant.OnResult: a summarize body without `output` makes the source show and speak `undefined`. The reply is modelled as text, so this case is missing.
- Assistant.ToLower: lower-cases ASCII letters only, not the full Unicode case mapping of `toLowerCase`.
- Decimal.ParseInt: reads base ten only, not the `0x` prefix. It skips ASCII white space, NBSP, BOM, LS and PS, but not the other Unicode space separators. A number input's value never holds those forms.
- Decimal.Show: renders every integer in plain digits. JavaScript switches to exponent notation from 10^21, which no realistic quantity reaches.
- ProductForm.PickImage: a read that fails, leaving `reader.result` null, is not modelled.
- ProductForm.FillWithAI: the message for a null body is the V8 wording. Other engines word it differently.
