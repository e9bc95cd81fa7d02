# System Notify page of the bulk notify controller, in Dafny

This project models the System Notify page of `BulkNotifyController.py`. The page
binds device parameter ids to controls through a fixed table:

- four numeric spin inputs, bound to `343@i`, `344@i`, `345@i` and `219@i`;
- seventeen False/True selectors, bound to the seventeen `850.*@i` notification ids.

Three operations sit on top of the table:

- **Toggle All** sets every selector to 0 or to 1, as the page's flag says, and then
  inverts the flag.
- **Apply** sends one `SET` request per control. The spin inputs go first, then the
  selectors. Each request carries the control's current value as decimal text.
- **Load** sends one `GET` request per control, in the same order. It writes `int()`
  of each reply's `"value"` field back into the control. A spin input whose value
  raises `ValueError` shows an alert and keeps its value. Every other exception ends
  the batch at that control.

Both buttons refuse to start a batch when no device IP is stored.

Files:

- `wrappers.dfy` (module `Wrappers`) holds the `Option` type.
- `pyint.dfy` (module `PyInt`) holds the Python conversions the page relies on:
  - `int()` applied to a JSON value, with its `TypeError`, `ValueError` and
    `OverflowError` cases;
  - `int()` on a string: tab, line feed, vertical tab, form feed, carriage return and
    space stripped from both ends, an optional sign, digits with single underscores;
  - `str()` of an integer, as an f-string inserts it.
- `bulk_notify.dfy` (module `BulkNotify`) holds:
  - the id table and the request URLs;
  - `Page`, a value view of the page's state;
  - `Decode`, how one reply is handled by each kind of load loop;
  - `LoadSteps` and `Load`, the specification of a load batch;
  - the class `SystemNotify`. Its cells are `array<int>` fields and its flag is a
    mutable field. Its methods `ToggleAll`, `ApplyThread`, `OnApply`, `LoadThread` and
    `OnLoad` loop over the cells as the source does. Each is proved against the
    functions above.
- `device.dfy` (module `Device`) is a reference device. It is a store of parameter
  texts that performs `SET` requests and answers `GET` requests with
  `{"value": "<text>"}`. It only serves to state that Apply and Load are inverse: what
  an Apply writes, a Load reads back.

Abstractions:

- A control is an integer cell. A spin input holds its value. A selector holds its
  selection index: 0 is "False", 1 is "True".
- The worker threads and the `wx.CallAfter` hand-offs are collapsed into sequential
  methods whose assignments take effect in order.
- The transport and `json.loads` are a parameter `respond: string -> Reply`. It yields
  one of three things:
  - no JSON (`json.JSONDecodeError`);
  - JSON that is not an object (`AttributeError` on `.get`);
  - an object with or without a `"value"` field.
- The stored IP is a string parameter of the button handlers.
- A load batch returns a `LoadReport`: the read requests sent, in order, and what each
  reply did (`Assign`, `Alert`, `Stop`). An apply batch returns its write requests.

Three consequences of the code are worth stating, each with the lemma that proves it:

- Only the spin loop catches an exception, and only `ValueError`. A missing
  `"value"` field (`int(None)` raises `TypeError`), a reply that is not JSON, a reply
  that is not an object, or any bad selector value ends the whole batch at that
  control (`LoadStopsAtFirstFault`).
- Toggle All sets all selectors to one value, so two Toggle Alls restore the
  selections exactly when all selectors already sit on the selection the flag leads
  back to (`TwoTogglesRestoreIff`). Mixed selections are not restored
  (`TwoTogglesForgetMixedSelections`). A fresh page always comes back
  (`TogglesFromInitial`).
- Ids are used verbatim in the URLs (`SetUrlParts`, `GetUrlParts`), and a selector
  takes any integer the device returns, with no range check (`DecodeSamples`).

## Model

| member | source | states |
|---|---|---|
| PyInt.IntToString | BulkNotifyController.py:374 | the decimal text an f-string gives an int is not empty, starts with '-' exactly for negative numbers, and is digits everywhere else |
| PyInt.ParseInt | BulkNotifyController.py:402 | a text `int()` accepts ends, once stripped, in a digit, and a negative result comes from a text whose first character after stripping is '-'; its round trip with `str` is `ParseIntOfIntToString`, its accepted and refused syntax `ParseIntAcceptsPythonSyntax` and `ParseIntRefusesNonIntegers` |
| PyInt.IntOf | BulkNotifyController.py:402 | `int()` of a JSON value either converts it or raises only TypeError, ValueError or OverflowError |
| PyInt.TrimStartRemovesLeadingSpace | BulkNotifyController.py:402 | stripping before `int()` removes exactly the leading white space (tab, line feed, vertical tab, form feed, carriage return, space): the removed prefix is all white space, what remains is the tail of the text, and it does not start with white space |
| PyInt.TrimEndRemovesTrailingSpace | BulkNotifyController.py:402 | stripping removes exactly the trailing white space of the same set, keeping the head of the text |
| PyInt.ValueOfNatToString | BulkNotifyController.py:374 | the digits written for a natural number spell that number back |
| PyInt.ParseIntOfIntToString | BulkNotifyController.py:402 | `int(str(n)) == n` for every integer n, negatives included |
| PyInt.IntToStringInjective | BulkNotifyController.py:374 | different integers give different value texts in a request URL |
| PyInt.IntOfFormatted | BulkNotifyController.py:402 | `int()` converts a JSON integer, and the string text of any integer, to that same integer |
| PyInt.ParseIntAcceptsPythonSyntax | BulkNotifyController.py:402 | `int()` accepts surrounding white space, a sign, leading zeros and a single underscore between digits (" -0_7\n" gives -7) |
| PyInt.ParseIntRefusesNonIntegers | BulkNotifyController.py:402-405 | a fraction, an empty text, a doubled underscore, a space after the sign and a leading 0x1c separator all raise ValueError |
| BulkNotify.NotificationIdsListed | BulkNotifyController.py:181-199 | the selector ids, taken from the notification table's second column, are the 17 ids from `850.2@i` to `850.27@i` in insertion order |
| BulkNotify.TableWellFormed | BulkNotifyController.py:176-199 | the 21 ids of the page are pairwise distinct and none contains '/' |
| BulkNotify.ToggleAllOf | BulkNotifyController.py:348-354 | Toggle All keeps the spin inputs and the number of selectors, sets every selector to 0 if the flag was set and to 1 otherwise, and inverts the flag |
| BulkNotify.TwoToggles | BulkNotifyController.py:348-354 | two Toggle Alls give the flag back and keep the spin inputs, but leave every selector on 1 if the flag was set and on 0 otherwise |
| BulkNotify.TwoTogglesRestoreIff | BulkNotifyController.py:348-354 | two Toggle Alls restore a page if and only if every selector already holds the value the flag leads back to |
| BulkNotify.TogglesFromInitial | BulkNotifyController.py:348-354 | from a fresh page (flag set at line 208, selectors on "True" at line 331) one Toggle All turns every selector to 0 and clears the flag, and two give the fresh page back |
| BulkNotify.TwoTogglesForgetMixedSelections | BulkNotifyController.py:348-354 | a page with selections [0, 1] and the flag set comes back as [1, 1] after two Toggle Alls |
| BulkNotify.SetUrlParts | BulkNotifyController.py:374 | a write request is `http://{ip}/v.api/apis/EV/SET/parameter/`, then the id, then '/', then the value's decimal text (the same f-string is at line 379); `Device.ParseSetUrl` reads id and value back |
| BulkNotify.GetUrlParts | BulkNotifyController.py:398 | a read request is `http://{ip}/v.api/apis/EV/GET/parameter/` followed by the id (the same f-string is at line 409); `Device.ParseGetUrl` reads the id back |
| BulkNotify.ApplyUrls | BulkNotifyController.py:369-380 | an Apply sends one write request per control, the spin inputs first and then the selectors, request i carrying control i's id and current value |
| BulkNotify.ApplyTableOrder | BulkNotifyController.py:369-380 | an Apply of the page's table sends 21 write requests: 343, 344, 345, 219 first, each with its spin value, then the 17 notification ids in table order, each with its selection |
| BulkNotify.ApplyFreshPage | BulkNotifyController.py:372-380 | on a fresh page the first request writes 0 to `343@i` and the last writes 1 to `850.27@i`, with the exact URL text |
| BulkNotify.Decode | BulkNotifyController.py:399-413 | a reply assigns a control exactly when it is a JSON object whose value `int()` converts, and then the converted value; it gives an alert exactly for a spin input whose value raises ValueError; any other reply stops the batch |
| BulkNotify.DecodeSamples | BulkNotifyController.py:399-413 | a selector takes the out-of-range 7; "12" assigns 12; "n/a" gives an alert on a spin input and stops a selector; a missing or null value raises TypeError; a non-JSON or non-object reply stops either loop |
| BulkNotify.LoadSteps | BulkNotifyController.py:397-413 | one load loop reads the controls in order, step i comes from the reply to control i's read request, no step before the last stops, and the loop reads fewer controls only when its last step stopped |
| BulkNotify.Load | BulkNotifyController.py:394-415 | a load batch keeps the flag and the number of controls, and sends one read request per step, at most one per control; `LoadReads`, `LoadWrites` and `LoadStopsAtFirstFault` state which requests and which values |
| BulkNotify.LoadReads | BulkNotifyController.py:394-413 | a load batch sends the read requests of a prefix of the controls, spin inputs first; each step is its reply decoded by its control's kind; only the last step can stop, and the batch is short only if it did |
| BulkNotify.LoadWrites | BulkNotifyController.py:394-413 | after a load batch every control its step assigned holds the decoded value, every other control keeps its value, and the flag is untouched |
| BulkNotify.LoadStopsAtFirstFault | BulkNotifyController.py:394-413 | if the first uncaught exception comes at control k, the batch sends exactly k + 1 read requests and every control after k keeps its value |
| BulkNotify.SetRequests | BulkNotifyController.py:372-380 | one apply loop issues exactly the write request of each control in order, with that control's current value |
| BulkNotify.LoadCells | BulkNotifyController.py:397-413 | one load loop issues the read requests of `LoadSteps`, assigns each cell its step's value, leaves the other cells alone, and returns the steps of `LoadSteps` |
| BulkNotify.SystemNotify.constructor | BulkNotifyController.py:208-335 | a fresh page binds the spin inputs to 343, 344, 345, 219 and the selectors to the notification ids, holds 0 in every spin input and 1 in every selector, and sets the flag |
| BulkNotify.SystemNotify.ToggleAll | BulkNotifyController.py:348-354 | every selector becomes 0 if the flag was set and 1 otherwise, the flag is inverted, and the spin inputs are unchanged |
| BulkNotify.SystemNotify.ApplyThread | BulkNotifyController.py:369-382 | the apply worker returns the spin write requests, then the selector write requests, each with the control's current value, and changes nothing on the page |
| BulkNotify.SystemNotify.OnApply | BulkNotifyController.py:361-367 | Apply runs no batch exactly when the stored IP is empty; otherwise it sends the requests of the apply worker |
| BulkNotify.SystemNotify.LoadThread | BulkNotifyController.py:394-415 | the load worker leaves the page and returns the report that `Load` specifies for the page it started from |
| BulkNotify.SystemNotify.OnLoad | BulkNotifyController.py:385-392 | Load runs no batch and changes nothing exactly when the stored IP is empty; otherwise the page and the report are those of `Load` |
| Device.ParseSetUrl | BulkNotifyController.py:374 | a write request names its id and value text unambiguously when the id holds no '/' |
| Device.ParseGetUrl | BulkNotifyController.py:398 | a read request names its id unambiguously |
| Device.ServeSetUrls | BulkNotifyController.py:372-380 | after a batch of write requests to distinct ids, each id holds the text of its own value |
| Device.ApplyStores | BulkNotifyController.py:369-380 | after an Apply, each control's id on the device holds the text of that control's value |
| Device.ReadBack | BulkNotifyController.py:397-413 | a device holding the text of each value answers each read request with a reply that either load loop decodes to that value |
| Device.LoadAllAssigned | BulkNotifyController.py:397-413 | a load loop whose every reply assigns a value reads every control and leaves exactly those values in the cells |
| Device.LoadAllAssignedBatch | BulkNotifyController.py:394-413 | a batch whose every reply assigns a value reads all controls, raises nothing, shows no alert and leaves those values on the page |
| Device.ApplyThenLoad | BulkNotifyController.py:369-415 | after the device performs an Apply of page p, a Load into any page q reads every control without alert or exception and leaves q with p's values and its own flag |
| Device.ApplyThenLoadTable | BulkNotifyController.py:369-415 | the same round trip on the page's own 21-id table |

## Left out

- Threads and `wx.CallAfter` (lines 367, 392, 406, 413) are collapsed into sequential
  assignments taken in order. Interleavings with other batches or with UI events are
  not modelled.
- The `ahttp` transport is abstracted. Connection errors and timeouts are not modelled,
  and Apply does not look at the replies to its requests. `json.loads` is abstracted
  to the three reply shapes of `Reply`.
- Device.ApplyThenLoad: Apply sends its writes with `self.http.get(url)` and no
  `block=True` (lines 375, 380), unlike the load loops (lines 399, 410) and `test.py`
  line 17, so the Apply worker does not wait for the device. The lemma assumes the
  device has performed every write of the batch, in order, before the Load starts.
- Widget construction, layout, fonts, colours, status-bar texts, the error dialogs'
  text, and disabling and re-enabling the buttons are UI and are not modelled. An
  uncaught exception in a worker therefore does not show up as a button left disabled.
- BulkNotify.SystemNotify.LoadThread: the spin inputs' clamping to their widget range
  (0-100, 0-600, 0-60, 0-100) and the selector widget's handling of an out-of-range
  `SetSelection` are the widget library's behaviour and are not modelled. The cell
  takes the raw integer.
- PyInt.ParseInt: Unicode digits and Unicode white space, which Python's `int()` also
  accepts in a text that is not pure ASCII, are not modelled, and neither is the
  4300-digit limit. Only ASCII text is parsed.
- PyInt.IntOf: a JSON float is represented by the integer it truncates to, or as NaN or
  infinite. Rounding in the float itself is not modelled.
- Reading the IP from `wx.Config` is a parameter of `OnApply` and `OnLoad`. Connecting,
  resetting and IP validation (`on_connect`, `on_reset`) belong to another panel.
- `VideoNotify` is an empty panel. `test.py` only sends requests to a fixed device and
  repeats the notification table.
- The notification labels are kept in `Notifications`, but their display is not
  modelled.
