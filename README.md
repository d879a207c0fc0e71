# USB print session of flutter_usb_printer, in Dafny

This project models the session state machine of the Android adapter `USBPrinterAdapter` in the
flutter_usb_printer plugin. The adapter holds five pieces of state:
- the selected USB device;
- an open session, made of a device connection, a claimed interface and a bulk-OUT endpoint;
- one pending payload waiting to be redelivered.

It changes that state in these operations:
- `closeConnectionIfExists`;
- `selectDevice`, which asks the OS for permission for the first attached device with a given vendor and product id;
- `openConnection`, which returns one of six `ConnectionResult` codes;
- `write`, which sends a payload over the session or buffers it;
- `tryToReconnectFailedDevice`;
- the broadcast receiver's permission-result, device-attached and device-detached branches.

The project has three modules:

- `UsbHost` (usb_host.dfy) holds the USB values as datatypes: devices, the endpoints of interface 0, connections and `ConnectionResult`. It also holds the two searches the adapter performs, `FirstBulkOut` and `FirstMatch`. Each has lemmas saying it returns exactly the first matching position, or nothing when no position matches.
- `PrintSession` (print_session.dfy) holds the whole adapter state as one `Session` value. Every operation is a function from the state before to the state after, and its contract states what the source promises. The `Consistent` predicate is the session invariant. Connection, interface and endpoint are set and cleared together. An open session has a selected device. It holds interface 0 of the device it was opened on and writes to that interface's first bulk-OUT endpoint. Every operation preserves it. Lemmas relate several operations: last write wins, redelivery on grant, reconnect to the first enumerated device, and detach is close.
- `PrinterAdapter` (printer_adapter.dfy) holds the class `UsbPrinterAdapter`, with the adapter's fields as mutable fields. Its methods update those fields as the Kotlin does. The `selectDevice` device scan and the `openConnection` endpoint scan are `while` loops with early returns, proved against `FirstMatch` and `FirstBulkOut`. Each method is proved to move `State()` to what the matching `PrintSession` function gives, and to keep `Valid()`.

The Android USB stack becomes inputs:
- the attached-device list is a `seq<Device>`;
- `openDevice` and `claimInterface` are booleans;
- the result of `bulkTransfer` is an `int`;
- `requestPermission` and the synchronous `bulkTransfer` append to ghost logs (`permissionRequests`, `transfers`);
- the callback that `write` passes to `openConnection` is the payload it buffers, an `Option`.

Behaviour of the code that these contracts record:

- The invariant keeps the device outside the all-or-nothing group. A permission grant sets the device without opening a session. `closeConnectionIfExists` clears the device only when a connection exists. A detach with a selected device but no session therefore changes nothing (`OnDeviceDetached`, `DetachIsClose`).
- `openConnection` returns `SUCCESS` without opening a session when interface 0 has no bulk-OUT endpoint, and `write` then returns true (`PrintSession.OpenConnection`, `PrintSession.Write`). The background thread that `write` then starts (lines 342-344) dereferences the still-null connection with `!!` and throws. That exception is outside the model, together with the rest of the thread.
- A successful `selectDevice` only asks for permission. Until the grant arrives, selecting the same device again asks again (`RepeatedSelectRequestsAgain`). After a grant with nothing pending, selecting it is a no-op (`SelectAfterGrantIsNoOp`). A grant with a payload pending can instead end with the device cleared, as `GrantClearsPendingAfterFailedRedelivery` shows, and selecting it then asks for permission again.
- In `write`, the `CONNECTION_ALREADY_OPEN` branch transfers synchronously; only the `SUCCESS` branch uses a background thread.
- `PrintSession.DeviceList` is `getDeviceList` (lines 148-158) on the state value. It is a helper of `SelectDevice`, and its contract is stated by the class method `GetDeviceList`.
- `PrinterAdapter.ExampleSession` is a client of the class that runs a short session as proved assertions. A printer is attached, selected and granted. One write opens the session, and a second write transfers on it.
- The permission receiver clears the pending slot whenever the redelivering `write` returns true. This includes a synchronous transfer that failed and buffered the payload again (`GrantClearsPendingAfterFailedRedelivery`).

## Model

| member | source | states |
|---|---|---|
| UsbHost.FirstBulkOut | android/src/main/kotlin/app/mylekha/client/flutter_usb_printer/adapter/USBPrinterAdapter.kt:199-203 | a position it returns lies within interface 0's endpoint list and holds a bulk endpoint whose direction is OUT |
| UsbHost.FirstBulkOutIsFirst | android/src/main/kotlin/app/mylekha/client/flutter_usb_printer/adapter/USBPrinterAdapter.kt:200-203 | the search returns k exactly when k is a bulk-OUT endpoint and no endpoint before it is one |
| UsbHost.FirstBulkOutNone | android/src/main/kotlin/app/mylekha/client/flutter_usb_printer/adapter/USBPrinterAdapter.kt:200-227 | the search returns nothing exactly when interface 0 has no bulk-OUT endpoint |
| UsbHost.FirstMatch | android/src/main/kotlin/app/mylekha/client/flutter_usb_printer/adapter/USBPrinterAdapter.kt:164-165 | a position it returns lies within the device list and holds a device with the requested vendor id and product id |
| UsbHost.FirstMatchIsFirst | android/src/main/kotlin/app/mylekha/client/flutter_usb_printer/adapter/USBPrinterAdapter.kt:164-173 | the search returns k exactly when device k matches both ids and no earlier device does |
| UsbHost.FirstMatchNone | android/src/main/kotlin/app/mylekha/client/flutter_usb_printer/adapter/USBPrinterAdapter.kt:164-175 | the search returns nothing exactly when no listed device matches both ids |
| PrintSession.Init | android/src/main/kotlin/app/mylekha/client/flutter_usb_printer/adapter/USBPrinterAdapter.kt:108-110 | init makes the USB manager available and changes nothing else |
| PrintSession.CloseConnectionIfExists | android/src/main/kotlin/app/mylekha/client/flutter_usb_printer/adapter/USBPrinterAdapter.kt:137-146 | afterwards no session is open and the invariant holds; the device is cleared if a connection existed and kept otherwise; with no connection nothing changes; pending payload and logs never change |
| PrintSession.RequestPermission | android/src/main/kotlin/app/mylekha/client/flutter_usb_printer/adapter/USBPrinterAdapter.kt:171 | a permission request for the device is appended to the log and nothing else changes |
| PrintSession.SelectDevice | android/src/main/kotlin/app/mylekha/client/flutter_usb_printer/adapter/USBPrinterAdapter.kt:160-178 | if the selected device matches both ids, it returns true and changes nothing; otherwise it returns true exactly when a listed device matches, having closed any session and issued exactly one permission request, for the first matching device; it returns false having only closed the session; the invariant is kept |
| PrintSession.ReconnectedRemovedDevice | android/src/main/kotlin/app/mylekha/client/flutter_usb_printer/adapter/USBPrinterAdapter.kt:181-183 | requires the manager (the source dereferences it with !!) and issues one permission request for the device |
| PrintSession.OpenConnection | android/src/main/kotlin/app/mylekha/client/flutter_usb_printer/adapter/USBPrinterAdapter.kt:186-228 | each of the six results holds exactly under its condition, in the source's guard order: no device, then no manager, then an open session; DEVICE_NOT_INITIALIZED, USB_MANAGER_NOT_INITIALIZED, CONNECTION_ALREADY_OPEN and FAILED_TO_CLAIM_INTERFACE change nothing; FAILED_TO_OPEN_CONNECTION buffers the callback's payload and requests permission for the selected device; SUCCESS either opens a session on the device's interface 0 at its first bulk-OUT endpoint, or changes nothing when there is no such endpoint; the invariant is kept |
| PrintSession.TryToReconnectFailedDevice | android/src/main/kotlin/app/mylekha/client/flutter_usb_printer/adapter/USBPrinterAdapter.kt:392-406 | with no attached device nothing changes; otherwise it selects the vendor and product of device index 0, which closes the session and requests permission for that device unless it is already selected |
| PrintSession.Write | android/src/main/kotlin/app/mylekha/client/flutter_usb_printer/adapter/USBPrinterAdapter.kt:332-389 | returns true exactly when a device and the manager are present and either a session is open, interface 0 has no bulk-OUT endpoint, or open and claim both succeed; the payload becomes pending (last write wins) exactly when the open fails or the synchronous transfer returns -1, and otherwise pending is unchanged; exactly one transfer, on the session's endpoint, happens when a session was already open; a -1 transfer closes the session and requests permission for device index 0; otherwise the state is openConnection's |
| PrintSession.OnPermissionResult | android/src/main/kotlin/app/mylekha/client/flutter_usb_printer/adapter/USBPrinterAdapter.kt:55-91 | a denial changes nothing; a grant with nothing pending only selects the granted device; a grant with a pending payload installs the granted device and then yields exactly the state of `write` on the pending payload, with the slot emptied exactly when that write returns true; at most one synchronous transfer happens; the invariant is kept |
| PrintSession.OnDeviceAttached | android/src/main/kotlin/app/mylekha/client/flutter_usb_printer/adapter/USBPrinterAdapter.kt:92-96 | an attach carrying a device requests permission for it, whichever device it is, and changes nothing else; an attach without a device changes nothing |
| PrintSession.OnDeviceDetached | android/src/main/kotlin/app/mylekha/client/flutter_usb_printer/adapter/USBPrinterAdapter.kt:97-103 | afterwards no session is open; the device is cleared exactly when a connection existed; nothing outside the session changes |
| PrintSession.InitialConsistent | android/src/main/kotlin/app/mylekha/client/flutter_usb_printer/adapter/USBPrinterAdapter.kt:33-40 | the freshly constructed adapter, and the adapter after init, satisfy the session invariant |
| PrintSession.CloseIdempotent | android/src/main/kotlin/app/mylekha/client/flutter_usb_printer/adapter/USBPrinterAdapter.kt:137-146 | closing twice is the same as closing once, as selectDevice's second close at line 170 relies on |
| PrintSession.DetachIsClose | android/src/main/kotlin/app/mylekha/client/flutter_usb_printer/adapter/USBPrinterAdapter.kt:97-102 | in a consistent state a detach is exactly closeConnectionIfExists, because an open session implies a selected device |
| PrintSession.SelectAfterGrantIsNoOp | android/src/main/kotlin/app/mylekha/client/flutter_usb_printer/adapter/USBPrinterAdapter.kt:161-177 | after a grant with nothing pending, selecting the granted device's vendor and product returns true and changes nothing |
| PrintSession.RepeatedSelectRequestsAgain | android/src/main/kotlin/app/mylekha/client/flutter_usb_printer/adapter/USBPrinterAdapter.kt:161-172 | a successful selection does not select the device, so the same selection again returns true and issues a second permission request |
| PrintSession.LastWriteWins | android/src/main/kotlin/app/mylekha/client/flutter_usb_printer/adapter/USBPrinterAdapter.kt:335-337 | two writes that both fail to open the device return false, leave only the second payload pending and request permission twice |
| PrintSession.PendingRedeliveredOnGrant | android/src/main/kotlin/app/mylekha/client/flutter_usb_printer/adapter/USBPrinterAdapter.kt:73-81 | a payload buffered by a failed open stays pending after a denial; after a grant on which the device opens it is delivered on a new session and the slot is empty |
| PrintSession.TransferFailureReconnectsToFirst | android/src/main/kotlin/app/mylekha/client/flutter_usb_printer/adapter/USBPrinterAdapter.kt:367-374 | a -1 transfer on an open session returns true, keeps the payload pending, leaves no session and no device, and requests permission for device index 0 |
| PrintSession.GrantClearsPendingAfterFailedRedelivery | android/src/main/kotlin/app/mylekha/client/flutter_usb_printer/adapter/USBPrinterAdapter.kt:79-81 | a grant that arrives while a session is open redelivers on that session; if the transfer returns -1, the slot still ends empty and the session closed |
| PrinterAdapter.UsbPrinterAdapter.constructor | android/src/main/kotlin/app/mylekha/client/flutter_usb_printer/adapter/USBPrinterAdapter.kt:33-40 | every field starts null, the manager absent, and the invariant holds |
| PrinterAdapter.UsbPrinterAdapter.Init | android/src/main/kotlin/app/mylekha/client/flutter_usb_printer/adapter/USBPrinterAdapter.kt:108-110 | sets the manager and keeps the invariant |
| PrinterAdapter.UsbPrinterAdapter.CloseConnectionIfExists | android/src/main/kotlin/app/mylekha/client/flutter_usb_printer/adapter/USBPrinterAdapter.kt:137-146 | updates the fields exactly as PrintSession.CloseConnectionIfExists |
| PrinterAdapter.UsbPrinterAdapter.GetDeviceList | android/src/main/kotlin/app/mylekha/client/flutter_usb_printer/adapter/USBPrinterAdapter.kt:148-158 | returns the attached devices when the manager is present and an empty list when it is missing |
| PrinterAdapter.UsbPrinterAdapter.SelectDevice | android/src/main/kotlin/app/mylekha/client/flutter_usb_printer/adapter/USBPrinterAdapter.kt:160-178 | the device scan, a loop with an early return, returns and updates the fields exactly as PrintSession.SelectDevice |
| PrinterAdapter.UsbPrinterAdapter.ReconnectedRemovedDevice | android/src/main/kotlin/app/mylekha/client/flutter_usb_printer/adapter/USBPrinterAdapter.kt:181-183 | logs one permission request, as PrintSession.ReconnectedRemovedDevice |
| PrinterAdapter.UsbPrinterAdapter.OpenConnection | android/src/main/kotlin/app/mylekha/client/flutter_usb_printer/adapter/USBPrinterAdapter.kt:186-228 | the guards, then the endpoint scan with open and claim inside the loop, return and update exactly as PrintSession.OpenConnection |
| PrinterAdapter.UsbPrinterAdapter.Write | android/src/main/kotlin/app/mylekha/client/flutter_usb_printer/adapter/USBPrinterAdapter.kt:332-389 | returns and updates exactly as PrintSession.Write |
| PrinterAdapter.UsbPrinterAdapter.TryToReconnectFailedDevice | android/src/main/kotlin/app/mylekha/client/flutter_usb_printer/adapter/USBPrinterAdapter.kt:392-406 | updates exactly as PrintSession.TryToReconnectFailedDevice |
| PrinterAdapter.UsbPrinterAdapter.OnPermissionResult | android/src/main/kotlin/app/mylekha/client/flutter_usb_printer/adapter/USBPrinterAdapter.kt:55-91 | updates exactly as PrintSession.OnPermissionResult |
| PrinterAdapter.UsbPrinterAdapter.OnDeviceAttached | android/src/main/kotlin/app/mylekha/client/flutter_usb_printer/adapter/USBPrinterAdapter.kt:92-96 | updates exactly as PrintSession.OnDeviceAttached |
| PrinterAdapter.UsbPrinterAdapter.OnDeviceDetached | android/src/main/kotlin/app/mylekha/client/flutter_usb_printer/adapter/USBPrinterAdapter.kt:97-103 | updates exactly as PrintSession.OnDeviceDetached |

## Left out

- Toasts and `Log` calls are user-interface side effects and carry no state.
- The other work of `init` (lines 108-134) is Android plumbing. It stores the context, builds the permission `PendingIntent` with SDK-dependent flags and registers the receiver. The model keeps only "the manager is present after init".
- `getInstance` (lines 45-50) has no behaviour beyond returning the object.
- The background `Thread` transfers are concurrency. They are in `write`'s `SUCCESS` branch (lines 342-351) and in `printText`/`printRawText`. So are their post-transfer effects and their race with the receiver. `write` in the `SUCCESS` branch returns true, and no transfer is recorded.
- The receiver's `synchronized` block is a lock over a purely sequential model.
- `printText` and `printRawText` (lines 230-329) depend on UTF-8 encoding, `Base64.decode` and background threads. Apart from those, they repeat `write`'s result mapping without the pending slot.
- The releaseInterface and close calls on the device handle are not logged. Neither is the close of a handle whose claim failed (line 218). The model only drops the handle.
- The transfer length and the 100000 ms timeout are not modelled; the transfer's result is an input.
- OS permission dialogs and the order of the OS device map are inputs: the attached list is an arbitrary sequence.
- `getInterface(0)` on a device without interfaces throws in the source. The model gives every device an interface 0, whose endpoint list may be empty.
- Some `!!` dereferences would throw on a missing manager. These are in `reconnectedRemovedDevice`, in `tryToReconnectFailedDevice`, and in the attach branch through `reconnectedRemovedDevice`. They are `requires managerReady` on those members. A permission intent without a device (`usbDevice!!`, line 62) is not modelled: the event always carries one.
- PrintSession.OnPermissionResult: "at most one delivery" counts only the synchronous transfers in the `transfers` log, because the `SUCCESS` branch's background transfer is left out.
