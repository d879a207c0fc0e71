/** The print session of the USB printer adapter as one value, and every
    operation of the adapter as a function from the state before to the state
    after (and its reply). The class in PrinterAdapter implements each of these
    functions on mutable fields; the properties of the session protocol are
    stated and proved here, once, about the functions. */
module PrintSession {
  import opened UsbHost

  /** A bulk transfer handed to the open session: the endpoint and the bytes. */
  datatype Transfer = Transfer(endpoint: Endpoint, data: seq<byte>)

  /** The adapter's fields, plus the two requests it makes of the USB stack
      that leave no trace in its fields: permission requests and synchronous
      bulk transfers, each recorded in order. */
  datatype Session = Session(
    managerReady: bool,                 // the USB manager is present
    device: Option<Device>,             // the selected device
    connection: Option<Connection>,     // the open device handle
    usbInterface: Option<Interface>,    // the claimed interface
    endpoint: Option<Endpoint>,         // the bulk-OUT endpoint written to
    pending: Option<seq<byte>>,         // the one payload awaiting redelivery
    permissionRequests: seq<Device>,
    transfers: seq<Transfer>)

  /** The state after an operation, and what the operation returned. */
  datatype Reply<T> = Reply(state: Session, value: T)

  /** A freshly constructed adapter: nothing selected, no USB manager yet. */
  const Initial := Session(false, None, None, None, None, None, [], [])

  predicate SessionClosed(s: Session) {
    s.connection.None? && s.usbInterface.None? && s.endpoint.None?
  }

  predicate SessionOpen(s: Session) {
    s.connection.Some? && s.usbInterface.Some? && s.endpoint.Some?
  }

  /** An open session holds interface 0 of the device it was opened on and
      writes to that interface's first bulk-OUT endpoint. */
  predicate OnFirstBulkOut(s: Session)
    requires s.connection.Some?
  {
    var ifc := s.connection.value.device.interface0;
    var k := FirstBulkOut(ifc.endpoints);
    s.usbInterface == Some(ifc) && k.Some? && s.endpoint == Some(ifc.endpoints[k.value])
  }

  /** The session invariant: connection, interface and endpoint are all set or
      all cleared, and an open session has a selected device. */
  predicate Consistent(s: Session) {
    (SessionClosed(s) || SessionOpen(s)) &&
    (s.connection.Some? ==> s.device.Some? && OnFirstBulkOut(s))
  }

  /** Nothing outside the four session fields differs between s and t. */
  predicate SameOutsideSession(s: Session, t: Session) {
    t.managerReady == s.managerReady && t.pending == s.pending &&
    t.permissionRequests == s.permissionRequests && t.transfers == s.transfers
  }

  /** init: the USB manager becomes available (nothing else is modelled). */
  function Init(s: Session): (t: Session)
    ensures t.managerReady && t == s.(managerReady := true)
  {
    s.(managerReady := true)
  }

  /** closeConnectionIfExists */
  function CloseConnectionIfExists(s: Session): (t: Session)
    ensures Consistent(s) ==> Consistent(t) && SessionClosed(t)
    ensures t.device == if s.connection.Some? then None else s.device
    ensures SameOutsideSession(s, t)
    ensures s.connection.None? ==> t == s
  {
    if s.connection.Some? then
      s.(usbInterface := None, endpoint := None, connection := None, device := None)
    else
      s
  }

  /** getDeviceList: the attached devices, or none while the USB manager is missing. */
  function DeviceList(s: Session, attached: seq<Device>): seq<Device> {
    if s.managerReady then attached else []
  }

  /** requestPermission for a device: the request is recorded, nothing else changes. */
  function RequestPermission(s: Session, d: Device): (t: Session)
    ensures t.permissionRequests == s.permissionRequests + [d]
    ensures t == s.(permissionRequests := t.permissionRequests)
  {
    s.(permissionRequests := s.permissionRequests + [d])
  }

  /** The selected device has the given vendor and product id. */
  predicate Selected(s: Session, vendorId: int, productId: int) {
    s.device.Some? && Matches(s.device.value, vendorId, productId)
  }

  /** selectDevice */
  function SelectDevice(s: Session, attached: seq<Device>, vendorId: int, productId: int): (r: Reply<bool>)
    ensures Selected(s, vendorId, productId) ==> r == Reply(s, true)
    ensures !Selected(s, vendorId, productId) ==>
              (r.value <==> AnyMatch(DeviceList(s, attached), vendorId, productId))
    ensures !Selected(s, vendorId, productId) && !r.value ==> r.state == CloseConnectionIfExists(s)
    ensures !Selected(s, vendorId, productId) && r.value ==>
              exists k: nat :: FirstMatchAt(DeviceList(s, attached), k, vendorId, productId) &&
                r.state == RequestPermission(CloseConnectionIfExists(s), DeviceList(s, attached)[k])
    ensures Consistent(s) ==> Consistent(r.state)
  {
    if Selected(s, vendorId, productId) then
      Reply(s, true)
    else
      var closed := CloseConnectionIfExists(s);
      var devices := DeviceList(s, attached);
      FirstMatchNone(devices, vendorId, productId);
      match FirstMatch(devices, vendorId, productId)
      case None => Reply(closed, false)
      case Some(k) =>
        FirstMatchIsFirst(devices, vendorId, productId, k);
        Reply(RequestPermission(CloseConnectionIfExists(closed), devices[k]), true)
  }

  /** reconnectedRemovedDevice: ask permission for the device again. */
  function ReconnectedRemovedDevice(s: Session, d: Device): (t: Session)
    requires s.managerReady
    ensures t == RequestPermission(s, d)
  {
    RequestPermission(s, d)
  }

  /** openConnection gets past its three guards. */
  predicate ReadyToOpen(s: Session) {
    s.device.Some? && s.managerReady && s.connection.None?
  }

  /** openConnection finds a session already open. */
  predicate SessionActive(s: Session) {
    s.device.Some? && s.managerReady && s.connection.Some?
  }

  function DeviceEndpoints(s: Session): seq<Endpoint>
    requires s.device.Some?
  {
    s.device.value.interface0.endpoints
  }

  /** openConnection, where onReconnect is the payload its callback buffers
      when the device cannot be opened (None: no callback). */
  function OpenConnection(s: Session, openSucceeds: bool, claimSucceeds: bool,
                          onReconnect: Option<seq<byte>>): (r: Reply<ConnectionResult>)
    ensures r.value == DeviceNotInitialized <==> s.device.None?
    ensures r.value == UsbManagerNotInitialized <==> s.device.Some? && !s.managerReady
    ensures r.value == ConnectionAlreadyOpen <==> SessionActive(s)
    ensures r.value == FailedToOpenConnection <==>
              ReadyToOpen(s) && HasBulkOut(DeviceEndpoints(s)) && !openSucceeds
    ensures r.value == FailedToClaimInterface <==>
              ReadyToOpen(s) && HasBulkOut(DeviceEndpoints(s)) && openSucceeds && !claimSucceeds
    ensures (r.value in {DeviceNotInitialized, UsbManagerNotInitialized,
                         ConnectionAlreadyOpen, FailedToClaimInterface}) ==> r.state == s
    ensures r.value == FailedToOpenConnection ==>
              r.state == RequestPermission(s.(pending := if onReconnect.Some? then onReconnect else s.pending),
                                           s.device.value)
    ensures r.value == Success && !HasBulkOut(DeviceEndpoints(s)) ==> r.state == s && s.connection.None?
    ensures r.value == Success && HasBulkOut(DeviceEndpoints(s)) ==>
              ReadyToOpen(s) && openSucceeds && claimSucceeds &&
              exists k: nat :: FirstBulkOutAt(DeviceEndpoints(s), k) &&
                r.state == s.(connection := Some(Connection(s.device.value)),
                              usbInterface := Some(s.device.value.interface0),
                              endpoint := Some(DeviceEndpoints(s)[k]))
    ensures Consistent(s) ==> Consistent(r.state)
  {
    if s.device.None? then Reply(s, DeviceNotInitialized)
    else if !s.managerReady then Reply(s, UsbManagerNotInitialized)
    else if s.connection.Some? then Reply(s, ConnectionAlreadyOpen)
    else
      var d := s.device.value;
      var eps := d.interface0.endpoints;
      FirstBulkOutNone(eps);
      match FirstBulkOut(eps)
      case None => Reply(s, Success)
      case Some(k) =>
        FirstBulkOutIsFirst(eps, k);
        if !openSucceeds then
          var t := if onReconnect.Some? then s.(pending := onReconnect) else s;
          Reply(ReconnectedRemovedDevice(t, d), FailedToOpenConnection)
        else if claimSucceeds then
          Reply(s.(endpoint := Some(eps[k]), usbInterface := Some(d.interface0),
                   connection := Some(Connection(d))), Success)
        else
          Reply(s, FailedToClaimInterface)
  }

  /** tryToReconnectFailedDevice: select the vendor and product of the first
      attached device, whichever device that is. */
  function TryToReconnectFailedDevice(s: Session, attached: seq<Device>): (t: Session)
    requires s.managerReady
    ensures |attached| == 0 ==> t == s
    ensures |attached| > 0 && Selected(s, attached[0].vendorId, attached[0].productId) ==> t == s
    ensures |attached| > 0 && !Selected(s, attached[0].vendorId, attached[0].productId) ==>
              t == RequestPermission(CloseConnectionIfExists(s), attached[0])
    ensures Consistent(s) ==> Consistent(t)
  {
    if |attached| > 0 then
      var first := attached[0];
      var r := SelectDevice(s, attached, first.vendorId, first.productId);
      assert FirstMatch(attached, first.vendorId, first.productId) == Some(0);
      FirstMatchIsFirst(attached, first.vendorId, first.productId, 0);
      r.state
    else
      s
  }

  /** openConnection fails to open the device handle, so write buffers its payload. */
  predicate OpenFails(s: Session, openSucceeds: bool) {
    ReadyToOpen(s) && HasBulkOut(DeviceEndpoints(s)) && !openSucceeds
  }

  /** write returns true. */
  predicate WriteAccepted(s: Session, openSucceeds: bool, claimSucceeds: bool) {
    s.device.Some? && s.managerReady &&
    (s.connection.Some? || !HasBulkOut(DeviceEndpoints(s)) || (openSucceeds && claimSucceeds))
  }

  /** write reaches the synchronous transfer, and the transfer fails. */
  predicate TransferFails(s: Session, transferResult: int) {
    SessionActive(s) && transferResult == -1
  }

  /** write, with the result openDevice, claimInterface and bulkTransfer would give. */
  function Write(s: Session, bytes: seq<byte>, openSucceeds: bool, claimSucceeds: bool,
                 transferResult: int, attached: seq<Device>): (r: Reply<bool>)
    requires Consistent(s)
    ensures Consistent(r.state)
    ensures r.value == WriteAccepted(s, openSucceeds, claimSucceeds)
    ensures r.state.pending ==
              if OpenFails(s, openSucceeds) || TransferFails(s, transferResult) then Some(bytes) else s.pending
    ensures r.state.transfers ==
              s.transfers + if SessionActive(s) then [Transfer(s.endpoint.value, bytes)] else []
    ensures TransferFails(s, transferResult) ==>
              SessionClosed(r.state) && r.state.device.None? && r.state.managerReady &&
              r.state.permissionRequests ==
                s.permissionRequests + if |attached| > 0 then [attached[0]] else []
    ensures !TransferFails(s, transferResult) ==>
              r.state == OpenConnection(s, openSucceeds, claimSucceeds, Some(bytes)).state
                           .(transfers := r.state.transfers)
  {
    var attempt := OpenConnection(s, openSucceeds, claimSucceeds, Some(bytes));
    var t := attempt.state;
    match attempt.value
    case Success => Reply(t, true)
    case DeviceNotInitialized => Reply(t, false)
    case UsbManagerNotInitialized => Reply(t, false)
    case ConnectionAlreadyOpen =>
      var sent := t.(transfers := t.transfers + [Transfer(t.endpoint.value, bytes)]);
      if transferResult == -1 then
        var closed := CloseConnectionIfExists(sent.(pending := Some(bytes)));
        Reply(TryToReconnectFailedDevice(closed, attached), true)
      else
        Reply(sent, true)
    case FailedToOpenConnection => Reply(t.(pending := Some(bytes)), false)
    case FailedToClaimInterface => Reply(t, false)
  }

  /** The permission-result broadcast. */
  function OnPermissionResult(s: Session, granted: bool, usbDevice: Device,
                              openSucceeds: bool, claimSucceeds: bool,
                              transferResult: int, attached: seq<Device>): (t: Session)
    requires Consistent(s)
    ensures Consistent(t)
    ensures !granted ==> t == s
    ensures granted && s.pending.None? ==> t == s.(device := Some(usbDevice))
    ensures granted && s.pending.Some? ==>
              t.pending == if WriteAccepted(s.(device := Some(usbDevice)), openSucceeds, claimSucceeds)
                           then None else s.pending
    ensures granted && s.pending.Some? ==>
              var w := Write(s.(device := Some(usbDevice)), s.pending.value, openSucceeds, claimSucceeds,
                             transferResult, attached);
              t == w.state.(pending := if w.value then None else w.state.pending)
    ensures |s.transfers| <= |t.transfers| <= |s.transfers| + 1
  {
    if granted then
      var g := s.(device := Some(usbDevice));
      if g.pending.Some? then
        var w := Write(g, g.pending.value, openSucceeds, claimSucceeds, transferResult, attached);
        if w.value then w.state.(pending := None) else w.state
      else
        g
    else
      s
  }

  /** The device-attached broadcast, carrying the device if the intent has one. */
  function OnDeviceAttached(s: Session, usbDevice: Option<Device>): (t: Session)
    requires usbDevice.Some? ==> s.managerReady
    ensures usbDevice.Some? ==> t == RequestPermission(s, usbDevice.value)
    ensures usbDevice.None? ==> t == s
  {
    if usbDevice.Some? then ReconnectedRemovedDevice(s, usbDevice.value) else s
  }

  /** The device-detached broadcast. */
  function OnDeviceDetached(s: Session): (t: Session)
    ensures Consistent(s) ==> Consistent(t) && SessionClosed(t)
    ensures t.device == if s.connection.Some? then None else s.device
    ensures SameOutsideSession(s, t)
  {
    if s.device.Some? then CloseConnectionIfExists(s) else s
  }

  // ---------------------------------------------------------------------------
  // Properties of the protocol that relate several operations.

  /** The constructed adapter satisfies the invariant, and init keeps it. */
  lemma InitialConsistent()
    ensures Consistent(Initial) && Consistent(Init(Initial))
  {
  }

  /** Closing twice is closing once. */
  lemma CloseIdempotent(s: Session)
    ensures CloseConnectionIfExists(CloseConnectionIfExists(s)) == CloseConnectionIfExists(s)
  {
  }

  /** A detach event is the same as closing the session, whatever the selection. */
  lemma DetachIsClose(s: Session)
    requires Consistent(s)
    ensures OnDeviceDetached(s) == CloseConnectionIfExists(s)
  {
  }

  /** Once permission for a device is granted with nothing pending, selecting its
      vendor and product is a no-op that answers true. */
  lemma SelectAfterGrantIsNoOp(s: Session, d: Device, openSucceeds: bool, claimSucceeds: bool,
                               transferResult: int, attached: seq<Device>)
    requires Consistent(s) && s.pending.None?
    ensures var t := OnPermissionResult(s, true, d, openSucceeds, claimSucceeds, transferResult, attached);
            SelectDevice(t, attached, d.vendorId, d.productId) == Reply(t, true)
  {
  }

  /** Until permission is granted, selecting the same device again asks for
      permission again: a successful selectDevice does not select the device. */
  lemma RepeatedSelectRequestsAgain(s: Session, attached: seq<Device>, vendorId: int, productId: int)
    requires Consistent(s) && !Selected(s, vendorId, productId)
    requires SelectDevice(s, attached, vendorId, productId).value
    ensures var t := SelectDevice(s, attached, vendorId, productId).state;
            var u := SelectDevice(t, attached, vendorId, productId);
            u.value && |u.state.permissionRequests| == |s.permissionRequests| + 2
  {
  }

  /** Last write wins: two writes that both fail to open the device leave only
      the second payload pending, and each asks permission for the device again. */
  lemma LastWriteWins(s: Session, first: seq<byte>, second: seq<byte>,
                      claim1: bool, claim2: bool, transfer1: int, transfer2: int,
                      attached: seq<Device>)
    requires Consistent(s) && OpenFails(s, false)
    ensures var t := Write(s, first, false, claim1, transfer1, attached);
            var u := Write(t.state, second, false, claim2, transfer2, attached);
            !t.value && !u.value && u.state.pending == Some(second) &&
            u.state.permissionRequests == s.permissionRequests + [s.device.value, s.device.value]
  {
  }

  /** A payload that could not be delivered because the device did not open is
      delivered when permission is granted and the device then opens; the
      pending slot is emptied. A denial leaves the payload pending. */
  lemma PendingRedeliveredOnGrant(s: Session, bytes: seq<byte>, claim1: bool, transfer1: int,
                                  transfer2: int, attached: seq<Device>)
    requires Consistent(s) && OpenFails(s, false)
    ensures var t := Write(s, bytes, false, claim1, transfer1, attached).state;
            var denied := OnPermissionResult(t, false, s.device.value, true, true, transfer2, attached);
            var granted := OnPermissionResult(t, true, s.device.value, true, true, transfer2, attached);
            denied.pending == Some(bytes) &&
            granted.pending.None? && SessionOpen(granted) &&
            granted.connection == Some(Connection(s.device.value))
  {
  }

  /** A failed transfer on an open session closes it, keeps the payload pending
      and asks permission for the first attached device, not necessarily the
      one that failed. */
  lemma TransferFailureReconnectsToFirst(s: Session, bytes: seq<byte>, openSucceeds: bool,
                                         claimSucceeds: bool, attached: seq<Device>)
    requires Consistent(s) && SessionActive(s) && |attached| > 0
    ensures var r := Write(s, bytes, openSucceeds, claimSucceeds, -1, attached);
            r.value && r.state.pending == Some(bytes) && SessionClosed(r.state) &&
            r.state.device.None? && r.state.permissionRequests == s.permissionRequests + [attached[0]]
  {
  }

  /** The pending slot is emptied whenever the redelivering write answers true,
      also when that write's synchronous transfer fails and buffers the payload
      again: the receiver's clearing comes after the write's own buffering. */
  lemma GrantClearsPendingAfterFailedRedelivery(s: Session, usbDevice: Device, bytes: seq<byte>,
                                                openSucceeds: bool, claimSucceeds: bool,
                                                attached: seq<Device>)
    requires Consistent(s) && s.pending == Some(bytes) && s.connection.Some? && s.managerReady
    ensures var t := OnPermissionResult(s, true, usbDevice, openSucceeds, claimSucceeds, -1, attached);
            t.pending.None? && SessionClosed(t) && t.device.None? &&
            t.transfers == s.transfers + [Transfer(s.endpoint.value, bytes)]
  {
  }
}
