/** The part of Android's USB host API that the printer adapter relies on,
    written as plain values: attached devices, the endpoints of their first
    interface, open device handles, and the result codes of opening a session.
    The two searches the adapter performs over these values (the first bulk-OUT
    endpoint of interface 0, the first attached device with a given vendor and
    product id) are defined here and characterised by lemmas. */
module UsbHost {

  datatype Option<T> = None | Some(value: T)

  /** One element of a payload: a JVM byte, which is signed. */
  newtype byte = x: int | -128 <= x < 128

  /** Endpoint transfer types (UsbConstants.USB_ENDPOINT_XFER_CONTROL, _ISOC, _BULK, _INT). */
  datatype TransferType = Control | Isochronous | Bulk | Interrupt

  /** Endpoint directions (UsbConstants.USB_DIR_IN, UsbConstants.USB_DIR_OUT). */
  datatype Direction = In | Out

  datatype Endpoint = Endpoint(address: int, transferType: TransferType, direction: Direction)

  /** Interface 0 of a device, its endpoints in the order getEndpoint(i) yields them. */
  datatype Interface = Interface(endpoints: seq<Endpoint>)

  datatype Device = Device(deviceId: int, vendorId: int, productId: int, interface0: Interface)

  /** An open device handle, as UsbManager.openDevice returns it for a device. */
  datatype Connection = Connection(device: Device)

  /** The six outcomes of opening a print session. */
  datatype ConnectionResult =
    | Success
    | DeviceNotInitialized
    | UsbManagerNotInitialized
    | ConnectionAlreadyOpen
    | FailedToOpenConnection
    | FailedToClaimInterface

  predicate IsBulkOut(ep: Endpoint) {
    ep.transferType == Bulk && ep.direction == Out
  }

  /** Index k holds the first bulk-OUT endpoint of eps. */
  predicate FirstBulkOutAt(eps: seq<Endpoint>, k: nat) {
    k < |eps| && IsBulkOut(eps[k]) && forall j :: 0 <= j < k ==> !IsBulkOut(eps[j])
  }

  predicate HasBulkOut(eps: seq<Endpoint>) {
    exists j :: 0 <= j < |eps| && IsBulkOut(eps[j])
  }

  /** The position of the endpoint the adapter writes to, if interface 0 has one. */
  function FirstBulkOut(eps: seq<Endpoint>): (k: Option<nat>)
    ensures k.Some? ==> k.value < |eps| && IsBulkOut(eps[k.value])
  {
    if |eps| == 0 then None
    else if IsBulkOut(eps[0]) then Some(0)
    else match FirstBulkOut(eps[1..])
      case None => None
      case Some(j) => Some(j + 1)
  }

  lemma {:induction false} FirstBulkOutIsFirst(eps: seq<Endpoint>, k: nat)
    ensures FirstBulkOut(eps) == Some(k) <==> FirstBulkOutAt(eps, k)
  {
    if |eps| > 0 && !IsBulkOut(eps[0]) && k > 0 {
      FirstBulkOutIsFirst(eps[1..], k - 1);
      assert forall j :: 0 <= j < |eps| - 1 ==> eps[1..][j] == eps[j + 1];
      if FirstBulkOutAt(eps, k) {
        assert FirstBulkOutAt(eps[1..], k - 1);
      }
    }
  }

  lemma {:induction false} FirstBulkOutNone(eps: seq<Endpoint>)
    ensures FirstBulkOut(eps).None? <==> !HasBulkOut(eps)
  {
    if |eps| > 0 && !IsBulkOut(eps[0]) {
      FirstBulkOutNone(eps[1..]);
      if HasBulkOut(eps) {
        var j :| 0 <= j < |eps| && IsBulkOut(eps[j]);
        assert eps[1..][j - 1] == eps[j];
      }
      if HasBulkOut(eps[1..]) {
        var j :| 0 <= j < |eps| - 1 && IsBulkOut(eps[1..][j]);
        assert eps[j + 1] == eps[1..][j];
      }
    }
  }

  predicate Matches(d: Device, vendorId: int, productId: int) {
    d.vendorId == vendorId && d.productId == productId
  }

  /** Index k holds the first device of the list with the given vendor and product id. */
  predicate FirstMatchAt(devices: seq<Device>, k: nat, vendorId: int, productId: int) {
    k < |devices| && Matches(devices[k], vendorId, productId) &&
    forall j :: 0 <= j < k ==> !Matches(devices[j], vendorId, productId)
  }

  predicate AnyMatch(devices: seq<Device>, vendorId: int, productId: int) {
    exists j :: 0 <= j < |devices| && Matches(devices[j], vendorId, productId)
  }

  /** The position of the device selectDevice asks permission for, if one is attached. */
  function FirstMatch(devices: seq<Device>, vendorId: int, productId: int): (k: Option<nat>)
    ensures k.Some? ==> k.value < |devices| && Matches(devices[k.value], vendorId, productId)
  {
    if |devices| == 0 then None
    else if Matches(devices[0], vendorId, productId) then Some(0)
    else match FirstMatch(devices[1..], vendorId, productId)
      case None => None
      case Some(j) => Some(j + 1)
  }

  lemma {:induction false} FirstMatchIsFirst(devices: seq<Device>, vendorId: int, productId: int, k: nat)
    ensures FirstMatch(devices, vendorId, productId) == Some(k) <==> FirstMatchAt(devices, k, vendorId, productId)
  {
    if |devices| > 0 && !Matches(devices[0], vendorId, productId) && k > 0 {
      FirstMatchIsFirst(devices[1..], vendorId, productId, k - 1);
      assert forall j :: 0 <= j < |devices| - 1 ==> devices[1..][j] == devices[j + 1];
      if FirstMatchAt(devices, k, vendorId, productId) {
        assert FirstMatchAt(devices[1..], k - 1, vendorId, productId);
      }
    }
  }

  lemma {:induction false} FirstMatchNone(devices: seq<Device>, vendorId: int, productId: int)
    ensures FirstMatch(devices, vendorId, productId).None? <==> !AnyMatch(devices, vendorId, productId)
  {
    if |devices| > 0 && !Matches(devices[0], vendorId, productId) {
      FirstMatchNone(devices[1..], vendorId, productId);
      if AnyMatch(devices, vendorId, productId) {
        var j :| 0 <= j < |devices| && Matches(devices[j], vendorId, productId);
        assert devices[1..][j - 1] == devices[j];
      }
      if AnyMatch(devices[1..], vendorId, productId) {
        var j :| 0 <= j < |devices| - 1 && Matches(devices[1..][j], vendorId, productId);
        assert devices[j + 1] == devices[1..][j];
      }
    }
  }
}
