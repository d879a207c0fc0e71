/** The adapter object: the fields that USBPrinterAdapter updates in place and
    its operations as methods. The Android USB stack is replaced by parameters:
    the attached device list, whether openDevice and claimInterface succeed, and
    what bulkTransfer returns. Each method is proved to take the adapter from
    State() to the state the matching function of PrintSession gives. */
module PrinterAdapter {
  import opened UsbHost
  import PrintSession

  class UsbPrinterAdapter {
    var managerReady: bool
    var device: Option<Device>
    var connection: Option<Connection>
    var usbInterface: Option<Interface>
    var endpoint: Option<Endpoint>
    var pending: Option<seq<byte>>
    /** Every requestPermission call, in order. */
    ghost var permissionRequests: seq<Device>
    /** Every synchronous bulkTransfer, in order. */
    ghost var transfers: seq<PrintSession.Transfer>

    ghost function State(): PrintSession.Session
      reads this
    {
      PrintSession.Session(managerReady, device, connection, usbInterface, endpoint, pending,
                           permissionRequests, transfers)
    }

    ghost predicate Valid()
      reads this
    {
      PrintSession.Consistent(State())
    }

    constructor ()
      ensures Valid() && State() == PrintSession.Initial
    {
      managerReady := false;
      device, connection, usbInterface, endpoint, pending := None, None, None, None, None;
      permissionRequests, transfers := [], [];
    }

    /** init: obtains the USB manager. */
    method Init()
      requires Valid()
      modifies this
      ensures Valid() && State() == PrintSession.Init(old(State()))
    {
      managerReady := true;
    }

    method CloseConnectionIfExists()
      requires Valid()
      modifies this
      ensures Valid() && State() == PrintSession.CloseConnectionIfExists(old(State()))
    {
      if connection.Some? {
        usbInterface := None;
        endpoint := None;
        connection := None;
        device := None;
      }
    }

    method GetDeviceList(attached: seq<Device>) returns (devices: seq<Device>)
      ensures devices == PrintSession.DeviceList(State(), attached)
      ensures managerReady ==> devices == attached
      ensures !managerReady ==> devices == []
    {
      if !managerReady {
        return [];
      }
      return attached;
    }

    method SelectDevice(attached: seq<Device>, vendorId: int, productId: int) returns (requested: bool)
      requires Valid()
      modifies this
      ensures Valid()
      ensures PrintSession.Reply(State(), requested) ==
              PrintSession.SelectDevice(old(State()), attached, vendorId, productId)
    {
      if device.None? || device.value.vendorId != vendorId || device.value.productId != productId {
        CloseConnectionIfExists();
        var usbDevices := GetDeviceList(attached);
        var i := 0;
        while i < |usbDevices|
          invariant 0 <= i <= |usbDevices|
          invariant forall j :: 0 <= j < i ==> !Matches(usbDevices[j], vendorId, productId)
          invariant Valid() && State() == PrintSession.CloseConnectionIfExists(old(State()))
        {
          var usbDevice := usbDevices[i];
          if usbDevice.vendorId == vendorId && usbDevice.productId == productId {
            FirstMatchIsFirst(usbDevices, vendorId, productId, i);
            CloseConnectionIfExists();
            permissionRequests := permissionRequests + [usbDevice];
            return true;
          }
          i := i + 1;
        }
        FirstMatchNone(usbDevices, vendorId, productId);
        return false;
      }
      return true;
    }

    method ReconnectedRemovedDevice(usbDevice: Device)
      requires Valid() && managerReady
      modifies this
      ensures Valid()
      ensures State() == PrintSession.ReconnectedRemovedDevice(old(State()), usbDevice)
    {
      permissionRequests := permissionRequests + [usbDevice];
    }

    /** openConnection; onReconnect is the payload its callback buffers
        when the device cannot be opened (None: no callback). */
    method OpenConnection(openSucceeds: bool, claimSucceeds: bool, onReconnect: Option<seq<byte>>)
      returns (result: ConnectionResult)
      requires Valid()
      modifies this
      ensures Valid()
      ensures PrintSession.Reply(State(), result) ==
              PrintSession.OpenConnection(old(State()), openSucceeds, claimSucceeds, onReconnect)
    {
      if device.None? {
        return DeviceNotInitialized;
      }
      if !managerReady {
        return UsbManagerNotInitialized;
      }
      if connection.Some? {
        return ConnectionAlreadyOpen;
      }
      var usbInterface0 := device.value.interface0;
      var i := 0;
      while i < |usbInterface0.endpoints|
        invariant 0 <= i <= |usbInterface0.endpoints|
        invariant forall j :: 0 <= j < i ==> !IsBulkOut(usbInterface0.endpoints[j])
        invariant unchanged(this)
      {
        var ep := usbInterface0.endpoints[i];
        if ep.transferType == Bulk {
          if ep.direction == Out {
            FirstBulkOutIsFirst(usbInterface0.endpoints, i);
            if !openSucceeds {
              if onReconnect.Some? {
                pending := onReconnect;
              }
              ReconnectedRemovedDevice(device.value);
              return FailedToOpenConnection;
            }
            if claimSucceeds {
              endpoint := Some(ep);
              usbInterface := Some(usbInterface0);
              connection := Some(Connection(device.value));
              return Success;
            } else {
              return FailedToClaimInterface;
            }
          }
        }
        i := i + 1;
      }
      FirstBulkOutNone(usbInterface0.endpoints);
      return Success;
    }

    method Write(bytes: seq<byte>, openSucceeds: bool, claimSucceeds: bool, transferResult: int,
                 attached: seq<Device>) returns (accepted: bool)
      requires Valid()
      modifies this
      ensures Valid()
      ensures PrintSession.Reply(State(), accepted) ==
              PrintSession.Write(old(State()), bytes, openSucceeds, claimSucceeds, transferResult, attached)
    {
      var connectionResult := OpenConnection(openSucceeds, claimSucceeds, Some(bytes));
      match connectionResult
      case Success =>
        accepted := true;
      case DeviceNotInitialized =>
        accepted := false;
      case UsbManagerNotInitialized =>
        accepted := false;
      case ConnectionAlreadyOpen =>
        transfers := transfers + [PrintSession.Transfer(endpoint.value, bytes)];
        if transferResult == -1 {
          pending := Some(bytes);
          CloseConnectionIfExists();
          TryToReconnectFailedDevice(attached);
        }
        accepted := true;
      case FailedToOpenConnection =>
        pending := Some(bytes);
        accepted := false;
      case FailedToClaimInterface =>
        accepted := false;
    }

    method TryToReconnectFailedDevice(attached: seq<Device>)
      requires Valid() && managerReady
      modifies this
      ensures Valid()
      ensures State() == PrintSession.TryToReconnectFailedDevice(old(State()), attached)
    {
      if |attached| > 0 {
        var usbDevice := attached[0];
        var _ := SelectDevice(attached, usbDevice.vendorId, usbDevice.productId);
      }
    }

    /** The permission-result branch of the broadcast receiver. */
    method OnPermissionResult(granted: bool, usbDevice: Device, openSucceeds: bool,
                              claimSucceeds: bool, transferResult: int, attached: seq<Device>)
      requires Valid()
      modifies this
      ensures Valid()
      ensures State() == PrintSession.OnPermissionResult(old(State()), granted, usbDevice, openSucceeds,
                                                         claimSucceeds, transferResult, attached)
    {
      if granted {
        device := Some(usbDevice);
        if pending.Some? {
          var delivered := Write(pending.value, openSucceeds, claimSucceeds, transferResult, attached);
          if delivered {
            pending := None;
          }
        }
      }
    }

    /** The device-attached branch of the broadcast receiver. */
    method OnDeviceAttached(usbDevice: Option<Device>)
      requires Valid() && (usbDevice.Some? ==> managerReady)
      modifies this
      ensures Valid()
      ensures State() == PrintSession.OnDeviceAttached(old(State()), usbDevice)
    {
      if usbDevice.Some? {
        ReconnectedRemovedDevice(usbDevice.value);
      }
    }

    /** The device-detached branch of the broadcast receiver. */
    method OnDeviceDetached()
      requires Valid()
      modifies this
      ensures Valid()
      ensures State() == PrintSession.OnDeviceDetached(old(State()))
    {
      if device.Some? {
        CloseConnectionIfExists();
      }
    }
  }

  /** The example session: a printer is attached, selected and granted; a
      payload is written on the new session and then on the open one. */
  method ExampleSession(printer: Device, hello: seq<byte>)
    requires FirstBulkOut(printer.interface0.endpoints).Some?
  {
    var adapter := new UsbPrinterAdapter();
    adapter.Init();
    var requested := adapter.SelectDevice([printer], printer.vendorId, printer.productId);
    assert requested && adapter.permissionRequests == [printer];
    adapter.OnPermissionResult(true, printer, true, true, 5, [printer]);
    assert adapter.device == Some(printer) && adapter.connection.None?;
    var accepted := adapter.Write(hello, true, true, 5, [printer]);
    assert accepted && adapter.connection == Some(Connection(printer)) && adapter.pending.None?;
    accepted := adapter.Write(hello, true, true, 5, [printer]);
    assert accepted && adapter.transfers == [PrintSession.Transfer(adapter.endpoint.value, hello)];
  }
}
