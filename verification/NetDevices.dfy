/** The kernel services the bridge uses on the devices it enslaves. */
module NetDevices {
  import opened Option
  import opened Config

  class Devices {
    var devs: Net

    /** Fails on request, when the device has a master already, and when it would be its own. */
    method UpperLink(dev: DevId, upper: DevId, fault: bool) returns (ok: bool)
      requires dev in devs
      modifies this
      ensures ok <==> !fault && dev != upper && old(devs)[dev].master.None?
      ensures devs == if ok then old(devs)[dev := old(devs)[dev].(master := Some(upper))] else old(devs)
    {
      ok := !fault && dev != upper && devs[dev].master.None?;
      if ok {
        devs := devs[dev := devs[dev].(master := Some(upper))];
      }
    }

    method UpperUnlink(dev: DevId)
      requires dev in devs
      modifies this
      ensures devs == old(devs)[dev := old(devs)[dev].(master := None)]
    {
      devs := devs[dev := devs[dev].(master := None)];
    }

    method SetPromiscuity(dev: DevId, inc: int, fault: bool) returns (ok: bool)
      requires dev in devs
      modifies this
      ensures ok <==> !fault
      ensures devs == if ok then old(devs)[dev := old(devs)[dev].(promisc := old(devs)[dev].promisc + inc)]
                      else old(devs)
    {
      ok := !fault;
      if ok {
        devs := devs[dev := devs[dev].(promisc := devs[dev].promisc + inc)];
      }
    }

    method SetAllmulti(dev: DevId, inc: int, fault: bool) returns (ok: bool)
      requires dev in devs
      modifies this
      ensures ok <==> !fault
      ensures devs == if ok then old(devs)[dev := old(devs)[dev].(allmulti := old(devs)[dev].allmulti + inc)]
                      else old(devs)
    {
      ok := !fault;
      if ok {
        devs := devs[dev := devs[dev].(allmulti := devs[dev].allmulti + inc)];
      }
    }

    /** Fails on request and when the receive hook is taken. */
    method RegisterRx(dev: DevId, handler: RxHandler, fault: bool) returns (ok: bool)
      requires dev in devs
      modifies this
      ensures ok <==> !fault && old(devs)[dev].rx == NoRx
      ensures devs == if ok then old(devs)[dev := old(devs)[dev].(rx := handler)] else old(devs)
    {
      ok := !fault && devs[dev].rx == NoRx;
      if ok {
        devs := devs[dev := devs[dev].(rx := handler)];
      }
    }

    method UnregisterRx(dev: DevId)
      requires dev in devs
      modifies this
      ensures devs == old(devs)[dev := old(devs)[dev].(rx := NoRx)]
    {
      devs := devs[dev := devs[dev].(rx := NoRx)];
    }

    method MarkBridgePort(dev: DevId, mark: bool)
      requires dev in devs
      modifies this
      ensures devs == old(devs)[dev := old(devs)[dev].(bridgePort := mark)]
    {
      devs := devs[dev := devs[dev].(bridgePort := mark)];
    }

    /** The rest of the system changes its use of a device. */
    method OthersUse(dev: DevId, promisc: int, allmulti: int)
      requires dev in devs
      modifies this
      ensures devs == old(devs)[dev := Used(old(devs)[dev], promisc, allmulti)]
    {
      devs := devs[dev := devs[dev].(promisc := devs[dev].promisc + promisc,
                                      allmulti := devs[dev].allmulti + allmulti)];
    }
  }
}
