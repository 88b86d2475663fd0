/** Frames in flight and the control block each carries. */
module Buffers {
  import opened Ports
  import opened Frames
  import opened Vlans

  datatype Cb = Cb(pidx: nat, vlanFiltering: bool, saLearning: bool, ctrl: bool, vlan: Vlan?, vec: PortVec)

  const ZERO_CB := Cb(0, false, false, false, null, {})

  class SkBuff {
    var frame: Frame
    var cb: Cb

    constructor (frame: Frame)
      ensures this.frame == frame
    {
      this.frame := frame;
      this.cb := ZERO_CB;
    }

    constructor Clone(skb: SkBuff)
      ensures frame == skb.frame && cb == skb.cb
    {
      this.frame := skb.frame;
      this.cb := skb.cb;
    }
  }
}
