/** Addresses, VLAN tags and frames, as far as the bridge looks at them. */
module Frames {
  import opened Option

  type Vid = v: nat | v < 0x1_0000
  type Mac = m: nat | m < 0x1_0000_0000_0000
  type Ip4 = a: nat | a < 0x1_0000_0000
  type Ip6 = a: nat | a < 0x1_0000_0000_0000_0000_0000_0000_0000_0000

  const BROADCAST: Mac := 0xFFFF_FFFF_FFFF

  /** The octet that comes first on the wire. */
  function FirstOctet(m: Mac): nat {
    m / 0x100_0000_0000
  }

  /** The group bit is the lowest bit of the first octet. */
  predicate IsMulticast(m: Mac) {
    FirstOctet(m) % 2 == 1
  }

  predicate IsBroadcast(m: Mac) {
    m == BROADCAST
  }

  predicate IsValidEther(m: Mac) {
    m != 0 && !IsMulticast(m)
  }

  /** A VLAN tag of the bridge's own protocol (a C-tag) or of another protocol; its VID has 12 bits. */
  const TAG_VIDS: nat := 0x1000
  type TagVid = v: nat | v < TAG_VIDS
  datatype Tag = CTag(vid: TagVid) | OtherTag(vid: TagVid)

  datatype L3 = IsIp4(daddr4: Ip4) | IsIp6(daddr6: Ip6) | IsOther

  /** `tag` is the tag held beside the frame; `inband` are the tags still in its bytes, outermost first. */
  datatype Frame = Frame(src: Mac, dst: Mac, l3: L3, tag: Option<Tag>, inband: seq<Tag>)

  /** The network protocol as the frame's own protocol field shows it: hidden by a tag in its bytes. */
  function SeenL3(f: Frame): L3 {
    if f.inband == [] then f.l3 else IsOther
  }

  /** What a table lookup is keyed by; equality of keys is equality of all bytes. */
  datatype FdbAddr =
    | MacAddr(vid: Vid, mac: Mac)
    | Ip4Addr(vid: Vid, ip4: Ip4)
    | Ip6Addr(vid: Vid, ip6: Ip6)

  function LookupKey(vid: Vid, dst: Mac, l3: L3): FdbAddr {
    if IsMulticast(dst) && l3.IsIp4? then Ip4Addr(vid, l3.daddr4)
    else if IsMulticast(dst) && l3.IsIp6? then Ip6Addr(vid, l3.daddr6)
    else MacAddr(vid, dst)
  }

  /** The kinds of addresses, by octets: group addresses have an odd first octet, broadcast is all ones,
      and a station's address is any other but zero. */
  lemma AddressKinds(m: Mac, o0: nat, o1: nat, o2: nat, o3: nat, o4: nat, o5: nat)
    requires o0 < 256 && o1 < 256 && o2 < 256 && o3 < 256 && o4 < 256 && o5 < 256
    requires m == o0 * 0x100_0000_0000 + o1 * 0x1_0000_0000 + o2 * 0x100_0000 + o3 * 0x1_0000 + o4 * 0x100 + o5
    ensures FirstOctet(m) == o0
    ensures IsMulticast(m) <==> o0 % 2 == 1
    ensures IsBroadcast(m) <==> o0 == o1 == o2 == o3 == o4 == o5 == 255
    ensures IsValidEther(m) <==> o0 % 2 == 0 && !(o0 == o1 == o2 == o3 == o4 == o5 == 0)
    ensures IsBroadcast(m) ==> IsMulticast(m)
  {
  }
}
