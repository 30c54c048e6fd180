/** Choosing the network interface and finding its IPv4 address in the list
    `getifaddrs` returns. */
module Interfaces {
  import opened CTypes
  import opened CStrings
  import opened Config

  /** `pick_iface`: the interface the `IPADDRESS_TYPE` switch names. */
  function PickIface(cfg: Config): (name: CText)
    ensures cfg.ipAddressType == ETH0_ADDRESS ==> name == "eth0"
    ensures cfg.ipAddressType == WLAN0_ADDRESS ==> name == "wlan0"
    ensures cfg.ipAddressType == CUSTOM_ADDRESS ==> name == cfg.customIfname
    ensures cfg.ipAddressType !in {ETH0_ADDRESS, WLAN0_ADDRESS, CUSTOM_ADDRESS} ==> name == "eth0"
  {
    if cfg.ipAddressType == ETH0_ADDRESS then "eth0"
    else if cfg.ipAddressType == WLAN0_ADDRESS then "wlan0"
    else if cfg.ipAddressType == CUSTOM_ADDRESS then cfg.customIfname
    else "eth0"
  }

  /** Under the shipped header the sampler looks at "end0". */
  lemma HeaderPicksEnd0()
    ensures PickIface(HeaderConfig) == "end0" == PickIface(FallbackConfig)
  {
  }

  /** `AF_INET` on Linux. */
  const AF_INET: int := 2

  /** A socket address: its family, and the text `inet_ntop` makes of it
      (`None` when `inet_ntop` fails). */
  datatype SockAddr = SockAddr(family: int, presentation: Option<CText>)

  /** One `struct ifaddrs` record; `None` stands for a NULL field. */
  datatype IfEntry = IfEntry(name: Option<CText>, addr: Option<SockAddr>)

  /** What `getifaddrs` gave: failure (a return of -1, or a NULL list), or
      the records in `ifa_next` order. */
  datatype IfAddrs = IfAddrsFailed | IfAddrsList(entries: seq<IfEntry>)

  /** The record passes every test of the lookup loop for `ifname`. */
  predicate Qualifies(e: IfEntry, ifname: string) {
    && e.name.Some?
    && e.addr.Some?
    && e.addr.value.family == AF_INET
    && e.name.value == ifname
    && e.addr.value.presentation.Some?
  }

  /** The address of the first qualifying record. */
  function FirstMatch(entries: seq<IfEntry>, ifname: string): (ip: Option<CText>)
    ensures ip.None? <==> forall i :: 0 <= i < |entries| ==> !Qualifies(entries[i], ifname)
    ensures ip.Some? ==> exists i :: (
      && 0 <= i < |entries| && Qualifies(entries[i], ifname)
      && (forall j :: 0 <= j < i ==> !Qualifies(entries[j], ifname))
      && ip.value == entries[i].addr.value.presentation.value)
  {
    if entries == [] then None
    else if Qualifies(entries[0], ifname) then entries[0].addr.value.presentation
    else
      var rest := FirstMatch(entries[1..], ifname);
      assert forall i :: 1 <= i < |entries| ==> entries[i] == entries[1..][i - 1];
      rest
  }

  /** What `lookup_ipv4_for_iface` returns for `ifname` given `getifaddrs`'s
      outcome. */
  function Ipv4ForIface(ifname: Option<CText>, addrs: IfAddrs): (ip: Option<CText>)
    ensures ifname.None? || addrs.IfAddrsFailed? ==> ip.None?
    ensures ifname.Some? && addrs.IfAddrsList? ==> ip == FirstMatch(addrs.entries, ifname.value)
  {
    match (ifname, addrs)
    case (Some(name), IfAddrsList(entries)) => FirstMatch(entries, name)
    case _ => None
  }

  /** `lookup_ipv4_for_iface`: walks the records in order and returns the
      address text of the first that has a name and an address, is AF_INET,
      has the requested name and formats; NULL for a NULL name, a failed
      `getifaddrs` or no such record. */
  method LookupIpv4ForIface(ifname: Option<CText>, addrs: IfAddrs) returns (ip: Option<CText>)
    ensures ip == Ipv4ForIface(ifname, addrs)
  {
    if ifname.None? {
      return None;
    }
    if addrs.IfAddrsFailed? {
      return None;
    }
    var entries := addrs.entries;
    var i := 0;
    while i < |entries|
      invariant 0 <= i <= |entries|
      invariant forall j :: 0 <= j < i ==> !Qualifies(entries[j], ifname.value)
    {
      var e := entries[i];
      if e.name.None? || e.addr.None? {
        i := i + 1;
        continue;
      }
      if e.addr.value.family != AF_INET {
        i := i + 1;
        continue;
      }
      if e.name.value != ifname.value {
        i := i + 1;
        continue;
      }
      if e.addr.value.presentation.None? {
        i := i + 1;
        continue;
      }
      return e.addr.value.presentation;
    }
    return None;
  }

  /** A list with a loopback record, an IPv6 record for "end0" and an IPv4
      record for "end0". */
  const ExampleIfAddrs: IfAddrs := IfAddrsList([
    IfEntry(Some("lo"), Some(SockAddr(AF_INET, Some("127.0.0.1")))),
    IfEntry(Some("end0"), Some(SockAddr(10, Some("fe80::1")))),
    IfEntry(Some("end0"), Some(SockAddr(AF_INET, Some("192.168.1.5"))))])

  /** The lookup skips the other interface and the non-AF_INET record. */
  lemma ExampleLookup()
    ensures Ipv4ForIface(Some("end0"), ExampleIfAddrs).Some?
    ensures Ipv4ForIface(Some("end0"), ExampleIfAddrs).value == "192.168.1.5"
    ensures Ipv4ForIface(Some("wlan0"), ExampleIfAddrs).None?
  {
    var entries := ExampleIfAddrs.entries;
    assert "lo" != "end0" by { assert |"lo"| != |"end0"|; }
    assert !Qualifies(entries[0], "end0") && !Qualifies(entries[1], "end0");
    assert Qualifies(entries[2], "end0");
    assert "wlan0" != "end0" by { assert "wlan0"[0] != "end0"[0]; }
    assert "wlan0" != "lo" by { assert |"wlan0"| != |"lo"|; }
    assert forall i :: 0 <= i < |entries| ==> !Qualifies(entries[i], "wlan0");
  }
}
