/** The identity line of the display: `get_ip_address` and its alias
    `get_ip_address_new`. */
module Identity {
  import opened CTypes
  import opened CStrings
  import opened Config
  import opened Interfaces

  /** `sizeof(hostname)` in `get_ip_address`. */
  const HOSTNAME_BUFFER_SIZE: nat := 256

  /** What `gethostname` gave: failure, or success with the host's name. */
  datatype HostnameResult = HostnameFailed | HostnameOk(name: string)

  /** The 256-character buffer once `gethostname(hostname, 256)` succeeded
      and `hostname[255]` was set to NUL: the name, cut at 256 characters and
      terminated when it fits. Cells `gethostname` leaves alone are shown as
      NUL; no C string reaches them. */
  function HostnameBuffer(name: string): (b: seq<char>)
    ensures |b| == HOSTNAME_BUFFER_SIZE && b[HOSTNAME_BUFFER_SIZE - 1] == NUL
    ensures forall i :: 0 <= i < |name| && i < HOSTNAME_BUFFER_SIZE - 1 ==> b[i] == name[i]
    ensures |name| < HOSTNAME_BUFFER_SIZE - 1 ==> b[|name|] == NUL
  {
    var written := if |name| < HOSTNAME_BUFFER_SIZE then name + Nuls(HOSTNAME_BUFFER_SIZE - |name|)
                   else name[..HOSTNAME_BUFFER_SIZE];
    written[HOSTNAME_BUFFER_SIZE - 1 := NUL]
  }

  /** `m` NUL characters. */
  function Nuls(m: nat): (r: seq<char>)
    ensures |r| == m && forall i :: 0 <= i < m ==> r[i] == NUL
  {
    seq(m, _ => NUL)
  }

  /** The host name `get_ip_address` works with: "unknown" when
      `gethostname` fails, otherwise the C string its buffer holds. It is at
      most 255 characters, a prefix of the real name, and the whole name when
      that fits and has no NUL. */
  function Hostname(h: HostnameResult): (name: CText)
    ensures |name| <= HOSTNAME_BUFFER_SIZE - 1
    ensures h.HostnameFailed? ==> name == "unknown"
    ensures h.HostnameOk? ==> name <= h.name
    ensures h.HostnameOk? && |h.name| <= HOSTNAME_BUFFER_SIZE - 1 && NUL !in h.name ==> name == h.name
    ensures h.HostnameOk? && |h.name| >= HOSTNAME_BUFFER_SIZE - 1 && NUL !in h.name ==>
      name == h.name[..HOSTNAME_BUFFER_SIZE - 1]
  {
    match h
    case HostnameFailed => "unknown"
    case HostnameOk(n) =>
      var b := HostnameBuffer(n);
      var p := CPrefix(b);
      assert p == n[..|p|] by {
        assert forall i :: 0 <= i < |p| ==> p[i] == b[i] == n[i];
      }
      p
  }

  /** `snprintf(buf, size, "%s", text)` for `size > 0`: as much of the text
      as fits before the terminator. */
  function Snprintf(size: nat, text: CText): (r: CText)
    requires size > 0
    ensures r <= text && |r| < size
    ensures |text| < size ==> r == text
  {
    if |text| < size then text else text[..size - 1]
  }

  /** `get_ip_address`. With the IP display closed: the host name in upper
      case. Open, with an IPv4 address found on the configured interface:
      "hostname: ip", formatted into a buffer of exactly
      len(hostname) + 2 + len(ip) + 1 bytes. Open and no address: the bare
      host name. */
  function GetIpAddress(cfg: Config, host: HostnameResult, addrs: IfAddrs): (r: CText)
    ensures cfg.IpDisplayClosed() ==> r == Upcased(Hostname(host))
    ensures !cfg.IpDisplayClosed() ==>
      match Ipv4ForIface(Some(PickIface(cfg)), addrs)
      case Some(ip) => r == Hostname(host) + ": " + ip
      case None => r == Hostname(host)
  {
    var hostname := Hostname(host);
    if cfg.IpDisplayClosed() then
      UpcasedHasNoLower(hostname);
      Upcased(hostname)
    else
      match Ipv4ForIface(Some(PickIface(cfg)), addrs)
      case Some(ip) =>
        var needed := |hostname| + 2 + |ip| + 1;
        Snprintf(needed, hostname + ": " + ip)
      case None => hostname
  }

  /** `get_ip_address_new` returns what `get_ip_address` returns. */
  function GetIpAddressNew(cfg: Config, host: HostnameResult, addrs: IfAddrs): (r: CText)
    ensures r == GetIpAddress(cfg, host, addrs)
  {
    GetIpAddress(cfg, host, addrs)
  }

  /** With the IP shown, the line is the host name, ": " and the address,
      and the buffer needed is one longer than the line. */
  lemma IdentityWithAddress(cfg: Config, host: HostnameResult, addrs: IfAddrs, ip: CText)
    requires !cfg.IpDisplayClosed()
    requires Ipv4ForIface(Some(PickIface(cfg)), addrs) == Some(ip)
    ensures var r := GetIpAddress(cfg, host, addrs);
      && r[..|Hostname(host)|] == Hostname(host)
      && r[|Hostname(host)|..|Hostname(host)| + 2] == ": "
      && r[|Hostname(host)| + 2..] == ip
      && |r| + 1 == |Hostname(host)| + 2 + |ip| + 1
  {
  }

  /** With the IP display closed the line has the host name's length and no
      lower-case ASCII letter. */
  lemma IdentityClosedIsUpperCase(cfg: Config, host: HostnameResult, addrs: IfAddrs)
    requires cfg.IpDisplayClosed()
    ensures |GetIpAddress(cfg, host, addrs)| == |Hostname(host)|
    ensures forall i :: 0 <= i < |GetIpAddress(cfg, host, addrs)| ==> !IsLowerAscii(GetIpAddress(cfg, host, addrs)[i])
  {
  }

  /** A host called "node1" with the IP display closed shows "NODE1". */
  lemma ClosedDisplayExample(cfg: Config, addrs: IfAddrs)
    requires cfg.IpDisplayClosed()
    ensures GetIpAddress(cfg, HostnameOk("node1"), addrs) == "NODE1"
  {
    assert Hostname(HostnameOk("node1")) == "node1";
  }

  /** Under the shipped header, a host "pi" whose "end0" carries 192.168.1.5
      shows "pi: 192.168.1.5"; a failed `gethostname` with no address shows
      "unknown". */
  lemma HeaderConfigExamples()
    ensures GetIpAddress(HeaderConfig, HostnameOk("pi"), ExampleIfAddrs) == "pi: 192.168.1.5"
    ensures GetIpAddress(HeaderConfig, HostnameFailed, IfAddrsFailed) == "unknown"
  {
    assert Hostname(HostnameOk("pi")) == "pi";
    ExampleLookup();
    var ip: CText := "192.168.1.5";
    assert GetIpAddress(HeaderConfig, HostnameOk("pi"), ExampleIfAddrs) == "pi" + ": " + ip;
  }
}
