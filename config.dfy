/** The compile-time switches of the sampler, turned into a value that the
    operations take as a parameter. */
module Config {
  import opened CStrings

  // Values the switches are compared against.
  const CELSIUS: int := 0
  const FAHRENHEIT: int := 1
  const ETH0_ADDRESS: int := 0
  const WLAN0_ADDRESS: int := 1
  const CUSTOM_ADDRESS: int := 2
  const IP_DISPLAY_OPEN: int := 0
  const IP_DISPLAY_CLOSE: int := 1

  /** One setting of the switches: `TEMPERATURE_TYPE`, `IPADDRESS_TYPE`,
      `CUSTOM_IFNAME` and `IP_SWITCH`. */
  datatype Config = Config(
    temperatureType: int,
    ipAddressType: int,
    customIfname: CText,
    ipSwitch: int)
  {
    /** `#if IP_SWITCH == IP_DISPLAY_CLOSE`: any other value shows the IP. */
    predicate IpDisplayClosed() {
      ipSwitch == IP_DISPLAY_CLOSE
    }
  }

  /** The setting the shipped header makes. */
  const HeaderConfig: Config := Config(FAHRENHEIT, CUSTOM_ADDRESS, "end0", IP_DISPLAY_OPEN)

  /** The setting the source falls back to for switches the header leaves
      undefined. */
  const FallbackConfig: Config := Config(CELSIUS, CUSTOM_ADDRESS, "end0", IP_DISPLAY_OPEN)
}
