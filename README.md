# rpiInfo telemetry sampler, in Dafny

This project models the sequential logic of the host-telemetry sampler in
`hardware/rpiInfo/rpiInfo.c`. The sampler gives the OLED status display
its figures:

- The identity line: "hostname: ip", or the host name in capitals when
  the IP display is switched off.
- Root file-system usage: total and used in GiB (rounded to nearest), and
  total and used in MiB (rounded down).
- Memory total and available in kB, read from `/proc/meminfo`.
- The helpers behind these: ASCII uppercasing in place, stripping trailing
  line ends after `fgets`, choosing the interface, and looking up its IPv4
  address.

The compile-time switches (`TEMPERATURE_TYPE`, `IPADDRESS_TYPE`,
`CUSTOM_IFNAME`, `IP_SWITCH`) become a `Config` value passed to the
operations. `HeaderConfig` is the setting in `rpiInfo.h`. `FallbackConfig`
is what the `#ifndef` defaults give.

Every operating-system call becomes an input the caller supplies:

| call | modelled as |
|---|---|
| `gethostname` | `HostnameResult` |
| `getifaddrs` | `IfAddrs`, the records in list order; each record carries what `inet_ntop` makes of its address |
| `statvfs` | `StatvfsResult`, with 64-bit fields |
| `fopen` + `fgets` in `read_first_line` | `LineSource` plus the buffer as `fgets` left it |
| `fopen` + `fscanf` in `get_cpu_memory` | `Option<seq<MemLine>>`: the complete key/value/unit matches made before the first failed one (a match is not always one line of the file: a line without a unit takes the next line's key as its unit) |

A NULL out-pointer is `Ptr.Null`. What a function writes through its two
out-pointers is an `OutPair`. `unsigned long long` arithmetic is reduced
modulo 2^64 explicitly (`Wrap64`). The `(uint16_t)` and `(uint32_t)` casts
are written out too (`NarrowU16`, `NarrowU32`).

Modules, one per file:

- `CTypes` (`ctypes.dfy`)
- `CStrings` (`cstrings.dfy`)
- `Config` (`config.dfy`)
- `Interfaces` (`interfaces.dfy`)
- `Identity` (`identity.dfy`)
- `Storage` (`storage.dfy`)
- `MemInfo` (`meminfo.dfy`)

The in-place operations are methods over `array<char>`: `upcase_ascii` and
the line-end strip. They are proved against the functions `UpcaseCString`
and `StripLineEndBuffer`, and the lemmas state what those functions mean.
The loops over records and lines are methods proved equal to search and
fold functions: the interface lookup and the meminfo scan. The out-pointer
functions are methods returning what they write.

## Model

| member | source | states |
|---|---|---|
| CTypes.Wrap64 | hardware/rpiInfo/rpiInfo.c:364-367 | an `unsigned long long` result is congruent to the exact value modulo 2^64 and equals it when it is in range |
| CTypes.NarrowU16 | hardware/rpiInfo/rpiInfo.c:369-370 | the `uint16_t` cast keeps the value modulo 2^16, and the value itself when it fits |
| CTypes.NarrowU32 | hardware/rpiInfo/rpiInfo.c:234-235 | the `uint32_t` cast keeps the value modulo 2^32, and the value itself when it fits |
| CStrings.CLength | hardware/rpiInfo/rpiInfo.c:141 | `strlen`: the index of the first NUL (or the buffer's end); no NUL before it |
| CStrings.Upcased | hardware/rpiInfo/rpiInfo.c:155-159 | same length; each 'a'..'z' becomes the matching 'A'..'Z' (offset 'A'-'a'); every other character is unchanged |
| CStrings.UpcasedIdempotent | hardware/rpiInfo/rpiInfo.c:151-160 | uppercasing twice is the same as uppercasing once |
| CStrings.UpcasedHasNoLower | hardware/rpiInfo/rpiInfo.c:155-159 | no lower-case ASCII letter is left, and text without NUL stays without NUL |
| CStrings.UpcaseCStringText | hardware/rpiInfo/rpiInfo.c:151-160 | on a terminated buffer the string read back is the old string uppercased; the terminator and everything after it are unchanged |
| CStrings.UpcaseAscii | hardware/rpiInfo/rpiInfo.c:151-160 | a NULL pointer is left alone; otherwise the array becomes `UpcaseCString` of its old contents |
| CStrings.TrimmedLength | hardware/rpiInfo/rpiInfo.c:142-145 | the longest prefix of the first n characters that does not end in '\n' or '\r'; everything between it and n is a line end |
| CStrings.StripLineEndBufferText | hardware/rpiInfo/rpiInfo.c:139-146 | after the strip, the buffer's string is the old line without its trailing line ends |
| CStrings.StripLineEndBufferKeeps | hardware/rpiInfo/rpiInfo.c:139-146 | the strip overwrites only the trailing line ends, with NUL; earlier characters and everything from the old terminator on are untouched |
| CStrings.StripLineEnd | hardware/rpiInfo/rpiInfo.c:141-145 | the walk-back loop leaves the array equal to `StripLineEndBuffer` of its old contents |
| CStrings.ReadFirstLine | hardware/rpiInfo/rpiInfo.c:126-148 | a failed open returns the negated errno and a failed `fgets` returns -EIO, both leaving the buffer alone; a read line returns 0 with its line ends stripped |
| Interfaces.PickIface | hardware/rpiInfo/rpiInfo.c:73-84 | "eth0", "wlan0" or the custom name for `IPADDRESS_TYPE` 0, 1, 2; "eth0" for any other value |
| Interfaces.HeaderPicksEnd0 | hardware/rpiInfo/rpiInfo.h:17-20 | both the header's setting and the fallback setting pick "end0" |
| Interfaces.FirstMatch | hardware/rpiInfo/rpiInfo.c:104-119 | `None` exactly when no record qualifies; otherwise the address text of a qualifying record with no qualifying record before it |
| Interfaces.Ipv4ForIface | hardware/rpiInfo/rpiInfo.c:97-122 | NULL for a NULL name or a failed `getifaddrs`; otherwise the first match in the list |
| Interfaces.LookupIpv4ForIface | hardware/rpiInfo/rpiInfo.c:87-123 | the loop with its four skip tests and early return computes `Ipv4ForIface` |
| Interfaces.ExampleLookup | hardware/rpiInfo/rpiInfo.c:104-119 | a loopback record and an IPv6 "end0" record are skipped so the IPv4 "end0" address is found; "wlan0" finds nothing |
| Identity.HostnameBuffer | hardware/rpiInfo/rpiInfo.c:173-178 | the 256-char buffer holds the name, cut to fit, with NUL in its last cell and after a short name |
| Identity.Hostname | hardware/rpiInfo/rpiInfo.c:173-178 | "unknown" when `gethostname` fails; otherwise a prefix of the real name: the whole name when it fits, its first 255 characters when longer; never more than 255 characters |
| Identity.Snprintf | hardware/rpiInfo/rpiInfo.c:197 | the formatted text is a prefix of the full text, shorter than the buffer, and all of it when it fits |
| Identity.GetIpAddress | hardware/rpiInfo/rpiInfo.c:164-207 | IP display closed: the uppercased host name; open with an address: host name + ": " + address; open without one: the bare host name |
| Identity.GetIpAddressNew | hardware/rpiInfo/rpiInfo.c:209-213 | returns what `get_ip_address` returns |
| Identity.IdentityWithAddress | hardware/rpiInfo/rpiInfo.c:191-201 | the line splits into host name, ": " and address, and is exactly one shorter than the `needed` buffer |
| Identity.IdentityClosedIsUpperCase | hardware/rpiInfo/rpiInfo.c:180-185 | with the IP display closed, the line has the host name's length and no lower-case letter |
| Identity.ClosedDisplayExample | hardware/rpiInfo/rpiInfo.c:180-185 | host "node1" with the display closed shows "NODE1" |
| Identity.HeaderConfigExamples | hardware/rpiInfo/rpiInfo.c:173-205 | under the header's setting, "pi" with 192.168.1.5 on "end0" shows "pi: 192.168.1.5"; a failed `gethostname` with no address shows "unknown" |
| Storage.BlockSize | hardware/rpiInfo/rpiInfo.c:364 | `f_frsize` when nonzero, else `f_bsize` |
| Storage.RoundToGiBNearest | hardware/rpiInfo/rpiInfo.c:369-370 | without wrap, `(x + 2^29) >> 30` is r with r*2^30 - 2^29 <= x < r*2^30 + 2^29 |
| Storage.RoundToGiBMonotone | hardware/rpiInfo/rpiInfo.c:369-370 | without wrap the rounding is monotone |
| Storage.RoundToGiBWrapsNearTop | hardware/rpiInfo/rpiInfo.c:369-370 | the 64-bit sum does wrap: 2^64 - 1 bytes round to 0 |
| Storage.ToMiBFloor | hardware/rpiInfo/rpiInfo.c:234-235 | the division by 2^20 rounds down |
| Storage.DiskUsedExact | hardware/rpiInfo/rpiInfo.c:364-367 | without overflow and with bavail <= blocks, used bytes are exactly (blocks - bavail) * block and at most the total |
| Storage.SdUsedExact | hardware/rpiInfo/rpiInfo.c:229-232 | the same with bfree |
| Storage.DiskUsedAtMostTotal | hardware/rpiInfo/rpiInfo.c:364-370 | without wrap and with a total that fits 16 bits, the displayed used GiB is at most the displayed total |
| Storage.SdUsedAtMostTotal | hardware/rpiInfo/rpiInfo.c:229-235 | without wrap and with a total that fits 32 bits, the displayed used MiB is at most the displayed total |
| Storage.GetHardDiskMemory | hardware/rpiInfo/rpiInfo.c:346-372 | NULL pointer: 1, nothing written; `statvfs` fails: 1 with 0/0; success: 0 with the total and used bytes rounded to GiB and cast to `uint16_t` |
| Storage.GetSdMemory | hardware/rpiInfo/rpiInfo.c:216-242 | NULL pointer: nothing written; `statvfs` fails: 0/0; success: total and used (all free blocks free) in whole MiB, cast to `uint32_t` |
| Storage.DiskFiguresNearest | hardware/rpiInfo/rpiInfo.c:364-370 | on success without wrap, the disk figures are blocks*block and (blocks - bavail)*block to the nearest GiB |
| Storage.SdFiguresFloor | hardware/rpiInfo/rpiInfo.c:229-235 | on success without wrap, the SD figures are floor(blocks*block / 2^20) and floor((blocks - bfree)*block / 2^20) |
| MemInfo.LastValue | hardware/rpiInfo/rpiInfo.c:269-276 | 0 when no match has the key; otherwise the value of the last match with that key (no later match has it) |
| MemInfo.AfterLinesValues | hardware/rpiInfo/rpiInfo.c:269-276 | after any run of matches, each figure is the value of the last match with its key, 0 if none |
| MemInfo.ConsumedFrom | hardware/rpiInfo/rpiInfo.c:269-276 | from position i, the scan reads up to and including the first match after which both figures are nonzero, or to the end |
| MemInfo.Consumed | hardware/rpiInfo/rpiInfo.c:269-276 | the scan stops exactly after the first match at which both figures are nonzero, and reads every match when that never happens |
| MemInfo.ScannedValues | hardware/rpiInfo/rpiInfo.c:265-276 | the final figures are the last "MemTotal:" and "MemAvailable:" values among the matches read; a key that is missing leaves 0 |
| MemInfo.GetCpuMemory | hardware/rpiInfo/rpiInfo.c:245-281 | NULL pointer: nothing written; `/proc/meminfo` fails to open: 0/0; otherwise the scan loop with its break writes the scanned kB figures |
| MemInfo.TypicalMeminfo | hardware/rpiInfo/rpiInfo.c:269-276 | on a typical file the scan stops after the third match with the total and available values |

## Left out

- `get_temperature` (rpiInfo.c:284-310) and `get_cpu_message` (rpiInfo.c:313-340) are left out. They are `double` arithmetic: the millidegree scale, the Fahrenheit conversion and the load ratio. Their explicit clamps keep both values in 0..255 before the `uint8_t` cast. `read_first_line` is modelled, but its callers are not.
- The float conversion `/ 1024.0f` at the end of `get_cpu_memory` is left out. `GetCpuMemory` writes the kB values that the conversion starts from.
- The I/O itself is not modelled:
  - `fopen`, `fgets`, `fscanf` and `fclose`;
  - `statvfs`, `getifaddrs`, `freeifaddrs` and `inet_ntop`;
  - `gethostname`.
  Their outcomes are inputs. In particular:
  - the `%63s` and `%15s` width limits of `fscanf` are folded into the given lines;
  - the `outlen` bound of `fgets` is folded into the given buffer.
- `malloc`, `strdup` and `free` are left out, along with their allocation-failure branches. Results are values, not heap strings.
- `GetIpAddress` gives the line for every allocation succeeding. When the `snprintf` buffer cannot be allocated, the source falls back to the bare host name; that branch is not modelled.
- `Identity.HostnameBuffer`: a name of 256 characters or more is modelled as cut to its first 256 characters. The cells `gethostname` leaves unwritten after a short name are modelled as NUL. Neither choice changes the C string read from the buffer.
- Aliased out-pointers are not modelled. `OutPair` gives the two written values separately. If both pointers name the same storage, the source's second write (`*useMemSize`, `*freesize`, `*freeram`) is what remains there.
- `CUSTOM_DISPLAY` is defined but is not read by any modelled code.
- `TEMPERATURE_TYPE` is carried in `Config`, but the code that reads it (`get_temperature`) is left out.
- The display driver, frame rendering, refresh loop, button debounce and process lifecycle are not part of this model.
- Storage.DiskUsedAtMostTotal: it assumes no 64-bit wrap and a rounded total below 2^16. With wrap or narrowing, used can appear larger than total. The source makes no promise there, and `RoundToGiBWrapsNearTop` shows that the wrap is real.
- Storage.SdUsedAtMostTotal: likewise, it assumes no wrap and a MiB total below 2^32.
- Storage.RoundToGiBNearest, Storage.DiskFiguresNearest and Storage.SdFiguresFloor: they are stated only for values where the 64-bit arithmetic does not wrap.
