# PortScaner core, modelled in Dafny

This project models the core of PortScaner. PortScaner is a port scanner written in Python. Its SYN ("stealth") scanner builds raw IPv4/TCP packets itself and classifies the replies. The model covers five parts:

- **Header codec** (`headers.dfy`, over `bytes.dfy`). IPv4 and TCP headers are packed to and unpacked from their fixed 20-byte big-endian layouts. As in Python's `struct`, a field value that does not fit, or a buffer of the wrong length, is an error (`Err(StructError)`), not a precondition. `scanner_headers.dfy` models the encode-only copy of the header classes, and shows that it packs the same bytes.
- **Packet factory** (`packet_factory.dfy`). The Internet checksum (RFC 1071, section 1) is a method with the source's carry-folding loop. It is proved equal to a closed-form specification function. The pseudo-header and `generate_packet` are modelled too. `PacketFactory` is a class whose two header fields the methods update in place. Proved properties:
  - the checksum of a generated segment verifies;
  - a generated packet decodes back to its headers.
- **SYN scanner** (`syn_scanner.dfy`). The raw socket is replaced by the sequence of what successive `recvfrom` calls return: a datagram with its sender's address, or a timeout. Reads past the end of that sequence time out. The random sequence number of each SYN is a parameter. The model has three layers:
  - `Classify` handles one received datagram, in the source's order of checks.
  - The retry loop of `try_send_syn` is the method `SendReceiveLoop`, proved against the state machine `Await`/`SynExchange`.
  - `scan` is the method `Scan`, proved against the function `Probes`: each port's exchange reads the shared socket from where the previous one stopped.
- **Scan manager** (`scan_manager.dfy`). A class with the target lists. It models the port validation of both setters, host registration and the `scan_all` dispatch on the thread count.
- **Connect scanner** (`tcp_scanner.dfy`). It opens no connection and fills the port map with CLOSED for every listed port. As written, the final `ScanResult` call raises TypeError (see Findings). The model returns the result with no ping status.

`results.dfy` and `wrappers.dfy` hold the shared result types and the Python exceptions, modelled as `Result` values.

Behaviour of the source that the model keeps as written:

- The reply filter of `try_send_syn` (src/core/scanners/syn_scanner.py:86) keeps only datagrams whose sender is the scanner's own address. A reply from the target host itself is skipped. `SynScan.ReplyFromTargetIgnored` proves the consequence: if the target's reply is the only datagram, the port is reported FILTERED after every attempt. The classification lemmas take the accepted address as a parameter, so they hold for any filter address; `SynScan.ReplyFromTargetAccepted` states the evidently intended behaviour with the filter on the target host (see Findings).
- An exception raised while a datagram is classified ends the scan; only `recvfrom` is guarded. Examples are a datagram too short for the IP header or the TCP header. `SynScan.Classify` aborts with struct.error exactly on such datagrams from the accepted address, `SynScan.ShortDatagramEndsExchange` carries that to the exchange, and the model returns the error from `Scan`.
- A port listed twice is probed twice. The result map keeps the later status.
- The sequence number is drawn from 100..1_000_000_000, both ends included.

## Model

| member | source | states |
|---|---|---|
| Bytes.Fixed4 | src/core/headers.py:26-37 | a `4s` field is exactly four bytes: a shorter string is padded with zero bytes, a longer one truncated, a 4-byte one kept |
| Bytes.BE16RoundTrip | src/core/headers.py:26-53 | unpacking a packed 16-bit field gives back the value |
| Bytes.FromBE16RoundTrip | src/core/headers.py:26-53 | packing an unpacked 2-byte field gives back the bytes |
| Bytes.BE32RoundTrip | src/core/headers.py:106-131 | unpacking a packed 32-bit field gives back the value |
| Bytes.FromBE32RoundTrip | src/core/headers.py:106-131 | packing an unpacked 4-byte field gives back the bytes |
| Bytes.PySlice | src/core/headers.py:155-158 | a Python slice clips its bounds to the buffer: it is s[lo..hi] when hi is inside, s[lo..] when only lo is, and empty when lo is past the end; its length is the clipped span |
| Headers.EncodeIP | src/core/headers.py:24-38 | IPHeader.get_header succeeds exactly when every value fits its field; the 20 bytes hold (version << 4) + ihl, each field big-endian, the addresses as `4s` |
| Headers.DecodeIP | src/core/headers.py:40-70 | from_bytes succeeds exactly on 20 bytes, and any failure is struct.error; version is byte 0 divided by 16 and ihl byte 0 modulo 16, the protocol is byte 9, the addresses are bytes 12..15 and 16..19, and every field fits the wire |
| Headers.IPRoundTrip | src/core/headers.py:24-70 | decoding an encoded header whose fields fit the wire gives back the header |
| Headers.IPReencode | src/core/headers.py:24-70 | every 20-byte buffer decodes and re-encodes to itself |
| Headers.EncodeTCP | src/core/headers.py:94-117 | TCPHeader.get_header succeeds exactly when every value fits; byte 12 is data_off << 4, byte 13 the sum of the shifted flags |
| Headers.DecodeTCP | src/core/headers.py:119-152 | from_bytes succeeds exactly on 20 bytes; every flag is a single bit and data_off a nibble |
| Headers.BitsOfByte | src/core/headers.py:141-148 | a byte is the sum of its eight bits, as the flag extraction reads them |
| Headers.FlagsRoundTrip | src/core/headers.py:96-148 | summing single-bit flags into the flags byte and shifting/masking bit k back out gives flag k |
| Headers.TCPRoundTrip | src/core/headers.py:94-152 | decoding an encoded header with single-bit flags and a nibble data offset gives back the header |
| Headers.DecodeTCPIgnoresReserved | src/core/headers.py:133 | from_bytes gives the same header whatever the low nibble of byte 12 (reserved bits and NS) holds, since data_off is the high nibble only |
| Headers.TCPReencode | src/core/headers.py:94-152 | a decoded 20-byte buffer re-encodes to itself, except that the low (reserved) nibble of byte 12 becomes zero |
| Headers.UnpackHeaders | src/core/headers.py:155-158 | unpack_headers succeeds exactly on packets of at least 40 bytes, decoding bytes 0..19 and 20..39; any failure is struct.error |
| Headers.NewIPHeader | src/core/headers.py:10-22 | a new IP header has the given addresses, version 4, IHL 5, TTL 255, protocol TCP and every other field 0; it always packs, and fits the wire exactly when both addresses are 4 bytes |
| Headers.NewTCPHeader | src/core/headers.py:73-92 | a new TCP header has the given ports, sequence and acknowledgement 0, data offset 5, every flag 0, the default window, check and urgent pointer 0; its flags are single bits and it packs exactly when both ports fit 16 bits |
| Headers.FlagsByte | src/core/headers.py:96-105 | the flags byte is the sum of each flag shifted to its bit (FIN 0 to CWR 7); its properties are FlagsRoundTrip and EncodeTCP |
| Headers.DefaultHeaderBytes | src/core/headers.py:10-92 | new headers encode with version 4 and IHL 5 in byte 0, TTL 255, protocol TCP and a zero IP checksum; data offset 5, no flags and a zero TCP checksum |
| ScannerHeaders.NewIPHeader | src/core/scanners/headers.py:6-18 | the copy's IP header defaults are the codec's |
| ScannerHeaders.NewTCPHeader | src/core/scanners/headers.py:37-56 | the copy's TCP header defaults are the codec's |
| ScannerHeaders.EncodeIP | src/core/scanners/headers.py:20-34 | the copy's IP get_header packs the same bytes, and fails on the same headers, as the codec's |
| ScannerHeaders.EncodeTCP | src/core/scanners/headers.py:58-81 | the copy's TCP get_header packs the same bytes, and fails on the same headers, as the codec's |
| PacketFactory.Padded | src/core/packet_factory.py:13-14 | an odd-length input gains one zero byte, an even one is kept |
| PacketFactory.Fold | src/core/packet_factory.py:18-19 | folding the carries gives a 16-bit value congruent to the sum modulo 0xFFFF, zero only for a zero sum |
| PacketFactory.FoldStep | src/core/packet_factory.py:18-19 | one step of the carry loop on a sum of 2^16 or more keeps the residue modulo 0xFFFF, stays non-zero and shrinks the sum |
| PacketFactory.ComplementLow16 | src/core/packet_factory.py:21 | `~s & 0xFFFF` is 0xFFFF - s for a 16-bit s |
| PacketFactory.InternetChecksum | src/core/packet_factory.py:12-21 | the checksum is a 16-bit value |
| PacketFactory.WordSum | src/core/packet_factory.py:16 | the sum of the big-endian 16-bit words of an even-length buffer; its properties are WordSumAppend and ChecksumSelfVerifies |
| PacketFactory.WordSumAppend | src/core/packet_factory.py:16 | the word sum of two even-length buffers is the sum of their word sums |
| PacketFactory.ChecksumOddPad | src/core/packet_factory.py:13-14 | an odd-length input has the checksum of itself followed by a zero byte |
| PacketFactory.ChecksumSelfVerifies | src/core/packet_factory.py:12-21 | writing the checksum into a zeroed, word-aligned 16-bit slot makes the checksum of the whole buffer zero |
| PacketFactory.PseudoHeader | src/core/packet_factory.py:23-29 | the pseudo-header packs exactly when the length fits 16 bits: the two 4-byte addresses, a zero byte, protocol 6, and the big-endian length |
| PacketFactory.TcpChecksum | src/core/packet_factory.py:31-37 | the checksum over pseudo-header, zero-check TCP header and payload exists exactly when the header packs and 20 + payload length fits 16 bits; any failure is struct.error |
| PacketFactory.CheckAfterGenerate | src/core/packet_factory.py:31-39 | the check field generate_packet leaves behind is a 16-bit value, and is the computed checksum whenever it exists |
| PacketFactory.BuildPacket | src/core/packet_factory.py:31-43 | generate_packet succeeds exactly when both headers pack and the length fits; the packet is the IP header, the TCP header with the computed check, and the payload |
| PacketFactory.PacketSelfVerifies | src/core/packet_factory.py:31-43 | the pseudo-header followed by the generated TCP segment has checksum zero, as a receiver verifies it |
| PacketFactory.GenerateIsRepeatable | src/core/packet_factory.py:32 | the packet and the new check field do not depend on what the check field held before |
| PacketFactory.PacketDecodes | src/core/packet_factory.py:31-43 | a generated packet read back with unpack_headers yields the factory's IP header and its TCP header carrying the computed checksum |
| PacketFactory.PacketFactory.constructor | src/core/packet_factory.py:8-10 | a new factory holds the default IP and TCP headers for the given addresses and ports |
| PacketFactory.PacketFactory.Checksum | src/core/packet_factory.py:12-21 | the pad, sum and carry-folding loop computes InternetChecksum |
| PacketFactory.PacketFactory.GeneratePacket | src/core/packet_factory.py:31-43 | returns BuildPacket of the current headers; the IP header is unchanged and the TCP header's check field holds the computed checksum (or 0 if packing failed after zeroing) |
| SynScan.DefaultScannerOnSilence | src/core/scanners/syn_scanner.py:19-22 | a scanner built with the default arguments (timeout 10, retries 2) sends two SYNs to a silent port, calls recvfrom twice and reports FILTERED |
| SynScan.IsPacketForUs | src/core/scanners/syn_scanner.py:24-30 | a reply is for us exactly when its source port is the probed port and its destination port our own; OtherPortsSkipped states what it means for the exchange |
| SynScan.IsPacketSynAck | src/core/scanners/syn_scanner.py:32-35 | a reply is a SYN/ACK exactly when both the SYN and the ACK flag are set and it acknowledges seq + 1; TcpReplyClassified states what it means for the verdict |
| SynScan.IcmpError | src/core/scanners/syn_scanner.py:37-52 | struct.error exactly when the packet is shorter than 20 bytes, or is ICMP and shorter than 22; OK when the protocol byte is not ICMP; FILTERED exactly for Destination Unreachable with code 1, 2, 3, 9, 10 or 13; ERROR for every other ICMP message |
| SynScan.Classify | src/core/scanners/syn_scanner.py:85-109 | a datagram from any address but the accepted one is skipped; it aborts, always with struct.error, exactly when it comes from the accepted address and is too short for icmp_error or unpack_headers (under 20 bytes, ICMP under 22, or non-ICMP under 40); OPEN is only decided on a non-ICMP datagram of at least 40 bytes |
| SynScan.Await | src/core/scanners/syn_scanner.py:70-112 | the retry state machine from a given read position and attempt; ExchangeSends, SilenceIsFiltered, SkippedPacketIsFree, FirstDecisiveReply and AwaitOnPacket state its behaviour |
| SynScan.SynExchange | src/core/scanners/syn_scanner.py:70-112 | the whole exchange of one port from its first attempt; SendReceiveLoop proves the source's loop equal to it |
| SynScan.TcpReplyClassified | src/core/scanners/syn_scanner.py:98-109 | a TCP reply on our port pair decides OPEN exactly when it is a SYN/ACK acknowledging seq + 1, CLOSED otherwise |
| SynScan.OtherPortsSkipped | src/core/scanners/syn_scanner.py:24-30 | a TCP reply for another port pair is skipped |
| SynScan.SegmentDecodes | src/core/scanners/syn_scanner.py:90-98 | a well-formed non-ICMP TCP datagram passes icmp_error as OK and unpacks to its headers |
| SynScan.ClassifyIgnoresReserved | src/core/headers.py:133 | the verdict on a datagram of 40 bytes or more does not depend on the low nibble of TCP byte 12 (the reserved bits and NS), which from_bytes drops |
| SynScan.DatagramIsSegment | src/core/headers.py:119-152 | every datagram of 40 bytes or more, with that nibble cleared, is the Segment of the wire-fitting headers it decodes to |
| SynScan.TcpDatagramClassified | src/core/scanners/syn_scanner.py:90-109 | any non-ICMP datagram of 40 bytes or more on our port pair is OPEN exactly when its decoded TCP header is a SYN/ACK acknowledging seq + 1, CLOSED otherwise |
| SynScan.OtherPortsDatagramSkipped | src/core/scanners/syn_scanner.py:98-102 | any non-ICMP datagram of 40 bytes or more for another port pair is skipped |
| SynScan.IcmpReplyClassified | src/core/scanners/syn_scanner.py:90-96 | an ICMP reply decides FILTERED for Destination Unreachable with a filtering code, CLOSED otherwise |
| SynScan.ExchangeSends | src/core/scanners/syn_scanner.py:70-76 | at most `retries` SYNs go out, none when retries <= 0; the sends are the first one plus one per timeout while attempts remain |
| SynScan.SilenceIsFiltered | src/core/scanners/syn_scanner.py:77-112 | when every recvfrom times out the port is FILTERED, after `retries` SYNs |
| SynScan.SkippedPacketIsFree | src/core/scanners/syn_scanner.py:86-102 | a datagram failing the address or port checks uses up no attempt and causes no resend; only the count of recvfrom calls grows |
| SynScan.FirstDecisiveReply | src/core/scanners/syn_scanner.py:72-109 | the first datagram that is not skipped decides the port, on the first attempt |
| SynScan.AwaitOnPacket | src/core/scanners/syn_scanner.py:86-109 | on a received datagram the exchange skips, decides or aborts as Classify says |
| SynScan.ShortDatagramEndsExchange | src/core/scanners/syn_scanner.py:86-98 | a too-short datagram from the accepted address ends the exchange with struct.error on the attempt under way, counting that recvfrom |
| SynScan.SendReceiveLoop | src/core/scanners/syn_scanner.py:68-112 | the while loop with i and old_i ends with exactly the status, number of SYNs sent and number of recvfrom calls that the exchange state machine gives |
| SynScan.TrySendSyn | src/core/scanners/syn_scanner.py:55-112 | sets SYN and the sequence number, builds the packet once (a build failure raises before any send), then runs the exchange; the factory keeps its IP header and its TCP header carries the SYN's checksum |
| SynScan.ReplyFromTargetIgnored | src/core/scanners/syn_scanner.py:86-88 | as written, a reply whose sender is the target host rather than the scanner's own address is skipped, and the port ends FILTERED after all attempts |
| SynScan.ReplyFromTargetAccepted | src/core/scanners/syn_scanner.py:86-109 | with the filter on the target host, a SYN/ACK from the target for our port pair and sequence number makes the port OPEN on the first attempt after one recvfrom |
| SynScan.SynBuildsIff | src/core/scanners/syn_scanner.py:62-66 | the SYN packet builds exactly when both ports fit 16 bits and the sequence number 32 bits; otherwise struct.error |
| SynScan.RstBuilds | src/core/scanners/syn_scanner.py:133-142 | whenever the ports fit, the RST packet builds |
| SynScan.ProbeSpec | src/core/scanners/syn_scanner.py:127-146 | one port's probe is for that port, and carries a RST packet exactly when its status is OPEN |
| SynScan.SynPacketShape | src/core/scanners/syn_scanner.py:62-66 | read back, the SYN is a SYN without ACK or RST, with the chosen sequence number, from our port to the target port |
| SynScan.RstPacketShape | src/core/scanners/syn_scanner.py:133-142 | read back, the RST of an OPEN port is a bare RST with sequence number 0 for the same port pair |
| SynScan.StatusMap | src/core/scanners/syn_scanner.py:137-146 | port_status as the loop fills it; StatusMapKeys, StatusMapLatest and StatusMapAppend state its contents |
| SynScan.StatusMapKeys | src/core/scanners/syn_scanner.py:137-146 | port_status maps exactly the probed ports |
| SynScan.StatusMapLatest | src/core/scanners/syn_scanner.py:137-146 | each port maps to the status of its last probe |
| SynScan.StatusMapAppend | src/core/scanners/syn_scanner.py:137-146 | one more probe updates port_status at its port alone |
| SynScan.Probes | src/core/scanners/syn_scanner.py:127-146 | the probe sequence has one probe per port up to and including the first that raised, and one per port when none raised |
| SynScan.ProbesStop | src/core/scanners/syn_scanner.py:127-132 | once a probe has raised, later ports add no probe |
| SynScan.ProbesInOrder | src/core/scanners/syn_scanner.py:127-146 | the probes follow the port list in order, all but the last succeeded, and the k-th reads the socket from the first event the earlier ones left unread |
| SynScan.ProbesExtend | src/core/scanners/syn_scanner.py:127-146 | the next port's probe extends the sequence by one, and after a raising probe the sequence is final |
| SynScan.ProbePort | src/core/scanners/syn_scanner.py:128-146 | a fresh factory, try_send_syn, SYN and sequence number cleared, and for an OPEN port RST set and the packet generated again: the probe is ProbeSpec |
| SynScan.SendRst | src/core/scanners/syn_scanner.py:141-144 | the RST generated on the reused factory is the packet built from fresh default headers with RST set; afterwards the factory keeps its IP header and its TCP header is the RST header carrying the RST's checksum |
| SynScan.ScanStep | src/core/scanners/syn_scanner.py:127-146 | one iteration of the port loop appends exactly the next entry of Probes |
| SynScan.Scan | src/core/scanners/syn_scanner.py:115-150 | the probes are Probes of all ports; the scan succeeds exactly when no probe raised, and then returns the map from each listed port to its latest status; otherwise it returns the first exception |
| TcpScanner.Scan | src/core/scanners/tcp_scanner.py:9-16 | the result maps exactly the listed ports, each to CLOSED, for the given host, with no ping status |
| Results.NewScanResultAsWritten | src/core/results.py:18-22 | the dataclass needs all three fields: leaving out ping_status raises TypeError |
| Results.TwoArgumentResultFails | src/core/scanners/tcp_scanner.py:15 | the two-argument ScanResult call both scanners make raises TypeError |
| ScanManager.ValidPort | src/core/scan_manager.py:37-48 | the port test of both setters, 1..65535; SetTargetPorts and PortRangeTargets state where it is applied |
| ScanManager.PortRangeTargets | src/core/scan_manager.py:45-53 | ValueError exactly when a bound is outside 1..65535; otherwise the ports between the bounds, both included and in either order, ascending, each valid, max - min + 1 of them |
| ScanManager.PortRangeSymmetric | src/core/scan_manager.py:50-51 | the bounds may be given in either order |
| ScanManager.PortRangeAsWritten | src/core/scan_manager.py:45-53 | as written, set_target_port_range always raises |
| ScanManager.PortRangeAsWrittenDiffers | src/core/scan_manager.py:53 | the written setter raises TypeError exactly where the intended one succeeds, and matches it on bad bounds |
| ScanManager.PortRangeCounterexample | src/core/scan_manager.py:53 | the valid reversed range (3, 1) yields [1, 2, 3] as intended but TypeError as written |
| ScanManager.ScanManager.constructor | src/core/scan_manager.py:15-23 | a new manager has no results, zero scan time, no hosts and no ports, and keeps the scan type, ping flag and thread count, which default to TCP, true and 1 |
| ScanManager.ScanManager.AddTargetHost | src/core/scan_manager.py:31-32 | one host is appended at the end; earlier hosts and all other fields are unchanged |
| ScanManager.ScanManager.SetTargetPorts | src/core/scan_manager.py:37-43 | ValueError exactly when some port is outside 1..65535, with the ports unchanged; otherwise the list is stored as given, in order and with repeats; no other field changes |
| ScanManager.ScanManager.SetTargetPortRange | src/core/scan_manager.py:45-53 | the stored ports become PortRangeTargets of the bounds, or are unchanged on ValueError; no other field changes |
| ScanManager.ScanManager.ScanAll | src/core/scan_manager.py:61-65 | the single-threaded path exactly when threads == 1, the multi-threaded path exactly when threads > 1, and nothing when threads <= 0 |

## Left out

- The import of `ScanType`: src/core/scan_manager.py:10 imports it from `core.scanner`, and src/core/scanner.py:1-9 defines only `Scanner`. As written the module therefore raises ImportError, and none of its code runs. Every ScanManager member assumes the import works; the model uses the definition in src/core/scanners/scanner.py:11-16.
- Endless receive streams: the socket is a finite sequence of recvfrom results, and reads past its end time out, so every exchange ends. In the source the timeout applies to each recvfrom call and a skipped datagram uses up no attempt. A stream of skipped datagrams that keep arriving within the timeout therefore keeps try_send_syn waiting forever. With the filter on the scanner's own address, that includes any inbound TCP traffic from another host. The model does not capture that unbounded wait.
- Socket I/O: socket creation, `setsockopt`, `bind`, `sendto` and `close` are not modelled as effects. `recvfrom` is the event sequence, and sends are only counted.
- `settimeout` and the timeout value: a timeout is an event of the sequence, not a clock.
- `randint`: the sequence number of each port is a parameter. Its range is the precondition 100..1_000_000_000.
- `print`: it has no effect on the results.
- `get_self_ip` and `get_free_port`: they need the network. The scanner's own address and the source port are parameters. src/core/scanners/scanner.py is otherwise not part of this model.
- `inet_aton`: the IPv4 address conversion done before packets are built. The packed addresses are parameters.
- The default TCP window `htons(5840)` depends on the host's byte order. The model fixes the little-endian value, and the properties hold for every window value.
- Hosts are strings, not `ipaddress` objects.
- `add_target_network`: it enumerates hosts with the `ipaddress` library.
- `scan_single_threaded` and `scan_multi_threaded`: they are empty stubs, and the second runs under asyncio. `scan_all` is modelled as the choice between them.
- `get_results` and `get_scan_time`: they are plain accessors of fields the model exposes.
- Header objects are owned by their factory; aliasing between factories is not modelled.
- ScanManager.ScanManager.SetTargetPorts: the model stores the port list as a value. The source keeps the caller's list object (src/core/scan_manager.py:43), so later changes the caller makes to that list show through; this aliasing is not modelled.
- The scanner's timeout is kept as a configuration field with its default of 10, but no clock is modelled, so nothing is stated about it.
- The argument parser, `main`, the pinger and the abstract `Scanner`: they are outside the core.
- Exceptions other than `struct.error`, `ValueError` and `TypeError` (for example a failing `sendto`): they come from I/O that is not modelled.

## Findings

| source | as written | input that shows it | evidently intended | confidence | as-written member | corrected member |
|---|---|---|---|---|---|---|
| src/core/scan_manager.py:53 | `[] + range(lower_bound, upper_bound + 1)` adds a list to a range object, which raises TypeError, so no port range is ever stored | `set_target_port_range(3, 1)` | the ascending list of ports min..max, both included | high (not executed) | ScanManager.PortRangeAsWritten | ScanManager.PortRangeTargets |
| src/core/scanners/syn_scanner.py:86 | `in_addr[0] != self.src_ip` skips every datagram not sent from the scanner's own address, but a reply to the SYN is sent by the target host, so it is skipped and every attempt times out | a target that answers the SYN with a SYN/ACK from its own address | keep only datagrams from the target host | medium (not executed) | SynScan.ReplyFromTargetIgnored | SynScan.ReplyFromTargetAccepted |
| src/core/scanners/tcp_scanner.py:15 | `ScanResult(port_status, host)` leaves out `ping_status`, which the dataclass in src/core/results.py:18-22 requires, so it raises TypeError (also src/core/scanners/syn_scanner.py:149) | `TCPScanner().scan(host, [22])` | a result with no ping status yet | high (not executed) | Results.NewScanResultAsWritten | TcpScanner.Scan, SynScan.Scan |
