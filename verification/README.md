# libamg in Dafny

A model of the algorithms of the gateway library: its netlink messages and conversations, the interface
index table, the tone event queue, the ping checksum, and the configuration files it edits. Code that
works in place is modelled in place (arrays, linked nodes, cursors) and proved against functions; what the
library promises is then proved about those functions, for all inputs and over whole runs.

| files | what they model |
|---|---|
| Bytes, Attributes, Builder, Appends, Parser | attribute trees as bytes: the streaming builder that patches lengths afterwards, the recursive serialisation it must equal, and the parsers that undo it |
| Netlink, Dump, Talk | receive loops as state machines over a script of receive results, with a trace of callback calls |
| Gateway, Links, LinkTable | two clients of the dump loop: the default gateway and the interface index table |
| ToneQueue | the sentinel-headed list; each mutex region is one atomic step |
| Checksum | the Internet checksum of RFC 1071 |
| Fgets, Text, Tokens, Strings, Lookup, Codecs | files as fgets cuts them, decimal numbers, strtok, key=value lines, string fields, a reader for any key of a printed file |
| Sip, SipRoundTrip, SipTwice, SipFiles, SipLines, Comcerto, ComcertoRoundTrip, ComcertoLines | the SIP and Comcerto settings |
| Channels, Dahdi, DahdiRoundTrip, DahdiLines | the two DAHDI files |
| InitTab | switching lines of inittab and inetd.conf |

Sizes that the sources take from system headers: nlmsghdr 16 bytes, rtattr 4, rtmsg 12, ifinfomsg 16,
nlmsgerr 20, alignment 4; `rta_len` and `rta_type` have 16 bits. IFLA_MAX, RTA_MAX and the size of a pointer
are parameters.

Where code and intent differ, the model follows the code:

- ll_remember_index compares with the size of a pointer instead of that of the structure
  (src/libnetlink/ll_map.c:51); a message that passes without room for the structure has no attributes.
- session-expires and session-minse are read into defaultexpiry and autoframing is not read
  (src/sip.c:416-419).
- The delimiter literal of the SIP and Comcerto parsers ends at its embedded NUL, so `;` and `#` do not
  end a value there.
- A field that is saved empty is parsed as a newline, because strtok leaves a string of delimiters alone.
- The tenth allow line of sip.conf is stored behind the array of nine codecs (SipFiles.FitMeansNine,
  SipFiles.TenthLine).
- ll_name_to_index never drops its cached pair: after a rename it answers the old index
  (Links.RenamedIsStale; Links.LookupsAreScans says when the cache is right).
- libamg_get_default_gw_ipaddr returns errno for a failed dump, which an error message with error 0 sets
  to 0 (Gateway.ZeroMayBeFailure).
- addattr_l accepts payloads whose length does not fit rta_len (Appends.RunReads says exactly when what a
  run appended reads back, Appends.OversizedIsAccepted gives an example).
- Saving sip.conf strips a string, parsing it cuts at the first word: a word that ends in a control
  character is shortened by every round (SipTwice.TwiceIsOnce says exactly when that cannot happen).
- Saving a disabled DAHDI span and parsing the files enables it, and a bitmap of bit 31 alone makes the
  parser leave the array of spans (DahdiRoundTrip.SaveThenParse, DahdiRoundTrip.WhatSurvives).

Each ParseConfig is Text.ParseFile with the keys of its file, and each printer is Text.RenderAll of its
records; what they promise are the round trips below. `dafny verify dfyconfig.toml` checks the whole project.

## Model

| member | source | states |
|---|---|---|
| Bytes.Align | src/libnetlink/libnetlink.c:531-540 | RTA_ALIGN and NLMSG_ALIGN: the least multiple of four that is not smaller |
| Bytes.SplicePatch | src/libnetlink/libnetlink.c:564-568 | overwriting part of what was just written equals having written the patched bytes at once (back-patching) |
| Attributes.Walk | src/libnetlink/libnetlink.c:624-635 | every attribute that RTA_OK and RTA_NEXT visit lies, header and payload, inside the given bytes, for arbitrary bytes and any length including negative ones |
| Attributes.LastOfType | src/libnetlink/libnetlink.c:626-629 | tb[t] is the last visited attribute of type t, or NULL exactly when none was visited |
| Attributes.WalkIsLevel | src/libnetlink/libnetlink.c:624-635 | walking by offsets over a larger buffer reports the same types and payloads, in order, as reading the enclosed region by itself |
| Attributes.TableHoldsLast | src/libnetlink/libnetlink.c:624-635 | the table entry of type t points at the last payload of that type in the region |
| Attributes.LastSerialised | src/libnetlink/libnetlink.c:624-635 | the table entry of type t after parsing a serialised forest behind anything else is the last payload of that type in the forest |
| Attributes.LevelOfFirst | src/libnetlink/libnetlink.c:624-635 | the parser takes exactly one serialised attribute off the front, with its type and payload, and goes on behind its padding |
| Attributes.LeafBytes | src/libnetlink/libnetlink.c:535-539 | a plain attribute in memory: its 16-bit length and type, the payload, and padding that is left as it was |
| Attributes.NestBytes | src/libnetlink/libnetlink.c:556-568 | a nest in memory: a header with the length of header and children, then the children |
| Attributes.CompatBytes | src/libnetlink/libnetlink.c:570-587 | a compat nest in memory: the outer header, the fixed structure, its padding, and an inner header of the same type with its own length |
| Attributes.LevelOfAll | src/libnetlink/libnetlink.c:624-635 | parsing a serialised forest yields the types and payloads of its trees in order |
| Attributes.DecodeSerialised | src/libnetlink/libnetlink.c:624-650 | round trip for trees of any depth whose lengths fit 16 bits: reading level by level gives back every type, payload and fixed structure in order, whatever the padding bytes hold |
| Attributes.CompatBodyOf | src/libnetlink/libnetlink.c:652-663 | behind a fixed structure of any length, aligned or not, the compat parser finds exactly the body of the nest that was built there, also an empty one |
| Builder.NestWritten | src/libnetlink/libnetlink.c:556-568 | opening a nest, writing any aligned body and patching the length leaves the body behind a header that carries its length |
| Builder.CompatWritten | src/libnetlink/libnetlink.c:570-587 | the same for a compat nest: both lengths end up right, and the first length is still the one that addattr_nest_compat_end needs |
| Builder.PlacedNest | src/libnetlink/libnetlink.c:556-568 | append, children, back-patch equals the recursive serialisation of the nest |
| Builder.PlacedCompat | src/libnetlink/libnetlink.c:570-587 | the same for compat nests with a fixed structure of any length |
| Builder.PlacedCons | src/libnetlink/libnetlink.c:525-541 | building two forests one after the other is building their concatenation |
| Builder.BuiltTreeDecodes | src/libnetlink/libnetlink.c:525-568 | end to end: a forest built at the tail of a message is read back level by level as that forest; bytes before it and behind it are untouched |
| Builder.Message.CopyIn | src/libnetlink/libnetlink.c:535-539 | memcpy into the message writes the source at the offset and nothing else |
| Builder.Message.PutAttr | src/libnetlink/libnetlink.c:535-539 | type, length and payload at an offset; both header fields keep 16 bits, padding is left alone |
| Builder.Message.AddAttrL | src/libnetlink/libnetlink.c:525-541 | in place; the new bytes, length and result are those of the specification, unchanged when the bound is exceeded |
| Builder.AttrPlaced | src/libnetlink/libnetlink.c:525-541 | refused without a change exactly if header, payload and padding do not fit the bound; else both header fields and the payload stand at the aligned tail, the length includes the padding, and no other byte changes |
| Builder.Message.AddAttr32 | src/libnetlink/libnetlink.c:509-523 | appending a word is appending its four bytes |
| Builder.Message.AddRawL | src/libnetlink/libnetlink.c:543-554 | raw bytes at the tail with zeroed padding, or nothing |
| Builder.RawPlaced | src/libnetlink/libnetlink.c:543-554 | refused without a change exactly if the padded bytes do not fit; else they stand at the aligned tail with zeros behind them, the length includes these, and no other byte changes |
| Builder.Message.RtaAddAttrL | src/libnetlink/libnetlink.c:589-622 | an append inside an attribute whose own length grows by what was added, or nothing |
| Builder.SubPlaced | src/libnetlink/libnetlink.c:606-622 | refused without a change exactly if it does not fit; else the new attribute stands at the aligned end, the outer length reaches behind it, and no other byte changes |
| Builder.Message.AddNest | src/libnetlink/libnetlink.c:556-562 | an empty attribute, returned by the position of its header |
| Builder.Message.AddNestEnd | src/libnetlink/libnetlink.c:564-568 | patches the length of the open nest up to the tail |
| Builder.Message.AddNestCompat | src/libnetlink/libnetlink.c:570-578 | a fixed structure and an empty attribute of the same type behind it |
| Builder.Message.AddNestCompatEnd | src/libnetlink/libnetlink.c:580-587 | patches the outer and then the inner length |
| Builder.Message.Build | src/libnetlink/libnetlink.c:525-587 | an attribute tree of any depth built by append, nest and back-patch is its recursive serialisation at the tail, if it fits the bound and 16-bit lengths |
| Builder.Message.BuildAll | src/libnetlink/libnetlink.c:525-587 | the same for a sequence of trees |
| Appends.StepKeeps | src/libnetlink/libnetlink.c:509-541 | any append is either refused without any change or written behind everything there was; it reads back as asked if its length fits rta_len |
| Appends.RunKeeps | src/libnetlink/libnetlink.c:509-541 | over any run of accepted and refused appends nlmsg_len stays within maxlen and is aligned after the first success, earlier bytes are untouched, and a run of refusals changes nothing |
| Appends.RunReads | src/libnetlink/libnetlink.c:509-541 | after any run the parser reads exactly the accepted appends in order if and only if each accepted one fits the 16-bit rta_len; refused ones may have any size |
| Appends.RunParses | src/libnetlink/libnetlink.c:624-635 | after a run whose accepted appends fit rta_len, parse_rtattr returns for each type the payload of the last accepted append |
| Appends.AcceptedExtends | src/libnetlink/libnetlink.c:525-541 | a later run adds to the accepted attributes of an earlier one and changes none of them |
| Appends.AppendReadsBack | src/libnetlink/libnetlink.c:525-541 | addattr_l also accepts payloads that rta_len cannot describe: an accepted append reads back as asked if and only if header and payload are at most 65535 bytes |
| Appends.OversizedIsAccepted | src/libnetlink/libnetlink.c:525-541 | a witness: 70000 bytes of payload are accepted and read as an attribute of 4468 bytes |
| Appends.WordReadsBack | src/libnetlink/libnetlink.c:509-523 | the word that addattr32 stored is read back |
| Appends.SubAppended | src/libnetlink/libnetlink.c:606-622 | rta_addattr_l on an open nest adds a leaf behind its children and leaves a well-formed nest |
| Parser.ParseRtattr | src/libnetlink/libnetlink.c:624-635 | the loop terminates with a falling signed length and leaves the last attribute of each type up to max in tb |
| Parser.ParseRtattrByIndex | src/libnetlink/libnetlink.c:637-650 | tb lists the first max attributes of type at most max in order, the rest is NULL, and the count is returned |
| Parser.ParseNestedCompat | src/libnetlink/libnetlink.c:652-663 | -1 and no change for a payload shorter than the structure; otherwise the table of the inner nest, empty if there is none |
| Parser.CompatRegion | src/libnetlink/libnetlink.c:652-663 | the bytes parsed in place are the body that the compat round trip speaks of |
| Netlink.VisitFirst | src/libnetlink/libnetlink.c:211-244 | NLMSG_OK and NLMSG_NEXT visit the first message and then those of the rest behind its padding; the signed remainder may fall below zero |
| Netlink.HeaderFields | src/libnetlink/libnetlink.c:211-217 | where the bytes of a message carry its length, type, sequence number and pid |
| Dump.ReadDatagram | src/libnetlink/libnetlink.c:210-252 | the inner loop over one datagram, with exit on a remnant, equals its specification for any bytes |
| Dump.DumpFilter | src/libnetlink/libnetlink.c:174-254 | the whole loop equals its specification for any script of receives: interrupted, failed, end, truncated and malformed ones included |
| Dump.ScriptIsStream | src/libnetlink/libnetlink.c:189-253 | on non-empty, padded, untruncated datagrams the result depends only on the stream of messages; interrupted receives do not matter |
| Dump.SplittingDoesNotMatter | src/libnetlink/libnetlink.c:189-253 | two scripts that carry the same messages in different datagrams end alike, with the same callback calls |
| Dump.StreamEnds | src/libnetlink/libnetlink.c:211-240 | the filter is called on exactly the messages from sender 0 with own pid and dump number, the junk callback (if given) on exactly the others, in order, up to the first own DONE, own ERROR or negative callback, which decides the result |
| Dump.DumpMeaning | src/libnetlink/libnetlink.c:174-254 | the two statements put together for the loop on benign scripts |
| Dump.OneMessage | src/libnetlink/libnetlink.c:211-240 | the loop on one message given byte by byte: with sender 0, own pid and own number it returns 0 for type 3 and -1 for type 2, and calls the filter for any other; otherwise it calls the junk callback, if there is one; a negative result is returned |
| Dump.DumpByFields | src/libnetlink/libnetlink.c:174-254 | the meaning of the loop on benign scripts in terms of sender and header bytes: which messages the filter and the junk callback get, in order, and what ends the loop |
| Dump.BadReceiveEnds | src/libnetlink/libnetlink.c:196-252 | the first receive that is not benign: a failed one or the end of the stream returns -1, a remnant exits after the messages before it, the rest of a truncated datagram is passed over |
| Dump.ScriptFiltersOwn | src/libnetlink/libnetlink.c:174-254 | for any script at all the filter is called on messages from sender 0 with own pid and dump number only |
| Talk.ReadDatagram | src/libnetlink/libnetlink.c:317-378 | the inner loop with its unsigned test on the remaining length equals its specification for any bytes: malformed and truncated messages, remnants, and unpadded datagrams whose signed rest passes that test below zero |
| Talk.Converse | src/libnetlink/libnetlink.c:299-378 | the whole receive loop equals its specification for any script of receives |
| Talk.StreamSettles | src/libnetlink/libnetlink.c:317-369 | a conversation is decided by the first message with own peer, pid and number that is an ERROR or ACK, or an answer if one was asked for; the junk callback gets exactly the others before it, in order, and its first negative result, if any, ends the conversation with that result; the state is what these calls leave |
| Talk.TalkMeaning | src/libnetlink/libnetlink.c:256-379 | the same for the loop on benign scripts, however messages are split into datagrams |
| Talk.OneMessage | src/libnetlink/libnetlink.c:330-369 | the loop on one message given byte by byte: with own peer, pid and number an error is accepted exactly if its first four payload bytes are zero and 20 are there, any other type exactly if an answer is wanted; a message that differs in one of the three settles nothing and goes to the junk callback |
| Talk.ErrorWordDecides | src/libnetlink/libnetlink.c:343-359 | a reply of type NLMSG_ERROR is accepted if and only if its error word is 0 and a whole struct nlmsgerr is there, and rejected otherwise |
| Talk.TalkByFields | src/libnetlink/libnetlink.c:256-379 | the meaning of the loop on benign scripts in terms of sender and header bytes |
| Talk.BadReceiveEnds | src/libnetlink/libnetlink.c:303-378 | the first receive that is not benign: -1 for a failed one, the end of the stream or a truncated message, exit for a malformed message or a remnant |
| Talk.SettledByOwn | src/libnetlink/libnetlink.c:330-369 | for any script at all, what settles a conversation carries its peer, pid and number, is an ERROR or a wanted answer, and gets the verdict it stands for |
| Talk.Handle.RequestDump | src/libnetlink/libnetlink.c:91-107 | a dump request takes the next sequence number and remembers it |
| Talk.Handle.DumpFilter | src/libnetlink/libnetlink.c:174-254 | the dump loop of a handle compares with the number of its last dump request |
| Talk.Handle.Talk | src/libnetlink/libnetlink.c:282-378 | a conversation takes the next sequence number, and reads on where the handle stopped |
| Talk.SessionNumbers | src/libnetlink/libnetlink.c:256-379 | for any inbox, the i-th request of a session of dumps and conversations on a handle gets the i-th number after the first, modulo 2 to the 32; its conversation is settled by its own messages only, and its dump filters its own only |
| Talk.SessionMeaning | src/libnetlink/libnetlink.c:256-379 | on a benign inbox the i-th request of a session, under the i-th number, is decided by the first message that is decisive for it among exactly those that the requests before it left (Reach), with the calls on the messages before that one; it starts from the state they left, and the next request starts from the state it leaves |
| Talk.SessionByFields | src/libnetlink/libnetlink.c:256-379 | the same for each request of a session in terms of sender and header bytes |
| Talk.SessionNeverConfuses | src/libnetlink/libnetlink.c:282-369 | over fewer than 2 to the 32 requests on one handle, for any inbox, no reply to one request is ever taken as the verdict on another or handed to the filter of another one's dump |
| Gateway.InAddr.FilterDefaultGw | src/if.c:100-143 | the callback overwrites the address with the gateway of an IPv4 main-table (or table-less) route without destination, and with nothing else; -1 for a message that is not a route |
| Gateway.RouteFromBytes | src/if.c:100-143 | the callback from the bytes up, on a header, a struct rtmsg and any serialised attributes: the address becomes the gateway word exactly for a route message of family 2 whose last table attribute is absent or 254, with no destination and with a gateway; -1 exactly for other types |
| Gateway.ShortRoute | src/if.c:116-120 | a message without room for a struct rtmsg is refused and announces nothing |
| Gateway.FoldAnnounces | src/if.c:100-143 | folding the callback over a stream whose own messages keep their words inside leaves what the last announcing message says, or the initial address |
| Gateway.DumpYieldsGateway | src/if.c:219-241 | a dump that succeeds, with the loaded words inside the messages that the filter sees, yields the gateway of the last default IPv4 main-table route before DONE, or 0.0.0.0: loop, callback and attribute parser composed |
| Gateway.GetDefaultGwIpaddr | src/if.c:219-245 | the return code and the address for every way the call can go; on success the address is that of the last announcement before the first final message, which is DONE; the code is 0 exactly when the dump did not fail or errno is 0 |
| Gateway.ZeroMayBeFailure | src/if.c:234-244 | exactly when a code of 0 stands for a failed dump: the deciding message is an error message whose error is 0, or it sets no errno and errno was 0 before |
| Links.CString | src/libnetlink/ll_map.c:87-87 | strcpy of a name: the bytes before the first NUL |
| Links.NewsFromBytes | src/libnetlink/ll_map.c:40-88 | what is read from the bytes up, on a header, a struct ifinfomsg and any serialised attributes: type, index, flags, the last address and the last name |
| Links.CodeOfRemember | src/libnetlink/ll_map.c:48-52 | -1 exactly for a link message without room for a pointer, 0 otherwise |
| Links.StoreAgrees | src/libnetlink/ll_map.c:62-88 | storing a link changes the lookup of its index to it and no other lookup |
| Links.RunAgrees | src/libnetlink/ll_map.c:40-89 | after any run of messages whose copied names fit name[16] an index lookup agrees with a plain map updated by the last accepted RTM_NEWLINK per index; other messages change nothing |
| Links.StoreKeepsForm | src/libnetlink/ll_map.c:62-73 | each bucket keeps holding only its own hash and no index twice |
| Links.RunKeeps | src/libnetlink/ll_map.c:40-89 | over any run the buckets stay well formed and entries never move, disappear or change their index |
| Links.ScanAfterStore | src/libnetlink/ll_map.c:137-159 | a stored link leaves the answer of the name scan alone if and only if the answered interface keeps the name and none scanned before it takes the name |
| Links.StoreKeepsScan | src/libnetlink/ll_map.c:137-159 | one message that neither renames the index nor gives its name away keeps the answer |
| Links.CacheStaysRight | src/libnetlink/ll_map.c:137-159 | a cached pair stays what the full scan would answer as long as no message renamed the index or gave its name to another one |
| Links.ScanIsSearch | src/libnetlink/ll_map.c:148-156 | the scan as a function answers an index if and only if the search for the name stops at it, and nothing if and only if no entry has the name |
| Links.LookupsAreScans | src/libnetlink/ll_map.c:137-159 | over any interleaving of messages and lookups every lookup answers as the full scan without a cache would, if no message renamed the interface that was cached when it came or gave its name to another one |
| Links.RenamedIsStale | src/libnetlink/ll_map.c:146-147 | that condition is needed: after news that renames the cached interface the lookup still answers it, and the scan no longer does |
| LinkTable.Table.constructor | src/libnetlink/ll_map.c:27-38 | the static arrays start empty |
| LinkTable.Table.Search | src/libnetlink/ll_map.c:62-65 | the pointer-to-pointer search stops at the entry of the index or at the end of the bucket |
| LinkTable.Table.NewNode | src/libnetlink/ll_map.c:66-73 | a fresh node behind the last one of its bucket; no other node changes |
| LinkTable.Table.Append | src/libnetlink/ll_map.c:66-73 | linking it keeps all sixteen chains in order |
| LinkTable.Table.Fill | src/libnetlink/ll_map.c:75-88 | overwriting an entry in place is the specified store |
| LinkTable.Table.RememberIndex | src/libnetlink/ll_map.c:40-89 | ll_remember_index in place refines the specification on chains, for every message whose copied name fits its field |
| LinkTable.Table.FindNode | src/libnetlink/ll_map.c:94-101 | the lookup loop finds an entry exactly when the chain lookup does, and the same one |
| LinkTable.Table.IdxN2A | src/libnetlink/ll_map.c:91-102 | "*" for index 0, the remembered name, or "if" and the number |
| LinkTable.Table.IndexToType | src/libnetlink/ll_map.c:112-122 | the remembered type, or -1 |
| LinkTable.Table.IndexToFlags | src/libnetlink/ll_map.c:124-135 | the remembered flags, or 0 |
| LinkTable.Table.NameToIndex | src/libnetlink/ll_map.c:137-159 | the cached answer for the cached name, else the first entry in scan order, which is then cached, else the answer of the kernel; what is cached afterwards: one lookup step of the runs in Links |
| LinkTable.Table.FindName | src/libnetlink/ll_map.c:148-156 | the scan loop over the linked buckets answers what the scan over chains does |
| LinkTable.DumpRemembers | src/libnetlink/ll_map.c:161-173 | the state after the callback calls of a dump is the table after its own messages |
| LinkTable.InitMapAgrees | src/libnetlink/ll_map.c:161-173 | when ll_init_map succeeds, on a fresh table or on one filled before, lookups agree with the plain map updated by the last accepted link per index among the answers before DONE |
| LinkTable.InitMapFresh | src/libnetlink/ll_map.c:161-173 | after the first successful ll_init_map a lookup finds exactly the last accepted link of its index among the answers before DONE, and nothing for any other index |
| ToneQueue.DequeueTakesFirst | src/dsp.c:407-437 | a dequeue takes the first tone of its own connection and leaves every other connection alone |
| ToneQueue.FifoPerConnection | src/dsp.c:374-437 | under any interleaving of the critical sections, the tones dequeued for a connection followed by those still queued are the tones queued, in order |
| ToneQueue.DequeueRemovesOne | src/dsp.c:412-429 | one event at most is unlinked and the order of the others stays; nothing changes if there is none |
| ToneQueue.List.constructor | src/dsp.c:44-48 | the sentinel alone |
| ToneQueue.List.QueueToneEvent | src/dsp.c:374-405 | in place: the new node goes to the tail; -1 and no change without memory |
| ToneQueue.List.DequeueToneEvent | src/dsp.c:407-437 | in place: exactly one node is unlinked and freed, it is not the sentinel and was never freed before |
| ToneQueue.List.Unlink | src/dsp.c:416-426 | relinking keeps the list and the order of the other nodes |
| Checksum.OnesSumIsResidue | src/if.c:170-192 | the end-around-carry sum of RFC 1071 depends only on the plain sum |
| Checksum.TwoFolds | src/if.c:188-190 | two folds bring every non-negative 32-bit sum to its 16-bit one's complement value |
| Checksum.SafeSizes | src/if.c:172-186 | the int sum cannot overflow, whatever the bytes are, if and only if the size is at most 65536 (65537 on a little-endian host) |
| Checksum.InCksum | src/if.c:170-192 | the loop and two folds in 32-bit ints yield the complement of the one's complement sum of RFC 1071, in either byte order |
| Checksum.StoredChecksumVerifies | src/if.c:299-305 | storing the result in the zeroed checksum word makes the checksum zero |
| Checksum.TrailingZeros | src/if.c:299-305 | trailing zero bytes do not change the sum |
| Checksum.ByteOrderIndependent | src/if.c:170-192 | the other byte order yields the byte-swapped sum (section 2 of RFC 1071) |
| Checksum.PingPacket | src/if.c:259-305 | summing the 192 bytes of the buffer gives the right checksum for the 64 bytes that are sent |
| InitTab.File.Fgets | src/process.c:155-157 | one fgets at the cursor delivers the next chunk and reports the end of the file |
| InitTab.File.Search | src/process.c:155-163 | the loop finds the first chunk with the program and puts the cursor back to its start |
| InitTab.File.SetFirst | src/process.c:145-170 | one character of the file is overwritten in place, or none |
| InitTab.File.CheckDaemon | src/process.c:182-209 | whether the first matching chunk begins with u |
| InitTab.File.CheckInetdProgram | src/process.c:371-395 | whether some chunk with the program does not begin with the comment sign |
| InitTab.EditKeepsStructure | src/process.c:155-163 | if the program matches past the first character, all chunks but that one character stay and the same chunk is found again |
| InitTab.DaemonReportsLast | src/process.c:145-209 | after any run of start and stop calls the check reports the last one and only that character differs from the first file |
| InitTab.EditTwice | src/process.c:145-170 | a later edit of a program overwrites the earlier one |
| InitTab.EditKeepsOthers | src/process.c:145-170 | switching one program leaves the line and the state of every other one |
| InitTab.EachReportsLast | src/process.c:172-209 | after any run of calls for any number of programs the check reports the last call for the program's line |
| InitTab.InetdStart | src/process.c:320-395 | after a start the inetd check succeeds |
| InitTab.InetdStop | src/process.c:320-395 | after a stop the inetd check fails if and only if no other line offers the program uncommented |
| Text.ScanPrinted | src/dahdi.c:285-285 | a printed decimal, negative ones included, is scanned back whole |
| Text.PrintedDecimal | src/dahdi.c:463-467 | what is printed are the decimal digits, most significant first, with a sign |
| Text.CropToken | src/comcerto.c:218-218 | a value that is one token is cropped to itself |
| Text.StripInPlace | src/str.c:32-39 | the loop over the array leaves the stripped string and NULs behind it |
| Text.ParseFile | src/sip.c:368-374 | the fgets loop applies each setting of the file in order |
| Text.ReadRecords | src/sip.c:368-462 | reading a printed file applies every printed setting, in order, each value as the parser crops it; an empty value is seen as a newline |
| Tokens.SplitJoin | src/dahdi.c:314-319 | the strtok loop over a comma-separated list yields its items |
| Codecs.NameFindsCode | src/sip.c:279-339 | every printed name followed by a colon maps back to its codec although some names are prefixes of others |
| Codecs.NamesOfCodecs | src/sip.h:72-90 | the name of each codec |
| Sip.PrintCodecs | src/sip.c:579-588 | the loop prints one allow line for each chosen codec and skips the gaps |
| Sip.SaveConfig | src/sip.c:469-593 | what is written, and the caller's strings stripped in place |
| SipLines.RegisterSaved | src/sip.c:534-550 | there is a register line if and only if registration is enabled and the three stripped strings are not empty; reading it back gives transport, user, secret, host, port and User1 if and only if no field holds the separator that ends it |
| SipLines.AutoframingSaved | src/sip.c:531-531 | the file says autoframing=yes exactly for a field that is not zero, and no otherwise |
| SipLines.AllowSaved | src/sip.c:579-588 | one allow line for each chosen codec in order, with its name and its interval |
| SipFiles.ParsedFields | src/sip.c:341-467 | for every file of at most nine allow lines, every parsed field fits its array, has a newline at its end at most, and the codecs are known ones |
| SipFiles.ParsedPrintable | src/sip.c:341-467 | what was parsed from a file of at most nine allow lines can be saved again given three checks: the two session fields are shorter than their arrays, and a registration has a transport without newline |
| SipFiles.FitMeansNine | src/sip.c:455-461 | the parser stays inside the array of codecs if and only if the file has at most nine allow lines |
| SipFiles.TenthLine | src/sip.c:455-461 | a witness: ten lines take ten places of nine, because the test is off by one |
| SipLines.GeneralLines | src/sip.c:368-454 | one line of text with the key bindport, defaultexpiry, jbmaxsize sets that field and no other |
| SipLines.TimerLines | src/sip.c:368-454 | one line of text with the key t1min, timert1, timerb sets that field and no other |
| SipLines.RtpLines | src/sip.c:368-454 | one line of text with the key rtptimeout, rtpholdtimeout, rtpkeepalive sets that field and no other |
| SipLines.ExpiryLines | src/sip.c:368-454 | one line of text with the key session-expires, session-minse (both into defaultexpiry), port sets that field and no other |
| SipLines.FlagLines | src/sip.c:368-454 | one line of text with the key tcpenable, jbenable, jbimpl sets that field and no other |
| SipLines.AccountFlagLines | src/sip.c:368-454 | one line of text with the key nat, qualify sets that field and no other |
| SipLines.SessionLines | src/sip.c:368-454 | one line of text with the key session-timers, session-refresher, register sets that field and no other |
| SipLines.RegistrarLines | src/sip.c:368-454 | one line of text with the key ;reg_username, ;reg_secret, ;reg_host sets that field and no other |
| SipLines.LoginLines | src/sip.c:368-454 | one line of text with the key host, username, secret sets that field and no other |
| SipLines.ModeLines | src/sip.c:368-454 | one line of text with the key dtmfmode, insecure, transport sets that field and no other |
| SipLines.CallerLines | src/sip.c:368-454 | one line of text with the key callerid, fromuser sets that field and no other |
| SipLines.RestIgnored | src/sip.c:376-376 | what stands behind a blank is not part of the value |
| SipRoundTrip.SaveThenParse | src/sip.c:341-593 | parsing what saving printed yields an explicit normal form: ports survive the signed print, ints become signed 16-bit, gaps between codecs close up |
| Strings.RoundSettles | src/sip.c:376-462 | one round brings a printed string to a form that a round keeps, and exactly the strings that are one word, or blanks that fill the field or end in a newline, have it already |
| SipTwice.StrippedTwice | src/sip.c:469-593 | a string that saving strips is stable after one round if and only if its first word does not end in a control character |
| SipTwice.FromuserTwice | src/sip.c:454-456 | fromuser, which the parser strips as well, is stable after one round whatever it is; and exactly when it comes back unchanged |
| SipTwice.NormalFormPrintable | src/sip.c:341-593 | what was read back can be saved again, if blank session fields leave room for a newline and the transport of a registration is not blank |
| SipTwice.NormalFormTwice | src/sip.c:341-593 | the normal form is a fixed point if and only if no stripped string has a first word that ends in a control character |
| SipTwice.TwiceIsOnce | src/sip.c:341-593 | saving and parsing twice gives what once gives, if and only if the same condition holds |
| SipTwice.UnfirmName | src/sip.c:469-593 | a witness: a name that reads shorter every time |
| SipTwice.StringsSurvive | src/sip.c:469-593 | for each of the thirteen strings, exactly when it comes back unchanged |
| SipTwice.NumbersSurvive | src/sip.c:469-593 | both ports always come back; each short exactly when it fits 16 signed bits, each flag exactly when it is 0 or 1, defaultexpiry if no session timer is set; the codecs in order, and the array exactly when it has no gaps |
| SipTwice.WhatSurvives | src/sip.c:341-593 | a configuration comes back unchanged if and only if it is canonical |
| Comcerto.SaveConfig | src/comcerto.c:293-362 | both files as written: the second with the new jitter buffer and the intervals of the first |
| ComcertoLines.AmpLines | src/comcerto.c:210-286 | one line of text with the key debug, mfcr2_tone_amp sets that field and no other |
| ComcertoLines.GainLines | src/comcerto.c:210-286 | one line of text with the key txgain, rxgain, ectail, vad_level sets that field and no other |
| ComcertoLines.JbSizeLines | src/comcerto.c:210-286 | one line of text with the key jbmaxsize, jbmindelay, jbtypdelay sets that field and no other |
| ComcertoLines.JbDelayLines | src/comcerto.c:210-286 | one line of text with the key jbmaxdelay, jbdelet_thrld sets that field and no other |
| ComcertoLines.G711Lines | src/comcerto.c:210-286 | one line of text with the key of the intervals of G.711 and G.723.1 sets that field and no other |
| ComcertoLines.G726Lines | src/comcerto.c:210-286 | one line of text with the key of the intervals of G.726 at 16, 24 and 32 kbit/s sets that field and no other |
| ComcertoLines.GsmLines | src/comcerto.c:210-286 | one line of text with the key of the intervals of G.726 at 40 kbit/s, G.729 and GSM sets that field and no other |
| ComcertoLines.VoiceLines | src/comcerto.c:210-286 | one line of text with the key ais_enable, vad_enable, cng_enable sets that field and no other |
| ComcertoLines.E1Lines | src/comcerto.c:210-286 | one line of text with the key e1_enable, e1_loopback_enable, echocancel_enable sets that field and no other |
| ComcertoLines.BufferLines | src/comcerto.c:210-286 | one line of text with the key jbenable, jbimpl sets that field and no other |
| ComcertoLines.CodecLines | src/comcerto.c:210-286 | one line of text with the key codec_g723_1, pass_through sets that field and no other |
| ComcertoLines.RestIgnored | src/comcerto.c:218-218 | what stands behind a blank is not part of the value |
| ComcertoRoundTrip.SaveThenParse | src/comcerto.c:186-362 | parsing the saved file yields the normal form |
| ComcertoRoundTrip.IntervalsSaved | src/comcerto.c:106-149 | looking up a codec after a save finds the interval saved for it, as a 16-bit value, and 20 for anything else |
| ComcertoRoundTrip.BothFilesAgree | src/comcerto.c:293-362 | after a save onto a sip.conf of at most nine allow lines both files agree on jb_enable, jb_maxsize and jb_impl, every allow line carries the new interval, and the rest of sip.conf is its normal form |
| ComcertoLines.AllowLinesCarry | src/comcerto.c:330-362 | after a save every allow line of sip.conf names its codec and carries the interval that comcerto.conf now gives it |
| ComcertoRoundTrip.OtherSettingsStay | src/comcerto.c:293-362 | if sip.conf came from libamg_sip_save_config, all its settings but the jitter buffer parse as before, if and only if no stripped string has a first word that ends in a control character |
| Channels.RangeRoundTrip | src/dahdi.c:274-304 | for every span and every count parsing a generated line returns that count and span |
| Channels.LineDenotes | src/dahdi.c:455-469 | for every count from 1 the line denotes exactly the span's slots in order without its 16th |
| Channels.ChannelCount | src/dahdi.c:455-469 | exactly as many slots as asked for, and never the 16th of the span |
| Channels.SpansArePartitioned | src/dahdi.c:509-520 | for count 30 the B channels and the D channel partition 31*i+1 to 31*i+31, and different spans do not meet |
| Channels.GenBitmapLine | src/dahdi.c:471-487 | in place with a running length: the buffer holds the list as a C string and never overflows |
| Channels.ParseBitmapLine | src/dahdi.c:306-324 | the strtok loop equals its specification |
| Channels.BitmapRoundTrip | src/dahdi.c:306-324 | parsing the generated line gives back every bitmap but its bit 0, and exactly the bitmap of bit 31 alone makes the parser leave the array of spans |
| Dahdi.SaveChan | src/dahdi.c:529-604 | chan_dahdi.conf as written, with the line buffer |
| DahdiLines.SlotsSaved | src/dahdi.c:507-521 | which slots the saved system.conf assigns: for MFC/R2 the slots 1 to 31 without 16 on cas, with idle code 1101; for other signalling these on bchan and 16 on dchan; none for a disabled span |
| DahdiLines.SpanLineSaved | src/dahdi.c:511-519 | the items of the span line: 1, the clock, 0, cas or ccs by the signalling, hdb3, and crc4 if it is on |
| DahdiLines.BitmapDenotes | src/dahdi.c:471-487 | the printed channel list denotes exactly the numbers of the set bits |
| DahdiLines.SignallingLines | src/dahdi.c:352-420 | one line of text with the key signalling, overlapdial, switchtype sets that field, enables the span, and sets nothing else |
| DahdiLines.Mfcr2Lines | src/dahdi.c:352-420 | one line of text with the key mfcr2_get_ani_first, mfcr2_allow_collect_calls, mfcr2_double_answer sets that field, enables the span, and sets nothing else |
| DahdiLines.EchoLines | src/dahdi.c:352-420 | one line of text with the key echocancel sets that field, enables the span, and sets nothing else |
| DahdiLines.MaxLines | src/dahdi.c:352-420 | one line of text with the key mfcr2_max_ani, mfcr2_max_dnis sets that field, enables the span, and sets nothing else |
| DahdiLines.RestIgnored | src/dahdi.c:358-358 | what stands behind a blank, a semicolon or a hash is not part of the value |
| DahdiRoundTrip.ChanRoundTrip | src/dahdi.c:326-428 | parsing the saved chan_dahdi.conf |
| DahdiRoundTrip.SystemRoundTrip | src/dahdi.c:215-272 | parsing the saved system.conf sets clock, crc and enable if and only if the clock source is in range |
| DahdiRoundTrip.SaveThenParse | src/dahdi.c:430-619 | both files saved and parsed: the normal form of an enabled span; bit 31 alone leaves nothing defined; a disabled span comes back empty and enabled |
| DahdiRoundTrip.WhatSurvives | src/dahdi.c:430-619 | a span comes back unchanged if and only if it is canonical (enabled, flags 0 or 1, clock in range, bit 0 clear, not bit 31 alone) and its switch type is empty or a form that a round keeps: one word, or blanks that fill the field or end in a newline |

## Left out

- Sockets, ioctl, getifaddrs, exec, telinit, signals and `system`: receive results, the outcome of opening and sending, errno, the clock and the answer of if_nametoindex are parameters.
- rtnl_listen, rtnl_from_file, rtnl_send_check and the printing of diagnostics, including the test for missing bytes in an error message: easy variations of the two loops, or output only.
- The other fields of a message header while attributes are appended: only the storage and nlmsg_len are kept; lengths near 2 to the 31, where the C ints would overflow, are not modelled.
- Netlink fields are read on a little-endian host; the checksum is modelled for both byte orders.
- Builder.Message.AddNest: an append that was refused is ignored, as in the code; closing such a nest writes its length at the tail, and is excluded where the tail lies outside the storage.
- Talk.Converse: lengths from 2 to the 31 on are malformed here; behind an unpadded datagram the loop looks at stale bytes for one more header, which could pass only with a length field within 16 of 2 to the 31. The size of the sender's address is always right.
- Callbacks are functions of a state they share with their caller; the callback of a client is tied to its in-place method by the method's contract.
- Gateway.InAddr.FilterDefaultGw: attributes that are loaded as words must have four bytes inside the message, here and in RouteFromBytes, FoldAnnounces, DumpYieldsGateway and GetDefaultGwIpaddr; the original reads whatever follows.
- Gateway.GetDefaultGwIpaddr: errno on return is a parameter; Gateway.ZeroMayBeFailure takes perror and close to leave it alone.
- LinkTable.Table.RememberIndex: interface names that are copied are C strings that fit their field, here and in Links.RunAgrees and InitMapAgrees, and memory is not exhausted.
- ToneQueue.List.DequeueToneEvent: not for connection -1, which would free the sentinel.
- Checksum.InCksum: only sizes for which the sum fits an int; SafeSizes shows that these are exactly the safe ones.
- C strings of the configuration parsers are values, not arrays that strtok writes into; StripInPlace and the buffer of GenBitmapLine are the exceptions. Files hold no NUL.
- Text.StripInPlace: char is unsigned; where it is signed, the original also strips trailing bytes from 128 on.
- Talk.Session: a dump request is followed at once by its dump loop, as in all of the library's callers.
- SipTwice.TwiceIsOnce: blank session fields leave room for a newline, and the transport of a registration is not blank; otherwise the second save writes an unterminated field or a line in two parts.
- Text.Atoi: numbers beyond an int are not modelled, here and in sscanf.
- Sip.ParseConfig: at most nine allow lines, since a tenth writes behind the array; so do Comcerto.SaveConfig and what is proved about parsed files and about both files. Two session fields of 16 and 8 characters may lack a terminator and are kept as the characters that were copied.
- Lines of the printed files that are the same for every configuration (context, type, language and so on): they are shown to set nothing when they are read back; their text is not stated again.
- ComcertoRoundTrip.SaveThenParse: a pass-through code is none or one of the two that have a name.
- Name and code tables other than the codecs, libamg_sip_get_min_codec_intvl, libamg_sip_get_register, flash copies and the AIS daemon files: finite case checks or copies.
- Dahdi.ParseConfig: the built default with channel bitmaps and one span; the channel ranges of the standard mode are modelled by themselves (Channels). Where the C code reads a missing token, shifts by 32 or more, or leaves the array, the result is None; a channel line without the arrow is such a case.
- InitTab.File.Search: the file is not empty, since its buffer would be searched before it is filled.
- Signals and restarts after an edit, logs, DSP option setters, extensions, system and log settings.
