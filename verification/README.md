# Verified models of the platform's hard logic

A Dafny model of the parts of the repository where an error would be hardest to see: the firewall
compiler and its incremental update, the metadata protocol client, the JSON parser and the code that
consumes what it reads, the file watcher's two threads, and the sort that orders manual sections.
`dafny verify dfyconfig.toml` checks everything.

- **Firewall** (`Fw*.dfy`). Rules and VMs are compiled into one ordered list of ipf lines for each VM.
  `FwPlan` says what the list is as a function of all rules and VMs; `FwLookup`, `FwFilter`,
  `FwCompile`, `FwUpdate` and `FwFlows` are the loops over lookup tables that build it, proved against
  those functions. `FwSemantics` gives ipf's evaluation of a list (the first matching quick line, otherwise
  the last matching other line) and the policy (highest priority; then allow over block inbound and
  block over allow outbound; then block in, pass out), and proves when the two agree. `FwReach` says
  exactly when a change to the rules or to the remote VMs changes a file, and `FwReadd` what becomes of a
  remote VM that is stored already and added again. `FwUpdate` and `FwFlows` prove what update, del and
  the adding of remote VMs write against a full rebuild, and that they skip only VMs whose file it would
  not change exactly under a condition on the request; `FwLimits` has the smallest requests that do not
  meet it.
- **Metadata client** (`Dynstr`, `Base64`, `Crc32`, `Folding`, `Words`, `Numerals`, `FrameV2`,
  `Platform`, `Proto`). The growing string, base64 over it, the table-driven CRC against bit-serial
  division by the reflected polynomial (section 8 of RFC 1952), the version 2 frame, and the client
  that sends, receives, resets and negotiates. A run is any run over a script of answers from outside,
  and may end in an overrun of a buffer or in the reading of a line that is not there; both are shown to
  happen exactly when the history says so.
- **JSON** (`Json`, `JsonParser`, `JsonPrint`). The stack machine refines a recursive-descent grammar
  (sections 4 to 7 of RFC 8259, less what the code refuses), for every buffer, while it fills one tree of
  lists in place; printing a tree and parsing it gives the tree back.
- **Containers** (`Strlist`, `EnvList`, `SearchPath`). The environment list is a map whose last
  insertion wins, read from parsed JSON arrays; `PATH` becomes one canonical directory a field.
- **File watcher** (`FsWatcher`). Two threads, a mutex, and a kernel that fires one-shot associations
  before any system call returns. Nodes and names are allocated, freed, and their places given out again,
  so that an event may point at a freed name, or at one of a later watch.
- **Manual sections** (`Strings`, `Strset`, `Fnmatch`, `Mancf`). The greedy sort gives the
  lexicographically least linear extension of any rule table, and the shipped table has no cycle.
- **Firewall configuration on disk** (`ReplaceConf`). Names, inodes and contents, and runs that are cut
  off after any step.

Where the code does not do what its context suggests, the model follows the code:

- Outbound AH and ESP traffic has no fallback line, so that without a written rule the kernel's own
  default decides; `FwSemantics.FullConfMeetsPolicy` says exactly when the policy is met.
- A payload entry that leaves its rule as it was takes the rule off the originals. When the payload has
  another entry for the same uuid, before or after it, the rule is updated but its old VMs are not
  rewritten (`FwLimits.DuplicateBreaksUpdate`); `FwUpdate.OriginalsStay` says exactly when an updated rule
  is off the originals, and `FwUpdate.UpdateRules` exactly when a file is left that should change.
- A remote VM without an owner is let through an owned rule when lines are written, but is not found
  when it is deleted (`FwLimits.OwnerlessBreaksDelete`); getAffectedRules does not look at priorities
  (`FwLimits.PriorityBreaksAdd`). `FwFlows.DeleteRules` and `FwFlows.AddRemoteVMs` say exactly when that
  leaves a file that should change.
- A remote VM that is stored already and added again stays in the lookup table under the tags it had: a
  file may be written with its old address (`FwLimits.ReaddKeepsOldAddress`). Names and tags select the VMs
  as they are now exactly when every VM added again kept its tags and their values
  (`FwReadd.NamesSelectCurrent`), and addresses too exactly when it had none or is unchanged
  (`FwReadd.EntriesSelectCurrent`).
- `\u` escapes in JSON are read as decimal numbers: an escape gives the character that its digits stand for
  exactly when the first three are zero and the last is decimal (`Json.EscapeIsCodePoint`). What follows
  the root is not looked at.
- Empty data lines before the first other one leave no trace in a version 1 reply: the data are the lines
  joined by newlines exactly when there is at most one or the first is not empty (`Proto.DataIsJoined`).
- The first text appended to a buffer overruns it when it is exactly as long as a chunk, and the text of a
  line that is empty from the start is a null pointer: a version 1 command or reply line of 64, 128, 256
  characters and so on, and an empty first line, end a run (`Proto.MdataProto.Execute`); a host that says
  such lines in the negotiation meets a client that ends there (`Proto.Meet`, `Proto.FaultsHappen`).
- An UNWATCH, or a final event, frees the name that an event already taken from the port points at. What
  the handler then reads may be another watched path, whose association is renewed under the freed name:
  `FsWatcher.FreedNameLosesAWatch` is a run from the start in which that happens, and
  `FsWatcher.Watcher.EventTurn` says exactly when a watch is lost.
- A frame whose checksum is zero is rejected, so a request with such a body cannot be read back.
- The test for a missing request id in a frame can never fire (`FrameV2.RequestIdIsPresent`).
- After a reset that fails for good the client stays in the reset: its connection is closed and it must
  not be used again.

## Model

| member | source | states |
|---|---|---|
| `FwOrder.CompareRulesAntisymmetric` | src/fw/lib/fw.js:1015-1081 | on well-formed sort objects the comparison of two rules is the opposite of the comparison the other way round |
| `FwOrder.CompareRulesTransitive` | src/fw/lib/fw.js:928-1081 | the comparison is transitive, for ports, port ranges, ICMP types and addresses alike |
| `FwOrder.WinnersComeFirst` | src/fw/lib/fw.js:1015-1081 | a rule that must win over another of the same protocol and direction always sorts strictly before it |
| `FwOrder.BeforeIsPreorder` | src/fw/lib/fw.js:1281-1286 | any list of well-formed objects can be sorted by the comparison |
| `FwLookup.VMStore.MergeIntoLookup` | src/fw/lib/fw.js:405-419 | merging any VM, one whose uuid is there already included, takes every table entry one step on: names, tags and tag values are overwritten under the uuid, addresses and a local VM's own entry keep the first, a remote VM's own entry starts again |
| `FwLookup.CreateLookup` | src/fw/lib/rvm.js:118-163 | whatever VMs are merged, the table is the one that its list leads to, and every entry for a name, tag, tag value, address or wildcard is the scan of the VM list for it exactly when no uuid is listed twice |
| `FwLookup.TableIsScan` | src/fw/lib/rvm.js:137-159 | for either kind of table, what its entries hold after a list was merged is what a scan of the same list gives, for every target, exactly when no uuid is listed twice |
| `FwReadd.EntryMembers` | src/fw/lib/rvm.js:118-163 | after stored and added remote VMs were merged, an entry for an address holds the first VM under a uuid that it selects, any other entry the last, and nothing else |
| `FwReadd.SelectingMeans` | src/fw/lib/rvm.js:118-163 | an entry selects just the VMs that it should, the stored ones that are not added again and the added ones, exactly when each stored VM that it selects and that is added again is still selected, or for an address unchanged |
| `FwReadd.NamesSelectCurrent` | src/fw/lib/rvm.js:118-163 | every entry but those for addresses selects the VMs as they are now exactly when every VM added again has all its former tags with their values |
| `FwReadd.EntriesSelectCurrent` | src/fw/lib/rvm.js:118-163 | every entry does exactly when, besides, every VM added again had no address or is unchanged |
| `FwReadd.StoredMembers` | src/fw/lib/rvm.js:283-305 | after VMs were stored one after the other, the remote VMs stored are those that were not added again and the added ones |
| `FwReadd.AddedGivesStored` | src/fw/lib/fw.js:1907-1953 | when VMs added again have the tags they had, a file made from the table is, line for line, a rebuild from the remote VMs that are stored afterwards |
| `FwReadd.ReaddingShows` | src/fw/lib/fw.js:1907-1953 | a file that does not both lose and gain lines stays as it was exactly when no rule wrote lines for a stored VM that changes and none writes any for an added VM that is new or changed |
| `FwPlan.UuidsOnSideIsScan` | src/fw/lib/fw.js:1329-1371 | a VM is found on a side exactly when it satisfies the owner test and the side's name, tag, tag-value or all-VMs test |
| `FwCompile.VmsOnSide` | src/fw/lib/fw.js:1329-1371 | the walk over the tables collects, in order and with repetitions, what the side's targets select |
| `FwCompile.IpfRuleObj` | src/fw/lib/fw.js:1087-1164 | the object of a rule holds a line for each protocol target and remote target in the family each belongs to |
| `FwCompile.RulesFromOtherSide` | src/fw/lib/fw.js:1377-1464 | the objects for the other side: any, or its addresses, subnets and the local and remote VMs it names whose owner is let through and that have addresses |
| `FwCompile.TrackInboundState` | src/fw/lib/fw.js:1214-1235 | inbound state is kept for a VM and a protocol exactly when an enabled rule blocks that protocol outbound for it |
| `FwCompile.PrepareIpfData` | src/fw/lib/fw.js:1181-1323 | every file written is, line for line, the file a rebuild from these rules and VMs gives that VM |
| `FwSemantics.PolicyIsFunctional` | src/fw/lib/fw.js:1015-1081 | the policy decides each packet one way only |
| `FwSemantics.OtherSideMatches` | src/fw/lib/fw.js:1377-1464 | some object for the other side matches a packet exactly when the rule reaches the packet's remote end and protocol target |
| `FwSemantics.ConfMembers` | src/fw/lib/fw.js:1237-1275 | the objects of a VM are those of the enabled rules that have the VM on a side and do not merely restate the default |
| `FwSemantics.CompiledFileMeetsPolicy` | src/fw/lib/fw.js:1181-1323 | for every packet, whatever sort by the comparison was used, ipf's decision on the file is the policy's exactly when a fallback line covers the packet, the kernel passes by default, or a written rule applies |
| `FwSemantics.FullConfMeetsPolicy` | src/fw/lib/fw.js:92-155 | the same for the file that is written, although rules that restate the default are dropped |
| `FwFilter.RulesByVMs` | src/fw/lib/filter.js:186-237 | the rules that touch one of the listed VMs, in their order |
| `FwFilter.VmsByRules` | src/fw/lib/filter.js:295-365 | the VMs that one of the rules touches |
| `FwFilter.RulesByRVMs` | src/fw/lib/filter.js:85-127 | the rules with a target that selects a remote VM whose owner matches, in their order |
| `FwFilter.RulesByUUIDs` | src/fw/lib/filter.js:140-173 | the rules with a listed uuid and the others, each in their order |
| `FwFilter.RvmsByUUIDs` | src/fw/lib/filter.js:252-279 | two lookup tables, of the remote VMs with a listed uuid and of the others |
| `FwFilter.DedupRules` | src/fw/lib/fw.js:183-195 | the first rule of each uuid in the two lists |
| `FwFilter.IndexesAgree` | src/fw/lib/filter.js:186-237 | a rule is found by a VM exactly when the VM is found by the rule, and both find every VM on a side of the rule |
| `FwIncremental.SliceIsEnough` | src/fw/lib/filter.js:186-237 | for each listed VM, the rules that touch the listed VMs compile to the same objects and the same kept state as all rules |
| `FwIncremental.DedupReplaces` | src/fw/lib/fw.js:2641-2644 | merging new rules before stored ones replaces exactly the stored rules of the same uuid |
| `FwReach.RemoteChangeShows` | src/fw/lib/fw.js:1377-1464 | when remote VMs are added to a list or taken out of it, a VM's file changes exactly when an enabled rule with the VM on a side, which does not merely restate the default, has another side that is not any, names one of them there, lets its owner through, and the remote VM has addresses |
| `FwReach.DroppedRulesShow` | src/fw/lib/fw.js:1181-1323 | dropping the rules with some uuids leaves a VM's file as it was exactly when none of them writes lines for it and no line that is left keeps state only because of them |
| `FwUpdate.FindRules` | src/fw/lib/fw.js:725-775 | the stored rules that the payload names, or failure exactly when an entry has no uuid, or names an unknown rule and may not add one |
| `FwUpdate.CreateUpdatedRules` | src/fw/lib/fw.js:342-402 | for any payload the updated rules and the originals left, or failure exactly when an entry that makes a new rule, or merges into a stored one, gives none: a rule that does not change is taken off the originals, and a uuid that is not there, or not any more, makes a new rule |
| `FwUpdate.AppliedShape` | src/fw/lib/fw.js:342-402 | a uuid leaves the originals exactly when some entry for it changes nothing, and is updated unless its only entry changes nothing |
| `FwUpdate.OriginalsStay` | src/fw/lib/fw.js:342-402 | every updated stored rule is still among the originals exactly when no stored uuid has several entries of which one changes nothing |
| `FwUpdate.AppliedChanges` | src/fw/lib/fw.js:342-402 | when no stored uuid has several entries of which one changes nothing, the updated rules are the changed and added ones in payload order |
| `FwUpdate.UnwrittenShows` | src/fw/lib/fw.js:2541-2710 | a VM that neither the updated rules nor the originals left touch gets the same file from a full rebuild before and after exactly when no stored rule with several entries, one of them without a change, shows in its file |
| `FwUpdate.NoClashIsSound` | src/fw/lib/fw.js:2541-2710 | when no stored uuid has several entries of which one changes nothing, no VM is missed |
| `FwUpdate.UpdateRules` | src/fw/lib/fw.js:2541-2710 | exactly the enabled VMs that the updated rules or the originals left touch are written, each with the full rebuild's file; that every other enabled VM's rebuild would not change holds exactly when no stored rule with several entries, one of them without a change, shows in the file of a VM that is not found; the payload is refused exactly when it has to be, by its uuids or by what its entries make |
| `FwFlows.UnfoundShows` | src/fw/lib/fw.js:1997-2096 | a VM that no deleted rule and no rule found by a deleted remote VM touches keeps its file exactly when no kept rule wrote lines for it because of one of these |
| `FwFlows.OnlyUnownedAreMissed` | src/fw/lib/fw.js:1997-2096 | a VM that del does not find loses a line with a deleted remote VM exactly when it does so by an owned rule and a remote VM without an owner |
| `FwFlows.DeleteRules` | src/fw/lib/fw.js:1997-2096 | exactly the enabled VMs found are written, each with the full rebuild's file from the remaining rules and remote VMs; that every other enabled VM's rebuild would not change holds exactly when every VM for which a kept rule with an owner wrote lines because of a deleted remote VM without one is found |
| `FwFlows.AffectedRules` | src/fw/lib/fw.js:241-256 | the allow rules with a new VM as source and the block rules with one as destination whose other side names VMs, in their order |
| `FwFlows.NewVMIsNoticed` | src/fw/lib/fw.js:215-256 | a rule that writes lines because of a new remote VM is affected, unless the rule has an owner and the VM none, or the rule restates the default |
| `FwFlows.OnlyUnnoticedAreMissed` | src/fw/lib/fw.js:1907-1953 | a VM that add does not find gains lines with a new or changed remote VM exactly when one of those two is the reason |
| `FwFlows.AddRemoteVMs` | src/fw/lib/fw.js:1907-1953 | whether the remote VMs are stored already or not, exactly the enabled VMs found are written, each with the file that the table of stored and added VMs leads to, which is the full rebuild's when VMs added again have the tags they had; unless a VM that is not found trades lines, that every other enabled VM's rebuild would not change holds exactly when all are found that had lines because of a stored VM that changes, or have lines because of an added one by an owned rule and an ownerless VM or by a rule that restates the default |
| `FwLimits.DuplicateBreaksUpdate` | src/fw/lib/fw.js:342-402 | a payload that names a uuid twice, once without a change, in either order: the stored rule is updated and off the originals, and the condition for update fails |
| `FwLimits.PriorityBreaksAdd` | src/fw/lib/fw.js:215-256 | a block rule of priority 1 that names the new remote VM is passed over although a local VM's file should change: the condition for add fails |
| `FwLimits.OwnerlessBreaksDelete` | src/fw/lib/filter.js:85-127 | an owned rule writes lines for a remote VM without an owner but is not found when that VM is deleted: the condition for del fails |
| `FwLimits.ReaddKeepsOldAddress` | src/fw/lib/rvm.js:118-163 | a remote VM is added again without its tag: the file of a local VM that is written has a line for its old address, which a rebuild from the stored VMs has not |
| `Dynstr.DynStr.FitsIffPrimed` | src/dockerinit/mdata-client/dynstr.c:57-74 | an append stays within the buffer exactly when the buffer is in use already or the text is not exactly as long as its chunk |
| `Dynstr.DynStr.Append` | src/dockerinit/mdata-client/dynstr.c:57-74 | the text is the old text and the new one, terminated below the capacity, across any growth |
| `Dynstr.DynStr.AppendC` | src/dockerinit/mdata-client/dynstr.c:42-55 | one character is added, always within the buffer |
| `Dynstr.DynStr.Reset` | src/dockerinit/mdata-client/dynstr.c:20-28 | the text is empty and the buffer kept |
| `Base64.Encode` | src/dockerinit/mdata-client/base64.c:17-42 | the loop appends the encoding of the input, group by group |
| `Base64.Decode` | src/dockerinit/mdata-client/base64.c:63-106 | the loop accepts exactly the texts whose groups are well-filled, and appends what the groups before the first bad one stand for |
| `Base64.EncodedLength` | src/dockerinit/mdata-client/base64.c:17-42 | the encoding of n bytes has four characters for every three begun |
| `Base64.RoundTrip` | src/dockerinit/mdata-client/base64.c:17-106 | decoding the encoding gives the bytes back exactly when none of them is NUL |
| `Crc32.EntryIsShift8` | src/dockerinit/mdata-client/crc32.c:15-59 | all 256 table entries are eight division steps of their index |
| `Crc32.TableStep` | src/dockerinit/mdata-client/crc32.c:61-74 | one table lookup is eight steps of bit-serial division of the next byte |
| `Crc32.Crc32Calc` | src/dockerinit/mdata-client/crc32.c:61-74 | for every byte string the loop computes the remainder of its bit string by the polynomial, preset and complemented |
| `Crc32.BurstDetected` | src/dockerinit/mdata-client/crc32.c:61-74 | two byte strings of equal length that differ only within four consecutive bytes have different checksums |
| `Numerals.NumberReads` | src/dockerinit/mdata-client/proto.c:165-185 | strtoul reads digits in front of a space back as their number and stops at the space |
| `Numerals.DecimalReads` | src/dockerinit/mdata-client/proto.c:165-171 | a number printed in decimal reads back |
| `Numerals.HexReads` | src/dockerinit/mdata-client/proto.c:179-185 | a number printed as padded hexadecimal reads back |
| `FrameV2.ParseV2` | src/dockerinit/mdata-client/proto.c:149-245 | the parser's verdict, and the request id, command and data it has appended by then, for every line |
| `FrameV2.LineReads` | src/dockerinit/mdata-client/proto.c:149-191 | a header's length and checksum are read back, zero in either is rejected, and spaces before the body are skipped |
| `FrameV2.MakeRequestV2` | src/dockerinit/mdata-client/proto.c:424-457 | the request line with the body's length, checksum, id, command and encoded argument is appended |
| `FrameV2.RequestRoundTrip` | src/dockerinit/mdata-client/proto.c:149-245 | a request parses back to its id, command and argument exactly when the command is a non-empty word, the length fits 32 bits and the checksum is not zero |
| `FrameV2.DamagedBodyDropped` | src/dockerinit/mdata-client/proto.c:193-200 | a frame whose body was changed within four consecutive characters is never accepted |
| `FrameV2.RequestIdIsPresent` | src/dockerinit/mdata-client/proto.c:202-211 | no line is rejected for a missing request id |
| `Proto.DataSnoc` | src/dockerinit/mdata-client/proto.c:323-334 | one more line of data is set off with a newline, unless nothing has been collected yet |
| `Proto.DataIsJoined` | src/dockerinit/mdata-client/proto.c:323-334 | the data collected are the unescaped lines joined by newlines exactly when there is at most one or the first is not empty |
| `Proto.MdataProto.ProcessInput` | src/dockerinit/mdata-client/proto.c:247-343 | whatever line comes, state, response and data are those of the lines received since the request, with nothing of dropped frames; it overruns exactly when the text it appends in version 1 fills its chunk and nothing was allocated |
| `Proto.MdataProto.Recv` | src/dockerinit/mdata-client/proto.c:372-399 | lines are read, one from each answer, until they make a reply, until one does not come and the connection is marked broken, or until a fault: a null line exactly when the first line after the request is empty, an overrun exactly when the first text appended for a request that was sent bare fills its chunk; whether the reply's buffer is allocated is what the history says |
| `Proto.MdataProto.Execute` | src/dockerinit/mdata-client/proto.c:471-569 | for every command, argument and script: success only in the ready state and with a history that ends in this request, in the version then spoken, and its reply: under version 2 the first frame with the id of the last request, whose code and data are returned; nothing is outstanding before or after; within a reset it fails only on a broken exchange, outside one only when the connection could not be opened again, and then stays closed; the run ends in a null line exactly when some request is answered with an empty line, and in an overrun exactly when the command fills its chunk in version 1, before anything is sent, or some reply does to a request that is bare by the history: in version 1, negotiating or with nothing written since the caller asked; from a good state in version 1 the fault is the one that the lines in the script lead to |
| `Proto.MdataProto.Negotiate` | src/dockerinit/mdata-client/proto.c:70-97 | called only within a reset, it sets the saved command aside, and version 2 is spoken exactly if the reply was V2_OK; faults exactly as the history says |
| `Proto.MdataProto.Reset` | src/dockerinit/mdata-client/proto.c:99-147 | never entered from within a reset; success leaves an open connection whose history ends with its negotiation; short of a fault it fails only when the connection could not be opened; faults exactly as the history says |
| `Proto.Init` | src/dockerinit/mdata-client/proto.c:577-596 | a client that may execute commands, or none, or a fault exactly as the history says; when the connection opens and the request for version 2 is sent, the fault is the one that the lines that then come lead to |
| `Proto.Meet` | src/dockerinit/mdata-client/proto.c:323-399 | whatever lines lead to a fault, a host that says them in the negotiation ends the run with that fault |
| `Proto.FaultsHappen` | src/dockerinit/mdata-client/dynstr.c:57-74 | an empty line, and a line of data of 64 characters, end such a run in a null line and in an overrun |
| `Json.EscapeIsCodePoint` | src/dockerinit/json-nvlist/json-nvlist.c:209-231 | an escape by four hexadecimal digits gives the character they stand for exactly when the first three are zero and the last is a decimal digit |
| `Json.Characters` | src/dockerinit/json-nvlist/json-nvlist.c:251-287 | reading a string consumes input whenever it succeeds |
| `Json.Value` | src/dockerinit/json-nvlist/json-nvlist.c:520-574 | reading a value consumes input whenever it succeeds, so that nesting and lists of any size are read to an end |
| `JsonParser.Parser.CollectString` | src/dockerinit/json-nvlist/json-nvlist.c:189-287 | the loop collects the characters of a string with its escapes, or posts an error exactly when the grammar has none |
| `JsonParser.Parser.CollectNumber` | src/dockerinit/json-nvlist/json-nvlist.c:332-372 | a signed 32-bit integer, wrapped, or an error exactly when the grammar has no number |
| `JsonParser.ListIsInPlace` | src/dockerinit/json-nvlist/json-nvlist.c:415-451 | while a list is open it is the entry under its parent's key, at the place that its frame points at |
| `JsonParser.Parser.AddEmptyChild` | src/dockerinit/json-nvlist/json-nvlist.c:415-451 | a new list becomes the entry under the parent's key and the frame points at it there; the lists below change only under the keys that they wait with |
| `JsonParser.Parser.StoreValue` | src/dockerinit/json-nvlist/json-nvlist.c:708-767 | the list below holds the finished frame's value under its key and no other list below changes; for an object or array nothing is stored; the type is always known |
| `JsonParser.Parser.StoreAndPop` | src/dockerinit/json-nvlist/json-nvlist.c:880-900 | the pop of a finished frame leaves what the input comes to as it was, and the tree too when the value is an object or array |
| `JsonParser.Parser.HandleArrayValue` | src/dockerinit/json-nvlist/json-nvlist.c:520-574 | no key is ever set here, the next index becomes the key, and what the whole input comes to is unchanged |
| `JsonParser.Parser.HandleObject` | src/dockerinit/json-nvlist/json-nvlist.c:576-600 | an object's list is stored in the list around it at once, and filled there, without changing what the input comes to |
| `JsonParser.Parser.HandleColon` | src/dockerinit/json-nvlist/json-nvlist.c:620-665 | a colon and the choice of a value's handler keep what the input comes to; the frame waits with its key |
| `JsonParser.Parser.Dispatch` | src/dockerinit/json-nvlist/json-nvlist.c:902-911 | every state that is dispatched has a handler; each keeps the outcome and either fails, reads on or comes closer to reading; every frame below the top waits after a value with its key set |
| `JsonParser.Parser.Run` | src/dockerinit/json-nvlist/json-nvlist.c:868-931 | the loop ends for every input; the tree that was filled in place is the grammar's outcome, and no frame that is freed holds a value |
| `JsonParser.ParseJson` | src/dockerinit/json-nvlist/json-nvlist.c:802-937 | a buffer is accepted exactly when the grammar accepts it, with the grammar's list |
| `JsonPrint.CharactersRoundTrip` | src/dockerinit/json-nvlist/json-nvlist.c:185-287 | a printed string reads back exactly when it holds no NUL |
| `JsonPrint.NumberRoundTrip` | src/dockerinit/json-nvlist/json-nvlist.c:332-372 | a printed integer reads back exactly when it fits 32 bits |
| `JsonPrint.RoundTrip` | src/dockerinit/json-nvlist/json-nvlist.c:397-767 | printing any object or array of NUL-free strings, 32-bit integers, booleans, nulls, objects and arrays, then parsing, gives the tree back, the last of equal keys winning, whatever follows it |
| `JsonPrint.ArrayIsIndexed` | src/dockerinit/json-nvlist/json-nvlist.c:453-468 | an array is marked, carries its length, and holds each item under its index and nothing beyond |
| `JsonPrint.StringArrayRoundTrip` | src/dockerinit/src/docker-common.c:707-746 | a printed array of strings, parsed and read index by index, is those strings in order |
| `Strlist.StringList.GrowBy` | src/common/strings/strlist.c:80-120 | growing keeps all entries and adds empty ones |
| `Strlist.StringList.Set` | src/common/strings/strlist.c:156-179 | one entry is set, growing if needed, and no other entry changes |
| `Strlist.StringList.FirstEmpty` | src/common/strings/strlist.c:202-219 | the first empty index, growing when there is none |
| `Strlist.StringList.SetTail` | src/common/strings/strlist.c:186-195 | a contiguous, NULL-terminated list has the string added at its end |
| `Strlist.StringList.ContigCount` | src/common/strings/strlist.c:226-235 | for any list the least empty index, or the capacity; for a list without gaps the number of its entries |
| `EnvList.EntryRoundTrip` | src/dockerinit/src/docker-common.c:622-651 | an entry splits back into its name and value exactly when the name is not empty and has no equals sign |
| `EnvList.InsertOrReplaceEnv` | src/dockerinit/src/docker-common.c:653-705 | the entry of that name is replaced in place, or a new one added at the end, in the list's array |
| `EnvList.InsertedIsUpdate` | src/dockerinit/src/docker-common.c:653-705 | as a map the list is updated at the name, and names stay unique |
| `EnvList.LastEntryWins` | src/dockerinit/src/docker-common.c:294-312 | after an array of entries each name has the value of its last entry, or what it had before |
| `EnvList.AddEntries` | src/dockerinit/src/docker-common.c:713-746 | an array without a length or one of its strings is fatal; otherwise its entries overlay the environment in order |
| `EnvList.BuildCmdEnv` | src/dockerinit/src/docker-common.c:313-361 | the environment is the defaults overlaid with docker:linkEnv and then docker:env, contiguous, with unique names |
| `EnvList.BuiltEnvironment` | src/dockerinit/src/docker-common.c:313-361 | docker:env overrides docker:linkEnv, which overrides the defaults, name by name |
| `SearchPath.StrpathAppend` | src/common/strings/strpath.c:26-93 | the input's components follow the path, one slash apart and without one at the end |
| `SearchPath.AppendConcatenates` | src/common/strings/strpath.c:26-93 | the components of the result are those of the path and those of the input |
| `SearchPath.AppendKeepsClean` | src/common/strings/strpath.c:21-25 | a path without double slashes gets none |
| `SearchPath.GetPathList` | src/dockerinit/src/docker-common.c:755-858 | one directory for every colon-separated field of PATH or its default, in order |
| `SearchPath.DirIsCanonical` | src/dockerinit/src/docker-common.c:814-838 | each directory is absolute, without double or trailing slashes, and has the field's components, after the working directory's when the field is relative |
| `FsWatcher.CompareIsOrder` | src/fswatcher.c:241-284 | the comparator is a total order in which only equal names are equal |
| `FsWatcher.Djb2` | src/fswatcher.c:276-284 | the loop computes the hash, with signed characters and wrap-around |
| `FsWatcher.PathLineParses` | src/fswatcher.c:831-891 | a written WATCH or UNWATCH line asks for just that exactly when its key is not reserved, its path a word and the line not too long |
| `FsWatcher.Watcher.CheckAndRearm` | src/fswatcher.c:638-734 | after an event, for the path that its name reads as, freed or not: exactly the lines are printed that stat and port_associate call for, or none if the path is not watched; the path is associated again or no longer in the tree; a path is lost exactly when it was read through a freed name, is associated again, and no event with its own name is still to come, and a lost path is noticed again exactly when its own name is read |
| `FsWatcher.Watcher.WatchPath` | src/fswatcher.c:739-770 | exactly one response with the key and path, by whether the path is watched and by the results of stat and port_associate; the tree, the names, the associations, the queue and the answers left are what the answers lead to, wherever memory is given out; the path is in the tree afterwards exactly if the output says so |
| `FsWatcher.Watcher.UnwatchPath` | src/fswatcher.c:775-826 | exactly one response with the key and path, by whether the path is watched and the result of port_dissociate; the path is gone whatever that result is; the whole new state is what the answer leads to |
| `FsWatcher.Watcher.ProcessStdinLine` | src/fswatcher.c:831-891 | every line of input is answered with exactly the one line that its command, the watched paths and the system calls' results call for |
| `FsWatcher.Watcher.EventTurn` | src/fswatcher.c:922-949 | handling an event answers no command and prints exactly the report of the path read; the name is there exactly if it is a watched path's, and was freed otherwise; every watched path stays covered but the one that is lost, under a condition on the state and the answers before the turn, and the path whose own name is read is covered again |
| `FsWatcher.FreedNameLosesAWatch` | src/fswatcher.c:775-949 | for any two paths that fit a command, a run from the start: both are watched, the event for one is taken, its watch is ended, the event is handled; the other is still watched, but its events will not be noticed |
| `FsWatcher.Watcher.Run` | src/fswatcher.c:896-954 | in any run, with places of nodes and names given out again at will, whenever the mutex is free a path in the tree is associated or has an event on the way exactly if it is not lost, none is lost before a name was freed, the tree is what the output says is watched, event lines name only such paths, and the commands so far have been answered one by one in order |
| `Strset.StringSet.Add` | tools/common/strset.c:202-230 | the set gains the string; a duplicate fails unless ignored |
| `Strset.StringSet.Remove` | tools/common/strset.c:174-199 | the set loses the string, never during a walk; a missing one fails unless ignored |
| `Strset.StringSet.Contains` | tools/common/strset.c:233-245 | membership |
| `Mancf.ManCf.SectionIsMoreImportant` | tools/mancf/main.c:139-163 | some rule of the table matches the two different sections |
| `Mancf.ManCf.BlockedCheck` | tools/mancf/main.c:165-182 | whether a section still in the set is more important |
| `Mancf.ManCf.SortWalk` | tools/mancf/main.c:184-219 | one walk moves the first section that nothing left blocks to the output, if there is one |
| `Mancf.ManCf.Sort` | tools/mancf/main.c:415-426 | the outer loop ends with the greedy order of all sections, or with the cycle exit exactly when there is none |
| `Mancf.GreedyIsLeastExtension` | tools/mancf/main.c:139-219 | for any table the order is the lexicographically least one that respects every rule, and the cycle exit is taken exactly when none does |
| `Mancf.ShippedTableHasNoCycle` | tools/mancf/main.c:63-94 | with the shipped table no set of sections reaches the cycle exit |
| `ReplaceConf.FileSystem.ReplaceIPFconf` | src/fw/lib/fw.js:1539-1572 | cut off after any step, the configuration is what it was or complete and new; a completed run leaves the previous one in the old file, and no other file changes |
| `ReplaceConf.FileSystem.RunAll` | src/fw/lib/fw.js:1539-1572 | after any runs the configuration holds the text of the last one that completed |
| `ReplaceConf.AlwaysComplete` | src/fw/lib/fw.js:1533-1538 | a file that once existed always exists and is always some requested text |

## Left out

- Rule parsing and address arithmetic (`fwrule`, `ip6addr`): `ParsedRule` states what the firewall relies on: top-level target lists cover both sides, protocol targets fit the protocol, tag values are not empty.
- UUIDs of stored rules and of VMs are distinct; a stored rule and a payload are merged field by field before the model starts.
- FwFlows.AddRemoteVMs: of several remote VMs with one uuid in a payload only the last is left when the model starts; of VMs not found that trade lines with a remote VM added again, losing some and gaining others, it is not said whether their files stay the same.
- FwUpdate.RulesAfter: of several changing entries for one uuid saveRules writes each in turn; the model has the rules that the files are made from, not which of the entries stays stored.
- Rules, VMs and remote VMs together in one `add` or `update`; the enabling and disabling of VMs; listing and validation.
- The exact text of configuration headers, log tags and dates: lines are structured values.
- ipf's state table: the decision is that of the list for a packet no state entry covers; the keep-state suffix is part of the line.
- FwCompile.PrepareIpfData: sorts with a stable insertion sort, where the order of equal objects under the JavaScript engine's sort is not specified; `FwSemantics.CompiledFileMeetsPolicy` holds for every sort.
- Dynstr.DynStr.Append: requires that the text fits, because the first append of a text exactly as long as its chunk leaves no room for the terminator; `Proto.MdataProto.AppendTo` is the append without that condition, and what a run does after an overrun, or after reading a null line, is not modelled.
- Proto.MdataProto.Execute: a run ends when its script of answers does, so waiting forever is not modelled; timeouts are answers, not times; request ids are any eight hexadecimal digits.
- Lines from the host hold no NUL byte, which the code would skip.
- Allocation failures, and the library calls that fail only for want of memory.
- JsonParser.ParseJson: the flags for debugging and the copying out of error text and position are not part of this model; integers beyond 32 bits wrap around as 32-bit arithmetic does.
- JsonParser.Parser.AddEmptyChild: a pointer to a list is the path of keys that leads to it from the root; what the list library keeps besides the entries is not modelled.
- FsWatcher.Watcher.Run: a stat(2) failure that makes the program abort ends a run; what a freed name reads as is any text, the same one while an event is handled; the tree is a map, as `FsWatcher.CompareIsOrder` justifies.
- The manifest that mancf reads its sections from, and the text it writes.
- ReplaceConf.FileSystem.RunAll: one run at a time for a file, as under the firewall's lock.
- Process, zone, network and terminal plumbing, command-line and output code, and the other tools: foreign calls or easier members.
