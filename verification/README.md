# zenctl: a verified model of its codecs, parsers and restore protocols

zenctl is a Linux hardware-control tool. Most of it reads and writes one
sysfs file at a time; the parts modelled here are those that carry real loops,
state or encodings:

- the hand-written netlink codec, request builders, reply parsers and query
  loops for wireless controls (`Netlink`, `Nl80211Messages`, `Nl80211Query`), and
  what they put on the wire and make of replies, in numbers (`Nl80211Wire`);
- profiles: printing the live state, parsing it back, and replaying it through
  the setters (`Toml`, `Profile`, `ProfileHost`, `ProfileRestore`), over the
  cpufreq, memory and block-device controls (`CpuFreq`, `Devices`);
- EFI variables and the clear, write and restore protocol on the immutable
  flag (`Efi`);
- the streaming JSON printer, held against a parser for the grammar of RFC 8259
  (`JsonText`, `JsonProof`, `JsonOut`);
- the ACPI wake toggle (`Wakeup`) and battery indexing (`Battery`);
- shared file readers, decimal numbers and USB names (`FileIo`, `CText`,
  `UsbNames`), over bytes and fixed-width integers (`Bytes`).

Code that updates things step by step is modelled by methods with loops and by
classes with fields; each is proved against a function of its inputs or of the
old state, and the laws are lemmas about those functions. Next to the functions
that decide something (which names, values and replies are accepted) stand laws
that say the same without naming them. `requires` clauses on
methods say what the program's own callers guarantee; the assumptions of a law
(a table in the documented form, a kernel that accepts a value) are `requires`
clauses of the lemma that needs them.

Files are contents: a file that cannot be opened or read is `None`. Sockets,
partial reads, short writes, ioctl results and allocation limits are
parameters, so a contract covers every way they can go. A character stands for
one byte, host byte order is little-endian, and integers are unbounded with
every cast and 16-, 32- or 64-bit wrap written out.

## What was found

Each is proved as an if-and-only-if, with the code left as it is.

- Attributes: what was put is what a walk yields exactly when every payload has
  at most 65531 bytes; beyond that the 16-bit length wraps
  (`Netlink.WalkEncodeAttrs`).
- Profiles: parsing a saved profile returns what was saved exactly when its
  strings hold no newline or NUL and fit their slots, and section names hold no
  `]` (`ProfileRestore.SavedRoundTrip`). Embedded quotes, `=` and trailing
  blanks in values are harmless.
- Limits: the first load of a pair of limits fails exactly when the saved
  minimum is above some CPU's live maximum; it still raises the maximum, so a
  second load succeeds (`ProfileRestore.LoadLimitsTwice`).
- Numbers in the memory section are cast to a C `int`, so 4294967296 sets a
  swappiness of 0 (`ProfileRestore.NumberWraps`).
- JSON: the helpers that open a nested field reset the caller's flag, so a
  field after a nested one gets no comma. The output is JSON exactly when nested
  fields come last in their object (`JsonProof.ReadsValue`,
  `JsonOut.SiblingAfterNestedFails`).
- Wake table: the heading is read as the row of a disabled device called
  `Device`, so an unlisted device is an error exactly when it is not called that
  (`Wakeup.StepSetsState`).
- EFI: the comment at lib/firmware/firmware.c:470-474 says that a missing file
  is not an error, but setting a missing variable fails and creates nothing
  (`Efi.EfiVars.Set`). The comment at line 315 speaks of a name of one
  character, but an empty name is accepted (`Efi.EntryIffFileName`).

## Model

| member | source | states |
|---|---|---|
| Netlink.WalkEncodeAttrs | lib/usb/nl80211.c:101-158 | for every attribute list, walking its encoded bytes yields exactly that list if and only if every payload has at most 65531 bytes |
| Netlink.EncodeAttrsAppend | lib/usb/nl80211.c:101-119 | appending an attribute to a message extends the encoding by that attribute alone |
| Netlink.EncodedHeader | lib/usb/nl80211.c:108-117 | length, type and payload stand at their places and every padding byte is zero |
| Netlink.NlaIter.Next | lib/usb/nl80211.c:147-158 | yields the next attribute of the walk, inside the window; every step uses up at least four bytes and the window's end stays; at the end nothing moves |
| Netlink.NlaFind | lib/usb/nl80211.c:162-171 | for any bytes, returns the first attribute of the type as a plain search of the walked list would, at an offset inside the bytes, or nothing exactly when the list has none |
| Netlink.NlBuf.constructor | lib/usb/nl80211.c:64-90 | lays down the two headers and leaves the rest of the buffer as it was |
| Netlink.NlBuf.PutAttr | lib/usb/nl80211.c:101-119 | appends header, payload and zero padding exactly when they fit; a refused call writes nothing, and bytes past the offset are never touched |
| Netlink.NlBuf.Finalize | lib/usb/nl80211.c:93-98 | stamps and returns the length actually used, leaving attributes and everything past them alone |
| Netlink.MessageFields | lib/usb/nl80211.c:76-98 | length, type and attribute bytes read back from a finished message |
| Netlink.MessageLayout | lib/usb/nl80211.c:76-98 | every byte of both headers of a finished message: length, type, flags, sequence number, zero pid, command, version 1, zeros |
| Bytes.LittleEndian | lib/firmware/firmware.c:526-529 | the least significant byte comes first, for 16 and 32 bits |
| Nl80211Messages.EncodedSize | lib/usb/nl80211.c:104-117 | an attribute list takes the sum of 4 plus each payload length rounded up to 4 |
| Nl80211Messages.BuildGetFamily | lib/usb/nl80211.c:175-188 | succeeds exactly when the request fits, writes exactly that request, returns its stamped size and touches nothing past it |
| Nl80211Messages.BuildGetReg | lib/usb/nl80211.c:190-198 | the same, refusing a family id that is not positive |
| Nl80211Messages.BuildSetReg | lib/usb/nl80211.c:200-214 | the same, refusing a country code that is not two bytes |
| Nl80211Messages.BuildGetWiphy | lib/usb/nl80211.c:216-227 | the same, refusing a negative index |
| Nl80211Messages.BuildSetTxPower | lib/usb/nl80211.c:229-251 | the same, refusing a setting out of range; AUTOMATIC carries no level |
| Nl80211Messages.BuildSetPs | lib/usb/nl80211.c:253-268 | the same, refusing an interface index that is not positive |
| Nl80211Wire.BuiltBytes | lib/usb/nl80211.c:64-98 | whatever a successful builder call leaves in the buffer has the command at byte 16, version 1 at 17, and length, type, flags 1, sequence number 1 and pid 0 before them |
| Nl80211Wire.GetFamilySends | lib/usb/nl80211.c:175-188 | controller 0x10, command 3, one attribute 2 holding the name and its terminator |
| Nl80211Wire.RegSends | lib/usb/nl80211.c:190-214 | command 31 with no attribute, command 27 with the two letters in attribute 33 |
| Nl80211Wire.GetWiphySends | lib/usb/nl80211.c:216-227 | command 1 with the index in attribute 1 |
| Nl80211Wire.SetTxPowerSends | lib/usb/nl80211.c:229-251 | command 2 with index, setting and, unless it is 0, the level in two's complement in attributes 1, 97 and 98 |
| Nl80211Wire.SetPsSends | lib/usb/nl80211.c:253-268 | command 61 with index and state in attributes 3 and 93 |
| Nl80211Messages.ParseAck | lib/usb/nl80211.c:272-285 | true exactly for an ERROR message whose error field is present and zero |
| Nl80211Messages.ParseFamilyId | lib/usb/nl80211.c:287-304 | the id in the first family-id attribute of a controller message, else an error; all reads are inside the message |
| Nl80211Messages.ParseTxPower | lib/usb/nl80211.c:306-321 | the signed level in the first level attribute, else an error |
| Nl80211Messages.ParseAlpha2 | lib/usb/nl80211.c:323-346 | the first two bytes of the first country attribute, else an error, also for a caller with too little room |
| Nl80211Messages.RequestCarries | lib/usb/nl80211.c:64-171 | a built request is complete and walking it yields the attributes that were put |
| Nl80211Messages.TxPowerRoundTrip | lib/usb/nl80211.c:229-321 | parsing a built request gives back any signed 32-bit level sent LIMITED or FIXED, and none for AUTOMATIC |
| Nl80211Messages.Alpha2RoundTrip | lib/usb/nl80211.c:200-346 | parsing a built request gives back the two country letters |
| Nl80211Wire.NoneAmong | lib/usb/nl80211.c:162-171 | a search fails exactly when no attribute has the type |
| Nl80211Wire.FamilyIdReply | lib/usb/nl80211.c:287-304 | for any attributes around it, the first attribute 1 of a message of type 0x10 gives the id in its first two bytes, low byte first; another type or a shorter payload gives none |
| Nl80211Wire.TxPowerReply | lib/usb/nl80211.c:306-321 | for any attributes around it, the first attribute 98 gives back any signed level put in it |
| Nl80211Wire.Alpha2Reply | lib/usb/nl80211.c:323-346 | for any attributes around it, the first attribute 33 gives its two letters, with or without a terminator |
| Nl80211Wire.NothingInReply | lib/usb/nl80211.c:287-346 | without the attribute, or with too few bytes in it, each parser fails |
| Nl80211Wire.AckMeans | lib/usb/nl80211.c:272-285 | a message of type 2 with an encoded code acknowledges exactly when the code is zero |
| Nl80211Query.DoAck | lib/usb/nl80211.c:404-452 | for any reply bytes, success exactly when the first ERROR message among the well-formed ones acknowledges |
| Nl80211Query.ScanDatagram | lib/usb/nl80211.c:473-506 | one pass over a datagram answers, ends, or reports whether another datagram must be awaited, as the list of its messages says |
| Nl80211Query.DoQuery | lib/usb/nl80211.c:458-513 | for every series of datagrams the answer is that of a fold: the reading of the first message that has one before any ERROR, DONE or end of non-multipart data, else failure |
| Nl80211Query.FirstReadingAt | lib/usb/nl80211.c:574-583 | the answer is the reading at some position with no reading before it, and there is none exactly when no message has one |
| Nl80211Query.BeforeEndIsPrefix | lib/usb/nl80211.c:483-495 | the messages considered are a prefix with no ERROR or DONE in it, cut at the first one |
| Nl80211Wire.MessagesOfDatagram | lib/usb/nl80211.c:479-501 | walking a datagram gives back the padded messages it was made of, whatever short rest follows |
| Nl80211Wire.ErrorAt | lib/usb/nl80211.c:419-444 | the first message of type 2 decides, and without one there is no acknowledgement |
| Nl80211Wire.AnswerStep | lib/usb/nl80211.c:458-513 | datagram by datagram: the first message with a reading or of type 2 or 3 settles the answer; if there is none, the next datagram counts exactly when some message has flag 2 |
| Nl80211Wire.FamilyIdAt | lib/usb/nl80211.c:536-558 | the id used is that of the first message that has one, if no message of type 2 is before it |
| Nl80211Wire.FamilyIdNowhere | lib/usb/nl80211.c:536-558 | no id is found if a message of type 2, or the end, comes before any |
| Nl80211Wire.FamilyIdResolved | lib/usb/nl80211.c:519-564 | an id encoded in the controller's answer, anywhere in a datagram and among any attributes, is the id that gets used |
| Nl80211Query.Wireless.GetFamilyId | lib/usb/nl80211.c:519-564 | a cached id is returned unasked; otherwise the first id before any ERROR is returned and cached, and a failure leaves the cache empty |
| Nl80211Query.Wireless.GetTxPower | lib/usb/nl80211.c:634-649 | sends exactly the query for the phy once a family id is known, and returns the level of the query's answer |
| Nl80211Query.Wireless.SetTxPower | lib/usb/nl80211.c:651-672 | the request sent carries the level back, except that -1 asks for AUTOMATIC and carries none; success is the acknowledgement |
| CText.StrtollPrint | lib/core/io.c:145-152 | parsing a printed signed 64-bit integer gives it back, whatever non-digit text follows |
| CText.CliParsePrint | cli/cmd/common.h:99-108 | the strict integer parser inverts printing for every signed 64-bit integer |
| CText.StrtollReads | lib/core/io.c:145-152 | white space, an optional sign and digits of any length are read as the number, clamped to 64 bits with the overflow reported |
| CText.CliParseRefuses | cli/cmd/common.h:99-108 | a number with anything after it or outside 64 bits is refused |
| CText.PrintIntLength | lib/core/io.c:158-159 | every signed 64-bit integer prints in at most 20 bytes, so the buffers never cut it |
| CText.NextToken | lib/cpu/cpu.c:128-134 | a strtok_r loop visits exactly the tokens of the text, in order |
| CText.TokenHead | lib/cpu/cpu.c:122-127 | a text that starts with a word and a delimiter has that word as its first token |
| CText.SkipGap | lib/cpu/cpu.c:122-127 | leading delimiters make no token |
| CText.CaseEqMeans | lib/cpu/cpu.c:126 | names match when they agree everywhere up to the distance between a letter and its other case |
| FileIo.ReadFileString | lib/core/io.c:69-103 | what fits the buffer, up to a NUL and without trailing line ends |
| FileIo.ReadFileI64 | lib/core/io.c:138-154 | the number the file's text starts with, or an error if there is none or it overflows |
| FileIo.FileTextIs | lib/core/io.c:88-102 | a text that fits is read without its trailing line feeds and carriage returns and otherwise unchanged |
| FileIo.FileTextStops | lib/core/io.c:98-102 | nothing behind a NUL is seen |
| FileIo.FileTextCut | lib/core/io.c:88-102 | a longer text is cut to one byte less than the buffer |
| FileIo.I64RoundTrip | lib/core/io.c:88-161 | any signed 64-bit integer written and read back is unchanged through both buffers, also with line ends after it |
| FileIo.ReadFileBinary | lib/core/io.c:163-241 | for every schedule of partial reads the whole file is returned; the terminator is in bounds even when the final shrink fails; failure exactly on a read error or when the doubled buffer exceeds the heap |
| FileIo.GrowsByDoubling | lib/core/io.c:199-214 | the capacity is at most twice the length once it has grown, and grows exactly when the file does not fit with room |
| CpuFreq.GetAfterSet | lib/cpu/cpu.c:150-276 | after an accepted call the getter reports the request rounded down to a multiple of 1000 and the other limit is untouched; a rejected call changes nothing |
| CpuFreq.AcceptedIffInOrder | lib/cpu/cpu.c:182-276 | from valid limits a request in Hz is accepted exactly when the limits in whole kHz would stay in order, and then the file holds that many kHz |
| CpuFreq.RunKeepsLimits | lib/cpu/cpu.c:182-276 | over every run of setter calls with any arguments hw_min <= min <= max <= hw_max is kept, and nothing but the two limits changes |
| CpuFreq.ReplayReachesSaved | lib/cpu/cpu.c:182-276 | replaying a pair of limits, minimum first, succeeds exactly when the minimum is not above the live maximum, otherwise raises the maximum; twice always reaches the pair |
| CpuFreq.FindToken | lib/cpu/cpu.c:126-134 | a name is found exactly when some token equals it but for case |
| CpuFreq.GovernorAccepted | lib/cpu/cpu.c:99-140 | from the kernel's list exactly the names in it are accepted, whatever their case, and the name is stored as given |
| CpuFreq.GovernorShown | lib/cpu/cpu.c:76-97 | a governor's name in its file is read as that name |
| CpuFreq.CpuSysfs.SetFreqMin | lib/cpu/cpu.c:182-229 | accepted exactly inside the hardware range and at or below the current maximum, and then only this CPU's minimum changes |
| CpuFreq.CpuSysfs.SetFreqMax | lib/cpu/cpu.c:231-276 | accepted exactly inside the hardware range and at or above the current minimum, and then only this CPU's maximum changes |
| CpuFreq.CpuSysfs.SetGovernor | lib/cpu/cpu.c:99-140 | accepted exactly for a name the CPU lists but for case, and then only this CPU's governor changes |
| Toml.RStripInPlace | cli/profile.c:99-105 | drops exactly the trailing blanks and line ends |
| Toml.ReadLine | cli/profile.c:124-168 | a line is skipped, opens a section or is an entry, as the line grammar says |
| Toml.SkippedLine | cli/profile.c:125-128 | comments and white space say nothing, whatever surrounds them |
| Toml.SectionForms | cli/profile.c:130-141 | one or two brackets open the same section; its name ends at the first closing bracket and the rest is ignored |
| Toml.EntryForms | cli/profile.c:143-179 | an entry is split at the first equals sign and blanks around key and value do not matter |
| Toml.ValueForms | cli/profile.c:154-166 | quotes of either kind enclose any text up to the last one; without a closing one the rest is the string; other text is bare |
| Toml.LongLine | cli/profile.c:123-124 | a line longer than the buffer is taken in pieces of 1023 bytes |
| Toml.TomlParse | cli/profile.c:110-189 | the entries of every text, line by line, with long lines cut as fgets does |
| Toml.ParsedIsClean | cli/profile.c:110-189 | whatever the file contains, every section and value parsed from it is free of line ends and NULs and fits its slot, and no section holds a closing bracket |
| Toml.ReadItems | cli/profile.c:110-189 | parsing a printed list of clean items returns exactly its entries, under their sections |
| Toml.PrintParse | cli/profile.c:110-310 | parsing a printed document returns its entries if and only if its strings and section names are clean |
| Toml.CleanMeans | cli/profile.c:91-96 | clean means at most 511 bytes for a string and 127 for a section, with no line feed or NUL and, for a section, no closing bracket |
| Toml.PrintedText | cli/profile.c:301-310 | the text printed for one item of each kind |
| Devices.ReadThpFile | lib/mem/mem.c:134-164 | the huge-page mode read from the kernel's file is the bracketed one, for every mode |
| Devices.SchedulerRead | lib/storage/storage.c:123-160 | the scheduler read is the one in use, for every list of offered names that fits the buffer |
| Devices.SchedulerRestored | lib/storage/storage.c:162-181 | setting the scheduler that had been read is accepted and makes it the one in use again |
| Devices.SchedulerAcceptedIff | lib/storage/storage.c:162-181 | on a device as the kernel shows it exactly the offered names are accepted, and the accepted one is in use afterwards |
| Devices.SchedulerRefused | lib/storage/storage.c:171-178 | empty names, names of 128 bytes and names with a slash, space or line feed are refused whatever is offered |
| Devices.ReadAheadStored | lib/storage/storage.c:267-285 | a negative read-ahead is refused and any other stored |
| Devices.BlockNames | cli/profile.c:241-249 | a device counts as real exactly when its name does not begin with loop, ram, zram or md and a digit, and opens exactly under a plain name |
| ProfileHost.Host.SaveCpu | cli/profile.c:195-215 | appends the section captured from CPU 0, or nothing if there is nothing to capture |
| ProfileHost.Host.SaveMemory | cli/profile.c:218-238 | appends the memory section, or nothing |
| ProfileHost.Host.SaveStorage | cli/profile.c:252-277 | appends one section per real block device that opens, in directory order |
| ProfileHost.Host.ProfileWrite | cli/profile.c:280-310 | the file is the print of what was captured from the live state; a dry run writes none |
| ProfileHost.Host.WriteEachCpu | cli/profile.c:387-417 | every CPU that opens gets the setter call, one failure fails the whole, and the other CPUs are still written |
| ProfileHost.Host.LoadCpuKv | cli/profile.c:372-419 | applies exactly what the entry asks for; a dry run changes nothing and succeeds |
| ProfileHost.Host.LoadMemoryKv | cli/profile.c:422-456 | the same for the memory tunables, with the cast to a C int |
| ProfileHost.Host.LoadStorageKv | cli/profile.c:459-489 | the same for one block device; a device that does not open is skipped without complaint |
| ProfileHost.Host.SetSwappiness | lib/mem/mem.c:296-305 | accepted exactly in 0..200, changing that tunable alone |
| ProfileHost.Host.SetOvercommit | lib/mem/mem.c:321-331 | accepted exactly in 0..2, changing that tunable alone |
| ProfileHost.Host.SetVfs | lib/mem/mem.c:347-357 | accepted exactly when not negative, changing that tunable alone |
| ProfileHost.Host.SetThp | lib/mem/mem.c:166-179 | sets the mode, changing that tunable alone |
| ProfileHost.Host.SetScheduler | lib/storage/storage.c:162-181 | refuses malformed names; a name the device offers becomes the one in use |
| ProfileHost.Host.SetReadAhead | lib/storage/storage.c:267-285 | accepted exactly when not negative, changing that device alone |
| ProfileHost.Host.ProfileApply | cli/profile.c:493-517 | the state after is that of all entries' writes in order, success exactly when all are accepted; a dry run changes nothing and succeeds |
| ProfileHost.Host.ProfileLoad | cli/profile.c:110-189 | the same for the entries parsed from any text |
| ProfileHost.AfterConcat | cli/profile.c:493-517 | replaying a list of writes is replaying its parts in order, for the state and for success |
| ProfileRestore.SavedSound | cli/profile.c:195-310 | every profile the program saves has well-formed keys and a non-empty body in every section |
| ProfileRestore.SavedRoundTrip | cli/profile.c:110-310 | for every live state, parsing the saved text returns exactly what was saved if and only if names and strings are clean |
| ProfileRestore.AskedSaved | cli/profile.c:195-517 | loading what was saved asks for exactly the captured values, governor then minimum then maximum, then memory, then devices |
| ProfileRestore.CpuKeys | cli/profile.c:379-418 | what each key of the cpu section asks for, by its name; misplaced quotes and negative frequencies ask for nothing |
| ProfileRestore.MemoryKeys | cli/profile.c:427-441 | what each numeric key of the memory section asks for, by its name |
| ProfileRestore.ThpKeys | cli/profile.c:442-453 | which huge-page mode each word asks for |
| ProfileRestore.StorageKeys | cli/profile.c:466-485 | what each key of a device's section asks for, by its name |
| ProfileRestore.HeadSaid | cli/profile.c:301-304 | a saved profile starts with its version, name and time |
| ProfileRestore.NumberWraps | cli/profile.c:427-432 | a saved number is asked for as written exactly when it fits 32 bits |
| ProfileRestore.CpusRestored | cli/profile.c:372-419 | replaying the captured CPU values acts on every CPU that opens and on nothing else |
| ProfileRestore.MemRestored | cli/profile.c:422-456 | replaying the captured memory values puts every tunable back and moves nothing else |
| ProfileRestore.AcceptedIfInRange | lib/mem/mem.c:296-357 | a write to a tunable is accepted exactly when it leaves every tunable in its range, and then that one holds the value |
| ProfileRestore.RunKeepsTunables | lib/mem/mem.c:296-357 | over every run of writes the tunables stay in range |
| ProfileRestore.DisksRestored | cli/profile.c:459-489 | replaying the captured devices puts each back and leaves the others alone |
| ProfileRestore.SaveDisturbLoad | cli/profile.c:195-517 | save, disturb arbitrarily, load: memory and captured devices are as saved, every CPU has had the saved values replayed on it, nothing else has moved |
| ProfileRestore.DeviceAfterLoad | cli/profile.c:241-277 | save, disturb, load: a listed device with a plain name that is not a loop, ram, zram or md device has its scheduler and read-ahead back, and every other device is as the disturbance left it |
| ProfileRestore.GovernorReloaded | cli/profile.c:379-394 | a load puts CPU 0's governor on exactly the CPUs that list it, and leaves the others' governors |
| ProfileRestore.LimitsReloaded | cli/profile.c:395-417 | one load restores the maximum always and the minimum exactly when it is not above the live maximum or was right already; two loads restore both |
| ProfileRestore.SaveLoadTwice | cli/profile.c:195-517 | for whole saved profiles and any valid live limits, two loads bring every CPU to exactly the limits saved from CPU 0 |
| ProfileRestore.LoadLimitsTwice | cli/profile.c:395-517 | for any pair of limits inside the hardware range: the first load succeeds exactly when the minimum is not above any live maximum, the second always, and every CPU ends at the pair |
| Efi.GuidValid | lib/firmware/firmware.c:284-295 | accepts exactly 36 characters with dashes at the four places and hex digits elsewhere |
| Efi.GuidGrammar | lib/firmware/firmware.c:284-295 | a GUID is accepted exactly when it is runs of 8, 4, 4, 4 and 12 hex digits joined by dashes |
| Efi.NameValid | lib/firmware/firmware.c:272-280 | accepts exactly 1 to 200 characters with neither slash nor dash |
| Efi.PlainVarNames | lib/firmware/firmware.c:272-280 | a name is accepted exactly when it has 1 to 200 characters, none of them a dash or a slash |
| Efi.ParseEntry | lib/firmware/firmware.c:312-329 | splits an entry at the dash before the last 36 characters, if those are a GUID |
| Efi.EntryIffFileName | lib/firmware/firmware.c:298-329 | an entry parses as a name and a GUID if and only if it is their file name and the GUID is valid: the split is unique and each direction undoes the other |
| Efi.ProgressCompletes | lib/firmware/firmware.c:134-144 | every schedule of short and interrupted writes without an error writes everything |
| Efi.WrittenBytes | lib/firmware/firmware.c:129-147 | a completed write leaves exactly the bytes given, a failed one a prefix of them or the old content |
| Efi.FailedCallFails | lib/firmware/firmware.c:129-147 | a call that fails makes the write fail, and when the flag stays in the way or the file does not open the old content remains |
| Efi.EfiVars.WriteBinary | lib/firmware/firmware.c:129-147 | through any schedule the file holds what the loop got through, and success is a finished loop and a clean close |
| Efi.EfiVars.ClearImmutable | lib/firmware/firmware.c:475-487 | clears that one bit if it was set and could be, tolerates file systems without the call, fails for a missing file |
| Efi.EfiVars.RestoreImmutable | lib/firmware/firmware.c:489-499 | sets that one bit again if both calls work, and nothing else |
| Efi.EfiVars.Enumerate | lib/firmware/firmware.c:373-429 | one record per directory entry that is a variable and can be read, with its 32-bit attributes and payload size |
| Efi.EfiVars.OneListed | lib/firmware/firmware.c:393-421 | a readable variable file gives one record with its name, GUID, attributes and payload size |
| Efi.EfiVars.OddListed | lib/firmware/firmware.c:393-421 | a file too short for the prefix is listed with attributes and size 0; an unreadable one, or a name that is a GUID alone, is not listed |
| Efi.EfiVars.ListedInOrder | lib/firmware/firmware.c:393-421 | records come in directory order, each entry on its own |
| Efi.EfiVars.Get | lib/firmware/firmware.c:431-468 | the payload behind the prefix, or an error for bad names, unreadable or too short files |
| Efi.EfiVars.Set | lib/firmware/firmware.c:501-551 | only an existing variable can be set; the new bytes are prefix and payload, the flag survives success and failure of the write unless it could not be put back |
| Efi.EfiVars.Delete | lib/firmware/firmware.c:553-603 | success exactly when the marker is written and the file is gone or can be unlinked, and then it is gone; a failure leaves the flag as it was when restoring works |
| Efi.PrefixedReads | lib/firmware/firmware.c:413-417 | payload, attributes and size read back from prefixed bytes |
| Efi.SetThenRead | lib/firmware/firmware.c:373-551 | after an accepted set, get returns the same payload and enumerate reports the same attributes and size, for every way the write and the reads are cut up; the flag is kept |
| Efi.WorkingSet | lib/firmware/firmware.c:501-551 | setting a variable with an ordinary name and GUID succeeds when the calls work; it then holds the prefix and payload, get returns the payload, and its flags are as before |
| Efi.DeleteThenGet | lib/firmware/firmware.c:553-603 | a successful delete leaves no file and get fails; a failed one keeps the file and, when restoring works, its flags; other files are untouched; with working calls it succeeds |
| JsonProof.ReadsString | cli/output.c:118-143 | unescaping undoes escaping, for every string |
| JsonProof.EscapedHasNoControl | cli/output.c:124-141 | escaped text holds no raw byte below 0x20 |
| JsonProof.EscapeTable | cli/output.c:124-141 | the escapes of section 7 of RFC 8259 as they are listed there, with four lower-case hex digits for the rest |
| JsonProof.ReadsInt | cli/output.c:181-186 | a printed integer is a JSON number that reads back |
| JsonProof.ReadsValue | cli/output.c:164-263 | for every tree the emitted text parses back to that tree if every nested field is the last of its object, and does not parse at all otherwise |
| JsonOut.DocumentReads | cli/output.c:145-153 | the same for a whole document in its success envelope |
| JsonOut.CompactText | cli/output.c:164-263 | braces, brackets, colons and commas stand alone, without white space |
| JsonOut.SiblingAfterNestedFails | cli/output.c:202-216 | a concrete object with a field after a nested one does not parse |
| JsonOut.ValueHasNoControl | cli/output.c:118-263 | emitted trees hold no raw byte below 0x20 |
| JsonOut.Out.Escape | cli/output.c:118-143 | appends the quoted, escaped string, or null |
| JsonOut.Out.EmitComma | cli/output.c:164-171 | appends a comma except for the first item, and clears the flag |
| JsonOut.Out.FieldString | cli/output.c:173-179 | appends the member text for a string or null |
| JsonOut.Out.FieldInt | cli/output.c:181-186 | appends the member text for an integer |
| JsonOut.Out.FieldBool | cli/output.c:188-193 | appends the member text for a boolean |
| JsonOut.Out.ObjectBegin | cli/output.c:202-208 | appends key and opening brace, and sets the caller's flag again |
| JsonOut.Out.ArrayBegin | cli/output.c:210-216 | appends key and opening bracket, and sets the caller's flag again |
| JsonOut.Out.PutFields | cli/output.c:173-241 | the calls for the fields of any object append exactly the text of those fields |
| JsonOut.Out.PutElems | cli/output.c:228-263 | the calls for the elements of any array append exactly their text |
| JsonOut.Out.Document | cli/output.c:145-153 | the calls for a document append exactly the envelope around its data |
| JsonOut.EmitCpuJson | cli/cmd/cpu.c:108-150 | one CPU's snapshot is emitted as exactly the tree of what could be read |
| JsonOut.CpuReads | cli/cmd/cpu.c:108-150 | that tree always reads back, whichever readings are missing |
| JsonOut.CpuSays | cli/cmd/cpu.c:108-150 | reading back what was emitted finds each reading under its own name, and a missing one or any other name not at all |
| JsonOut.StatesAppend | cli/cmd/cpu.c:135-145 | the idle states that could be read are listed in order, each as an object of its number and whether it is disabled |
| Wakeup.ReadRow | lib/power/power.c:590-603 | the state a line gives for a device, if it is that device's row |
| Wakeup.FindState | lib/power/power.c:586-604 | the state given by the first line that answers |
| Wakeup.TableState | lib/power/power.c:572-604 | on a table in the documented form the state found is that of the device's row, none for an unlisted device, and disabled for the heading's first word |
| Wakeup.LettersFirst | lib/power/power.c:597-598 | only a name that begins with a letter is ever found, in whatever line |
| Wakeup.TwoWords | lib/power/power.c:599-602 | a row without a status answers for no device |
| Wakeup.ToggleIsSet | lib/power/power.c:549-556 | with distinct names, toggling is setting the opposite state of that device alone |
| Wakeup.Acpi.SetWakeup | lib/power/power.c:557-621 | for any table and any file errors: the name is written exactly when the file shows the other state, and success is the state being right or the write working |
| Wakeup.StepSetsState | lib/power/power.c:549-621 | on a well-formed table a listed device ends in the state asked for and all else is unchanged, the file is written exactly when that is a change, and an unlisted device is an error unless it is called like the heading |
| Wakeup.LastCallDecides | lib/power/power.c:549-621 | over every run of calls with any names, the table stays well formed and every listed device is in the state last asked for |
| Wakeup.SecondCallIsIdle | lib/power/power.c:616-617 | a second identical call finds the state right and writes nothing |
| Wakeup.NamesTaken | lib/power/power.c:565-575 | printable names without a slash or blank are taken; a slash, blank or line end anywhere is refused |
| Battery.SortedUnique | lib/power/power.c:259-265 | an ordered arrangement is determined by the names it holds |
| Battery.LeMeans | lib/power/power.c:262 | a prefix comes first, else the first character that differs decides |
| Battery.SortNames | lib/power/power.c:259-265 | the in-place exchange sort gives an ordered permutation |
| Battery.NthBatteryName | lib/power/power.c:245-274 | an index is accepted exactly below the count, and gives the name at that place in any ordered arrangement of the batteries |
| Battery.SameAnswer | lib/power/power.c:245-274 | two directory orders of the same batteries give the same answer |
| UsbNames.ChainIsPath | lib/usb/usb.c:370-382 | a chain of digit runs joined by single separators holds only digits and isolated separators, and begins and ends with a digit |
| UsbNames.PathIsChain | lib/usb/usb.c:370-382 | conversely, such a text splits into digit runs joined by single separators |
| UsbNames.ScanPath | lib/usb/usb.c:371-382 | the automaton accepts exactly digits with single separators between them |
| UsbNames.IsUsbDeviceEntry | lib/usb/usb.c:361-383 | accepts exactly `usb` followed by digits, or digit runs joined by single dashes or dots |
| UsbNames.NamesAre | lib/usb/usb.c:361-383 | the accepted names character by character: figures, dashes and dots with a figure at both ends and next to every dash and dot, or usb and figures |
| UsbNames.DevPathValid | lib/usb/usb.c:43-53 | accepts exactly alphanumerics, dashes and dots that begin with a digit or `usb` and a digit |
| UsbNames.OpenedAre | lib/usb/usb.c:43-53 | the names that may be opened, character by character |
| UsbNames.EntriesCanBeOpened | lib/usb/usb.c:43-383 | every name the entry automaton accepts passes the check made on opening |

## Left out

- Nl80211Messages.ParseAck: requires that a length stated as sufficient lies inside the bytes; every caller passes the stated length as the size. The errno a nonzero code is turned into is not modelled.
- Nl80211Messages.ParseFamilyId: requires that the stated length covers both headers and lies inside the bytes; every caller passes the stated length as the size.
- Nl80211Messages.ParseTxPower: requires the same of its message as ParseFamilyId.
- Nl80211Messages.ParseAlpha2: requires the same of its message as ParseFamilyId.
- FileIo.ReadFileBinary: models a read error as a number of readable bytes, and allocation as a largest block.
- Toml.ReadLine: cutting the line buffer in place is modelled as keeping the text before the cut.
- Toml.TomlParse: does not model the growth of the entry array or its failure for want of memory.
- ProfileHost.Host.ProfileWrite: does not model creating the directory or failing to open the file.
- ProfileHost.Host.SetScheduler: assumes that the kernel takes exactly the schedulers it offers and that other sysfs writes to present files succeed and are stored as written.
- Devices.SchedulerRead: assumes the kernel's form of the file, every name followed by a space.
- Efi.EfiVars.Enumerate: does not model the growth of the result array or its failure for want of memory.
- Efi.EfiVars.Set: does not model creating a variable, which the code cannot do.
- JsonProof.ReadsValue: the reference parser covers integers and `\u` escapes below 0x80, which are all that the emitter writes in the modelled calls.
- Wakeup.StepSetsState: the table must fit the 16384-byte buffer even with every device disabled.
- Battery.NthBatteryName: starts from the list of battery names; reading the directory and each supply's type is not modelled.
- The low-level sockets, ioctls, dlopen and NVML, statfs, getenv path prefixes and errno texts: foreign calls.
- Whether the kernel acknowledges a request at all.
- Regulatory-domain and power-save wrappers, phy lookup, and the remaining getters and setters of net, pcie, gpu, thermal, bluetooth, rfkill and power: one-branch checks around a file access or a query already modelled.
- The memory-sleep reader: a bracket search like the huge-page one.
- Floating-point frequencies and the JSON double field.
- Tables, colours, help texts, prompts, the command dispatchers and the error envelope.
- Commands that write JSON fields right after the envelope without an opening brace.
- Listing profiles, and its removal of duplicates.
- Heap leaks and the freeing of leftover directory entries.
