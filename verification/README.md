# A verified model of the fpgas-online test designs

Dafny models of the parts of this repository whose correctness is not obvious from reading them, and proofs of what they
promise. To check everything, run `dafny verify dfyconfig.toml` in this directory.

## What is modelled

**The RV32I firmware generator** (`designs/_shared/ice40_firmware.py`). `Bits` has the shifts and bitwise operators on
integers, `Encoding` the six encoders and an independent decoder, `Assembler` the two-pass assembler (a class that
appends words and patches by index), `Layout` and `Listing` where an assembled program's words and strings are. `Machine`
is the hart: 32 registers, the ROM, LiteX's UART CSRs and one device region. What the hart does not decide is arbitrary:
what the device answers (any function of the accesses so far), when the transmit FIFO drains, when bytes arrive, and what
the registers hold at reset. Only where something must end is it assumed that TXFULL clears again and again: what is never
sent, lost or repeated is proved of harts whose transmit FIFO stays full for ever too (`Machine.RunWhileSame`). `Console`
and `Print` are the routines the three programs share. The programs themselves are `UartProgram`, `SpiProgram` and
`SpramProgram`, each with its generator as a method, and they are run in `UartEcho`, `SpiRun` and `SpiReport`, and
`SpramRun`. `Harts` shows that there is such a hart for each of them, whatever device is behind it.

A program is a list of sections, one for each label, labels being numbers in program order. The models number a few more
places than the generators name (the delay loop, the greeting, the parts of the report): a section boundary is where a
proof needs to stop. Words the generators encode on the spot and words they patch later are both in the lists; the
assembler decides which is which as the generator does.

**The SPRAM and its test.** `SpramPattern` is spram_pattern, `SpramTest` the test on any memory, and `SpramScript` the
order of its writes and comparisons as the firmware's documentation gives it. `MemoryFaults` has memories with a cell
map, stuck bits and write masks broken in any bits. `Up5kSpram` is the banked, byte-masked, clocked Wishbone slave, and
`SpramSystem` puts the firmware on it. `LitexSpram` is the slave with LiteX's own bank select, with the firmware on
that.

**The SPI slave and its two masters.** `SpiSlave` is a mode 0 slave whose answers are an arbitrary function of what it was
sent. The bit-banged routine of the firmware and the one of the Fomu header script are both proved against it, with the
same specification of what is sent and what comes back.

**The Fomu header script** (`designs/_host/fomu_header_id.py`). `FomuBoard` is what happens on the header and what may;
`FomuLines` is the script's `Lines` on either libgpiod, where any operation may fail, before or after it took, and on
libgpiod v2 part of the way through reconfiguring the lines in their order; `FomuHeader` is the protocol. A Ctrl-C is an
outcome too: the `finally` blocks run, and `main` does not catch it.

**Concurrent publishing** (`packaging/release.py`). `Release` is any number of runs of `publish` over one repository, a
call of `gh` at a time, over whatever earlier runs left. Any run may fail at any call, and an upload or a deletion that gh
says failed may have happened.

**Clocked gateware**: `DnaReader`, `P2Switch` and `UartBreak` are the registers of `dna_reader.py`, `acorn_p2.py` and
`uart_break.py` as classes with a `Clock` method, and cycle-exact theorems over every input stream.

**The wiring probe** (`designs/_host/tt_pmod_wiring.py`). `Wiring` is the walk, once and twice, with arbitrary replies;
`WiringNets` is boards: any wiring, with the chip's factory test in it, and what the walk finds on those cabled as the
ASIC boards are.

**Smaller algorithms**: `Photo` (the flood fill and strokes of `docs/diagrams/canvas.py`), `Edif`
(`scripts/fix_yosys_edif_libref.py`) and `PortRanges` (`scripts/collect_verify_status.py`).

## Where the code and its documentation differ

The models follow the code.

- spram_pattern's "two addresses that reach one cell are found" holds up to 128 KB, exactly (`PassesFindEveryFaultIff`);
  the generator takes any whole number of banks, and above 128 KB the whole test passes a memory in which two words share
  a cell (`SharingMissed`).
- An ident of any length is taken, but the ADDI immediate is masked to 12 bits, so a long one makes the firmware print
  from another address. The exact bounds are 1629 characters for the SPRAM firmware, 1933 for the UART's and 1677 for the
  SPI flash's.
- `publish` deletes a copy when an older release has the name, so that one copy is kept. Two can stay: when the older
  release's run looked before the newer one's upload and uploads after its check (`TwoCopiesCanStay`); and when gh said the
  newer one's upload failed but stored it, for then nothing checks that copy (`StoredCopyCanStay`). `OneCopyIff` says
  exactly when one is left.
- check_aligned is not needed for no two words to share a cell, only for the banks to be in order (`BanksInOrderIff`).

## Model

| member | source | states |
|---|---|---|
| Encoding.RoundTrip | designs/_shared/ice40_firmware.py:52-125 | Decoding any encoded instruction gives it back: registers and sign-extended immediate, for every operand in range, even offsets for jumps and branches. |
| Encoding.EncodedOpcode | designs/_shared/ice40_firmware.py:93-125 | The opcode of every encoded instruction is at its row and column of the base opcode map in the RISC-V manual, two low bits 1. |
| Encoding.AddiImmediate | designs/_shared/ice40_firmware.py:55-57 | What an ADDI's immediate decodes to when it is out of range: the 12-bit wrap, so it is right exactly when it fits. |
| Encoding.SplitImm32Reconstructs | designs/_shared/ice40_firmware.py:133-148 | LUI and ADDI of the two parts give any value modulo 2^32, and both parts fit their fields. |
| Assembler.Assemble | designs/_shared/ice40_firmware.py:679-701 | The two passes give the image in which every reference is resolved against every label; an error exactly for text that is not ASCII or a label never placed. |
| Assembler.Assembler.FillIn | designs/_shared/ice40_firmware.py:838-852 | Filling the placeholders in, in the order they were noted, gives each word its resolved value and leaves the others. |
| Layout.ReferencesReach | designs/_shared/ice40_firmware.py:838-852 | Every patched jump, call and branch decodes to one whose target is its label's address, and every AUIPC and ADDI pair to its string's, at any ROM origin. |
| Layout.WordAt | designs/_shared/ice40_firmware.py:838-852 | No placeholder is left: each code word is its instruction encoded. |
| Layout.ZeroIsNoInstruction | designs/_shared/ice40_firmware.py:689-691 | A placeholder left in place would not be an instruction. |
| Layout.TextByteAt | designs/_shared/ice40_firmware.py:151-158 | A string is in the image byte for byte, little-endian, with a NUL after it. |
| SpramProgram.GenerateSpramFirmware | designs/_shared/ice40_firmware.py:647-854 | The generator returns the assembled source, or an error exactly for a size that is not whole banks or an ident that is not ASCII. |
| SpramProgram.EveryReferenceFits | designs/_shared/ice40_firmware.py:682-701 | With an ident that fits, every reference of the program fits its instruction. |
| SpramProgram.IdentBoundIsExact | designs/_shared/ice40_firmware.py:847-849 | The ready message's address is right if and only if the ident has at most 1629 characters. |
| UartProgram.GenerateUartFirmware | designs/_shared/ice40_firmware.py:165-293 | The generator returns the assembled source, or an error exactly for an ident that is not ASCII. |
| UartProgram.IdentBoundIsExact | designs/_shared/ice40_firmware.py:278-291 | The prompt's address is right if and only if the ident has at most 1933 characters. |
| SpiProgram.GenerateSpiflashFirmware | designs/_shared/ice40_firmware.py:300-623 | The generator returns the assembled source, or an error exactly for an ident that is not ASCII. |
| SpiProgram.IdentBoundIsExact | designs/_shared/ice40_firmware.py:585-588 | The address of the ID line's text is right if and only if the ident has at most 1677 characters. |
| Console.Putstr | designs/_shared/ice40_firmware.py:799-810 | putstr sends the NUL-terminated string it is given, all of it and nothing else, waiting for room, and returns. |
| Print.Puthex | designs/_shared/ice40_firmware.py:812-828 | puthex32 sends the eight hex digits of its word, the most significant first. |
| Print.GoAddress | designs/_shared/ice40_firmware.py:693-696 | AUIPC and ADDI leave a string's address wherever the ROM is. |
| Print.PrintedWhole | designs/_shared/ice40_firmware.py:151-158 | All of a string without NULs is printed. |
| Machine.StepExtends | designs/_shared/ice40_firmware.py:215-224 | A step sends or takes a byte at most, unsends nothing, and takes one instruction's time. |
| UartEcho.Boots | designs/_shared/ice40_firmware.py:196-213 | From reset the firmware prints the banner, the ident and the prompt, and comes to the echo loop. |
| UartEcho.EchoesInOrder | designs/_shared/ice40_firmware.py:215-240 | After any number of instructions, on any schedule of arrivals and even if the transmit FIFO never drains: what was sent is the beginning of the greeting, or the greeting and the first k bytes received, with at most one more taken from the FIFO. |
| UartEcho.EveryByteEchoed | designs/_shared/ice40_firmware.py:215-240 | Once k bytes have arrived the firmware gets to where it has echoed exactly those. |
| UartEcho.EchoStep | designs/_shared/ice40_firmware.py:226-240 | Every step from a word of the echo loop keeps its invariant: which byte is in the FIFO, in A0 or sent. |
| UartEcho.GeneratedIsSetUp | designs/_shared/ice40_firmware.py:165-293 | What the generator returns, loaded anywhere that agrees with its arguments, is what these theorems are about. |
| Harts.UartHart | designs/_shared/ice40_firmware.py:165-293 | For every ident that fits and every UART address with room below, there is a hart these theorems are about. |
| Harts.SpiHart | designs/_shared/ice40_firmware.py:300-623 | The same for the SPI flash firmware and any flash. |
| Harts.SpramHart | designs/_shared/ice40_firmware.py:647-854 | The same for the SPRAM firmware and any memory. |
| SpiSlave.OneBit | designs/_shared/ice40_firmware.py:525-549 | Setting MOSI, clock up and clock down gives the slave that bit, and MISO has the slave's own bit while the clock is up. |
| SpiSlave.BitsOfByte | designs/_host/fomu_header_id.py:163-176 | A byte's bits on the wire, put together again, are the byte. |
| SpiRun.Xfer | designs/_shared/ice40_firmware.py:525-549 | spi_xfer_byte gives any mode 0 slave exactly the byte, most significant bit first, and returns exactly the byte the slave gave meanwhile. |
| SpiReport.RunIdle | designs/_shared/ice40_firmware.py:366-377 | The eight clocks with CS_N high reach no transaction of the flash. |
| SpiReport.RunAsk | designs/_shared/ice40_firmware.py:379-402 | The flash takes one transaction, 9F 00 00 00, and its three answers are in s2, s3 and s4. |
| SpiReport.RunPuthex | designs/_shared/ice40_firmware.py:491-523 | puthex sends its byte as two hex digits. |
| SpiReport.RunJudge | designs/_shared/ice40_firmware.py:430-446 | The verdict is PASS unless the three bytes are all 00 or all FF. |
| SpiReport.FirmwareReportsId | designs/_shared/ice40_firmware.py:300-623 | From reset, on any flash: exactly one transaction, the three bytes it answered printed, the right verdict, and the halt. |
| SpiReport.SaysThatAlone | designs/_shared/ice40_firmware.py:300-623 | After any number of instructions, even if the transmit FIFO never drains, what was said is the beginning of that, and what the flash has taken the beginning of the one transaction 9F 00 00 00. |
| SpiReport.EndsThere | designs/_shared/ice40_firmware.py:461-468 | From some instruction on exactly that has been said and exactly that transaction taken, for ever. |
| SpiReport.GeneratedIsSetUp | designs/_shared/ice40_firmware.py:300-623 | What the generator returns, loaded anywhere that agrees with its arguments, is what these theorems are about. |
| SpramPattern.PatternInjective | designs/_shared/ice40_firmware.py:637-644 | No two words of 128 KB have the same pattern. |
| SpramPattern.PatternInjectiveIff | designs/_shared/ice40_firmware.py:637-644 | For whole banks, no two words share a pattern if and only if there are at most 128 KB. |
| SpramPattern.PatternRepeatsAbove128K | designs/_shared/ice40_firmware.py:637-644 | Above 128 KB two words hold the same pattern. |
| SpramPattern.InvertedIsComplement | designs/_shared/ice40_firmware.py:642-644 | The inverted pattern is the complement, so each bit of each word takes both values. |
| SpramRun.PatternValue | designs/_shared/ice40_firmware.py:788-797 | The pattern routine's seven instructions compute spram_pattern. |
| SpramRun.RunTest | designs/_shared/ice40_firmware.py:725-768 | On any memory the two passes and the byte lanes make exactly the documented accesses and come to the documented verdict. |
| SpramRun.AnswersByte | designs/_shared/ice40_firmware.py:717-784 | A byte received leads to the report of one whole test, and back to the wait. |
| SpramRun.FirmwareAnswersEveryByte | designs/_shared/ice40_firmware.py:647-854 | For every base, size, ident that fits, memory and arrival schedule: after k bytes, the greeting and k reports, and nothing else. |
| SpramRun.NothingElseIsSaid | designs/_shared/ice40_firmware.py:647-854 | After any number of instructions, whatever arrives and even if the transmit FIFO never drains, what has been sent is the beginning of the greeting and the reports of as many tests as bytes have arrived, and what was done to the memory the beginning of those tests. |
| SpramRun.ThenQuiet | designs/_shared/ice40_firmware.py:717-723 | If only k bytes ever arrive, then from some instruction on exactly the greeting and k reports have been said, for ever. |
| SpramRun.GeneratedIsSetUp | designs/_shared/ice40_firmware.py:647-854 | What the generator returns, loaded anywhere that agrees with its arguments, is what these theorems are about. |
| SpramScript.TestStopsAtFirstDifference | designs/_shared/ice40_firmware.py:653-659 | On any memory the test makes the documented writes and comparisons in the documented order, up to the first word that differs, and reports that word: where, what was read and what was expected; it passes if none differs. |
| MemoryFaults.PassesFindEveryFault | designs/_shared/ice40_firmware.py:637-644 | The two passes accept a memory of at most 128 KB if and only if no two words share a cell, no bit is stuck, and whole words are written whole. |
| MemoryFaults.PassesFindEveryFaultIff | designs/_shared/ice40_firmware.py:637-644 | That is so of every memory if and only if the region is at most 128 KB. |
| MemoryFaults.SharingMissed | designs/_shared/ice40_firmware.py:637-644 | Above 128 KB the passes, and the whole test, accept a memory in which two words share a cell. |
| MemoryFaults.TestPassesIff | designs/_shared/ice40_firmware.py:725-767 | The whole test passes if and only if the passes would and at the start of each bank a byte written alone reaches all of its own bits and no other. |
| MemoryFaults.TestFindsEveryFault | designs/_shared/ice40_firmware.py:655-657 | The masks being the chips', one word of each bank reaches them all: the test passes if and only if no two words share a cell and no cell has a stuck bit or a mask broken in any bit of it. |
| Up5kSpram.CheckAligned | designs/_shared/up5k_spram.py:49-55 | An error exactly for an origin that is not a multiple of the size. |
| Up5kSpram.Up5kSpramCore.Clock | designs/_shared/up5k_spram.py:58-85 | One clock edge of the slave's registers and primitives. |
| Up5kSpram.EdgeWord | designs/_shared/up5k_spram.py:67-83 | An edge changes a word exactly when it is a write to its cell: to the word merged under the byte enables. |
| Up5kSpram.WriteCycle | designs/_shared/up5k_spram.py:58-85 | A whole write cycle merges its bytes into the addressed word; the second write at its end is harmless. |
| Up5kSpram.ReadCycle | designs/_shared/up5k_spram.py:58-85 | A whole read cycle returns the addressed word and changes nothing. |
| Up5kSpram.IdleChangesNothing | designs/_shared/up5k_spram.py:58-85 | Edges without a request change no word. |
| Up5kSpram.RegionCellsDistinct | designs/_shared/up5k_spram.py:42-46 | No two words of a region of the SPRAM's size share a cell, wherever it starts. |
| Up5kSpram.BanksInOrderIff | designs/_shared/up5k_spram.py:49-55 | Each word's cell is its offset's own if and only if the region is aligned to its size. |
| SpramSystem.HoldsWhatWasWritten | designs/_shared/up5k_spram.py:58-85 | After any run of Wishbone cycles, with any idle edges between, the slave holds what a flat byte-enabled RAM would. |
| SpramSystem.ReadsLastWritten | designs/_shared/up5k_spram.py:58-85 | Each read returns the bytes last written at its address. |
| SpramSystem.FirmwareSaysPass | designs/_shared/ice40_firmware.py:647-854 | The generated firmware on the slave says PASS for every byte it receives. |
| LitexSpram.LitexSelectsIff | designs/_shared/up5k_spram.py:3-11 | LiteX's own bank select answers an aligned region exactly when the next address bit up is 0, and no word of it when that bit is 1. |
| LitexSpram.CycleSeen | designs/_shared/up5k_spram.py:6-7 | On the clocked slave with that select, a cycle no bank answers writes nothing and reads 0; one a bank answers is as on the repository's own slave. |
| LitexSpram.LitexTest | designs/_shared/up5k_spram.py:3-11 | At any aligned region of that slave the test passes if and only if the next address bit up is 0; if not it stops at the second word, read 0. |
| LitexSpram.LitexFirmwareSays | designs/_shared/up5k_spram.py:3-11 | The generated firmware on that slave says, for every byte it receives, PASS or that second word's failure, by that bit. |
| LitexSpram.QuotedFailure | designs/_shared/up5k_spram.py:7-8 | At 0x00020000 with 128 KB the line it says is exactly the quoted one. |
| LitexSpram.LitexAnswersReads | designs/_shared/up5k_spram.py:3-11 | There is a memory that answers as any such slave does, whatever is on its wires between the accesses. |
| Release.NameFiles | packaging/release.py:80-88 | Each file under its stored name; an error exactly when two would be stored under one, naming two such files. |
| Release.KeptAre | packaging/release.py:75-77 | What GitHub keeps in a name, by ASCII code: letters, digits and + - . _. |
| Release.StoredNameIdempotent | packaging/release.py:75-77 | A stored name is stored as itself, so names can be compared with GitHub's. |
| Release.NextKeepsInv | packaging/release.py:131-168 | Every call by every run keeps the invariant, of which: a pending deletion means an older release had the name. |
| Release.DeletionLeavesOlder | packaging/release.py:161-165 | In every interleaving, a copy about to be deleted has an older one to leave behind. |
| Release.CarriedForEver | packaging/release.py:131-168 | In every interleaving, a name once carried is carried at every later moment. |
| Release.OldestEverKeepsIt | packaging/release.py:101-105 | The oldest release that ever carried a name carries it still, at every moment. |
| Release.ReturnedStays | packaging/release.py:166-168 | What publish returns is on its release from then on. |
| Release.DonePublished | packaging/release.py:131-168 | When a run has ended well each of its files is on some release, then and for ever. |
| Release.KeptIffSettled | packaging/release.py:158-168 | What a run returns is exactly the names it checked and left on its own release. |
| Release.NeverAgain | packaging/release.py:136-147 | A name that is on a release when a run lists them, or when it last looks, that run never uploads. |
| Release.LaterCheckedIsOlder | packaging/release.py:158-166 | When every run is over, well or not, of two copies left the older one was uploaded after the newer one's check, if that was checked; so the later-checked one is on the older release. |
| Release.OneCopyIff | packaging/release.py:143-166 | When every run is over, well or not, a carried name is on exactly one release if and only if each copy of it that was ever uploaded, gone or not, to any release but the oldest that ever had it, was last checked after the name was first uploaded to an older one, and was not left unchecked. |
| Release.UploadsThenChecks | packaging/release.py:143-166 | So when every upload of a name comes before every check of it, and none is left unchecked, exactly one copy stays. |
| Release.NotCheckedAfter | packaging/release.py:158-166 | At every moment, of two copies there the newer one was not settled by a check after the older one's upload. |
| Release.TwoCopiesCanStay | packaging/release.py:143-166 | Two runs that end well can leave two copies. |
| Release.StoredCopyCanStay | packaging/release.py:150-157 | So they can even if every upload came before every check there was, when gh said one upload failed but stored it. |
| FomuBoard.HeldMeans | designs/_host/fomu_header_id.py:224-236 | The stage called held is reached only by CDONE read high, then CRESET driven low and kept so, then CDONE read low. |
| FomuBoard.DrivenOnlyWhenHeld | designs/_host/fomu_header_id.py:224-244 | In a safe log an SPI line is driven only after that. |
| FomuBoard.DrivenOnlyWhenConfigured | designs/_host/fomu_header_id.py:224-227 | In a safe log nothing is driven before CDONE was read high. |
| FomuBoard.LetGoOnlyWhenFree | designs/_host/fomu_header_id.py:245-249 | In a safe log CRESET is let go only while no SPI line is driven. |
| FomuBoard.OnlyReads | designs/_host/fomu_header_id.py:157-160 | In a safe log everything the flash took, in every transaction, finished or not, is the beginning of a read. |
| FomuBoard.OpcodeIsRead | designs/_host/fomu_header_id.py:56-59 | A whole opcode the flash took is one of READ_ONLY: AB, 05, 35, 15, 9F or 4B. |
| FomuLines.Brought | designs/_host/fomu_header_id.py:92-98 | However far the kernel got, the lines it reached are as configured and the others as they were. |
| FomuLines.BringSafe | designs/_host/fomu_header_id.py:92-119 | Asking for a careful configuration is safe, wherever the kernel stops. |
| FomuLines.Lines.Output | designs/_host/fomu_header_id.py:100-105 | The line counts as driven whatever comes of it; the lines move towards the configuration. |
| FomuLines.Lines.Input | designs/_host/fomu_header_id.py:107-119 | It stays in outputs unless that worked, or a Ctrl-C came on libgpiod v2. |
| FomuLines.Lines.Set | designs/_host/fomu_header_id.py:121-126 | One line's level, counted as driven first. |
| FomuLines.Lines.Get | designs/_host/fomu_header_id.py:128-131 | A line's level as it is on the header, MISO being what the flash shows. |
| FomuHeader.Command | designs/_host/fomu_header_id.py:157-178 | Nothing is sent that is not a read; when nothing fails the flash took exactly the opcode and zeros with CS low, and the bytes returned are its answer; whatever fails, what may be driven is known. |
| FomuHeader.Release | designs/_host/fomu_header_id.py:181-189 | Every line is tried; those still counted as driven are reported stuck. |
| FomuHeader.ReadFlash | designs/_host/fomu_header_id.py:192-206 | When nothing fails the flash took exactly the wake-up, the status read until it was not busy or the deadline, and the four other reads, by their opcodes; what is reported is what it answered to the last five; every status but the last was busy, the first is busy at reset, and it is busy after the wait only if it was asked until the deadline. |
| FomuHeader.WaitFor | designs/_host/fomu_header_id.py:209-217 | The line was read at the other level every time but the last; it ends at the level, or after the last poll. |
| FomuHeader.Close | designs/_host/fomu_header_id.py:133-148 | CRESET is let go only if no SPI line is stuck; the lines are then given back whatever is stuck, all at once or in LINES order; when nothing fails every line was an input before they were; a stuck line is named, and is an error. |
| FomuHeader.Identify | designs/_host/fomu_header_id.py:220-252 | Whatever fails, everything that happened was allowed; when nothing does, nothing is driven any more and the report tells exactly what happened (Tells) and what the board showed (AsShown): no design, CDONE and CRESET read and nothing else; not in reset, CRESET driven low, CDONE read high again, CRESET let go and nothing else; or the reading, what the flash answered from its waking on to the polls and four other reads that are in the log, and whether CDONE rose in time and what it read last, both after every line was let go. |
| FomuHeader.Session | designs/_host/fomu_header_id.py:269-291 | The same for the whole script, on either libgpiod and any board: whatever fails everything is allowed; if nothing does, it is done and nothing is driven; and the report made tells what happened, all by `said`, after which no line is driven. |
| FomuHeader.KindTold | designs/_host/fomu_header_id.py:224-252 | So the kind of report can be told from the log: no design if and only if CDONE read low first, not in reset if and only if it read high first and again with CRESET driven low, else the reading. |
| DnaReader.Reader.Clock | designs/_shared/dna_reader.py:53-77 | One clock of the reader's registers. |
| DnaReader.ReadsDna | designs/_shared/dna_reader.py:46-85 | For every half period, DNA and routing delay shorter than half a port clock: done after exactly 57 port clocks and no sooner, the value then the DNA with its first bit in the MSB, for ever. |
| DnaReader.HostSees | designs/_shared/dna_reader.py:78-83 | In manual mode a host that clocks READ once and then SHIFT has the DNA's bits in order at DOUT, whatever the reader has done or does meanwhile. |
| DnaReader.DelayBoundIsSharp | designs/_shared/dna_reader.py:7-8 | The delay bound is sharp: with a whole half period of delay a first bit of 1 can be read as 0. |
| DnaReader.DnaIsValue | designs/_shared/dna_reader.py:14 | Two DNAs never read alike. |
| UartBreak.Detector.Clock | designs/_shared/uart_break.py:34-49 | One clock of the detector's registers. |
| UartBreak.OncePerBreak | designs/_shared/uart_break.py:28-49 | A maximal low run of synchronised samples gives exactly one pulse if it is longer than `cycles`, and none if not. |
| UartBreak.OnePulse | designs/_shared/uart_break.py:28-49 | The pulse comes when the run is cycles + 1 samples long. |
| UartBreak.StuckLow | designs/_shared/uart_break.py:17-20 | A line stuck low gives one pulse and then nothing. |
| UartBreak.NoPulseHigh | designs/_shared/uart_break.py:35-44 | There is never a pulse but right after a low sample. |
| UartBreak.CountFits | designs/_shared/uart_break.py:32 | The count never exceeds `cycles`. |
| P2Switch.Switch.Clock | designs/_shared/acorn_p2.py:134-157 | One clock of the switch's registers. |
| P2Switch.WriteTakes | designs/_shared/acorn_p2.py:99-108 | From any state, GPIO written to mode shows as GPIO the cycle after, serial as serial, and the timeout is the one last written. |
| P2Switch.StaysExactly | designs/_shared/acorn_p2.py:134-157 | After GPIO is written in any cycle, in any state, with a timeout that stays nonzero and no more writes to mode: GPIO for exactly timeout * tick + 2 cycles, then serial for good. |
| P2Switch.ZeroIsNever | designs/_shared/acorn_p2.py:84-86 | After that write with a timeout of 0, held, it never returns. |
| P2Switch.SerialWritten | designs/_shared/acorn_p2.py:99-108 | After serial is written it is serial until mode is written again. |
| Wiring.Probe.Drive | designs/_host/tt_pmod_wiring.py:871-881 | The pin an output; whether it took is whether the RP2 read the level back; failures are recorded. |
| Wiring.Probe.Sample | designs/_host/tt_pmod_wiring.py:843-854 | It succeeds exactly when every reading agrees with the first, and names the lines that did not. |
| Wiring.Probe.Walk | designs/_host/tt_pmod_wiring.py:935-989 | For any replies, and wherever it fails, which is only on a broken command or a line unstable while sampled: a chosen signal is driven only while no other is but ui_in[0] low, and while none sharing its line is; at the end only ui_in[0] is left driven, low, and what was before and is neither chosen nor a partner; each result is what its own pulse, which is among the events, showed, with exactly that driven which was and is neither chosen nor a partner so far. |
| Wiring.Probe.WalkTwice | designs/_host/tt_pmod_wiring.py:1023-1034 | Both walks are as that; it fails on exactly the signals whose results differ. |
| WiringNets.StepIsExact | designs/_host/tt_pmod_wiring.py:964-977 | On any board whose nets settle and no two of whose chip outputs meet, a signal's results are exactly the Pi lines and RP2 inputs it reaches, directly or through the chip, and no held one. |
| WiringNets.WalkIsExact | designs/_host/tt_pmod_wiring.py:935-989 | On any board no two of whose chip outputs meet, a whole walk whose steps can each be told finds for every chosen signal exactly what it reaches, with what the walk has left driven by then. |
| WiringNets.ReachedByWays | designs/_host/tt_pmod_wiring.py:180-194 | Reached means by a way of nets, each next one the chip's copy of the one before. |
| WiringNets.ReadBack | designs/_host/tt_pmod_wiring.py:871-881 | The RP2 fails to read its own 1 back only on a held net. |
| WiringNets.ChipDoes | designs/_host/tt_pmod_wiring.py:1084-1119 | The factory test's nets: with ui_in[0] low each output not driven otherwise is its uio, with it high both are 0. |
| WiringNets.SharedLines | designs/_host/tt_pmod_wiring.py:121-129 | With the asic cabling two signals share a line exactly when they are ui_in and uio of the same bit, 1 to 3. |
| WiringNets.CablingSettles | designs/_host/tt_pmod_wiring.py:121-129 | With the asic cabling the nets settle whatever the RP2 drives that agrees. |
| WiringNets.SettlesOneWay | designs/_host/tt_pmod_wiring.py:121-129 | And they settle in one way only. |
| WiringNets.SharedPartnersSuit | designs/_host/tt_pmod_wiring.py:155-167 | shared_partners gives each signal everything driven on its line, and never ui_in[0]. |
| WiringNets.PartnersNeverReset | designs/_host/tt_pmod_wiring.py:1748-1799 | Nor do the partners the reverse walk measures, alone or with those, name ui_in[0]. |
| WiringNets.MeasuredShareNet | designs/_host/tt_pmod_wiring.py:1748-1751 | On any board, the measured partners of a signal the reverse walk found are exactly the others it found on the same net. |
| WiringNets.AllPartnersSuit | designs/_host/tt_pmod_wiring.py:1797-1799 | The partners measured and shared together give each signal everything driven on its line, and never ui_in[0]. |
| WiringNets.WalkAgrees | designs/_host/tt_pmod_wiring.py:964-989 | A walk with such partners never drives a net apart. |
| WiringNets.CablingFound | designs/_host/tt_pmod_wiring.py:180-205 | With the asic cabling a pulse shows exactly the signal's expected lines and expected followers that nothing holds. |
| WiringNets.WalkCabled | designs/_host/tt_pmod_wiring.py:1023-1034 | With the asic cabling, whatever holds some of the lines: the two walks fail only on a broken command, and find for every chosen signal exactly its expected lines and followers that nothing holds. |
| WiringNets.GroupsCanWalk | designs/_host/tt_pmod_wiring.py:1774-1790 | That goes for ui_in walked from rest, and for any group with ui_in[0] low, whatever partners were measured. |
| WiringNets.SomeBoard | designs/_host/tt_pmod_wiring.py:121-129 | There is a board with that cabling for whatever holds some of its lines. |
| Photo.Flood | docs/diagrams/canvas.py:179-186 | The queue empties, and the marks are exactly the near-paper pixels joined to the edge through near-paper pixels. |
| Photo.Strokes | docs/diagrams/canvas.py:190-204 | One path for each colour with a pixel to draw; read as SVG it draws that colour's pixels, row by row. |
| Photo.UptoIs | docs/diagrams/canvas.py:191-204 | That list has each wanted pixel once and no other. |
| Photo.DrawPhoto | docs/diagrams/canvas.py:171-204 | Every pixel that is not paper is drawn exactly once, in its own colour, and nothing else is. |
| Edif.Splice | scripts/fix_yosys_edif_libref.py:356-361 | Back to front is the same as all spans at once. |
| Edif.OutsideKept | scripts/fix_yosys_edif_libref.py:356-361 | Every character outside the spans is there still, moved by the replacements before it. |
| Edif.PutWhole | scripts/fix_yosys_edif_libref.py:356-361 | Every replacement is there whole. |
| Edif.IsMarked | scripts/fix_yosys_edif_libref.py:325-342 | A net is one to fix if and only if a pin of it is a port, a pin is a buffer's I or IB, and a property is dont_touch or keep. |
| Edif.UntouchGtRefclkPorts | scripts/fix_yosys_edif_libref.py:350-361 | Those nets' property lines become what is left of them, all at once; their number is counted; nothing else changes. |
| Edif.UntouchedAre | scripts/fix_yosys_edif_libref.py:359 | What is left of a net's lines is each line that is neither dont_touch nor keep, once and in order, and no other. |
| Edif.UntouchedTwice | scripts/fix_yosys_edif_libref.py:350-361 | In the result every net is found where it was moved to, none is one to fix, and fixing again changes nothing and counts none. |
| Edif.BinarizeProperties | scripts/fix_yosys_edif_libref.py:391-423 | An error if and only if a declared value does not fit its width, and it names one; otherwise each declared property is rewritten, the rest unchanged, and the count is how many declared properties there are. |
| Edif.WidthKept | scripts/fix_yosys_edif_libref.py:414 | The digits give the value back, and there are exactly as many as the width if and only if it fits. |
| Edif.DigitsSay | scripts/fix_yosys_edif_libref.py:414 | A number's digits, in any base to ten, are a numeral of it without leading zeros. |
| Edif.DocumentedProperty | scripts/fix_yosys_edif_libref.py:55-57 | The documented example: (integer 1023) at width 10 is written 10'b1111111111. |
| Edif.ValuesKept | scripts/fix_yosys_edif_libref.py:405-414 | Every rewritten property reads as the same value at exactly its width. |
| Edif.Idempotent | scripts/fix_yosys_edif_libref.py:391-423 | In its own result every instance is found where it was moved to, none can fail, none is counted, and putting the rewritten properties there changes nothing. |
| Edif.BinarizeTwice | scripts/fix_yosys_edif_libref.py:391-423 | Run on the text it returned it returns that text, with a count of 0. |
| Edif.FixEdif | scripts/fix_yosys_edif_libref.py:154-180 | One name after another in any order is the same as all duplicated cells at once, and the total is how many references were stale. |
| Edif.NoneStale | scripts/fix_yosys_edif_libref.py:154-180 | Afterwards every reference names the cell it named, in the design's library if that is duplicated and as it was if not; fixing again changes nothing. |
| PortRanges.RunsOf | scripts/collect_verify_status.py:331-338 | The runs of a sorted list give it back, repeats and all, and none could be longer. |
| PortRanges.DistinctRunsApart | scripts/collect_verify_status.py:331-338 | For distinct ports the runs are in order, disjoint and with a gap between each two. |
| PortRanges.Compact | scripts/collect_verify_status.py:318-340 | The switches in order, each with the runs of its sorted ports, then the other addresses as they are. |
| PortRanges.ParsePorts | scripts/collect_verify_status.py:106-121 | The pairs a spec lists, or its first malformed part. |
| PortRanges.MalformedIff | scripts/collect_verify_status.py:111-120 | A part is malformed if and only if it has no items, or a number of an item cannot be read, or its switch cannot and some item lists a port. |
| PortRanges.PairsListed | scripts/collect_verify_status.py:106-121 | A pair is in the result if and only if some part is of its switch and an item's range has its port. |
| PortRanges.CompactParsesBack | scripts/collect_verify_status.py:318-340 | What compact prints, read by parse_ports's rules, is the ports it was given, each as often, in order. |
| PortRanges.DistinctCompact | scripts/collect_verify_status.py:318-340 | For distinct addresses each switch's runs are in order, disjoint and as long as they can be. |

## Left out

- Real time and baud rates: cycles, instructions and polls are counted; a deadline is a number of polls, and
  a sleep a moment a Ctrl-C may come in.
- The receive FIFO's depth: a byte that finds it full never enters it, and is not counted as received.
- LiteX, migen and the vendor primitives themselves: SB_SPRAM256KA, DNA_PORT, CSRStorage and the UART's CSRs are modelled
  by their documented behaviour; their sources are not part of this model.
- ALU and memory instructions the generator does not emit.
- ensure_release, the upload's file handling and every other subprocess call.
- FomuHeader.Session: the times in the reading (boot_seconds), which only say whether CDONE rose; the search for the GPIO chip and the printed line; a process killed outright, after which the kernel
  frees the lines; a failure while the lines are first requested, before anything can be driven.
- FomuLines.Lines.Input: a Ctrl-C is taken to come in an operation of the kernel or a pause, not between two statements.
- FomuHeader.Close: the order of the lines it releases first is any order, a dictionary's insertion order not being part
  of the model.
- P2Switch.Switch.Clock: a bus write and the switch's own write in one cycle: the bus write is taken to win, as in LiteX.
- Wiring.Probe.Walk: the log lines, and walk_together, the reverse walk, the latch test and the verdicts.
- WiringNets.StepIsExact: the chip after a reset, its counter 0; a net in a loop of the chip's own outputs and inputs is
  taken to hold its level while nothing reaches it.
- The fpga cabling profile: with the factory test only the asic one is walked through the chip.
- The MicroPython command server and the serial protocol: one reply or a failure for each command.
- Photo: reading, resizing and quantising the image, and the colour distance that makes a pixel near paper; the text of
  the SVG path, whose pieces are modelled.
- Edif: regular expressions; what they match is given as spans, pins and tokens, and the GT buffers' instances as a set.
  The iopad removal. fix_edif's error for a file without the two library sections.
- PortRanges: the text of the spec and of the summary; a number that int() refuses is a value of its own.
