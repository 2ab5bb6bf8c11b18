# Verified model of the AppleTV5,3 (J42d, T7000) native tooling

This project models the parts of the repository that change hardware, file systems or stores and promise to undo or to
finish what they began, and the parsers and solvers those depend on. Loops, registers, arrays and shell state are
classes and methods; what they compute is specified by functions, and the promises are lemmas about those functions or
postconditions of the methods.

Kernel calls, device registers and shell commands are nondeterministic: a call may fail, a device may ignore a write or
read as all ones, a command may be the one that fails. Every statement below is for all such behaviours; where a device
is taken to answer, as when the PCI host reads what it will save, "Left out" says so. Which writes a device takes and
which reads it answers are inputs: what a run leaves is stated exactly for each device, so that a method which stops
writing, stops checking or stops early does not meet its contract.

## What is modelled

**The layered PCIe probe** (`windows-native/wifi/pmu-probe`). `BoardState` holds the hardware and the trace of a run;
`PowerDomains`, `PhyStage` with `PhySteps`, `MsiPort` with `MsiAllocator`, `DartLifetime` and `RadioStage` are the
layers, nested as the module nests its callbacks, and `ProbeOptions` is the gate on the module parameters. A trace is
lawful (`Replay` succeeds) only if layers open on what they need, close in strict last-in first-out order, hardware is
written back only after everything that depends on it is gone, the radio is powered on only while PERST has been seen
driven low, and the radio layer is left with power-off requested. It is also lawful only if no layer closes before what
it changed has been written back: each register write is an event of the trace, a changed register is owed until its
former value is written or it is found to read as all ones (`RegistersComeBack`), and PERST gets its saved configuration
back exactly unless the radio has not been seen off (`PerstComesBackIff`). Every method keeps the trace lawful, on
success and on every failure path, so a rollback that stops at an earlier error has no lawful trace. Nesting is strict in
the full sense: each closing has its opening, with the same layers live around both and all of them live in between
(`CloseHasOpen`). What a trace says was seen is what the register held.

`PowerDomains.Init` then states the end-to-end results. If the internal result is 0 and `cycle` is set, the LTSSM
control, PERST, WL_REG_ON, bus numbers, MSI port registers, device tree nodes, consumers and the whole PHY bank have their
entry values, the three domains are off, exactly the stages that the options ask for have run, and the radio's power was
only ever changed while PERST had been seen low; without `cycle` nothing is changed at all. Whatever the result, if
registers take and answer and clean-up calls succeed (`Orderly`), all that hardware but the domain registers is back,
whichever kernel calls and checks failed on the way, with the two exceptions named below for values that read as all
ones; and if nothing fails (`Flawless`) on a board at rest, the internal result is 0. Whatever the result, with
`scan_iommu` the DART device is live at every moment at which a PCI host exists, and with `scan_msi` the MSI domain too.

**The temporary PCI host** (`a1625_pci_scan.h`). `CapabilityWalk` proves the bounded list walks right on every
configuration space, cyclic lists included. `ConfigFilter`, `ConfigRestore`, `ConfigRecovery` and `HostScan` are the
snapshot, the write filter, the restore and what its readbacks prove, on two 4 KiB pages down to their bits, for every
device; `ConfigLaws` writes out in full which writes are accepted, which registers are owned and which bits come back.

**The firmware fence** (patch 0003). `FirmwareFence` is the two-thread protocol with any number of removers.

**The Alpine resolver** (`A1625DevelopmentTools.psm1`): `PackageResolver`, the depth-first search over any graph.

**Snapshots and transactions.** `ArchivePath`, `UstarHeader`, `SafeTar` and `UstarRoundTrip` are the streaming archive
validator and the writer its tests use, and `ArchiveLaws` writes out in full which paths and archives are accepted;
`RamRestore` and `ToolInstall` are the two shell transactions with their traps; `SnapshotStore` is the
generation-then-pointer store with a crash after any step.

**The Apple Device Tree parser** (`inspect_adt.py`): `AppleDeviceTree`, with its theorems in `DeviceTreeTheorems`.

## What turned out different from what one would expect

- The radio can be powered off while PERST is high: if driving the line low again fails after the link was up, the error
  is returned and WL_REG_ON is still written. Power-on is always under a PERST seen low; power-off is exactly when the
  last attempt to hold PERST did not fail (`PowerOffUnderResetIff`), `PowerOffCanBeUnheld` is a lawful trace where
  it is not, and in a run that reports 0 it always is.
- A write to the endpoint's word at 0xbc is accepted by a special rule in the firmware stage, but comes back only if saved
  controls cover it. They do exactly when some saved register covers the word, as with a PCI Express capability at 0xac
  (`LinkWordIff`, `ExpressAtAc`); `LinkWordEscapes` gives the write that stays otherwise.
- The restore's readbacks catch every ignored write except in a register whose saved bits are all ones: a device that
  does not answer looks restored there (`DeadCanPass`).
- The capability walk reports a malformed list in all cases but one: an illegal pointer that is the 49th, after all 48
  places (`IllegalWithinBound`; `MalformedYetMissed` is such a list). Its answer to "is the capability there" is right
  without exception.
- The extended walk is complete only within its 256 pointers; `ScanExtCap` says exactly that.
- RAM restore is all or nothing for every failing command exactly when `/run/work` is absent or a directory
  (`AtomicIffDirectory`): the trap moves back directories only, so a file, FIFO, socket or device node there is lost.
- The overlay of RAM restore copies into existing files in place, and the copied home keeps its hard links. So it changes
  exactly the allowed files of the snapshot when no copy has the last word on another name of its file with something
  else (`OverlayAsMeantIff`); a file of the old home that is a second name of an overlaid one takes the snapshot's
  content (`SecondNameSpoiled`).
- The install writes the git script into whatever file `/opt/bin/a1625-git` leads to, through a symbolic link or because
  it is another name of the same file, and the marker's text likewise. So a run that does not commit leaves root, lock and
  what every path reads as unchanged exactly when the marker is absent or a regular file and neither text goes to a file
  that has a name besides the wrappers and the marker (`RollbackIff`). Such files are kept in all runs exactly when
  neither text goes to one (`OutsideKeptIff`); `ForeignFileLost` is the case where one is lost, committed or not. A link
  that leads to itself, to a directory, or into a directory that does not exist makes the redirection fail and loses
  nothing.
- A committed install leaves the wrappers as meant exactly when `a1625-git` was neither a link nor another name of a
  wrapper that stays, and the marker's text does not replace a wrapper (`CommittedWrappersIff`); if `a1625-git` links to
  the launcher, the git script replaces the launcher and the run commits (`LauncherOverwritten`).
- A marker that is a directory stops every install after the swap, and the trap, which cannot remove it, never releases
  the lock (`DirectoryMarkerKeepsLock`). A committed run whose last removal fails blocks every later install
  (`LeftoverRootBlocks`).
- The link state machine's control word 0xfffffffe reads as all ones once the machine is started, like a port that does not
  answer: it is then not written back, and the run ends in an error (`RadioStage.Tellable` excludes it where hardware is
  promised to be back in spite of an error; a result of 0 needs no such condition).
- The same holds for a PHY register that a step makes all ones: the step fails and so does its undo. With a device that
  takes and answers, preparing succeeds exactly if no step meets or leaves such a value, and rolling back the same way
  (`Core.Prepare`, `Core.Rollback`, `VisibleBothWays`).
- PHY rollback stops writing only when a register reads as all ones before its write; an all-ones readback after the
  write fails the run and goes on with the next step (`Core.Rollback`).

## Model

| member | source | states |
|---|---|---|
| PowerDomains.Init | windows-native/wifi/pmu-probe/a1625_pcie_domains.c:532-584 | refused options change nothing; without `cycle` nothing changes; with it an internal result of 0 means every layer's hardware and the PHY bank equal their entry values, all domains are off, exactly the stages asked for have run (`Asked`) and the radio's power changed only under a PERST seen low; whatever the result, if registers take and answer and clean-up succeeds the hardware and the PHY bank are back; if nothing fails on a board at rest the internal result is 0; with scan_iommu every PCI host lives inside the DART device's life, with scan_msi inside the MSI domain's |
| PowerDomains.RunMarksIff | windows-native/wifi/pmu-probe/a1625_pcie_domains.c:498-519 | with accepted options a run opens the PHY, MSI, DART, radio, link, host and driver layers and powers the radio exactly for the options that ask for each |
| PowerDomains.WithDomains | windows-native/wifi/pmu-probe/a1625_pcie_domains.h:26-184 | no rollback failure of any layer is swallowed; without `cycle` nothing happens; an orderly environment gives everything but the domain registers back, whatever else fails |
| PowerDomains.Cycle | windows-native/wifi/pmu-probe/a1625_pcie_domains.h:69-176 | acquisition, inner run and reverse release end with no layer open and nothing owed; result 0 means back to rest with every stage run; nothing failing on a board at rest means result 0 |
| PowerDomains.Baseline | windows-native/wifi/pmu-probe/a1625_pcie_domains.h:55-68 | a cycling run starts only from three domains without any of the bits 0x900004ff, and is not refused when they answer without them |
| PowerDomains.Acquire | windows-native/wifi/pmu-probe/a1625_pcie_domains.h:69-132 | whatever fails, exactly the first r domains are powered and in use, new consumers are accounted for, and exactly the forced domains owe their AUTO bit; success with force_active means all three read fully on; it succeeds if nothing fails |
| PowerDomains.AttachDomain | windows-native/wifi/pmu-probe/a1625_pcie_domains.h:70-95 | a consumer is only ever newly registered; attached only if registered |
| PowerDomains.ResumeDomain | windows-native/wifi/pmu-probe/a1625_pcie_domains.h:97-109 | success means the domain reads on without RESET or DISABLE; the layer is open exactly if power was taken |
| PowerDomains.ForceDomain | windows-native/wifi/pmu-probe/a1625_pcie_domains.h:112-130 | the saved AUTO bit is the register's before the change and is owed from then on; success means fully on; other domains untouched |
| PowerDomains.ReleaseDomain | windows-native/wifi/pmu-probe/a1625_pcie_domains.h:137-163 | an earlier error is never cleared; AUTO is written back if it was suppressed, the domain suspended if it was powered and the consumer detached, each whatever failed before; a consumer remains only if detaching failed |
| PowerDomains.GiveAutoBack | windows-native/wifi/pmu-probe/a1625_pcie_domains.h:139-144 | the owed AUTO bit is written back with its saved value while later domains are released |
| PowerDomains.Release | windows-native/wifi/pmu-probe/a1625_pcie_domains.h:135-164 | reverse release from any partial acquisition, whatever failed before: nothing stays open or owed; all consumers are as before if the result is 0 or detaching works |
| PowerDomains.Verify | windows-native/wifi/pmu-probe/a1625_pcie_domains.h:165-176 | result 0 means no domain has any of the bits 0x900004ff; readable domains without them change no result |
| ProbeOptions.Gate | windows-native/wifi/pmu-probe/a1625_pcie_domains.c:535-580 | accepts exactly the option sets whose dependencies hold |
| ProbeOptions.FirmwareBringsEverything | windows-native/wifi/pmu-probe/a1625_pcie_domains.c:535-580 | binding the firmware implies every outer stage; inner stages imply forced-active domains and a prepared PHY; standalone probes never meet the radio |
| ProbeOptions.EveryStageAccepted | windows-native/wifi/pmu-probe/a1625_pcie_domains.c:535-580 | every stage can be asked for: the standalone probes, the chip snapshot with its EROM, and each step of the scan up to the firmware driver |
| BoardState.DriverIsCovered | windows-native/wifi/pmu-probe/a1625_pcie_domains.c:384-530 | at every moment of every lawful trace: a driver implies all nine outer layers are live, a PCI device implies link, radio, PHY and domains are |
| BoardState.ReplayIsGrounded | windows-native/wifi/pmu-probe/a1625_pcie_domains.c:384-530 | whatever a live layer needs is live and was opened before it |
| BoardState.CloseHasOpen | windows-native/wifi/pmu-probe/a1625_pcie_domains.c:384-530 | every closing in a lawful trace has its opening before it; the layers live around the two are the same, and they and the layer itself are live all the time between |
| BoardState.OpenedAt | windows-native/wifi/pmu-probe/a1625_pcie_domains.c:384-530 | every live layer was opened on top of exactly the layers below it, which have been live since |
| BoardState.AroundEveryHost | windows-native/wifi/pmu-probe/a1625_pcie_domains.c:478-519 | a layer that was live at every opening of a PCI host is live whenever a host exists |
| BoardState.RegistersComeBack | windows-native/wifi/pmu-probe/a1625_pcie_domains.c:384-530 | for every lawful run, whatever its result: when a layer closes, each register it changed has been written back with what it held before, or was found to read as all ones |
| BoardState.PerstComesBackIff | windows-native/wifi/pmu-probe/a1625_radio_pulse.h:147-168 | for every lawful run, whatever its result: when the radio layer closes, PERST has got its saved configuration back since it was last driven, exactly unless the radio has not been seen off since it was powered |
| BoardState.OwedIsLive | windows-native/wifi/pmu-probe/a1625_pcie_domains.c:384-530 | a register still to be written back belongs to a live layer, so with no layer open nothing is owed |
| BoardState.Board.EnterHost | windows-native/wifi/pmu-probe/a1625_pci_scan.h:529-571 | a PCI host opens only above the link and after the bus numbers have been recorded as owed; what is live then stays among the layers live at every such opening |
| PhyStage.Scans | windows-native/wifi/pmu-probe/a1625_pcie_domains.c:511-518 | with scan_iommu the pulse and its PCI scan run only inside the DART device's life, with scan_msi inside the MSI domain's too; result 0 means that the stages asked for have run and that their hardware is as before |
| PhyStage.Probes | windows-native/wifi/pmu-probe/a1625_pcie_domains.c:505-510 | the standalone MSI and DART probes open no PCI host in a run that scans; result 0 means that those asked for have run and that their hardware is as before |
| BoardState.PerstNeedsRadioOff | windows-native/wifi/pmu-probe/a1625_radio_pulse.h:147-168 | PERST's saved configuration is written back only after the radio read as 0 since its last power write |
| BoardState.PowerOnUnderReset | windows-native/wifi/pmu-probe/a1625_radio_pulse.h:119-132 | WL_REG_ON is written with power on only after PERST was seen driven low and not touched since |
| BoardState.PowerOffUnderResetIff | windows-native/wifi/pmu-probe/a1625_pcie_domains.c:435-443 | power-off happens under a PERST seen low exactly when the last attempt to hold it did not fail |
| BoardState.PowerOffCanBeUnheld | windows-native/wifi/pmu-probe/a1625_pcie_domains.c:435-443 | a lawful trace whose power-off happens with PERST not known to be low; that a run of the pulse makes this trace is not stated |
| BoardState.NeverLostAlwaysHeld | windows-native/wifi/pmu-probe/a1625_radio_pulse.h:119-149 | if holding PERST never fails, every power write happens under a PERST seen low |
| BoardState.RadioLeftOff | windows-native/wifi/pmu-probe/a1625_radio_pulse.h:147-159 | outside the radio layer the last value asked of WL_REG_ON is 0, on every path, whether or not the write took |
| BoardState.ProperAt | windows-native/wifi/pmu-probe/a1625_pcie_domains.c:384-530 | every event of a lawful trace was permitted at its moment |
| BoardState.Board.Enter | windows-native/wifi/pmu-probe/a1625_pcie_domains.c:384-530 | a layer opens only above lower ones and with its needs live |
| BoardState.Board.Leave | windows-native/wifi/pmu-probe/a1625_pcie_domains.c:384-530 | only the innermost layer closes, owing no register; the radio with power-off asked for and PERST given back exactly unless the radio has not been seen off; the link after an attempt to hold PERST whose outcome is recorded |
| BoardState.Board.ChangeReg | windows-native/wifi/pmu-probe/a1625_pcie_domains.c:411-411 | the recorded change is the write: the register takes the value if the device takes the write, and its old value is owed |
| BoardState.Board.UndoReg | windows-native/wifi/pmu-probe/a1625_pcie_domains.c:427-427 | only the owed value may be written back, only after everything that depends on it is gone |
| BoardState.Board.Alive | windows-native/wifi/pmu-probe/a1625_pcie_domains.c:425-434 | a register is given up only after it was read as all ones, which one that answers does only if it holds them |
| BoardState.Board.SetPower | windows-native/wifi/pmu-probe/a1625_radio_pulse.h:130-149 | WL_REG_ON is written only as `Proper` allows, and the write is the recorded event |
| BoardState.Board.GivePerstBack | windows-native/wifi/pmu-probe/a1625_radio_pulse.h:160-161 | PERST's saved configuration is written only with the radio off or untouched, and the write is the recorded event |
| BoardState.Board.Expose | windows-native/wifi/pmu-probe/a1625_pci_scan.h:529-556 | before a host exists the bus numbers are recorded as owed, so the host stage cannot close without writing them back |
| RadioStage.Pulse | windows-native/wifi/pmu-probe/a1625_radio_pulse.h:34-183 | result 0 means PERST and WL_REG_ON have their entry values and every stage asked for has run; without `pulse` nothing is written; if writes are taken PERST has its entry value unless the radio was not seen off; if registers also answer everything is back whatever else failed; nothing failing from the baseline means result 0 |
| RadioStage.RadioLifetime | windows-native/wifi/pmu-probe/a1625_radio_pulse.h:119-168 | from driving PERST low to giving it back, on every path |
| RadioStage.OnAndOff | windows-native/wifi/pmu-probe/a1625_radio_pulse.h:119-168 | the rollback follows whatever went wrong: power-off is asked for, and PERST is given back exactly unless the radio was not seen off |
| RadioStage.PowerOn | windows-native/wifi/pmu-probe/a1625_radio_pulse.h:119-146 | power is untouched unless PERST was seen low first; PERST is seen low at the end or the result is an error; the observer's hardware is restored on success |
| RadioStage.PowerUp | windows-native/wifi/pmu-probe/a1625_radio_pulse.h:129-142 | result 0 means the radio reads on and PERST was seen low after it |
| RadioStage.PowerOff | windows-native/wifi/pmu-probe/a1625_radio_pulse.h:147-168 | an earlier error is kept and stops nothing: power-off is asked for if the radio may be on, and PERST gets its saved configuration back exactly unless the radio is not seen off; result 0 means both registers have their saved values; if writes are taken and registers answer both have them and the earlier result is returned |
| RadioStage.Baseline | windows-native/wifi/pmu-probe/a1625_radio_pulse.h:85-103 | only the exact baseline is accepted, and it is if nothing fails |
| RadioStage.RestoreReset | windows-native/wifi/pmu-probe/a1625_radio_pulse.h:160-168 | may only run with the radio off or untouched; the write is always made; success means the saved configuration reads back |
| RadioStage.HeldRadio | windows-native/wifi/pmu-probe/a1625_pcie_domains.c:384-444 | at the end PERST was seen low, or the attempt to hold it failed and the result is an error; result 0 means LTSSM, bus numbers and host node are as before |
| RadioStage.LinkLifetime | windows-native/wifi/pmu-probe/a1625_pcie_domains.c:404-443 | releasing PERST is followed by holding it, or by an error that says that this failed; LTSSM, bus numbers and node are back on success and in an orderly environment |
| RadioStage.HeldAgain | windows-native/wifi/pmu-probe/a1625_pcie_domains.c:404-443 | whatever happens while PERST is released, it is then driven low again |
| RadioStage.HoldReset | windows-native/wifi/pmu-probe/a1625_pcie_domains.c:435-438 | result 0 exactly when PERST was then seen low |
| RadioStage.Train | windows-native/wifi/pmu-probe/a1625_pcie_domains.c:411-434 | result 0 means the LTSSM control is back and the link was looked at; in an orderly environment it is back whatever failed, unless its started value is all ones |
| RadioStage.StartLink | windows-native/wifi/pmu-probe/a1625_pcie_domains.c:411-416 | the state machine is started, the control word then being the saved one plus 1; the saved word is owed |
| RadioStage.StopLink | windows-native/wifi/pmu-probe/a1625_pcie_domains.c:425-434 | whatever failed before, the saved LTSSM control is written back unless the port reads as all ones; result 0 means it is there and nothing failed before |
| RadioStage.Endpoint | windows-native/wifi/pmu-probe/a1625_pcie_domains.c:290-382 | result 0 means the bus numbers are as before, also when the inner scan changed them, and that the scan asked for has run; in an orderly environment they are back whatever failed |
| RadioStage.Routed | windows-native/wifi/pmu-probe/a1625_pcie_domains.c:317-372 | with bus 1 routed meanwhile: the route is taken back whatever failed inside |
| RadioStage.Reroute | windows-native/wifi/pmu-probe/a1625_pcie_domains.c:317-324 | the route adds secondary and subordinate bus 1 and nothing else; the former value is owed |
| RadioStage.Unroute | windows-native/wifi/pmu-probe/a1625_pcie_domains.c:362-372 | the former bus numbers are written back unless the port reads as all ones, and success means they are there |
| RadioStage.PciScan | windows-native/wifi/pmu-probe/a1625_pci_scan.h:483-617 | host and driver open and close inside the link; result 0 means bus numbers and device tree node are as before and the host, with the driver if asked for, existed |
| RadioStage.WithNode | windows-native/wifi/pmu-probe/a1625_pci_scan.h:524-621 | the node is removed on every path after the host is gone; a failed removal becomes the result; if detaching works it is gone |
| RadioStage.HostLifetime | windows-native/wifi/pmu-probe/a1625_pci_scan.h:529-611 | a failed setup opens nothing; a rejected write or a failed restore makes the result non-zero; the saved bus numbers are written back whatever the bus reported |
| RadioStage.Bus | windows-native/wifi/pmu-probe/a1625_pci_scan.h:556-571 | the bus exists from enumeration to its removal, and the bus numbers are owed from before it |
| RadioStage.HostRestore | windows-native/wifi/pmu-probe/a1625_pci_scan.h:572-608 | runs only after the bus is gone |
| RadioStage.Firmware | windows-native/wifi/pmu-probe/a1625_pci_scan.h:420-478 | the driver is bound only inside host, DART and MSI lifetimes and is always released |
| RadioStage.NodeCreate | windows-native/wifi/pmu-probe/a1625_pci_node.h:32-73 | an existing node is never touched; an attached node is remembered |
| RadioStage.NodeRemove | windows-native/wifi/pmu-probe/a1625_pci_node.h:11-30 | result 0 means a created node is detached, also after a partial apply; if detaching works it is detached whatever the revert reported |
| DartLifetime.WithDart | windows-native/wifi/pmu-probe/a1625_dart_lifetime.h:18-144 | the device is always gone at the end; the node is gone too and the inner hardware as before if the result is 0 or the environment orderly |
| DartLifetime.Bound | windows-native/wifi/pmu-probe/a1625_dart_lifetime.h:101-115 | the callback runs only while the device is live, and has run if the result is 0 |
| DartLifetime.Operate | windows-native/wifi/pmu-probe/a1625_pcie_domains.c:478-486 | the device is published to the scan only while the callback runs |
| DartLifetime.Detach | windows-native/wifi/pmu-probe/a1625_dart_lifetime.h:116-136 | the node is gone if the result is 0 or detaching works, whether apply or revert failed half way |
| MsiPort.WithMsi | windows-native/wifi/pmu-probe/a1625_msi.h:108-213 | result 0 means both port registers are as before, all eight interrupts have been handed out at least once and none is left; the domain is gone before the port is restored; the registers are written back whatever failed inside |
| MsiPort.Lifetime | windows-native/wifi/pmu-probe/a1625_msi.h:142-207 | from creating the domain to restoring the port registers, on every path |
| MsiPort.Unprogram | windows-native/wifi/pmu-probe/a1625_msi.h:202-207 | both registers are written back with 0, and success means they read so |
| MsiPort.Live | windows-native/wifi/pmu-probe/a1625_msi.h:146-201 | a leaked interrupt makes the result non-zero; from here on both port registers are owed |
| MsiPort.SelfTest | windows-native/wifi/pmu-probe/a1625_msi.h:158-190 | result 0 means eight interrupts were handed out with the expected messages; whatever fails, everything the test allocated is freed; only the kernel can make it fail |
| MsiPort.AllocOne | windows-native/wifi/pmu-probe/a1625_msi.h:158-177 | one interrupt in the lowest free slot, with that slot's message, or nothing changed |
| MsiPort.Leaked | windows-native/wifi/pmu-probe/a1625_msi.h:191-193 | the bitmap test finds a leak exactly when an allocation is live |
| MsiAllocator.Msi.Alloc | windows-native/wifi/pmu-probe/a1625_msi.h:46-73 | the exact result: EINVAL for a bad count, ENOMEM exactly without an aligned free region, else the parent's; success adds the lowest such region, failure changes nothing |
| MsiAllocator.Msi.Free | windows-native/wifi/pmu-probe/a1625_msi.h:75-90 | frees any range of live interrupts, whole allocations or parts: exactly their slots and their data |
| MsiAllocator.Msi.FindFreeRegion | windows-native/wifi/pmu-probe/a1625_msi.h:57-61 | the lowest aligned free region, and ENOMEM only if there is none |
| MsiAllocator.MessagesInRange | windows-native/wifi/pmu-probe/a1625_msi.h:29-34 | live messages are 8..15 and the parent index is the message plus 224 |
| MsiAllocator.UnionIsUsed | windows-native/wifi/pmu-probe/a1625_msi.h:46-90 | if nothing was freed in part, the slots of the live allocations are exactly the bitmap |
| MsiAllocator.RegionsDisjoint | windows-native/wifi/pmu-probe/a1625_msi.h:46-90 | allocations of which nothing was freed have disjoint slots |
| MsiAllocator.Adding | windows-native/wifi/pmu-probe/a1625_msi.h:55-72 | allocating keeps all messages different and the bitmap exact |
| MsiAllocator.Removing | windows-native/wifi/pmu-probe/a1625_msi.h:81-86 | so does freeing any live interrupts |
| MsiAllocator.Numbering | windows-native/wifi/pmu-probe/a1625_msi.h:69-71 | a new allocation is aligned, has its slots' messages and shares no interrupt |
| MsiAllocator.Resetting | windows-native/wifi/pmu-probe/a1625_msi.h:87-89 | allocations of which nothing is freed keep their interrupts and messages |
| MsiAllocator.UnusedIffNothingLive | windows-native/wifi/pmu-probe/a1625_msi.h:192-193 | the bitmap is zero exactly when nothing is allocated |
| PhyStage.WithPhy | windows-native/wifi/pmu-probe/a1625_pcie_phy.h:47-176 | result 0 means the whole register bank and all inner hardware are as before and every stage asked for has run; a radio that is on is refused and nothing changes; in an orderly environment the hardware, and a bank whose registers never read as all ones, are back whatever failed |
| PhyStage.ReadyPhy | windows-native/wifi/pmu-probe/a1625_pcie_domains.c:498-519 | stages run only on a prepared PHY and each only after success; result 0 means all their hardware is as before |
| PhyStage.Prepared | windows-native/wifi/pmu-probe/a1625_pcie_phy.h:97-168 | rollback runs after every inner layer is closed, also after partial preparation and after any inner error |
| PhyStage.InPhy | windows-native/wifi/pmu-probe/a1625_pcie_phy.h:133-152 | the prepared PHY is a layer around everything that uses it; result 0 means their hardware is as before |
| PhySteps.RollbackRestores | windows-native/wifi/pmu-probe/a1625_pcie_phy.h:98-129 | any masked steps, repeated registers and overlapping masks allowed, stopped anywhere, with any writes lost: the reverse rollback gives the whole bank back |
| PhySteps.UndoOne | windows-native/wifi/pmu-probe/a1625_pcie_phy.h:116-121 | undoing one step restores the bank whether or not the hardware took it |
| PhySteps.TakenAnyway | windows-native/wifi/pmu-probe/a1625_pcie_phy.h:161-168 | a readback that matches proves the register restored, even after a lost write |
| PhySteps.Core.Prepare | windows-native/wifi/pmu-probe/a1625_pcie_phy.h:98-129 | result 0 means the bank is that of all steps taken and read back; the remembered steps always unwind to the entry bank and are those of the program, with entry 11 replaced so that the stack stays contiguous; with a device that takes and answers the result is 0 exactly if no step meets or leaves a register of all ones |
| PhySteps.PortEnabled | windows-native/wifi/pmu-probe/a1625_pcie_phy.h:57-96 | every bit of the block after a complete preparation, for each option: internal blocks enabled, counter command and clock control as asked for, no other bit changed |
| PhySteps.SetBits | windows-native/wifi/pmu-probe/a1625_pcie_phy.h:98-129 | after any masked steps a bit has what the last step with that bit in its mask gives it, and otherwise its entry value |
| PhySteps.VisibleBothWays | windows-native/wifi/pmu-probe/a1625_pcie_phy.h:98-170 | if no step on the way up meets a register of all ones, none on the way down does |
| PhySteps.Core.TakeStep | windows-native/wifi/pmu-probe/a1625_pcie_phy.h:110-128 | one more step of the program: the bank and the stack are those of the steps so far as the device took them |
| PhySteps.Core.ApplyStep | windows-native/wifi/pmu-probe/a1625_pcie_phy.h:110-126 | result 0 exactly if the register showed something else than all ones before and after the write and the readback has the step's bits, and then the bank has them; a register that does not answer is not written; the step is remembered before the write |
| PhySteps.PreparedLegibly | windows-native/wifi/pmu-probe/a1625_pcie_phy.h:97-170 | a successful preparation on a device that takes and answers can be rolled back whole |
| PhySteps.Core.Rollback | windows-native/wifi/pmu-probe/a1625_pcie_phy.h:154-170 | result 0 means the bank is restored and no read was all ones; with a device that takes and answers the result is 0 exactly if no undo meets or leaves all ones; it stops early only at a register that reads as all ones before its write, and nothing is written after that |
| PhySteps.Core.RollbackStep | windows-native/wifi/pmu-probe/a1625_pcie_phy.h:155-169 | the register gets its remembered bits if the device takes the write; one verified undo keeps the remaining goal; every write lies between two reads of its register |
| PhySteps.Core.WriteBack | windows-native/wifi/pmu-probe/a1625_pcie_phy.h:157-169 | the exact accesses of one undo: read, write, read, or a read of all ones and nothing else |
| CapabilityWalk.ScanCap | windows-native/wifi/pmu-probe/a1625_pci_scan.h:36-48 | a position is returned exactly if the id is on some legal path, however long; it is the first; EINVAL exactly for an illegal pointer among the first 48 |
| CapabilityWalk.Shorten | windows-native/wifi/pmu-probe/a1625_pci_scan.h:36-48 | any match has one among the first 48 pointers, cycles included |
| CapabilityWalk.Pigeonhole | windows-native/wifi/pmu-probe/a1625_pci_scan.h:36-48 | a longer walk has been at some place twice |
| CapabilityWalk.NotFound | windows-native/wifi/pmu-probe/a1625_pci_scan.h:38-47 | leaving the loop means the capability is absent |
| CapabilityWalk.IllegalWithinBound | windows-native/wifi/pmu-probe/a1625_pci_scan.h:38-47 | a malformed list is missed only when the illegal pointer is the 49th |
| CapabilityWalk.MalformedYetMissed | windows-native/wifi/pmu-probe/a1625_pci_scan.h:38-47 | a list that is malformed there and answered with "not found" |
| CapabilityWalk.ScanExtCap | windows-native/wifi/pmu-probe/a1625_pci_scan.h:50-66 | exact answer within 256 pointers, first match, exact EINVAL condition |
| ConfigFilter.RegistersSound | windows-native/wifi/pmu-probe/a1625_pci_scan.h:81-143 | every layout saves at most 26 registers, each aligned, inside its page and apart from those restored separately |
| ConfigFilter.AcceptedInPage | windows-native/wifi/pmu-probe/a1625_pci_scan.h:186-232 | an accepted write is aligned and inside its page |
| ConfigFilter.ControlsDecide | windows-native/wifi/pmu-probe/a1625_pci_scan.h:186-221 | an accepted write passed the base rules or a saved control that names its register, and without such a control the base rules stand |
| ConfigLaws.AcceptedIff | windows-native/wifi/pmu-probe/a1625_pci_scan.h:172-238 | for any sound controls, every state, register and value: the filter accepts exactly the listed writes (command without premature master, the base addresses of each function, two bus number values, bridge control without reset, ROM without enable, all of secondary status, saved registers within their power and link conditions, and the three registers of the firmware driver), and passes on exactly the write, narrowed at 0xbc |
| ConfigLaws.RejectedIff | windows-native/wifi/pmu-probe/a1625_pci_scan.h:229-232 | a run is rejected exactly if some write of it was not permissible when it happened |
| ConfigLaws.SavedIff | windows-native/wifi/pmu-probe/a1625_pci_scan.h:81-143 | the saved controls are exactly the listed registers |
| ConfigLaws.KeptButTwo | windows-native/wifi/pmu-probe/a1625_pci_scan.h:81-143 | their masks keep every bit but PME status and link retraining |
| ConfigLaws.EverythingComesBack | windows-native/wifi/pmu-probe/a1625_pci_scan.h:574-608 | after any run of writes every bit of both pages is back, except those two of each function and the transient words that no saved register covers |
| ConfigRestore.RestoreAfterAnyRun | windows-native/wifi/pmu-probe/a1625_pci_scan.h:574-608 | after any run of writes, every bit that its saved masks keep returns to its entry value, except the named transient ones |
| ConfigRestore.AcceptedIsOwned | windows-native/wifi/pmu-probe/a1625_pci_scan.h:186-232 | an accepted write touches only restored or transient bits |
| ConfigRestore.LinkWordIff | windows-native/wifi/pmu-probe/a1625_pci_scan.h:207-221 | the word at 0xbc is restored by every run exactly when saved controls cover it |
| ConfigRestore.ExpressAtAc | windows-native/wifi/pmu-probe/a1625_pci_scan.h:96-104 | with the PCI Express capability at 0xac they do |
| ConfigRestore.RejectionIsLatched | windows-native/wifi/pmu-probe/a1625_pci_scan.h:229-232 | the flag is set exactly if some write of the run was refused |
| ConfigRestore.MasterStaysClear | windows-native/wifi/pmu-probe/a1625_pci_scan.h:186-222 | before the firmware stage no sequence of writes sets a Bus Master Enable bit |
| ConfigRestore.FixedComesBack | windows-native/wifi/pmu-probe/a1625_pci_scan.h:587-606 | the registers restored last hold their entry values whole |
| HostScan.ScanHost.ConfigWrite | windows-native/wifi/pmu-probe/a1625_pci_scan.h:172-238 | one write is exactly one step of the specified filter; it succeeds exactly if the function exists and the write is permissible, and a refused or ignored write changes nothing |
| HostScan.ScanHost.SaveControls | windows-native/wifi/pmu-probe/a1625_pci_scan.h:81-143 | the stored controls are exactly the layout's registers with their entry values; it succeeds exactly if everything to be saved is there, in D0 and with MSI off |
| HostScan.ScanHost.SaveCaps | windows-native/wifi/pmu-probe/a1625_pci_scan.h:86-104 | the saved controls belong to the capabilities that are really there, in D0; ENODEV exactly if they are not there |
| HostScan.ScanHost.Scan | windows-native/wifi/pmu-probe/a1625_pci_scan.h:503-611 | it runs exactly from a quiet state in which everything to be saved is found; else nothing changes. What it leaves is, for every device, exactly the saved values in the registers whose write it takes; the result is that of the run exactly if every readback agrees and no write was refused, else EIO. On a device that takes and answers, the pages are those of the specified restore and only a refused write changes the result. A result of 0 means every bit the readbacks can tell is restored; both masters stay clear until the firmware stage |
| HostScan.ScanHost.RestoreAll | windows-native/wifi/pmu-probe/a1625_pci_scan.h:574-608 | for every device: exactly the registers whose write it takes get their saved values, nothing else changes, and it reports whether every readback agrees; if so every kept and telling bit has its entry value, whatever was ignored or not answered |
| HostScan.PerfectRestores | windows-native/wifi/pmu-probe/a1625_pci_scan.h:574-608 | on a device that takes every write and answers every read the restore gives everything back and every readback agrees |
| HostScan.ScanHost.PutBack | windows-native/wifi/pmu-probe/a1625_pci_scan.h:574-585 | one saved register: written if the device takes it, and the comparison's exact outcome |
| HostScan.ScanHost.Drive | windows-native/wifi/pmu-probe/a1625_pci_scan.h:172-238 | any sequence of writes is a run of the specification |
| HostScan.QuiescentMasters | windows-native/wifi/pmu-probe/a1625_pci_scan.h:503-520 | a scan starts with both Bus Master Enable bits clear |
| HostScan.QuiescentIff | windows-native/wifi/pmu-probe/a1625_pci_scan.h:503-520 | the state a scan starts from, bit by bit: both identities, both commands zero, bus numbers 0, 1 and 1, no secondary reset, no ROM decoded |
| HostScan.LocatedOnce | windows-native/wifi/pmu-probe/a1625_pci_scan.h:86-104 | the capabilities of a function are determined by its lists |
| HostScan.SavedReadsBack | windows-native/wifi/pmu-probe/a1625_pci_scan.h:578-585 | a write that is taken is what the masked readback shows |
| HostScan.ScanHost.VerifyFixed | windows-native/wifi/pmu-probe/a1625_pci_scan.h:604-607 | the closing comparison proves the registers that were not read back before |
| ConfigRecovery.ReadbackProves | windows-native/wifi/pmu-probe/a1625_pci_scan.h:578-585 | a readback that shows the saved value proves every kept bit, unless the saved bits are all ones |
| ConfigRecovery.DeadCanPass | windows-native/wifi/pmu-probe/a1625_pci_scan.h:578-585 | if they are, a device that does not answer passes with any content |
| ConfigRecovery.RecoveredMore | windows-native/wifi/pmu-probe/a1625_pci_scan.h:574-603 | later writes keep what earlier readbacks proved, up to the bits they cover |
| ConfigRecovery.RestoredDespiteLosses | windows-native/wifi/pmu-probe/a1625_pci_scan.h:574-608 | after a run with ignored writes, a restore whose readbacks agree gives every kept and telling bit back |
| ConfigRecovery.PerfectWrites | windows-native/wifi/pmu-probe/a1625_pci_scan.h:574-603 | a device that takes every write gets the specified write-back |
| FirmwareFence.NeverTouchedAfterFree | windows-native/wifi/kernel-patches/0003-wait-for-pcie-firmware-setup.patch:25-36 | in every interleaving the device state is freed at most once and never used afterwards |
| FirmwareFence.NoDeadlock | windows-native/wifi/kernel-patches/0003-wait-for-pcie-firmware-setup.patch:32-36 | no reachable state is stuck |
| FirmwareFence.RunsEnd | windows-native/wifi/kernel-patches/0003-wait-for-pcie-firmware-setup.patch:43-54 | in a run of any variant no more steps happen than the measure of its initial state |
| FirmwareFence.EverybodyFinishes | windows-native/wifi/kernel-patches/0003-wait-for-pcie-firmware-setup.patch:25-54 | from every reachable state of the patched protocol some continuation gets everybody through |
| FirmwareFence.OnlyPatchedIsRight | windows-native/wifi/kernel-patches/0003-wait-for-pcie-firmware-setup.patch:25-54 | of the four variants of fence and signal order exactly the patched one is safe and free of deadlock |
| PackageResolver.Resolve | windows-native/development-tools/A1625DevelopmentTools.psm1:49-100 | success means distinct, closed, reachable, conflict-free packages in dependency order; each failure names an atom that justifies it |
| PackageResolver.Search.Visit | windows-native/development-tools/A1625DevelopmentTools.psm1:71-90 | the recursive visit keeps the search invariant on any graph and terminates |
| PackageResolver.Push | windows-native/development-tools/A1625DevelopmentTools.psm1:86-88 | starting an unseen package keeps the invariant |
| PackageResolver.PopOrdered | windows-native/development-tools/A1625DevelopmentTools.psm1:88-89 | finishing one keeps the order: each dependency comes earlier or leads back to the package |
| PackageResolver.Pop | windows-native/development-tools/A1625DevelopmentTools.psm1:88-89 | finishing one keeps the whole invariant |
| PackageResolver.TopologicalOrder | windows-native/development-tools/A1625DevelopmentTools.psm1:71-91 | without cycles every dependency comes strictly before |
| PackageResolver.NothingMissing | windows-native/development-tools/A1625DevelopmentTools.psm1:71-91 | every package reachable from the roots is in the result |
| PackageResolver.CheckConflicts | windows-native/development-tools/A1625DevelopmentTools.psm1:92-98 | refused exactly for a negative dependency that names a member |
| PackageResolver.FirstClash | windows-native/development-tools/A1625DevelopmentTools.psm1:93-97 | one member's dependencies are refused exactly if one of them, after its !, names a member |
| PackageResolver.BuildProviders | windows-native/development-tools/A1625DevelopmentTools.psm1:57-64 | the table lists all providers in index order; fails exactly for an alternative |
| PackageResolver.Newest | windows-native/development-tools/A1625DevelopmentTools.psm1:84-84 | a provider of the highest version |
| PackageResolver.FoundExactly | windows-native/development-tools/A1625DevelopmentTools.psm1:72-85 | what an atom finds: nothing for an alternative; the last package of its name if there is one; else a provider of the highest version among those its version constraint admits; nothing exactly if there is none |
| PackageResolver.ProvidersAre | windows-native/development-tools/A1625DevelopmentTools.psm1:57-64 | the table lists a package under a name exactly if one of its provided atoms has that name; building it fails exactly for an alternative |
| PackageResolver.LastOfName | windows-native/development-tools/A1625DevelopmentTools.psm1:55-56 | a name stands for the last package of that name |
| PackageResolver.StemIs | windows-native/development-tools/A1625DevelopmentTools.psm1:41-47 | the name in an atom ends before the first of < > = ~ |
| ArchivePath.StaysInside | windows-native/ram-state/A1625RamState.psm1:60-64 | followed segment by segment, a permitted path stays below run/work or is a listed home file |
| ArchivePath.FollowGrows | windows-native/ram-state/A1625RamState.psm1:60-64 | without dot segments a path only goes down |
| ArchiveLaws.UnderIff | windows-native/ram-state/A1625RamState.psm1:60-64 | run/work followed by any segments is permitted exactly if no byte is a backslash or control character, no segment is "." or "..", and no segment but the last is empty |
| ArchiveLaws.PermittedIff | windows-native/ram-state/A1625RamState.psm1:60-64 | a path is permitted exactly if it is run/work with such segments or one of the seven listed home files |
| UstarHeader.ReadWritten | windows-native/tests/A1625RamState.Tests.ps1:16-34 | the validator reads a written header back, or refuses it exactly when the entry is not permitted |
| UstarHeader.ChecksumWritten | windows-native/tests/A1625RamState.Tests.ps1:29-33 | the written checksum is the one the validator computes |
| UstarHeader.ChecksumCounts | windows-native/ram-state/A1625RamState.psm1:93-95 | the checksum is the sum of all bytes outside its own field, and 256 for that field |
| UstarHeader.OctalRoundTrip | windows-native/tests/A1625RamState.Tests.ps1:11-12 | octal fields keep their numbers |
| UstarHeader.NumberFits | windows-native/ram-state/A1625RamState.psm1:91-103 | no numeric field exceeds the 64-bit integers it is converted to |
| UstarHeader.TrimPadded | windows-native/ram-state/A1625RamState.psm1:91-99 | trimming removes exactly the padding |
| SafeTar.Validate | windows-native/ram-state/A1625RamState.psm1:65-126 | the verdict is a function of the byte stream, however the decompressor splits its reads |
| SafeTar.AcceptedIsSafe | windows-native/ram-state/A1625RamState.psm1:74-126 | accepted entries are permitted, distinct without trailing slashes and within every limit; TarBytes is the stream length, whole blocks, headers plus rounded data plus end marker and trailer; only zeros follow |
| SafeTar.UnpacksInside | windows-native/ram-state/A1625RamState.psm1:60-106 | unpacking an accepted archive writes nowhere else |
| SafeTar.ReadTrailer | windows-native/ram-state/A1625RamState.psm1:78-90 | accepted exactly if all zero, whole blocks, at least one and at most 1 MiB, for any chunking |
| SafeTar.ReadData | windows-native/ram-state/A1625RamState.psm1:107-119 | the digest gets exactly the data and never the padding |
| SafeTar.CheckHeader | windows-native/ram-state/A1625RamState.psm1:91-106 | the ordered checks accept exactly the specified headers |
| SafeTar.HeaderSum | windows-native/ram-state/A1625RamState.psm1:93-95 | the sum counts the checksum field as spaces |
| UstarRoundTrip.RoundTrip | windows-native/tests/A1625RamState.Tests.ps1:13-43 | any list of writable entries is accepted exactly when it is storable, and then with exactly its paths, sizes, kinds and data |
| UstarRoundTrip.RoundTripTrailed | windows-native/ram-state/A1625RamState.psm1:78-90 | the same with any number of zeros after the end marker: accepted exactly if they are a trailer |
| ArchiveLaws.AcceptedIff | windows-native/ram-state/A1625RamState.psm1:65-126 | in numbers: an archive is accepted exactly if it has 1 to 4096 entries with paths as above and different up to trailing slashes, no special mode bits, plain files or empty directories of at most 64 MiB, 512 MiB in all, and 1 to 2048 blocks of zeros after the end marker; the report lists exactly its entries |
| ArchiveLaws.SnapshotIff | windows-native/ram-state/A1625RamState.psm1:90-120 | the entries that can be stored are those |
| UstarRoundTrip.AdmittedIs | windows-native/ram-state/A1625RamState.psm1:101-120 | the running checks amount to distinct paths and total limits |
| RamRestore.AtomicIffDirectory | windows-native/ram-state/A1625RamState.psm1:180-232 | work and home are both old or both new for every failing command, exactly when /run/work is absent or a directory; a file, FIFO, socket or device node there is lost |
| RamRestore.OverlayIsExact | windows-native/ram-state/A1625RamState.psm1:216-226 | at every name the new home has what the last copy into its file brought, made private, and otherwise what the old home had; names of one file stay names of one file |
| RamRestore.OverlayKeepsNames | windows-native/ram-state/A1625RamState.psm1:219-226 | copying never joins or separates the names of a file |
| RamRestore.OverlayAsMeantIff | windows-native/ram-state/A1625RamState.psm1:216-226 | exactly the allowed files of the snapshot change, each to its own content, exactly when no copy to another name of a file has the last word on it with something else |
| RamRestore.OverlayAsMeantAlone | windows-native/ram-state/A1625RamState.psm1:216-226 | so it is if no overlaid file has a second name in the old home |
| RamRestore.OverlaidIsPrivate | windows-native/ram-state/A1625RamState.psm1:216-226 | every overlaid file ends up private, with the snapshot's data unless another overlaid name shares its file |
| RamRestore.OthersAreKept | windows-native/ram-state/A1625RamState.psm1:216-226 | a file that is neither overlaid nor another name of an overlaid one is kept |
| RamRestore.OrdinaryRestore | windows-native/ram-state/A1625RamState.psm1:197-232 | with no failing command and no obstacle the restore commits: the snapshot's work directory, and a home with the snapshot's version, private, of every listed file in it and otherwise the old files |
| RamRestore.SecondNameSpoiled | windows-native/ram-state/A1625RamState.psm1:216-226 | a second name of an overlaid file takes the snapshot's content although it is not in the list |
| RamRestore.AllowlistsAgree | windows-native/ram-state/A1625RamState.psm1:219-219 | the files the overlay copies are exactly the home files the archive test permits |
| RamRestore.Device.Restore | windows-native/ram-state/A1625RamState.psm1:180-232 | the script's final disk is the specified outcome, whatever kind of node is at /run/work; success is reported only after commit |
| RamRestore.Device.Transaction | windows-native/ram-state/A1625RamState.psm1:185-232 | from the lock to the end of the trap: the final disk for every failing command |
| RamRestore.Device.Prepare | windows-native/ram-state/A1625RamState.psm1:199-227 | succeeds exactly if the archive and the old home pass every check and no command fails; the live directories are only read |
| RamRestore.Device.Swap | windows-native/ram-state/A1625RamState.psm1:228-231 | commits only with both directories new; before that everything needed to go back is kept |
| RamRestore.Device.Rollback | windows-native/ram-state/A1625RamState.psm1:185-196 | restores saved directories unless committed and releases the lock |
| RamRestore.Device.OverlayFiles | windows-native/ram-state/A1625RamState.psm1:219-226 | the copy loop produces the specified home or stops at a blocked file |
| ToolInstall.RollbackIff | windows-native/development-tools/Install-A1625DevelopmentTools.ps1:119-207 | every run that does not commit leaves root, lock and what every path reads as unchanged, exactly when the marker is absent or a regular file and neither the git script nor the marker's text is written to a file with a name besides the wrappers and the marker, by symbolic or hard link |
| ToolInstall.OutsideKeptIff | windows-native/development-tools/Install-A1625DevelopmentTools.ps1:122-207 | no file with a name besides the wrappers and the marker is created or changed in any run, exactly when neither the git script nor the marker's text is written to one |
| ToolInstall.NothingEscapesWithoutLinks | windows-native/development-tools/Install-A1625DevelopmentTools.ps1:187-205 | if neither a1625-git nor the marker is a symbolic link or has another name outside, neither text is |
| ToolInstall.ForeignFileLost | windows-native/development-tools/Install-A1625DevelopmentTools.ps1:134-205 | a file that a1625-git links to, or that is another name of the same file, is overwritten, whether the run commits or is rolled back |
| ToolInstall.CommittedWrappersIff | windows-native/development-tools/Install-A1625DevelopmentTools.ps1:177-206 | a committed run leaves every wrapper as meant exactly when a1625-git was neither a link nor another name of a wrapper that stays with other content, and the marker's text replaces no wrapper |
| ToolInstall.CommittedInstall | windows-native/development-tools/Install-A1625DevelopmentTools.ps1:173-207 | after any committed run the root is the new layer, the lock is free, the old root is gone unless its removal failed, and the marker reads as the layer's line unless it leads to a special file |
| ToolInstall.OrdinaryInstall | windows-native/development-tools/Install-A1625DevelopmentTools.ps1:119-207 | on a device as an earlier install or none left it, a sound layer commits if no command fails: launcher, git script and links in place, every other wrapper following the layer's programs, the marker naming the layer, no other file changed |
| ToolInstall.LauncherOverwritten | windows-native/development-tools/Install-A1625DevelopmentTools.ps1:178-206 | if a1625-git links to the launcher, the run commits with the git script in the launcher's place |
| ToolInstall.DirectoryMarkerKeepsLock | windows-native/development-tools/Install-A1625DevelopmentTools.ps1:124-207 | with a directory in the place of the marker no run commits and the lock stays for ever |
| ToolInstall.LeftoverRootBlocks | windows-native/development-tools/Install-A1625DevelopmentTools.ps1:116-207 | a commit that cannot remove the old root blocks every later run |
| ToolInstall.LinksFollowPrograms | windows-native/development-tools/Install-A1625DevelopmentTools.ps1:180-186 | a linked wrapper leads to the launcher if the layer has its program, is gone if it led there and the layer has not, and is untouched otherwise |
| ToolInstall.ChangedKeeps | windows-native/development-tools/Install-A1625DevelopmentTools.ps1:177-206 | the changes reach files with other names only through the two escaping writes, and never make or remove a directory |
| ToolInstall.WrappersAreAll | windows-native/development-tools/Install-A1625DevelopmentTools.ps1:122-122 | every wrapper is named exactly once |
| ToolInstall.Host.Install | windows-native/development-tools/Install-A1625DevelopmentTools.ps1:119-207 | the script's final disk is the specified outcome |
| ToolInstall.Host.ChangeWrappers | windows-native/development-tools/Install-A1625DevelopmentTools.ps1:177-206 | files and success after the wrapper stage, at whatever command it stops |
| ToolInstall.Host.Redirect | windows-native/development-tools/Install-A1625DevelopmentTools.ps1:187-205 | a redirection follows links, empties the file first and writes under all its names; it fails, changing nothing, at a directory, in a loop of links and where the directory is missing |
| ToolInstall.PutAt | windows-native/development-tools/Install-A1625DevelopmentTools.ps1:187-205 | writing into a file changes all its names to the text and no other path |
| ToolInstall.Host.Cleanup | windows-native/development-tools/Install-A1625DevelopmentTools.ps1:124-149 | what the trap restores, and when it ends without releasing the lock |
| ToolInstall.Host.RestoreFiles | windows-native/development-tools/Install-A1625DevelopmentTools.ps1:134-142 | wrappers and marker after the trap, from whatever the run left |
| ToolInstall.Host.RestoreWrappers | windows-native/development-tools/Install-A1625DevelopmentTools.ps1:134-141 | the loop over all names gives every wrapper back and touches nothing else |
| ToolInstall.Host.BackupWrappers | windows-native/development-tools/Install-A1625DevelopmentTools.ps1:155-159 | the backup holds exactly the wrappers that exist; one that leads to a directory stops the run |
| ToolInstall.Host.SwapRoot | windows-native/development-tools/Install-A1625DevelopmentTools.ps1:173-176 | the old root can always be put back |
| SnapshotStore.SaveIsAtomic | windows-native/ram-state/Save-A1625RamState.ps1:21-23 | after a crash at any step the store is consistent and current is the old or the new snapshot |
| SnapshotStore.EveryHistory | windows-native/ram-state/Save-A1625RamState.ps1:21-23 | so after any sequence of complete and interrupted saves |
| SnapshotStore.NeverGoesBack | windows-native/ram-state/Save-A1625RamState.ps1:21-23 | after a completed save the current snapshot is its own or that of a later attempt |
| SnapshotStore.CurrentIff | windows-native/ram-state/A1625RamState.psm1:43-49 | a snapshot is current exactly if the file `current` holds its name, blanks aside, and the file of that name holds it |
| SnapshotStore.TrimmedIff | windows-native/ram-state/A1625RamState.psm1:44-44 | trimming finds exactly the word between the blanks |
| SnapshotStore.GenerationWrite | windows-native/ram-state/Save-A1625RamState.ps1:21-22 | writing a generation never disturbs what is current |
| SnapshotStore.PointerWrite | windows-native/ram-state/Save-A1625RamState.ps1:23-23 | moving the pointer never leaves it dangling |
| SnapshotStore.WrittenOnlyAtLast | windows-native/codex-state/A1625CodexState.psm1:150-177 | until its last step a write leaves the file as it was; then the file has the new data, its former content is beside it, and nothing else has changed |
| SnapshotStore.NeighboursDiffer | windows-native/codex-state/A1625CodexState.psm1:156-157 | temporary and backup names are never a generation or the pointer |
| SnapshotStore.Store.WriteAtomicBytes | windows-native/codex-state/A1625CodexState.psm1:150-177 | each step of the write does to the files what the specification says |
| SnapshotStore.Store.Save | windows-native/ram-state/Save-A1625RamState.ps1:21-23 | generation first, pointer second |
| SnapshotStore.Store.ReadCurrent | windows-native/ram-state/A1625RamState.psm1:41-48 | the reader accepts only a generation whose hash fits its name |
| AppleDeviceTree.ParseTree | windows-native/wifi/inspect_adt.py:11-48 | the parser with its moving cursor computes the specified result |
| AppleDeviceTree.Parser.Node | windows-native/wifi/inspect_adt.py:23-45 | one node and all below it, with cursor and node table |
| AppleDeviceTree.Parser.Property | windows-native/wifi/inspect_adt.py:31-36 | one property with its flag bit, duplicate check and padding |
| DeviceTreeTheorems.RoundTrip | windows-native/wifi/tests/test_inspect_adt.py:11-16 | any tree that can be written, with any lengths flagged, parses to its flattened paths and properties if it is within the limits and no path repeats, and is rejected otherwise |
| DeviceTreeTheorems.TruncationFails | windows-native/wifi/tests/test_inspect_adt.py:34-38 | every strict prefix of anything the serializer writes is rejected |
| DeviceTreeTheorems.AcceptedIff | windows-native/wifi/inspect_adt.py:23-48 | in numbers: accepted exactly if no node is deeper than 64, none has more than 4096 properties or children, keys are ASCII and differ, names are ASCII, not empty and below the root without a slash, there are at most 10001 nodes, and no two siblings share a name |
| DeviceTreeTheorems.NodeComesBack | windows-native/wifi/inspect_adt.py:23-45 | so for a node anywhere in a dump, with any nodes before it |
| DeviceTreeTheorems.NameIs | windows-native/wifi/inspect_adt.py:37-39 | a node's name is its property "name" without the zeros at the end, and nothing without that property |
| DeviceTreeTheorems.TreePathsDiffer | windows-native/wifi/inspect_adt.py:40-42 | paths repeat exactly when sibling names do |
| DeviceTreeTheorems.AcceptedShape | windows-native/wifi/inspect_adt.py:40-48 | whatever the bytes, the result has a root, no path twice, and every entry's parent before it |
| DeviceTreeTheorems.NodeExtends | windows-native/wifi/inspect_adt.py:15-21 | an accepted dump stays accepted, with the same result, when bytes follow |

## Left out

- Read-only, write-one-to-clear and self-changing bits of real configuration registers: configuration space is plain memory there; the transient bits are excluded by name.
- HostScan.ScanHost.Scan: the reads that take the snapshot are answered; a device that reads as all ones there would have those ones written back. Lost answers are covered from the restore on, lost writes from the first write on.
- RadioStage.Endpoint: identification reads, the chip snapshot with its own BAR rollback and the EROM reader only report success or failure.
- RadioStage.Firmware: attach, fault snapshots and the hold loop only report success or failure; writes of the driver that reach the device around the filter are not part of this model.
- BoardState.PowerOffCanBeUnheld: it exhibits a lawful trace and its power-off; that some run of RadioStage.Pulse produces this trace is not stated, because a method promises what holds of all its runs.
- BoardState.Board.ChangeReg: whether the device takes the n-th write is an input of the run; other calls fail or not in four groups (register maps and MMIO reads, detaching nodes and consumers, the PHY block, everything else), which is what the promises about failing runs distinguish. A call or check that only reports can fail, but has no effect that could be missed.
- PowerDomains.ManagePower: what runtime power management does to the registers of a smooth run is taken from the kernel, not modelled.
- PhyStage.ReadyPhy: root port and DART snapshots are read-only and only report; the page mapping test inside the DART lifetime only reports.
- PowerDomains.ReleaseDomain: the AUTO bit written back is not observed later, because suspending the domain may change the register; only the final check of 0x900004ff is.
- CapabilityWalk.ScanExtCap: completeness ends at 256 pointers, as in the code; longer extended lists are not claimed.
- HostScan.ScanHost.ConfigWrite: the read operation and the endpoint MSI checks after enumeration are not modelled.
- MsiAllocator.Msi.Free: interrupts in delivery, and a second caller between clearing the bits and freeing the parents, are not modelled.
- MsiPort.Live: what the driver allocates and frees meanwhile is any later state of the allocator, not interleaved with the inner layers.
- Delays, jiffies, timeouts and log lines of the probe; I/O memory mapping and region ownership only as calls that may fail.
- FirmwareFence.OnlyPatchedIsRight: the callback's work and the removal are single steps on the shared state; the rest of the driver is not part of this model.
- PackageResolver.Resolve: an unversioned atom without a provider is refused, as the message of the test intends; in the source the looked-up list is then an array with one null element, so its count is 1 and that test does not refuse it, and whether the call stops afterwards depends on the error preference, which the module does not set. Also, names are compared exactly, not case-insensitively as PowerShell's tables do; versions are totally ordered numbers; how a versioned atom narrows its providers is a parameter, because the source's filter uses the automatic variable `$Matches` it has just assigned; the results hold for any filter.
- PackageResolver.Search.Visit: the same intended test for an unversioned atom without a provider is modelled there.
- ConvertFrom-A1625ApkIndex, package hashes and downloads.
- SafeTar.Validate: gzip itself, its 256 MiB limit on the compressed bytes and its checksum; the stream is what the decompressor yields. Any thrown error is one rejection; messages are not told apart.
- SafeTar.ReadData: SHA-256 is not computed; what is stated is which bytes it is given.
- UstarRoundTrip.RoundTrip: names and prefixes are ASCII, as the writer encodes them; the validator itself is modelled on any UTF-8.
- RamRestore.Device.Restore: a failing command, not a signal, stops the run, so a signal between a move and the flag after it is not covered; the commands of the trap succeed; what is inside a node that is not a directory is one text.
- RamRestore.OverlayIsExact: modes and owners of the copied files are not modelled beyond "private".
- RamRestore.Device.OverlayFiles: directories in the place of allowed home files and symbolic links inside .ssh are reduced to blocked or not blocked.
- ToolInstall.Host.Install: a failing command, not a signal, stops the run; /run/a1625-layer, which is deleted and rebuilt, file modes, zram setup and the launcher's own contents are not modelled; places are canonical paths, so two different ones never name the same directory entry, and links into the directories that the script itself moves are not followed there; hard links to files below those directories are not modelled; wrappers that were names of one file come back as separate files; the commands of the trap succeed, but for removing a directory in the place of the marker.
- SnapshotStore.Store.ReadCurrent: the 400 MiB limit, decryption and the envelope behind a current generation are not modelled.
- SnapshotStore.Store.WriteAtomicBytes: rename and replace are one step each; a torn write leaves half of the data in the temporary file; encryption and the envelope are not modelled.
- AppleDeviceTree.ParseTree: decoding errors and the error classes are one rejection; `summarize` and the command line are not modelled.
- Boot orchestration, USB, SSH, HTTP, serial and Windows networking; the Wi-Fi supervision scripts; the firmware uploader.
