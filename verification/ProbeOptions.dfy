/** The module parameters and the gate on their combinations (a1625_pcie_domains.c, lines 26-71, 107-155 and 535-580). */
module ProbeOptions {
  import opened Errno

  datatype Options = Options(
    cycle: bool, forceActive: bool, snapshot: bool, preparePort: bool, inspectPrefix: bool, testRefclk: bool,
    inspectRc: bool, inspectDart: bool, probeDart: bool, mapDart: bool, testDmaRange: bool, probeMsi: bool,
    pulseRadio: bool, trainLink: bool, identifyEndpoint: bool, identifyChip: bool, inspectErom: bool,
    scanPci: bool, scanIommu: bool, scanMsi: bool, assignMemory: bool, bindFirmware: bool,
    holdSeconds: nat, holdUntilSignal: bool)

  /** What each option asks of the others. */
  predicate Accepted(o: Options) {
    && (o.snapshot ==> o.cycle)
    && (o.forceActive ==> o.cycle)
    && (o.preparePort ==> o.snapshot)
    && (o.inspectPrefix ==> o.preparePort)
    && (o.inspectRc ==> o.inspectPrefix)
    && (o.testRefclk ==> o.inspectPrefix)
    && (o.inspectDart ==> o.testRefclk)
    && (o.probeDart ==> o.inspectDart && o.forceActive && !o.pulseRadio)
    && (o.mapDart ==> o.probeDart)
    && (o.testDmaRange ==> o.mapDart || o.scanIommu)
    && (o.pulseRadio ==> o.testRefclk && o.inspectRc && o.forceActive)
    && (o.trainLink ==> o.pulseRadio)
    && (o.identifyEndpoint ==> o.trainLink)
    && (o.identifyChip ==> o.identifyEndpoint)
    && (o.inspectErom ==> o.identifyChip)
    && (o.scanPci ==> o.identifyEndpoint && !o.identifyChip)
    && (o.scanIommu ==> o.scanPci && o.inspectDart && !o.probeDart && !o.mapDart)
    && (o.scanMsi ==> o.scanIommu)
    && (o.assignMemory ==> o.scanMsi)
    && (o.bindFirmware ==> o.assignMemory)
    && (o.holdSeconds > 0 ==> o.bindFirmware && o.holdSeconds <= 3600)
    && (o.holdUntilSignal ==> o.bindFirmware && o.holdSeconds == 0)
    && (o.probeMsi ==> o.testRefclk && o.forceActive && !o.pulseRadio && !o.probeDart)
  }

  /** The checks in the order they are made. */
  method Gate(o: Options) returns (ret: int)
    ensures ret == if Accepted(o) then 0 else EINVAL
  {
    if o.snapshot && !o.cycle {
      return EINVAL;
    }
    if o.forceActive && !o.cycle {
      return EINVAL;
    }
    if o.preparePort && (!o.snapshot || !o.cycle) {
      return EINVAL;
    }
    if o.inspectPrefix && !o.preparePort {
      return EINVAL;
    }
    if o.inspectRc && !o.inspectPrefix {
      return EINVAL;
    }
    if o.testRefclk && !o.inspectPrefix {
      return EINVAL;
    }
    if o.inspectDart && !o.testRefclk {
      return EINVAL;
    }
    if o.probeDart && (!o.inspectDart || !o.forceActive || o.pulseRadio) {
      return EINVAL;
    }
    if o.mapDart && !o.probeDart {
      return EINVAL;
    }
    if o.testDmaRange && !o.mapDart && !o.scanIommu {
      return EINVAL;
    }
    if o.pulseRadio && (!o.testRefclk || !o.inspectRc || !o.forceActive) {
      return EINVAL;
    }
    if o.trainLink && !o.pulseRadio {
      return EINVAL;
    }
    if o.identifyEndpoint && !o.trainLink {
      return EINVAL;
    }
    if o.identifyChip && !o.identifyEndpoint {
      return EINVAL;
    }
    if o.inspectErom && !o.identifyChip {
      return EINVAL;
    }
    if o.scanPci && (!o.identifyEndpoint || o.identifyChip) {
      return EINVAL;
    }
    if o.scanIommu && (!o.scanPci || !o.inspectDart || o.probeDart || o.mapDart) {
      return EINVAL;
    }
    if o.scanMsi && !o.scanIommu {
      return EINVAL;
    }
    if o.assignMemory && !o.scanMsi {
      return EINVAL;
    }
    if o.bindFirmware && !o.assignMemory {
      return EINVAL;
    }
    if o.holdSeconds > 0 && (!o.bindFirmware || o.holdSeconds > 3600) {
      return EINVAL;
    }
    if o.holdUntilSignal && (!o.bindFirmware || o.holdSeconds > 0) {
      return EINVAL;
    }
    if o.probeMsi && (!o.testRefclk || !o.forceActive || o.pulseRadio || o.probeDart) {
      return EINVAL;
    }
    return 0;
  }

  /** Binding the firmware driver brings every layer with it, and every inner stage needs the prepared PHY in the
      forced-active domains. The standalone DART and MSI probes never run with the radio on. */
  lemma FirmwareBringsEverything(o: Options)
    requires Accepted(o)
    ensures o.bindFirmware ==>
      && o.cycle && o.forceActive && o.preparePort && o.testRefclk && o.inspectRc && o.inspectDart && o.pulseRadio
      && o.trainLink && o.identifyEndpoint && o.scanPci && o.scanIommu && o.scanMsi && !o.identifyChip && !o.probeMsi
    ensures o.pulseRadio || o.probeDart || o.probeMsi || o.scanIommu ==> o.forceActive && o.preparePort && o.cycle
    ensures o.pulseRadio ==> !o.probeDart && !o.probeMsi
    ensures o.scanIommu || o.scanMsi ==> o.pulseRadio
  {
  }

  const NOTHING: Options := Options(false, false, false, false, false, false, false, false, false, false, false, false,
                                    false, false, false, false, false, false, false, false, false, false, 0, false)

  /** Domains and PHY with the reference clock test, ready for a probe. */
  const PORT: Options := NOTHING.(cycle := true, forceActive := true, snapshot := true, preparePort := true,
                                  inspectPrefix := true, testRefclk := true)

  /** The radio with a trained link and its endpoint. */
  const LINKED: Options := PORT.(inspectRc := true, pulseRadio := true, trainLink := true, identifyEndpoint := true)

  /** The PCI scan behind the DART and the MSI domain. */
  const SCANNED: Options := LINKED.(inspectDart := true, scanPci := true, scanIommu := true, scanMsi := true, assignMemory := true)

  /** Every stage can be asked for: the standalone probes, the chip snapshot and its EROM, and each step of the scan up to
      the firmware driver, held for up to an hour or until a signal. */
  lemma EveryStageAccepted(seconds: nat)
    requires seconds <= 3600
    ensures Accepted(NOTHING) && Accepted(NOTHING.(cycle := true)) && Accepted(PORT) && Accepted(LINKED)
    ensures Accepted(PORT.(probeMsi := true))
    ensures Accepted(PORT.(inspectDart := true, probeDart := true, mapDart := true, testDmaRange := true))
    ensures Accepted(LINKED.(identifyChip := true, inspectErom := true)) && Accepted(LINKED.(scanPci := true))
    ensures Accepted(SCANNED.(bindFirmware := true, testDmaRange := true, holdSeconds := seconds))
    ensures Accepted(SCANNED.(bindFirmware := true, holdUntilSignal := true))
  {
  }
}
