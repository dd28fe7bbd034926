# Generic PM domains: a verified model of the power-domain state machine

This project models the core of the Linux generic power-domain layer
(`drivers/base/power/domain.c`). The layer manages a graph of PM domains.
Each domain is powered (`GPD_STATE_ACTIVE`) or off (`GPD_STATE_POWER_OFF`),
and links join a subdomain (the *slave*) to the domain that powers it (the
*master*). A domain's `sd_count` counts the powered subdomains that hold it on.

The model covers:

- **Runtime propagation.**
  - `__genpd_poweron` powers the masters first, in `slave_links` order, then the domain itself. On failure it unwinds the masters already counted, newest first, and queues each for power-off.
  - `genpd_poweroff` makes its checks in the source's order, runs the `power_off` callback, powers the domain off, and releases and queues every master.
  - `genpd_power_off_work_fn` runs a pending power-off work item.
- **The synchronous variants** `pm_genpd_sync_poweroff` and `pm_genpd_sync_poweron`, and the system-sleep callbacks that drive them:
  - prepare / complete;
  - the counter bookkeeping of suspend_noirq, resume_noirq and restore_noirq;
  - the syscore switch.
- **Device bookkeeping:** `genpd_alloc_dev_data`, `__pm_genpd_add_device` and `pm_genpd_remove_device`.
- **Link bookkeeping:** `pm_genpd_add_subdomain` and `pm_genpd_remove_subdomain`, plus the state `pm_genpd_init` gives a new domain.
- **Small pure helpers:**
  - the guarded `sd_count` decrement and the increment;
  - the latency high-water marks of `genpd_power_on` and `genpd_power_off`;
  - `resume_needed`;
  - the device-tree translations `__of_genpd_xlate_simple` and `__of_genpd_xlate_onecell`, and `of_genpd_get_from_provider`.

Structure:

- `Genpd.DomainGraph` is a class holding the registered domains.
  - Maps hold each domain's power state, `sd_count`, latency marks and remaining record.
  - A link sequence in creation order holds the links. A domain's `slave_links` list is the subsequence in which it is the slave, and its `master_links` list the subsequence in which it is the master.
  - Two more maps record each attached device's domain (`dev->pm_domain`) and which devices have domain data.
  - A set holds the domains whose `power_off_work` item is pending.
  - Methods update these fields in place, with the source's loops.
- The propagation operations are proved against specification functions over the propagation state (`Propagation.PowerOnF`, `Shutdown.PowerOffF`, `Sync.SyncOffF`, `Sync.SyncOnF`, `Sync.RestoreF`). The lemmas beside those functions carry the properties.
- The central invariant concerns the *Excess* of a domain: its `sd_count` minus the number of its powered slaves (counted once per link).
  - Power-on, power-off, both sync variants, and link add and remove leave every domain's Excess unchanged.
  - Every operation keeps all Excess values non-negative (`Topology.CountersCover`).
  - So a master with a powered slave always has a positive `sd_count` (`Topology.ActiveSlavePinsMaster`), and the guarded decrement never meets a zero counter on the paths the model proves.
- Recursion runs from slave to master. It is bounded by a ghost rank map in which every master ranks below its slaves. `pm_genpd_add_subdomain` itself does not reject cycles, so the propagation methods require such a rank.
- External inputs are parameters:
  - the hardware callbacks' results and measured durations (`Types.Hardware`);
  - the governor's verdict;
  - each device's runtime-PM and QoS state;
  - `pm_wakeup_pending()`, wakeup paths, `pm_generic_prepare` and the device start callback;
  - allocation success;
  - the `attach_dev` callback's result.

## Model

| member | source | states |
|---|---|---|
| `Types.SdCounterDec` | drivers/base/power/domain.c:87-95 | A zero counter is left at zero and reports false; otherwise it drops by exactly one and reports true iff it reached zero |
| `Types.SdCounterInc` | drivers/base/power/domain.c:97-101 | The increment is undone by the guarded decrement, which then reports zero exactly when the counter was zero before |
| `Types.RaiseLatency` | drivers/base/power/domain.c:120-125 | The new mark is the larger of the recorded and measured latency, and "changed" holds iff the measurement exceeded the mark |
| `Propagation.TimedOn` | drivers/base/power/domain.c:115-129 | A timed successful power_on raises only the power-on mark and sets max_off_time_changed exactly when the mark grew |
| `Propagation.TimedOff` | drivers/base/power/domain.c:144-158 | A measured power_off raises only the power-off mark and sets max_off_time_changed exactly when the mark grew |
| `Genpd.DomainGraph.HwPowerOn` | drivers/base/power/domain.c:103-130 | Returns 0 without a callback, the callback's result otherwise; the latency mark moves only for a timed successful call; a failure leaves every mark unchanged |
| `Genpd.DomainGraph.HwPowerOff` | drivers/base/power/domain.c:132-159 | Returns 0 without a callback, the callback's result otherwise; a timed call updates the mark for every outcome except -EBUSY |
| `Genpd.DomainGraph.IncSdCount` | drivers/base/power/domain.c:97-101 | sd_count of the master rises by one and nothing else changes |
| `Genpd.DomainGraph.DecSdCount` | drivers/base/power/domain.c:87-95 | sd_count follows the guarded decrement and the result says whether it reached zero |
| `Genpd.DomainGraph.QueuePowerOffWork` | drivers/base/power/domain.c:168-171 | The master's work item is pending afterwards; an item already pending stays pending once |
| `Genpd.DomainGraph.ReleaseMaster` | drivers/base/power/domain.c:217-218 | One count released on the master and its power-off queued; nothing else changes |
| `Topology.MastersAreLinked` | drivers/base/power/domain.c:196 | Walking d's slave_links visits m exactly when a link (m, d) exists |
| `Topology.MastersCountLinks` | drivers/base/power/domain.c:196 | m occurs in d's slave_links walk once per (m, d) link |
| `Topology.CountLinksNoDuplicates` | drivers/base/power/domain.c:1347-1352 | With no duplicate links, a (m, d) link occurs once or not at all |
| `Topology.ActiveSlavesStep` | drivers/base/power/domain.c:210 | Changing one domain's power state moves each master's count of powered slaves by its number of links to that domain, in the direction of the change |
| `Topology.ActiveSlavesCoverLinks` | drivers/base/power/domain.c:1358-1359 | Every link to a powered slave is counted among its master's powered slaves |
| `Topology.ActiveSlaveCounted` | drivers/base/power/domain.c:1358-1359 | A master with a powered slave has at least one powered slave counted |
| `Topology.ActiveSlavePinsMaster` | drivers/base/power/domain.c:312-313 | While the counters cover the powered slaves, a master of a powered slave has a positive sd_count, so genpd_poweroff refuses it |
| `Propagation.ExcessAfterStatus` | drivers/base/power/domain.c:210 | Changing one domain's power state moves every other domain's Excess by exactly its links to that domain |
| `Propagation.UnwindCountsFacts` | drivers/base/power/domain.c:214-219 | The error path touches only the counters of the masters it walks back over |
| `Propagation.UnwindQueueFacts` | drivers/base/power/domain.c:214-219 | The error path keeps pending work and adds exactly the masters it walks back over |
| `Propagation.UnwindLast` | drivers/base/power/domain.c:214-219 | Walking back over j masters releases the j-th first, then the rest |
| `Propagation.UnwindExact` | drivers/base/power/domain.c:214-219 | When every counter can pay, unwinding removes exactly one count per occurrence of the master |
| `Propagation.UnwindQueues` | drivers/base/power/domain.c:214-219 | Unwinding the first k masters queues each of them and changes no power state or latency |
| `Propagation.PowerOnF` | drivers/base/power/domain.c:182-222 | __genpd_poweron as a function: the resulting state is well-formed for every registered domain |
| `Propagation.MastersOnF` | drivers/base/power/domain.c:196-204 | The forward loop stops at or after its starting master, never past the end, and a successful run has powered every master |
| `Propagation.MastersWithin` | drivers/base/power/domain.c:196 | The masters of a registered domain are registered, differ from it and rank below it |
| `Propagation.CountBelow` | drivers/base/power/domain.c:197 | Changing only a lower-ranked master's counter leaves every domain from the given rank on untouched |
| `Propagation.PowerOnAbove` | drivers/base/power/domain.c:182-222 | __genpd_poweron(d) changes no power state, counter or latency mark of any domain ranked above d, and leaves d's own counter alone |
| `Propagation.MastersOnAbove` | drivers/base/power/domain.c:196-204 | The masters' loop changes nothing at d's rank or above |
| `Propagation.PowerOnMonotone` | drivers/base/power/domain.c:182-222 | Power-on powers no domain off, loses no pending work, and queues only registered domains |
| `Propagation.MastersOnMonotone` | drivers/base/power/domain.c:196-204 | The masters' loop powers nothing off, loses no pending work, and queues only registered domains |
| `Propagation.IncExcess` | drivers/base/power/domain.c:197 | Counting one more slave raises that master's Excess by one and no other domain's, keeping the cover |
| `Propagation.DecExcess` | drivers/base/power/domain.c:201 | Releasing an existing count lowers that master's Excess by one and no other domain's |
| `Propagation.CoveredBySame` | drivers/base/power/domain.c:182-222 | A state with the same Excess everywhere as a covering state is covering |
| `Propagation.PowerOnCounts` | drivers/base/power/domain.c:182-222 | __genpd_poweron keeps every domain's Excess: each count it leaves on a master is matched by a slave it powered, and counts not matched by a newly powered slave are given back |
| `Propagation.UnwoundExcess` | drivers/base/power/domain.c:213-219 | Giving back the counts of an abandoned attempt restores every domain's Excess |
| `Propagation.PoweredExcess` | drivers/base/power/domain.c:206-211 | Powering d after counting it once per link in each master restores every domain's Excess |
| `Propagation.MastersOnCounts` | drivers/base/power/domain.c:196-204 | After the masters' loop, each domain's Excess is raised by how often it occurs among the masters counted |
| `Propagation.PowerOnOutcome` | drivers/base/power/domain.c:187-221 | A powered (or deferred) domain is returned as is with 0; 0 is returned iff the domain ends powered; on success it is active with its timed latency mark and all masters powered; on failure its state and latency are unchanged, the error is a power_on callback's, and every master counted is queued for power-off |
| `Propagation.MastersOnOutcome` | drivers/base/power/domain.c:196-204 | A successful masters' loop leaves every remaining master powered; a failing one returns a power_on callback's error |
| `Genpd.DomainGraph.PowerOn` | drivers/base/power/domain.c:182-222 | The new state and result are exactly those of __genpd_poweron's specification, and the graph stays well-formed |
| `Genpd.DomainGraph.PowerOnMasters` | drivers/base/power/domain.c:196-204 | The forward loop's state, result and number of powered masters are those of its specification |
| `Genpd.DomainGraph.PowerOnStep` | drivers/base/power/domain.c:197-203 | One pass of the loop either stops the specified loop with its error or advances it by one master |
| `Genpd.DomainGraph.PowerOnMaster` | drivers/base/power/domain.c:197-203 | Counting d in master m, then powering m; a failure gives the count back and returns m's error |
| `Genpd.DomainGraph.UnwindMasters` | drivers/base/power/domain.c:213-219 | The error path's state is the specified unwinding of the first n masters, newest first |
| `Genpd.DomainGraph.UnwindStep` | drivers/base/power/domain.c:217-218 | One backward step releases and queues the j-th master and leaves the rest of the unwinding to do |
| `Genpd.DomainGraph.PowerOnDomain` | drivers/base/power/domain.c:228-236 | genpd_poweron has the state and result of __genpd_poweron and keeps the counters covering the powered slaves |
| `Gates.NotSuspendedCountBound` | drivers/base/power/domain.c:324-325 | At most one outstanding device per list entry, and none exactly when every device is runtime-suspended and not irq-safe |
| `Gates.ScanDevices` | drivers/base/power/domain.c:315-326 | The device walk reports QoS refusal iff some device's flags forbid power-off, and otherwise the number of outstanding devices |
| `Gates.PowerOffGate` | drivers/base/power/domain.c:308-334 | Each verdict of genpd_poweroff's checks holds exactly under its condition: skip when off or prepared, -EBUSY on counter, QoS or devices, -EAGAIN on a governor veto, proceed otherwise |
| `Gates.ResumeNeeded` | drivers/base/power/domain.c:650-659 | A device is resumed iff it can wake up and its wakeup enablement matches its need to stay active |
| `Shutdown.ReleaseFacts` | drivers/base/power/domain.c:357-360 | Releasing the masters changes only counters and queue, touches only masters' counters, and queues exactly the masters |
| `Shutdown.ReleaseExact` | drivers/base/power/domain.c:357-360 | When every counter can pay, releasing removes exactly one count per occurrence of the master |
| `Shutdown.PowerOffChecks` | drivers/base/power/domain.c:308-340 | Already off or prepared returns 0; counter, QoS or too many outstanding devices return -EBUSY; a governor veto returns -EAGAIN; the recheck before power_off returns -EBUSY; each changes nothing |
| `Shutdown.PowerOffOutcome` | drivers/base/power/domain.c:336-362 | Past the checks: a failing power_off changes only latency marks and returns its code; otherwise d is off, each master has lost exactly one count per link to d and is queued, and no pending work is lost |
| `Shutdown.ReleaseCountsLinks` | drivers/base/power/domain.c:355-360 | The counts a powered-off domain takes from its masters are exactly one per link, and each was there to take |
| `Shutdown.PowerOffCounts` | drivers/base/power/domain.c:297-363 | genpd_poweroff keeps every domain's Excess, so the counters keep covering the powered slaves |
| `Genpd.DomainGraph.PowerOffDomain` | drivers/base/power/domain.c:297-363 | The new state and result are exactly those of genpd_poweroff's specification |
| `Genpd.DomainGraph.ReleaseMasters` | drivers/base/power/domain.c:357-360 | The loop's state is the specified release of d's masters in slave_links order |
| `Genpd.DomainGraph.PowerOffWork` | drivers/base/power/domain.c:369-378 | The pending item leaves the queue, d gets an asynchronous genpd_poweroff, and the graph invariant is kept |
| `Sync.SyncOffF` | drivers/base/power/domain.c:584-604 | pm_genpd_sync_poweroff as a function: the resulting state is well-formed |
| `Sync.SyncOnF` | drivers/base/power/domain.c:616-632 | pm_genpd_sync_poweron as a function: the resulting state is well-formed |
| `Sync.SyncOffMonotone` | drivers/base/power/domain.c:584-604 | Sync power-off powers nothing on and queues nothing |
| `Sync.SyncMastersOffMonotone` | drivers/base/power/domain.c:600-603 | The loop over masters powers nothing on and queues nothing |
| `Sync.SyncOffOutcome` | drivers/base/power/domain.c:589-598 | A domain that is not powered, has unsuspended devices or a counted subdomain is left exactly as it was; a ready one ends off |
| `Sync.SyncOffCounts` | drivers/base/power/domain.c:584-604 | Sync power-off keeps every domain's Excess while the counters cover the powered slaves |
| `Sync.SyncMastersOffCounts` | drivers/base/power/domain.c:600-603 | The loop over the remaining masters takes exactly one count per remaining master |
| `Sync.SyncOnAbove` | drivers/base/power/domain.c:616-632 | Sync power-on changes no power state or latency mark of a domain ranked above d |
| `Sync.SyncMastersOnAbove` | drivers/base/power/domain.c:624-627 | The loop over masters changes nothing at d's rank or above |
| `Sync.SyncOnCounts` | drivers/base/power/domain.c:616-632 | Sync power-on keeps every domain's Excess |
| `Sync.SyncMastersOnCounts` | drivers/base/power/domain.c:624-627 | After the loop, each domain's Excess is raised by how often it occurs among the remaining masters |
| `Sync.SyncOnOutcome` | drivers/base/power/domain.c:621-631 | Sync power-on powers nothing off, queues nothing and leaves d active; a d that was off gets its timed latency mark and ends with all masters active |
| `Sync.SyncMastersOnOutcome` | drivers/base/power/domain.c:624-627 | The loop powers nothing off, queues nothing, and leaves every remaining master active |
| `Sync.OffKeepsCovered` | drivers/base/power/domain.c:1046 | Marking a domain off without touching a counter keeps the counters covering |
| `Sync.RestoreOutcome` | drivers/base/power/domain.c:1040-1063 | Restore queues nothing; a domain that was off is marked off on the first call with only its latency mark moving, and untouched after; any other domain ends active, with all masters when it had to be switched on |
| `Sync.RestoreCounts` | drivers/base/power/domain.c:1040-1063 | Restore keeps the counters covering the powered slaves |
| `Genpd.DomainGraph.SyncPowerOff` | drivers/base/power/domain.c:584-604 | The new state is exactly sync power-off's specification |
| `Genpd.DomainGraph.SyncPowerOffMasters` | drivers/base/power/domain.c:600-603 | The loop's state is that of the specified loop from the first master |
| `Genpd.DomainGraph.SyncPowerOffStep` | drivers/base/power/domain.c:601-602 | One pass of the loop advances the specified loop by one master |
| `Genpd.DomainGraph.SyncPowerOn` | drivers/base/power/domain.c:616-632 | The new state is exactly sync power-on's specification |
| `Genpd.DomainGraph.SyncPowerOnMasters` | drivers/base/power/domain.c:624-627 | The loop's state is that of the specified loop from the first master |
| `Genpd.DomainGraph.SyncPowerOnStep` | drivers/base/power/domain.c:625-626 | One pass of the loop advances the specified loop by one master |
| `Genpd.DomainGraph.SyncPowerOnMaster` | drivers/base/power/domain.c:625-626 | The master is powered by sync power-on, then d is counted in it |
| `Sleep.PrepareOutcome` | drivers/base/power/domain.c:690-733 | A pending wakeup returns -EBUSY and changes nothing; the first prepare clears suspended_count and records whether the domain was off; a failing callback takes the count back and its code is returned; devices are never touched |
| `Sleep.PrepareThenComplete` | drivers/base/power/domain.c:700-726 | A successful prepare followed by complete restores prepared_count, and closing the outermost bracket clears suspend_power_off |
| `Sleep.BracketKept` | drivers/base/power/domain.c:700-726 | Prepare, and a complete matching an open bracket, keep suspend_power_off set only while the bracket is open |
| `Genpd.DomainGraph.UpdateRecord` | drivers/base/power/domain.c:700-703 | Replacing a record that keeps its devices keeps the graph invariant |
| `Genpd.DomainGraph.Prepare` | drivers/base/power/domain.c:670-734 | -EINVAL for a device outside any domain; otherwise the domain's record and result are prepare's specification |
| `Genpd.DomainGraph.Complete` | drivers/base/power/domain.c:1075-1100 | Nothing for a device outside any domain; otherwise one bracket level closes |
| `Genpd.DomainGraph.SuspendNoirq` | drivers/base/power/domain.c:785-810 | -EINVAL outside any domain, 0 with no change when skipped; otherwise suspended_count rises by one, the state is sync power-off's, and the device completing a ready domain's count powers it off |
| `Genpd.DomainGraph.SuspendDomain` | drivers/base/power/domain.c:806-807 | One more suspended device, then sync power-off; a ready domain ends off |
| `Genpd.DomainGraph.ResumeNoirq` | drivers/base/power/domain.c:818-841 | -EINVAL outside any domain, 0 with no change when skipped; otherwise sync power-on, one fewer suspended device, the domain active and the start callback's result returned |
| `Genpd.DomainGraph.ResumeDomain` | drivers/base/power/domain.c:837-838 | Sync power-on, then one fewer suspended device; the domain ends active |
| `Genpd.DomainGraph.RestoreNoirq` | drivers/base/power/domain.c:1022-1064 | -EINVAL outside any domain; otherwise one more suspended device, the state is restore's specification, and a domain that was off returns 0 |
| `Genpd.DomainGraph.RestoreDomain` | drivers/base/power/domain.c:1040-1063 | One more suspended device and the state of restore's specification |
| `Genpd.DomainGraph.SyscorePowerOff` | drivers/base/power/domain.c:1109-1128 | Nothing for a device outside any domain; otherwise one more suspended device and an untimed sync power-off |
| `Genpd.DomainGraph.SyscorePowerOn` | drivers/base/power/domain.c:1109-1134 | Nothing for a device outside any domain; otherwise an untimed sync power-on, one fewer suspended device and the domain active |
| `Devices.WithoutFacts` | drivers/base/power/domain.c:1304 | Unlinking keeps every other device in order, and on a list without repeats removes exactly one entry |
| `Devices.DetachUndoesAttach` | drivers/base/power/domain.c:1251-1304 | Removing a device just added gives the record back |
| `Devices.AttachKeepsAttached` | drivers/base/power/domain.c:1249-1254 | Attaching a device without domain data keeps the attachment invariant: one domain per device, on that domain's list, counts equal to list lengths |
| `Devices.DetachKeepsAttached` | drivers/base/power/domain.c:1296-1304 | Detaching an attached device keeps the attachment invariant |
| `Devices.RegisterKeepsAttached` | drivers/base/power/domain.c:1480-1486 | A new domain with no devices keeps the attachment invariant |
| `Genpd.DomainGraph.AddDevice` | drivers/base/power/domain.c:1158-1265 | -ENOMEM, -EINVAL for existing domain data, -EAGAIN while prepared, or the attach callback's error, each changing nothing; on success the device is appended, counted, given the domain and its data, and max_off_time_changed is set |
| `Genpd.DomainGraph.Attach` | drivers/base/power/domain.c:1249-1254 | The device joins the domain's list and count and gets the domain |
| `Genpd.DomainGraph.MarkMaxOffTimeChanged` | drivers/base/power/domain.c:1252 | Only max_off_time_changed of the domain is set |
| `Genpd.DomainGraph.RemoveDevice` | drivers/base/power/domain.c:1272-1317 | -EINVAL unless the device is in this domain, -EAGAIN while prepared, each changing nothing; otherwise exactly that device leaves list and count, loses its domain and data, and max_off_time_changed is set |
| `Genpd.DomainGraph.Detach` | drivers/base/power/domain.c:1296-1304 | The device leaves the domain's list and count and loses its domain and data |
| `Subdomains.IndexOf` | drivers/base/power/domain.c:1393-1396 | The first position of the link |
| `Subdomains.AddSubdomainOutcome` | drivers/base/power/domain.c:1330-1359 | Success iff distinct domains, allocation, no off master with a powered subdomain, and a new link; then the link is appended once and the master's counter rises iff the subdomain is powered. A self-link returns -EINVAL before allocation is tried; -ENOMEM is returned iff the domains differ and allocation fails; the off-master and duplicate refusals return -EINVAL; no error changes anything |
| `Subdomains.RemoveSubdomainOutcome` | drivers/base/power/domain.c:1386-1409 | -EBUSY iff the subdomain has slaves or devices, -EINVAL iff there is no such link, each changing nothing; otherwise exactly that link goes and the master's counter drops iff the subdomain is powered |
| `Subdomains.RemoveAtFacts` | drivers/base/power/domain.c:1399-1400 | On a list without repeats, unlinking one position removes exactly that link and keeps the list free of repeats |
| `Subdomains.RemoveAtSlaves` | drivers/base/power/domain.c:1399-1403 | Removing a link lowers its master's powered-slave count by one iff its slave is powered |
| `Subdomains.AddSubdomainCounts` | drivers/base/power/domain.c:1354-1359 | Adding a link keeps every domain's Excess, the counters' cover and the absence of duplicate links |
| `Subdomains.RemoveSubdomainCounts` | drivers/base/power/domain.c:1393-1409 | Removing a link keeps every domain's Excess, the cover and the absence of duplicate links |
| `Subdomains.RemoveUndoesAdd` | drivers/base/power/domain.c:1324-1415 | Removing a link just added gives back the links and counters |
| `Subdomains.NoLinksNoSlaves` | drivers/base/power/domain.c:1478-1479 | A domain that masters no link has no powered slaves |
| `Subdomains.RegisterCounts` | drivers/base/power/domain.c:1484-1485 | Registering a domain no link touches, with a zero counter, keeps the counters covering |
| `Genpd.DomainGraph.FindLink` | drivers/base/power/domain.c:1347-1352 | The walk finds the first (m, s) link's position, or reports -1 iff there is none |
| `Genpd.DomainGraph.AddSubdomain` | drivers/base/power/domain.c:1324-1367 | Links, counters and result are those of add_subdomain's specification, and the graph invariant is kept |
| `Genpd.DomainGraph.RemoveSubdomain` | drivers/base/power/domain.c:1375-1415 | Links, counters and result are those of remove_subdomain's specification, and the graph invariant is kept |
| `Genpd.DomainGraph.Register` | drivers/base/power/domain.c:1472-1523 | The new domain has no links, zero counter, the requested power state, no devices, max_off_time_ns -1 and max_off_time_changed set, and the graph invariant is kept |
| `Genpd.DomainGraph.constructor` | drivers/base/power/domain.c:37 | An empty domain list with no links, devices or pending work satisfies the graph invariant |
| `Providers.XlateSimple` | drivers/base/power/domain.c:1571-1578 | Names the provider's domain iff the specifier has no cells, -EINVAL otherwise |
| `Providers.XlateOnecell` | drivers/base/power/domain.c:1591-1610 | Names the indexed domain iff there is one cell, in range, with a non-NULL entry; -ENOENT iff the one cell indexes a NULL entry; -EINVAL otherwise |
| `Providers.GetFromProvider` | drivers/base/power/domain.c:1673-1692 | Succeeds iff some provider for the node translates; then with the first such provider's result; with no provider for the node, -ENOENT; otherwise the error of the last provider for the node |

## Left out

- Mutexes, spinlocks and the memory barrier: each method is one atomic step.
  - Concurrency shows up in one place: the `sd_count` recheck just before `power_off` (339-340). It is modelled by the `raced` parameter, the number of concurrent subdomain power-ons that counted themselves in the meantime.
- The work queue: `pm_wq` and the worker thread are not modelled.
  - Pending `power_off_work` items are a set of domains, because `queue_work` on an item already pending does nothing.
  - `Genpd.DomainGraph.PowerOffWork` runs any pending item, so the order in which the worker runs items is not modelled.
- `ktime_get`: the elapsed time is a parameter (`Hardware.powerOnNs` / `powerOffNs`). Only the high-water-mark comparison is modelled.
- Runtime PM, the device-model layer, `pm_generic_*` and the device start/stop callbacks: their results are parameters, and their side effects on devices are not modelled.
  - This covers `pm_genpd_runtime_suspend`/`resume`, the thin per-phase wrappers, and `genpd_poweroff_unused`.
- The PM QoS notifier and `dev_pm_qos_*` registration: a device's QoS verdict is an input.
- `genpd_dev_pm_attach`/`detach`/`sync` (device-tree parsing, the bounded retry loop, `mdelay`), `__of_genpd_add_provider` and `of_genpd_del_provider`: the provider list is a parameter of `Providers.GetFromProvider`.
- The debugfs summary.
- The default save/restore callbacks and the ops-table wiring of `pm_genpd_init`.
- NULL and ERR_PTR argument checks:
  - `pm_genpd_lookup_dev`, `dev_to_genpd` and `pm_genpd_present` become "the device is in the attachment map";
  - domains passed to add/remove are registered domains.
- `dev_pm_get_subsys_data` and `kzalloc` failures are one abstract `allocOk` input, reported as -ENOMEM.
- Counter width: `sd_count` is an unbounded natural, and a decrement of a zero counter leaves it at zero, as the guarded helper does.
- `prepared_count` and `suspended_count` are `unsigned int` in `struct generic_pm_domain` (the header that declares it is not part of this model). The model keeps them as unbounded integers, so an unmatched decrement gives -1 where the source wraps to UINT_MAX. The PM core calls complete only after a successful prepare, and resume only after suspend, so these decrements are matched in use.
- Genpd.DomainGraph.Complete: an unmatched complete at `prepared_count == 0` leaves -1, and the domain counts as not prepared. In the source the count wraps to UINT_MAX, so `prepared_count > 0` holds from then on: `genpd_poweroff` skips, and adding or removing a device returns -EAGAIN.
- Genpd.DomainGraph.ResumeNoirq: an unmatched resume at `suspended_count == 0` leaves -1 where the source wraps to UINT_MAX.
- Genpd.DomainGraph.SyscorePowerOn: the same as for ResumeNoirq.
- `pm_genpd_init` does not clear `prepared_count`, `suspended_count` or `suspend_power_off`. The model registers a new domain with them at zero, as a zero-filled domain object has them.
- Genpd.DomainGraph.PowerOn: the contract does not claim that success raises every master's `sd_count` by exactly one.
  - That claim fails when one master is also an ancestor of another master that was off: it is counted again when the other master powers on.
  - The contract instead states that every domain's Excess (`sd_count` minus powered slaves) is unchanged (`Propagation.PowerOnCounts`). This is exact for every graph.
- Propagation.PowerOnOutcome: the contract does not claim that a failed power-on leaves every master's `sd_count` at its old value, because that claim fails too.
  - Example: d's masters are [m1, m2], m2 is also m1's master, and all three start off.
  - Powering m1 counts m1 in m2 and powers m2. Then d's own `power_on` fails.
  - Unwinding releases d's counts in m2 and m1, so m1 is back at 0. But m1 stays powered and keeps its count in m2, so m2 ends at 1 instead of 0.
  - What holds on every graph is that each Excess is unchanged (`Propagation.PowerOnCounts`): the counts left behind are exactly those of the masters that were powered.
- Genpd.DomainGraph.RestoreNoirq: the first restore call marks the domain off without releasing its masters' counts.
  - This can only raise the masters' Excess, so the model proves that the counters keep covering the powered slaves (`Sync.RestoreCounts`), not that Excess is unchanged.
- Propagation, sync propagation and link changes require a rank map in which masters rank below slaves. `pm_genpd_add_subdomain` does not reject cycles. On a cyclic graph, `genpd_poweron` deadlocks on the domain mutex it already holds (232-234), and the unlocked sync variants (584-632) recurse without end. The model covers neither.
