# HomeSentinel in Dafny

HomeSentinel is a network inventory appliance. A discovery task sweeps the subnet, harvests the MAC of
every host that replies into a fixed table, names hosts through mDNS and ages those it no longer sees.
After each pass an anomaly diff compares every device with its remembered state, appends events to a ring
and tracks a baseline of the online count; the newest events are then forwarded past a watermark to a
bounded notifier queue. Web handlers read the same tables from another task under a mutex. A Python
script writes the vendor registry that the device binary-searches in flash.

This project models that machine and proves what it does over whole runs. Every module follows one source
file or one group of theorems:

- `Inventory`, `Oui`, `Anomaly`, `Discovery`, `Sweep`, `Notifier`, `Web`, `Monitor` follow the C files;
  `Wire` is the outside world that discovery talks to, an arbitrary but fixed sequence of answers;
  `OuiBlob` follows the Python script. State that the C code changes in place lives in classes with arrays
  and fields (`Store`, `Engine`, `Queue`, `Appliance`); loops are loops, proved against specification
  functions over the occupied slots and over the full event history, which the ring forgets but a ghost
  field keeps.
- `Spine` is the same machine one completed pass at a time, driven by everything the outside world
  contributes to a pass. The invariant of `Monitor.Appliance` says that the concrete state *is* the state
  of this machine after some well-timed run, so the theorems below hold of the appliance
  (`Monitor.Guarantees` restates the main ones for it).
- `Presence`, `Separation`, `Ledger`, `Forwarding`, `Growth`, `LockSteps`, `Memory`, `VendorAlerts` and
  `Dashboard` hold the theorems over runs; `Json` is an independent reader used to state round trips.

The main results:

1. The whole event log of any run, up to times and texts, equals a reference log defined only from the
   set of MACs present in each pass, the order of first sight and the hour of each pass.
2. Every MAC's history follows one grammar, and the online count balances against the log.
3. The watermark forwarder offers each pass's newest events exactly once and in order; nothing is lost
   exactly when no pass logs more than 64 events.
4. The growth baseline contracts geometrically and comes to rest; the growth events of a run stop under an
   exact condition.
5. The device reads back what the registry writer packed, under an exact condition on the registry, and
   after any run its table shows it.
6. Webhook bodies and the events feed parse back to what was logged, the feed under an exact condition.
7. The sweep probes each host once, covers the subnet under an exact condition, and is paced. Every
   exchange of the appliance with the outside world is on record; the record of a pass is its specified
   requests, drains, lookups and queries, and the run is made of nothing but the answers in it.

## Where the code falls short of its own description

Each of these is proved with the condition under which the code does meet it.

- A pass started by hand within the second in which a device was last seen does not count that device as
  missed, so MISSING can come one pass late (`Separation.SameSecondDelaysMissing`). The log is at all times
  what the harvested sets call for exactly when no stored device goes unharvested for three passes in a row
  whose first started by the second of its last sighting (`Separation.RunMatchesHarvests`).
- The comment at main/anomaly.c:171-172 promises no constant re-alerting. The baseline rests 3 below a
  larger count, so small networks alert on every pass for ever (`Growth.AlertsEndIff`,
  `Growth.GrowthEventsEndIff`, `Growth.SmallNetworkAlertsForEver`).
- The guard announced at main/oui.c:96-98 ends the caller's buffer, not the 28-byte field. A name of 28 or
  more characters has no NUL, so a larger buffer also receives the start of the next record
  (`OuiBlob.RoundTripText`, `OuiBlob.LongNameSpills`).
- A size cap below the 8-byte header turns into a negative slice and the blob does not fit
  (`OuiBlob.BlobFits`).
- The clamp to 1022 leaves out the last usable host of a /22 and more of larger subnets
  (`Sweep.CoverageIff`).
- The events feed passes control characters through, and is then not JSON (`Web.EventsTextReads`); a name
  announced over mDNS is enough (`Dashboard.NameBreaksFeed`).

## Model

| member | source | states |
|---|---|---|
| Inventory.Store.constructor | main/inventory.c:41-70 | An empty table and an empty log. |
| Inventory.Store.Find | main/inventory.c:77-85 | Finds a MAC's slot exactly when it is stored. |
| Inventory.Store.FindOrAdd | main/inventory.c:87-106 | Lookup-or-insert on a map bounded to 256 keys: keys stay distinct, occupied slots stay a prefix, it fails exactly when the key is absent and every slot is taken, and a new slot knows nothing but its key and whether bit 1 of the first octet, which marks private addresses, is set. |
| Inventory.IsRandomized | main/inventory.c:23-28 | A MAC is private exactly when its first octet leaves 2 or 3 modulo 4. |
| Inventory.Store.Next | main/inventory.c:108-117 | Continuing from 0 visits each occupied slot exactly once, in order. |
| Inventory.Store.CountTotal | main/inventory.c:119-126 | Counts the occupied slots. |
| Inventory.Store.CountOnline | main/inventory.c:128-135 | Counts the occupied slots that are online. |
| Inventory.Store.LogEvent | main/inventory.c:138-157 | Appends one event, stamped with the current second, to the full history; the ring keeps holding its end. |
| Inventory.Store.GetEvents | main/inventory.c:159-169 | After any number of events, copies out the newest min(max, 512, logged) of the full history, newest first. |
| Inventory.OnlineAtMostTotal | main/web.c:195-198 | The online count never exceeds the total, so a reader's subtraction cannot go below zero. |
| Anomaly.Engine.constructor | main/anomaly.c:49-65 | The given tunables and no remembered baseline. |
| Anomaly.NightWindow | main/anomaly.c:23-33 | On the 24-hour clock, night is exactly the hours reached from the start before the end, across midnight or not. |
| Anomaly.Engine.DiffDevice | main/anomaly.c:93-156 | One device's diff logs exactly its block (introduction, MISSING, RETURNED or nothing) and settles its remembered state. |
| Anomaly.Engine.WatchGrowth | main/anomaly.c:158-174 | Logs one growth event exactly when a remembered baseline b and the count n have 0 < b < n and 100·(n − b) ≥ b·pct, then moves the baseline a quarter of the way. |
| Anomaly.TrackBaseline | main/anomaly.c:171-173 | The step is a quarter of the gap, rounded toward no step, in either direction. |
| Anomaly.Engine.Run | main/anomaly.c:75-177 | One diff appends the blocks of all devices in slot order and at most one growth event, with ordered stamps, and settles every slot. |
| Anomaly.BlockFits | main/anomaly.c:107-153 | No device detail is ever cut by its 96-byte buffers. |
| Anomaly.GrowthFits | main/anomaly.c:165-169 | Nor is the detail of a growth event, which counts from the baseline up to the new count. |
| Anomaly.DetailsShow | main/anomaly.c:107-144 | A detail shows up to 40 characters of the name, or the given substitute, and up to 30 of the vendor. |
| Anomaly.AddressReads | main/anomaly.c:110-113 | An address is written as its four octets, most significant first. |
| Format.MacTextAt | main/anomaly.c:68-72 | A MAC is written as upper-case hexadecimal pairs with colons between. |
| Discovery.HarvestOne | main/discovery.c:54-84 | Asks the ARP cache once for the replying address. With an answer, that MAC is upserted under the lock at the clock reading taken then: first seen once, then address, last seen, online and misses reset; a full table drops it. Without one the table stays. |
| Discovery.PollOnce | main/discovery.c:128-161 | One turn of the drain: it receives one packet, and harvests its sender exactly when it is an echo reply. |
| Discovery.DrainReplies | main/discovery.c:122-162 | Each turn reads the clock before the deadline, polls once and harvests the sender of an echo reply; the drain ends with the first reading that has used up the budget. |
| Discovery.ApplyAddress | main/discovery.c:199-220 | One mDNS address fills the empty name and unknown class of the first slot holding it, and nothing else. |
| Discovery.ApplyResult | main/discovery.c:187-221 | A result without a name changes nothing; otherwise the table is the old one with exactly its IPv4 addresses applied, in order, under the instance name or else the host name. |
| Discovery.ResultHitAt | main/discovery.c:187-206 | The n-th IPv4 address of a named result is its n-th name to apply, under the instance name if there is one and the host name otherwise. |
| Discovery.ResolveHostnames | main/discovery.c:223-252 | When some online device has no name, every service is queried once, in order, and the table is the old one with exactly all the results applied in order; otherwise nothing is queried. |
| Discovery.AnswerHits | main/discovery.c:168-183 | Every result of an answer is applied, in order; the first seven services mark IoT devices and the last three computers. |
| Spine.NamelessIsQueriedFor | main/discovery.c:223-237 | A device sighted in a pass that has no name makes the pass ask all ten services; when every nameless device is offline it asks none. |
| Discovery.AgeUnseen | main/discovery.c:255-269 | Every slot last seen before the pass started misses once more and goes offline at three misses. |
| Discovery.SweepSubnet | main/discovery.c:280-330 | The exchanges on record are exactly the specified requests and drains in order, the table is the old one with exactly the ARP answers on record harvested, and the sweep ends at least one second later. |
| Discovery.RunPass | main/discovery.c:272-344 | A pass without address or socket changes nothing. Otherwise its record is a reading, the sweep and the queries, and the table is the old one with the recorded ARP answers harvested, then the recorded results applied, then aged by that reading. |
| Wire.SweepOnTheWire | main/discovery.c:305-328 | Whatever the world answers, a pass sends one request to exactly each usable host below the clamp but ourselves, in ascending order, and looks up the sender of every echo reply, once and in the order of arrival. |
| Sweep.SweepExact | main/discovery.c:282-325 | With p the size of the subnet, the probed addresses are exactly those with our quotient by p and a remainder strictly between 0 and p − 1 and below 1022, other than ours: each once, in ascending order. |
| Sweep.NetworkAligned | main/discovery.c:92-99 | The network address is the multiple of p at or below ours. |
| Sweep.CoverageIff | main/discovery.c:282-285 | Every usable host but ourselves is probed exactly for /23 and longer prefixes, or for a /22 in which the one host out of reach is us. |
| Sweep.SweepPaced | main/discovery.c:308-328 | At most 16 requests go out between two drains, or 31 when our own address swallows a drain point. |
| Sweep.SweepDrains | main/discovery.c:307-328 | A sweep drains for 30 ms after exactly the requests to hosts whose number is a multiple of 16, and for one second at the end. |
| Sweep.SweepNumbered | main/discovery.c:307-313 | The requests are numbered 0, 1, 2, ... without a wrap. |
| Spine.HarvestSlots | main/discovery.c:72-82 | Harvesting changes each slot by its own sightings only; a new slot starts out zeroed. |
| Spine.HarvestMacs | main/inventory.c:87-106 | The stored keys are the first 256 distinct MACs ever sighted, in order of first sight. |
| Presence.StreakWindows | main/discovery.c:262-265 | The miss streak of a MAC is the distance back to the latest pass it was present in. |
| Presence.CountersAged | main/discovery.c:262-265 | Aging counts one more absence, and the wrap of the 32-bit counter never brings a device back online. |
| Presence.SlotMatches | main/anomaly.c:93-156 | In any run, what a pass logs about a stored MAC is its reference block: introduced in the first pass it is present in, MISSING in exactly the third consecutive absence, RETURNED in exactly the next presence. |
| Presence.SliceOfRun | main/anomaly.c:75-177 | The latest pass of a run logs its reference slice: one block per stored MAC in order of first sight, then at most one growth event. |
| Presence.RunMatchesReference | main/discovery.c:272-344 | Whole-run refinement: table, baseline and log of any well-timed run equal the reference built from per-pass presence alone. |
| Separation.FreshIsHarvestedIff | main/discovery.c:261 | Presence means harvested in this very pass, in every pass, exactly when no pass starts by the second in which a MAC it does not harvest was last seen. |
| Separation.RunMatchesHarvests | main/discovery.c:255-269 | At all times of a run the log is the reference log of the per-pass harvested sets, if and only if no stored MAC ever went unharvested for three passes in a row whose first started by the second of its last sighting. |
| Separation.LingersIff | main/discovery.c:261-266 | Online by presence and online by harvests differ exactly for such a MAC. |
| Separation.SeparatedNeverLingers | main/discovery.c:261 | Where presence means harvested, no MAC does that. |
| Separation.LaterSecondsSeparate | main/discovery.c:350-357 | Passes that start in a later second than the previous one ended are such runs. |
| Separation.SameSecondDelaysMissing | main/discovery.c:377-382 | A run with a manual pass in the same second, on which MISSING is due by the harvested sets and not logged. |
| Separation.NoQueriesLater | main/discovery.c:224-235 | On that run the device is named by the first pass, so no later pass queries mDNS. |
| Ledger.Conservation | main/anomaly.c:99-155 | After every diff, online count = stored devices + all RETURNED − all MISSING ever logged, overwritten events and suppressed devices included. |
| Ledger.Grammar | main/anomaly.c:99-155 | After every pass, a stored MAC's history is its introduction, empty exactly for suppressed randomized MACs, then MISSING and RETURNED in alternation; it is remembered online exactly when the history does not end in MISSING; other MACs have no history. |
| Ledger.IntroducedOnce | main/anomaly.c:95-135 | NEW, NIGHT and UNKNOWN_VENDOR occur at most once per MAC in a whole run. |
| Ledger.AnnouncedUnlessPrivate | main/anomaly.c:95-135 | A stored MAC is announced exactly once in a whole run, or never when its first octet marks it private and those are not alerted on. |
| Ledger.SliceLength | main/anomaly.c:91-177 | One pass logs at most three events per stored device and one more. |
| Memory.RunRemembers | main/discovery.c:71-81 | After any run every stored device holds the address and second of its latest sighting, the first nonzero second it was seen in, and the registry's text for its MAC, or no vendor if it is a suppressed private address. |
| LockSteps.RunIsSteps | main/discovery.c:272-344 | The table after a run is the table after its locked sections one by one. |
| LockSteps.WriteOnce | main/discovery.c:199-220 | Over any interleaving of locked sections a MAC, nonzero first-seen, nonempty name, known class, nonempty vendor and announced flag never change, and no slot is freed or moved. |
| LockSteps.NameTouchesFirst | main/discovery.c:208-217 | An mDNS address alters exactly the first slot that holds it: an empty name becomes the first 63 characters of the one given, an unknown class the one hinted at, and nothing else changes. |
| LockSteps.DeviceInvariant | main/discovery.c:72-83 | Over any ordered interleaving of locked sections, short of 2^32 aging passes: online exactly below three misses, first seen no later than last seen, randomized flag equal to the MAC's local bit. |
| LockSteps.SoundAtEveryRelease | main/inventory.h:12-14 | The device invariant, distinct keys and online ≤ total hold at every lock release of every well-timed run, short of 2^32 aging passes. |
| LockSteps.GrammarAtEveryRelease | main/anomaly.c:99-155 | The grammar at every lock release, inside a pass too: an announced device's history is its introduction and an alternation that ends in MISSING exactly when it is remembered offline; a MAC not announced or not stored has no history. |
| LockSteps.MidwayEnds | main/discovery.c:331-343 | The diff that ends the locked sections of a pass leaves the table of the completed pass. |
| Forwarding.Watermark | main/main.c:54-66 | After every pass the watermark equals the newest timestamp ever logged, or zero, and the log's stamps are ordered. |
| Forwarding.OffersDue | main/main.c:42-67 | Every pass offers exactly the newest min(64, m) of its own m events, oldest first. |
| Forwarding.ExactlyOnce | main/main.c:42-67 | The offered events sit at strictly ascending positions of the full history: none twice, none out of order. |
| Forwarding.NothingLostIff | main/main.c:48-51 | The offered events are the whole history exactly when no pass logs more than 64 events. |
| Forwarding.SmallNetworksFit | main/main.c:48-51 | With at most 21 devices no pass does. |
| Growth.NeverOvershoots | main/anomaly.c:171-173 | Under a steady count the baseline moves toward it and never past it, and stays put within 3 of it. |
| Growth.Contraction | main/anomaly.c:173 | After k steady passes, 4^k·(gap − 3) ≤ 3^k·(first gap − 3). |
| Growth.SettledAfterTwenty | main/anomaly.c:171-173 | With at most 256 devices, twenty steady passes bring the baseline within 3 of the count for good. |
| Growth.ComesToRest | main/anomaly.c:171-173 | The baseline comes to rest where it is when within 3 of the count, else exactly 3 short of it. |
| Growth.AlertsEndIff | main/anomaly.c:35-46 | Under a steady count n alerts end exactly when the resting baseline r is zero, not below n, or has 100·n < r·(100 + pct); otherwise every pass from the twentieth on alerts. |
| Growth.GrowthLoggedIff | main/anomaly.c:158-170 | In any run, a pass that finds a baseline b and counts n online logs a growth event if and only if 0 < b < n and 100·(n − b) ≥ b·pct; a first pass logs none. |
| Growth.GrowthEvents | main/anomaly.c:159-174 | Of the last k passes of a run, all with the same online count and for any threshold, at most 20 log a growth event when that condition holds, and all but at most 20 do when it does not. |
| Growth.GrowthEventsEndIff | main/anomaly.c:171-172 | Over more than 40 steady passes the logged growth events stay within 20 if and only if that condition holds. |
| Growth.SmallNetworkAlertsForEver | main/anomaly.c:171-173 | For every k, a run of k + 1 passes, six devices in the first and nine in the others, that logs k growth events at the default 50%. |
| Growth.AtMostTwentyGrowthEvents | main/anomaly.c:159-174 | At the default 50%, a network steady at 10 to 256 devices logs at most 20 growth events, however long it stays steady. |
| Monitor.Appliance.constructor | main/main.c:69-116 | The booted appliance is the pass-level machine after no passes. |
| Monitor.Appliance.Forward | main/main.c:54-66 | The walk over the copied buffer offers, oldest first, exactly the events past the watermark and advances the watermark to the newest of them. |
| Monitor.Appliance.OnScanComplete | main/main.c:42-67 | Diff, locked copy, forwarding. |
| Monitor.Appliance.FinishPass | main/main.c:42-67 | From the table the discovery part leaves, the hook reaches exactly the next state of the pass-level machine. |
| Monitor.Appliance.RunPass | main/discovery.c:347-358 | Every turn keeps the concrete state equal to the pass-level machine after a well-timed run. A pass that is not skipped makes the run one pass longer, by exactly the start, ARP answers and mDNS results on the record of its own sweep and queries. |
| Monitor.Appliance.PostNext | main/notifier.c:104-112 | A turn of the posting task, at any lock release inside or between passes, leaves the run-level state alone. |
| Monitor.Appliance.ServeEvents | main/web.c:155-160 | A dashboard read, at any lock release inside or between passes, serves the newest events of the whole history and changes nothing. |
| Monitor.Guarantees | main/main.c:12-14 | Reference log, conservation, exactly-once forwarding and the watermark, for the appliance's own state. |
| Oui.CompareIsNumeric | main/oui.c:62-65 | Three-byte comparison orders OUIs as big-endian numbers. |
| Oui.SearchComplete | main/oui.c:87-106 | On ascending records the binary search fails only when the key is nowhere in the range. |
| Oui.BinarySearch | main/oui.c:87-106 | The loop terminates, stays inside the records, and returns the slot the recursive search defines. |
| Oui.Lookup | main/oui.c:67-110 | Writes the vendor and returns true exactly when a record was found; otherwise writes "Randomized (private)" when bit 1 of the first octet is set and "Unknown" when it is not; always cut to the buffer and terminated. |
| OuiBlob.StableSortCorrect | tools/build_oui.py:58-59 | The sort orders the list and keeps the records of each OUI in their order. |
| OuiBlob.DedupCorrect | tools/build_oui.py:61-68 | De-duplication leaves strictly ascending OUIs, each with its first-listed record. |
| OuiBlob.PackBlob | tools/build_oui.py:56-87 | Sorts, de-duplicates and truncates, and writes "OUI1", the little-endian count, and per record the OUI, a zero byte, and 28 bytes of name in which every ASCII character stands for itself, every other is a question mark, and the rest is zero. |
| OuiBlob.BlobFits | tools/build_oui.py:70-76 | The blob is 8 + 32·count bytes and fits its cap exactly when the cap holds the header; it leaves out a registered OUI only when one more record would not fit. |
| OuiBlob.OpenFlashed | main/oui.c:46-55 | The device decodes the header that was written. |
| OuiBlob.ReaderSeesRecords | main/oui.h:9-18 | The reader sees the writer's OUIs, in ascending order. |
| OuiBlob.LookupFindsSurvivors | main/oui.c:67-110 | A lookup finds a vendor exactly when the OUI is registered and among the lowest that fit, at its first-listed record. |
| OuiBlob.ShownNameIs | tools/build_oui.py:82-83 | A name reads back character by character, with a question mark for each one that is not ASCII, up to its first NUL and at most 28 of them. |
| OuiBlob.RoundTripText | main/oui.c:95-100 | The text is the first-listed name as it can be shown, and for an ASCII name the registered name itself, cut to 28 characters and to the buffer, exactly when the name leaves room for a NUL, or the buffer ends with the field, or the next higher OUI in the blob starts with a zero byte, or, after the last record, whatever follows the blob does. |
| OuiBlob.LongNameSpills | main/oui.c:96-98 | A registry of two records whose first name, read into a device's 48 characters, is followed by the three characters of the next OUI. |
| OuiBlob.RoundTripMiss | main/oui.c:108-109 | Any other globally administered MAC reads as Unknown. |
| VendorAlerts.UnknownVendorIff | main/anomaly.c:124-130 | With a packed registry on the device, UNKNOWN_VENDOR is due exactly for a globally administered MAC whose OUI did not survive packing or is registered without a name. |
| VendorAlerts.TableShowsRegistry | main/anomaly.c:103-106 | After any run a stored device whose OUI survived packing shows the first 28 characters of its first-listed ASCII name, exactly when the name is shorter or a zero byte or nothing follows its field. |
| Notifier.ContentIsWhole | main/notifier.c:131-132 | The queued text of a logged event is never cut and opens with what happened, in words, for each kind of event. |
| Notifier.JsonEscape | main/notifier.c:49-64 | Stays in bounds and leaves the buffer holding the bounded escape of its input, terminated. |
| Notifier.EscapesClean | main/notifier.c:49-64 | The escape of a text is the JSON escape of the text without the control characters it drops. |
| Notifier.EscapeReads | main/notifier.c:49-64 | For any text and any buffer of at least one character, a JSON string reader applied to the escape recovers a prefix of the text without its dropped control characters, all of it unless the escape came within two of the buffer's end. |
| Notifier.PostOne | main/notifier.c:66-75 | The framed body always fits its 256 bytes. |
| Notifier.BodyReads | main/notifier.c:66-75 | The body reads back as one object whose content is a prefix of the cleaned text, the whole text unless the escape came within two of its limit. |
| Notifier.LossAndReturnRead | main/notifier.c:30-46 | The posted body of a loss reads "Device missing" and that of a return "Device returned", each with the whole detail when nothing in it needs an escape. |
| Notifier.Queue.constructor | main/notifier.c:114-123 | An empty queue. |
| Notifier.Queue.Notify | main/notifier.c:125-135 | Never waits; drops exactly when the queue is full or no webhook is configured, and keeps what is accepted in order. |
| Notifier.Queue.Receive | main/notifier.c:104-112 | Posts the oldest waiting text; what was posted and what waits are the accepted offers in order. |
| Notifier.BurstKeepsEarliest | main/notifier.c:133-134 | A burst keeps the earliest offers that fit and loses the rest. |
| Json.ReadPrintedObject | main/notifier.c:72 | The reader undoes the printer, whatever text follows (sections 4, 6 and 7 of RFC 8259). |
| Json.BoundedIsPrefix | main/notifier.c:51-52 | A bounded escape is the whole escape of a prefix, never splits one, stays below its limit, and stops early only within two of it. |
| Web.EscapeDetail | main/web.c:167-174 | The detail loop computes the bounded quote escape. |
| Web.EventsHandler | main/web.c:150-187 | Serves the newest min(128, logged) events of the full history, newest first, from one locked copy. |
| Web.StatsHandler | main/web.c:190-207 | Total, online and offline from one locked section, with online + offline = total. |
| Web.LineFits | main/web.c:176-182 | With a 64-bit timestamp every line fits its 256 bytes, so no event is skipped. |
| Web.EventNames | main/web.c:127-148 | The type and severity names the dashboard reads, for each kind and severity. |
| Web.ShownIs | main/web.c:167-174 | A detail is shown whole unless its escape fills 118 of the 120 characters. |
| Web.ReadLine | main/web.c:176-179 | One line reads back as its event's object, or not at all when a control character is shown. |
| Web.EventsTextReads | main/web.c:162-185 | With 64-bit timestamps the text parses exactly when no shown detail holds a control character, and is then the array of exactly the snapshot's events, in order. |
| Dashboard.NameBreaksFeed | main/web.c:162-185 | A run of one pass, with a device whose mDNS instance is named by a line feed, after which the served feed does not parse, whatever the tunables. |

## Left out

- ESP-IDF, FreeRTOS, lwIP and the mDNS library: replies, ARP results, mDNS results and polling times are
  arbitrary inputs, and the clock is monotone; every poll of the socket takes at least one microsecond.
- Packet parsing (main/discovery.c:138-159): a received packet is nothing, something else, or an echo reply.
- Netmasks that are not contiguous: a subnet is an address and a number of host bits.
- Allocation failure at start-up, Wi-Fi, HTTP serving, Basic auth, the HTTP POST, log lines, the duration
  in milliseconds, and local-time conversion; the hour of a diff is an input.
- The devices feed (main/web.c:84-123) and the dashboard.
- CSV reading and the command line of the registry script; the sort in place and the caller's list are
  modelled on values.
- Device-table aliasing: a pointer to a slot is modelled as its index, and a slot's fields are written back
  together under the lock.
- Character encodings: text is a sequence of characters, so a cut inside a multi-byte sequence is not seen.
- The reader of JSON does not accept white space or \u escapes, which are never emitted.
- Times and details in the reference log: the reference gives kind, severity and MAC.
- Oui.Lookup: requires the mapped region to hold every record its header announces, which the device does
  not check; the end of the region ends a string.
- LockSteps.DeviceInvariant: stops one short of 2^32 aging passes, where the miss counter could wrap; the
  whole-run theorems need no such bound.
- OuiBlob.LookupFindsSurvivors: stated for caps that hold the header; below that `OuiBlob.BlobFits` says
  what happens.
