# SNMP MATIS gateway — a Dafny model of the discovery and polling core

This project models the core of a Home Assistant integration for a MATIS
SNMP gateway (an energy meter, battery and breaker controller). The model
covers four things:

- the hub (`hub.py`), which discovers which meters, battery cells and
  breaker channels answer on the gateway. It keeps the discovered sensor and
  switch descriptors in insertion order, polls every sensor OID, turns the
  raw text into engineering units through a table of scaling rules, caches
  the results, and writes 0/1 to a breaker's OID;
- the sensor platform (`sensor.py`): one entity per hub sensor, a periodic
  reconciliation that adds entities for sensors discovered later, and the
  entity's value read from the hub cache;
- the switch platform (`switch.py`): the same reconciliation for switches,
  the on/off state read from the cache, and the on/off commands;
- the scaling rules, including Python's `float()` on the agent's integer
  text and `str()` of a SNMP integer.

Modules, in dependency order:

- `Optional`: the `Option` type.
- `Decimal`: signed decimal integer text. `ParseInt` is the part of
  `float()` the gateway's integers reach, and `IntToDecimal` is `str()` of an
  integer. They are proved to round-trip.
- `Transforms`: the six scaling rules and their string tags.
  - `Lookup` is `TRANSFORMS.get`. An unknown tag falls back to the identity
    rule, so the raw text is cached as `Text`.
  - `Apply` is the rule's call, which may raise.
  - `CacheEntry` is the `try`/`except` around it.
- `Descriptors`: sensor and switch ids, OIDs and descriptors.
  - Ids are a datatype. `State(x)` stands for the string `f"{x}_state"`.
  - OIDs are sequences of naturals.
- `Registry`: the order-preserving, duplicate-free merge (`_merge`).
  - `Merge` is proved against the specification function `Absent`.
- `Catalogue`: what one discovery run emits and which OIDs it reads, as
  functions of the gateway's answers.
- `Hub`: the `MatisHub` class with its registry and cache fields.
  - It has `Discover`, `Poll`, `GetValue` and `SetSwitch`.
  - The invariant `Valid` holds four facts: ids are unique, switch ids are
    channel ids and sensor ids are not, each switch is paired with its
    `_state` sensor, and cache keys are sensor ids.
- `SensorPlatform` and `SwitchPlatform`: entity classes and their
  reconciling entity lists.

An SNMP GET is the parameter `read: Oid -> Option<string>`. `None` stands
for the cases in which `_snmp_get` returns `None`: an error indication, an
error status, or an empty variable-binding list. Any other reply is the text
`str()` gives for the returned value. `read` is unconstrained, so it also
covers replies whose text is not a number. An SNMP SET is the parameter
`send: (Oid, int) -> bool`.

## Model

| member | source | states |
|---|---|---|
| Decimal.ParseInt | custom_components/snmp_matis_gateway/hub.py:51 | conversion of the agent's text succeeds exactly on an optional sign followed by at least one digit; a leading `-` gives a value ≤ 0, otherwise ≥ 0 |
| Decimal.DigitsRoundTrip | custom_components/snmp_matis_gateway/hub.py:31 | the decimal digits printed for a natural read back as that natural |
| Decimal.ParseIntRoundTrip | custom_components/snmp_matis_gateway/hub.py:31 | the text `str()` gives for any SNMP integer converts back to exactly that integer |
| Decimal.IntToDecimal | custom_components/snmp_matis_gateway/hub.py:31 | the text of an integer is always convertible text, and starts with a minus sign exactly for negative integers |
| Transforms.Lookup | custom_components/snmp_matis_gateway/hub.py:50-57 | a tag names a rule iff it is one of the six keys of the table (and then names that one); every other tag finds no rule |
| Transforms.Scale | custom_components/snmp_matis_gateway/hub.py:51-56 | each rule's factor: raw_int ×1, div10 ÷10, div100 ÷100, div1000 ÷1000, kW_div100_to_W ×10, kW_div1000_to_W ×1 |
| Transforms.LookupTag | custom_components/snmp_matis_gateway/hub.py:50-57 | each rule is stored under its own tag, so the six tags are distinct and a descriptor's tag finds its rule |
| Transforms.Apply | custom_components/snmp_matis_gateway/hub.py:50-57 | an absent raw value gives absent without raising; a known rule raises iff the raw text is not a number |
| Transforms.CacheEntry | custom_components/snmp_matis_gateway/hub.py:204-209 | the cached value: None for a failed read and for text a known rule cannot convert; the raw text itself under an unknown tag; otherwise a number |
| Transforms.CacheEntryOfRendered | custom_components/snmp_matis_gateway/hub.py:50-57 | any rule applied to an integer's text caches exactly the scaled integer |
| Registry.Merge | custom_components/snmp_matis_gateway/hub.py:176-181 | the merged list is the existing list followed by the incoming entries whose id the existing list lacked, in incoming order |
| Registry.AbsentSpec | custom_components/snmp_matis_gateway/hub.py:177-180 | the entries appended carry exactly the incoming ids not already present, and none of them was present |
| Registry.AbsentWhenCovered | custom_components/snmp_matis_gateway/hub.py:177-180 | when every incoming id is already present, nothing is appended |
| Registry.AbsentUnique | custom_components/snmp_matis_gateway/hub.py:177-180 | filtering a duplicate-free incoming list keeps it duplicate-free |
| Registry.MergedIds | custom_components/snmp_matis_gateway/hub.py:176-181 | the merged id set is the union of the two id sets |
| Registry.MergeIdempotent | custom_components/snmp_matis_gateway/hub.py:176-183 | merging the same incoming list a second time changes nothing |
| Registry.MergeUnique | custom_components/snmp_matis_gateway/hub.py:176-183 | merging two duplicate-free lists gives a duplicate-free list |
| Registry.MergeKeepsRepeatsOfNew | custom_components/snmp_matis_gateway/hub.py:177-180 | `have` is computed once, so an id new to the list but repeated in the incoming list is appended twice |
| Registry.IdsAppend | custom_components/snmp_matis_gateway/hub.py:177 | the id set of a concatenation is the union of the id sets |
| Registry.UniqueAppend | custom_components/snmp_matis_gateway/hub.py:180 | appending a duplicate-free list with disjoint ids keeps the list duplicate-free |
| Catalogue.MeterEntryFor | custom_components/snmp_matis_gateway/hub.py:95-116 | the table row returned for a key is that key's row |
| Catalogue.MeterRowShape | custom_components/snmp_matis_gateway/hub.py:95-116 | every meter OID is instance 1 of a column under 14.11.3.1 (SDM220, ninth arc 11) or 14.21.3.1 (DDS, ninth arc 21); units are kWh, W, V, A for energy, power, voltage, current in both profiles; power is the only reading converted from kW |
| Catalogue.OidShape | custom_components/snmp_matis_gateway/hub.py:129-159 | a cell reading's OID has 13 arcs, ninth arc 9 (battery), the reading's column as twelfth arc and the cell index as last arc; a channel's OID has 13 arcs, ninth arc 18 (breakers) and the channel index as last arc |
| Catalogue.CellDesc | custom_components/snmp_matis_gateway/hub.py:133-155 | cell n's sensor for a reading has that cell and reading as id, sits on that reading's OID, has a unit, and scales by 10 for temperature and by 100 otherwise |
| Catalogue.ChannelSwitch | custom_components/snmp_matis_gateway/hub.py:163-167 | channel idx's switch has the channel's id and writes to the channel's OID |
| Catalogue.ChannelState | custom_components/snmp_matis_gateway/hub.py:169-173 | channel idx's state sensor has the switch id with `_state`, reads the switch's own OID, has no unit and uses raw_int |
| Catalogue.DiscoveredAnswered | custom_components/snmp_matis_gateway/hub.py:91-173 | no discovered sensor has a channel id, and each was found because its own OID answered or, for a cell reading, its cell's SOC did; every discovered switch has a channel id and its OID answered |
| Catalogue.ProbeOrder | custom_components/snmp_matis_gateway/hub.py:94-173 | one discovery run reads 2 × 4 + 32 + 8 = 48 OIDs |
| Catalogue.CellOidInjective | custom_components/snmp_matis_gateway/hub.py:129-140 | two cell OIDs are equal iff they have the same cell and the same reading |
| Catalogue.ChannelOidInjective | custom_components/snmp_matis_gateway/hub.py:159 | two channel OIDs are equal iff they have the same channel index |
| Catalogue.MeterFacts | custom_components/snmp_matis_gateway/hub.py:94-124 | a profile emits exactly the table rows whose read succeeded, with the table's OID, unit and rule, and no id twice |
| Catalogue.CellGroupFacts | custom_components/snmp_matis_gateway/hub.py:128-155 | a cell emits all four of its sensors if its SOC read succeeded and none otherwise |
| Catalogue.CellsFacts | custom_components/snmp_matis_gateway/hub.py:128-155 | cells 1..n emit exactly the four sensors of each index whose SOC answered, with distinct ids |
| Catalogue.ChannelsFacts | custom_components/snmp_matis_gateway/hub.py:158-173 | channels 1..n emit a switch and a `_state` sensor for exactly the indices that answered, with distinct ids |
| Catalogue.MeterPresence | custom_components/snmp_matis_gateway/hub.py:101-108 | a meter sensor is discovered iff its OID answered, and then with the table's OID, unit and rule |
| Catalogue.CellPresence | custom_components/snmp_matis_gateway/hub.py:128-155 | each of cell n's sensors is discovered iff 1 ≤ n ≤ 32 and cell n's SOC answered, and then with the cell table's OID, unit and rule |
| Catalogue.ChannelPairing | custom_components/snmp_matis_gateway/hub.py:158-173 | channel idx's switch is discovered iff 1 ≤ idx ≤ 8 and its OID answered, and so is its `_state` sensor, which reads the same OID with raw_int |
| Catalogue.DiscoveredPaired | custom_components/snmp_matis_gateway/hub.py:158-173 | across one run, a switch id is discovered iff its `_state` sensor id is |
| Catalogue.DiscoveredUnique | custom_components/snmp_matis_gateway/hub.py:94-173 | one run never emits the same sensor id or switch id twice |
| Catalogue.DiscoveredDisjoint | custom_components/snmp_matis_gateway/hub.py:163-173 | no id of one run is both a sensor's and a switch's |
| Catalogue.SocProbesFacts | custom_components/snmp_matis_gateway/hub.py:128-130 | the cell probes are exactly the SOC OIDs of cells 1..n, in order |
| Catalogue.ChannelProbesFacts | custom_components/snmp_matis_gateway/hub.py:158-160 | the channel probes are exactly the OIDs of channels 1..n, in order |
| Catalogue.ProbeMembers | custom_components/snmp_matis_gateway/hub.py:94-173 | one run reads every meter row's OID, every cell's SOC OID and every channel's OID |
| Catalogue.ProbesSkipCellReadings | custom_components/snmp_matis_gateway/hub.py:128-155 | a cell's voltage, current and temperature OIDs are never read during discovery |
| Catalogue.CellsAgree | custom_components/snmp_matis_gateway/hub.py:128-155 | the cell sensors discovered depend only on the SOC answers |
| Catalogue.ChannelsAgree | custom_components/snmp_matis_gateway/hub.py:158-173 | the channel switches and sensors discovered depend only on the channel answers |
| Catalogue.DiscoveryReadsOnlyProbes | custom_components/snmp_matis_gateway/hub.py:89-173 | two gateways that answer the probed OIDs alike yield the same discovery result |
| Hub.Published | custom_components/snmp_matis_gateway/hub.py:203-209 | after a poll the cache has an entry for exactly the ids it had plus every sensor id |
| Hub.PublishedEntry | custom_components/snmp_matis_gateway/hub.py:203-209 | after a poll over duplicate-free sensors, each sensor's entry is the transform of the read of its own OID |
| Hub.PublishedFrame | custom_components/snmp_matis_gateway/hub.py:203-209 | a poll leaves the entry of an id that is not a sensor as it was, present or absent |
| Hub.PollEffect | custom_components/snmp_matis_gateway/hub.py:188-210 | the poll's whole effect on the cache: sensor entries rewritten from their reads, all other entries untouched |
| Hub.Registered | custom_components/snmp_matis_gateway/hub.py:163-183 | under the registry invariant no id is both a sensor's and a switch's |
| Hub.DiscoveredKinds | custom_components/snmp_matis_gateway/hub.py:104-173 | one run emits only channel ids for switches and never a channel id for a sensor |
| Hub.SwitchIdsNeverCached | custom_components/snmp_matis_gateway/hub.py:197-214 | under the invariant no switch id ever has a cache entry, since only sensor ids are written |
| Hub.DiscoveryKeepsRegistered | custom_components/snmp_matis_gateway/hub.py:175-183 | merging a discovery run keeps ids unique, switch ids channel ids and sensor ids not, each switch paired with its `_state` sensor, and cache keys among sensor ids |
| Hub.PollKeepsRegistered | custom_components/snmp_matis_gateway/hub.py:188-210 | a poll keeps the registry invariant |
| Hub.SwitchLevel | custom_components/snmp_matis_gateway/hub.py:218 | the written level is 0 or 1, and 1 exactly for on |
| Hub.ProbeMeter | custom_components/snmp_matis_gateway/hub.py:101-108 | the loop over a meter table collects the catalogue's rows for the OIDs that answered and reads the table's OIDs in order |
| Hub.ProbeCells | custom_components/snmp_matis_gateway/hub.py:128-155 | the cell loop collects the catalogue's cell sensors and reads only SOC OIDs 1..32 in order |
| Hub.ProbeChannels | custom_components/snmp_matis_gateway/hub.py:158-173 | the channel loop collects the catalogue's switches and `_state` sensors and reads channel OIDs 1..8 in order |
| Hub.ProbeAll | custom_components/snmp_matis_gateway/hub.py:94-173 | the four discovery loops together collect exactly the catalogue's sensors and switches for the gateway's answers, reading the 48 probe OIDs in order |
| Hub.FetchAll | custom_components/snmp_matis_gateway/hub.py:190-200 | the fetch stage of a poll stores, under every sensor's OID, the read of that OID, and nothing but reads |
| Hub.MatisHub.constructor | custom_components/snmp_matis_gateway/hub.py:70-83 | a new hub has no sensors, no switches and an empty cache, and satisfies the invariant |
| Hub.MatisHub.Discover | custom_components/snmp_matis_gateway/hub.py:89-183 | appends the newly discovered sensors and switches in discovery order, keeps every registered descriptor, leaves the cache alone, reads exactly the 48 probe OIDs and keeps the invariant |
| Hub.MatisHub.Poll | custom_components/snmp_matis_gateway/hub.py:188-210 | every sensor's entry becomes the transform of its own OID's read (None on failure or a raised conversion); other entries are unchanged; the cache is returned; the invariant is kept |
| Hub.MatisHub.WriteEntries | custom_components/snmp_matis_gateway/hub.py:202-209 | the transform stage writes, sensor by sensor in order, the transform of the fetched text into the cache |
| Hub.MatisHub.GetValue | custom_components/snmp_matis_gateway/hub.py:212-214 | the cached value for an id, None when there is no entry |
| Hub.MatisHub.SetSwitch | custom_components/snmp_matis_gateway/hub.py:216-218 | the result is the outcome of writing 1 for on and 0 for off to the given OID |
| SensorPlatform.MatisSensor.constructor | custom_components/snmp_matis_gateway/sensor.py:49-56 | the entity keeps its hub and its descriptor, so its id is the descriptor's id |
| SensorPlatform.MatisSensor.NativeValue | custom_components/snmp_matis_gateway/sensor.py:58-61 | the entity's value is the hub's cached value for its own id, None when there is no entry |
| SensorPlatform.Create | custom_components/snmp_matis_gateway/sensor.py:28-34 | one new entity for each hub sensor whose id had no entity when the pass began, in hub order |
| SensorPlatform.SensorEntities.constructor | custom_components/snmp_matis_gateway/sensor.py:21-23 | setup creates one new entity per hub sensor, in order, and adds them as one batch |
| SensorPlatform.SensorEntities.MaybeAddNew | custom_components/snmp_matis_gateway/sensor.py:27-36 | keeps the existing entities, appends new ones for exactly the hub sensors whose id was missing, adds a batch only if there is at least one, afterwards covers every hub sensor, and changes nothing when everything was already covered |
| SwitchPlatform.Numeric | custom_components/snmp_matis_gateway/switch.py:52 | `float()` of a cached value: a number stays itself, and text converts iff it is a signed integer |
| SwitchPlatform.NumericOfRendered | custom_components/snmp_matis_gateway/switch.py:52 | `float()` of an integer's text is that integer |
| SwitchPlatform.OnState | custom_components/snmp_matis_gateway/switch.py:43-54 | the first cached value that is present decides; it is on iff numerically 1; the state is unknown when neither is present or the value is not a number |
| SwitchPlatform.SwitchRoundTrip | custom_components/snmp_matis_gateway/switch.py:41-54 | a level written for `on`, read back through the `_state` sensor's raw_int rule, reports `on` |
| SwitchPlatform.OnStateAfterPoll | custom_components/snmp_matis_gateway/switch.py:41-54 | after a poll in which channel idx reported the level for `on`, its state entry exists and reports `on` |
| SwitchPlatform.MatisSwitch.constructor | custom_components/snmp_matis_gateway/switch.py:34-39 | the entity keeps its hub and its descriptor, so its id is the descriptor's id and its commands go to the descriptor's OID |
| SwitchPlatform.MatisSwitch.IsOn | custom_components/snmp_matis_gateway/switch.py:41-54 | decided by the `_state` entry when it holds a value, otherwise by the switch's own entry |
| SwitchPlatform.IsOnUsesStateOnly | custom_components/snmp_matis_gateway/switch.py:44-49 | for a switch of a consistent hub, the lookup of its own id finds nothing, so the `_state` entry alone decides |
| SwitchPlatform.MatisSwitch.TurnOn | custom_components/snmp_matis_gateway/switch.py:56-57 | writes 1 to the switch's own OID |
| SwitchPlatform.MatisSwitch.TurnOff | custom_components/snmp_matis_gateway/switch.py:59-60 | writes 0 to the switch's own OID |
| SwitchPlatform.Create | custom_components/snmp_matis_gateway/switch.py:19-25 | one new entity for each hub switch whose id had no entity when the pass began, in hub order |
| SwitchPlatform.SwitchEntities.constructor | custom_components/snmp_matis_gateway/switch.py:14-15 | setup creates one new entity per hub switch, in order, and adds them as one batch |
| SwitchPlatform.SwitchEntities.MaybeAddNew | custom_components/snmp_matis_gateway/switch.py:17-27 | keeps the existing entities, appends new ones for exactly the hub switches whose id was missing, adds a batch only if there is at least one, afterwards covers every hub switch, and changes nothing when everything was already covered |

Four facts about the code shape the model:

- `_async_poll_all` writes each sensor's entry into `_values` one at a
  time (hub.py:203-209). `Poll` does the same, and entries of other ids stay
  as they were.
- `_snmp_get` has a single failure value, `None` (hub.py:28-32), and the
  model's `read` has a single failure value too.
- After a failed read, or a rule that raises, `None` is stored under the
  sensor's id (hub.py:207-209). The entry is present and holds `None`.
  `get_value` returns `None` for a missing entry as well, so consumers see
  no difference.
- Discovery reads one OID after another (hub.py:101-160), and the model
  records that order.

`is_on` falls back to the cache entry under the switch's own id
(switch.py:48). Only sensor ids are ever written to the cache, and no
sensor id is a switch id, so that lookup always finds nothing
(`SwitchPlatform.IsOnUsesStateOnly`).

## Left out

- The SNMP transport (`_snmp_get`, `_snmp_set`, pysnmp, the community strings, UDP timeouts and retries) is not modelled. Reads and writes are the oracle parameters `read` and `send`.
- Exceptions raised by the SNMP library inside `_snmp_get` are not modelled. Nothing catches them: one aborts `async_discover` before `_merge` (hub.py:182-183), so neither list changes, and one aborts `_async_poll_all` at `asyncio.gather` (hub.py:200), before any cache write.
- A "no such object" or "no such instance" reply is not modelled as a separate case. Under SNMPv2c it arrives with no error status, so `_snmp_get` returns its text and not `None`. Discovery then counts the OID as present, and the poll caches `None` for it because the text is not a number. The model covers this only because `read` may return any text.
- Asyncio concurrency is left out. The poll's fan-out reads are sequential in the model and draw from one `read` oracle per tick, so the model does not capture a value changing on the device between two reads of the same OID in one tick. Interleaving of discovery, poll and entity reconciliation is not modelled either: each is one atomic method call. One consequence is not captured: a rediscovery can merge a new sensor while a poll waits in `asyncio.gather` (hub.py:182, hub.py:200). Its OID was never fetched, so `results.get` misses (hub.py:204) and the new sensor's entry becomes `None`. `MatisHub.WriteEntries` requires every sensor's OID to have been fetched, so it has no such miss.
- The `DataUpdateCoordinator`, `async_first_poll`, the refresh request after discovery, and the 15-second reconciliation timers are Home Assistant scheduling. Each modelled operation is one run of the callback it schedules.
- Decimal.ParseInt: covers only ASCII integer text as an SNMP agent renders it. Python's `float()` also accepts fractions, exponents, surrounding whitespace, underscores, `inf`, `nan` and non-ASCII Unicode decimal digits; the model treats those as conversion failures.
- Transforms.Scale: uses exact rationals. The source divides and multiplies IEEE doubles, so rounding (for example in `x/100.0*1000.0`) is not captured.
- Display names (`name`, `.title()` of keys) are not modelled. They are not read by any modelled operation.
- `MatisSwitch._state` is set in the constructor and never read, so it is not modelled.
- SwitchPlatform.MatisSwitch.TurnOn: returns the write's outcome, which `async_turn_on` awaits and discards; the state shown still comes only from the next poll.
- SwitchPlatform.MatisSwitch.TurnOff: returns the write's outcome, which `async_turn_off` awaits and discards.
- `__init__.py` (setup, forwarding and the rediscovery timer) and `config_flow.py` are not part of this model.
- Entities' Home Assistant attributes (unit of measurement, `has_entity_name`) are not modelled beyond the descriptor's unit field.
