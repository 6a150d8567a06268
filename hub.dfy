/**
 * The hub (`MatisHub`): the registry of discovered sensors and switches and
 * the cache of their latest values. Discovery appends newly found
 * descriptors; a poll reads every sensor's OID and writes one cache entry per
 * sensor, in place, entry by entry.
 */
module Hub {
  import opened Optional
  import opened Descriptors
  import opened Transforms
  import opened Registry
  import opened Catalogue

  /**
   * The cache after a poll has written the entries of `ss` in order, one
   * sensor after another; it holds exactly the ids it held before and the
   * ids of the sensors.
   */
  function Published(values: map<Id, Option<Reading>>, ss: seq<SensorDesc>, read: Oid -> Option<string>): (r: map<Id, Option<Reading>>)
    ensures r.Keys == values.Keys + Ids(ss, SensorKey)
  {
    if ss == [] then values
    else
      var init, s := ss[..|ss| - 1], ss[|ss| - 1];
      assert ss == init + [s];
      IdsAppend(init, [s], SensorKey);
      IdsSingleton(s, SensorKey);
      Published(values, init, read)[s.id := CacheEntry(s.tf, read(s.oid))]
  }

  /** After a poll every sensor's entry is its rule applied to the read of its OID. */
  lemma {:induction false} PublishedEntry(values: map<Id, Option<Reading>>, ss: seq<SensorDesc>, read: Oid -> Option<string>, k: nat)
    requires UniqueBy(ss, SensorKey) && k < |ss|
    ensures ss[k].id in Published(values, ss, read)
    ensures Published(values, ss, read)[ss[k].id] == CacheEntry(ss[k].tf, read(ss[k].oid))
  {
    if k < |ss| - 1 {
      var init := ss[..|ss| - 1];
      assert init[k] == ss[k];
      PublishedEntry(values, init, read, k);
    }
  }

  /** A poll leaves the entries of ids that are not sensors as they were. */
  lemma {:induction false} PublishedFrame(values: map<Id, Option<Reading>>, ss: seq<SensorDesc>, read: Oid -> Option<string>, id: Id)
    requires id !in Ids(ss, SensorKey)
    ensures id in values ==> id in Published(values, ss, read) && Published(values, ss, read)[id] == values[id]
    ensures id !in values ==> id !in Published(values, ss, read)
  {
    if ss != [] {
      var init, last := ss[..|ss| - 1], ss[|ss| - 1];
      assert ss == init + [last];
      IdsAppend(init, [last], SensorKey);
      IdsSingleton(last, SensorKey);
      PublishedFrame(values, init, read, id);
    }
  }

  /**
   * The registry invariant: ids are unique among the sensors and among the
   * switches, every switch id is a channel id and no sensor id is, a switch
   * is registered iff its `_state` sensor is, and the cache only holds sensor
   * ids. So no id is both a sensor's and a switch's.
   */
  ghost predicate Registered(sensors: seq<SensorDesc>, switches: seq<SwitchDesc>, values: map<Id, Option<Reading>>)
    ensures Registered(sensors, switches, values) ==> Ids(sensors, SensorKey) !! Ids(switches, SwitchKey)
  {
    && UniqueBy(sensors, SensorKey)
    && UniqueBy(switches, SwitchKey)
    && (forall id :: id in Ids(switches, SwitchKey) ==> id.Attomat?)
    && (forall id :: id in Ids(sensors, SensorKey) ==> !id.Attomat?)
    && (forall id :: id in Ids(switches, SwitchKey) <==> State(id) in Ids(sensors, SensorKey))
    && values.Keys <= Ids(sensors, SensorKey)
  }

  /** The ids of one discovery run: every switch id is a channel id and no sensor id is. */
  lemma DiscoveredKinds(read: Oid -> Option<string>)
    ensures forall id :: id in Ids(DiscoveredSwitches(read), SwitchKey) ==> id.Attomat?
    ensures forall id :: id in Ids(DiscoveredSensors(read), SensorKey) ==> !id.Attomat?
  {
    DiscoveredAnswered(read);
    forall id | id in Ids(DiscoveredSwitches(read), SwitchKey) ensures id.Attomat? {
      var w :| w in DiscoveredSwitches(read) && SwitchKey(w) == id;
    }
    forall id | id in Ids(DiscoveredSensors(read), SensorKey) ensures !id.Attomat? {
      var d :| d in DiscoveredSensors(read) && SensorKey(d) == id;
    }
  }

  /**
   * Under the invariant no switch id ever has a cache entry, so `is_on`'s
   * lookup of a switch's own id always finds nothing.
   */
  lemma SwitchIdsNeverCached(sensors: seq<SensorDesc>, switches: seq<SwitchDesc>, values: map<Id, Option<Reading>>)
    requires Registered(sensors, switches, values)
    ensures forall w :: w in switches ==> w.id !in values
  {
    forall w | w in switches ensures w.id !in values {
      assert SwitchKey(w) == w.id;
      assert w.id in Ids(switches, SwitchKey);
    }
  }

  /** Merging what a discovery run found keeps the registry invariant. */
  lemma DiscoveryKeepsRegistered(sensors: seq<SensorDesc>, switches: seq<SwitchDesc>, values: map<Id, Option<Reading>>, read: Oid -> Option<string>)
    requires Registered(sensors, switches, values)
    ensures Registered(sensors + Absent(DiscoveredSensors(read), Ids(sensors, SensorKey), SensorKey),
                       switches + Absent(DiscoveredSwitches(read), Ids(switches, SwitchKey), SwitchKey),
                       values)
  {
    DiscoveredUnique(read);
    DiscoveredPaired(read);
    DiscoveredKinds(read);
    MergeUnique(sensors, DiscoveredSensors(read), SensorKey);
    MergeUnique(switches, DiscoveredSwitches(read), SwitchKey);
    MergedIds(sensors, DiscoveredSensors(read), SensorKey);
    MergedIds(switches, DiscoveredSwitches(read), SwitchKey);
  }

  /** A poll keeps the registry invariant. */
  lemma PollKeepsRegistered(sensors: seq<SensorDesc>, switches: seq<SwitchDesc>, values: map<Id, Option<Reading>>, read: Oid -> Option<string>)
    requires Registered(sensors, switches, values)
    ensures Registered(sensors, switches, Published(values, sensors, read))
  {
  }

  /**
   * A poll over sensors with unique ids leaves every sensor's entry equal to
   * its rule applied to the read of its OID, and every other entry as it was.
   */
  lemma PollEffect(values: map<Id, Option<Reading>>, ss: seq<SensorDesc>, read: Oid -> Option<string>)
    requires UniqueBy(ss, SensorKey)
    ensures forall k :: 0 <= k < |ss| ==>
              ss[k].id in Published(values, ss, read) && Published(values, ss, read)[ss[k].id] == CacheEntry(ss[k].tf, read(ss[k].oid))
    ensures forall id :: id !in Ids(ss, SensorKey) && id in values ==>
              id in Published(values, ss, read) && Published(values, ss, read)[id] == values[id]
    ensures forall id :: id !in Ids(ss, SensorKey) && id !in values ==> id !in Published(values, ss, read)
  {
    forall k | 0 <= k < |ss|
      ensures ss[k].id in Published(values, ss, read) && Published(values, ss, read)[ss[k].id] == CacheEntry(ss[k].tf, read(ss[k].oid))
    {
      PublishedEntry(values, ss, read, k);
    }
    forall id | id !in Ids(ss, SensorKey)
      ensures id in values ==> id in Published(values, ss, read) && Published(values, ss, read)[id] == values[id]
      ensures id !in values ==> id !in Published(values, ss, read)
    {
      PublishedFrame(values, ss, read, id);
    }
  }

  /** The integer written to a switch's OID: 1 for on, 0 for off. */
  function SwitchLevel(on: bool): (v: int)
    ensures v == 0 || v == 1
    ensures v == 1 <==> on
  {
    if on then 1 else 0
  }

  /** Probes one meter profile's table in order and collects the rows whose read returned a value. */
  method ProbeMeter(p: Profile, read: Oid -> Option<string>) returns (found: seq<SensorDesc>, ghost probed: seq<Oid>)
    ensures found == MeterSensors(p, read)
    ensures probed == MeterProbes(MeterTable(p))
  {
    var table := MeterTable(p);
    found, probed := [], [];
    var i := 0;
    while i < |table|
      invariant 0 <= i <= |table|
      invariant found == MeterFound(p, table[..i], read)
      invariant probed == MeterProbes(table[..i])
    {
      var e := table[i];
      var val := read(e.oid);
      probed := probed + [e.oid];
      if val.Some? {
        found := found + [MeterDesc(p, e)];
      }
      assert table[..i + 1][..i] == table[..i];
      i := i + 1;
    }
    assert table[..|table|] == table;
  }

  /** Probes the SOC of cells 1 to 32; a cell that answers gets its SOC, voltage, current and temperature sensors. */
  method ProbeCells(read: Oid -> Option<string>) returns (found: seq<SensorDesc>, ghost probed: seq<Oid>)
    ensures found == CellsUpTo(CellCount, read)
    ensures probed == SocProbesUpTo(CellCount)
  {
    found, probed := [], [];
    var n := 1;
    while n <= CellCount
      invariant 1 <= n <= CellCount + 1
      invariant found == CellsUpTo(n - 1, read)
      invariant probed == SocProbesUpTo(n - 1)
    {
      var socOid := CellOid(n, Soc);
      var soc := read(socOid);
      probed := probed + [socOid];
      if soc.Some? {
        found := found + CellSensors(n);
      }
      CellsStep(n, read);
      n := n + 1;
    }
  }

  /** Probes switch channels 1 to 8; a channel that answers gets a switch and a `_state` sensor on the same OID. */
  method ProbeChannels(read: Oid -> Option<string>) returns (states: seq<SensorDesc>, switches: seq<SwitchDesc>, ghost probed: seq<Oid>)
    ensures states == StatesUpTo(ChannelCount, read)
    ensures switches == SwitchesUpTo(ChannelCount, read)
    ensures probed == ChannelProbesUpTo(ChannelCount)
  {
    states, switches, probed := [], [], [];
    var idx := 1;
    while idx <= ChannelCount
      invariant 1 <= idx <= ChannelCount + 1
      invariant states == StatesUpTo(idx - 1, read)
      invariant switches == SwitchesUpTo(idx - 1, read)
      invariant probed == ChannelProbesUpTo(idx - 1)
    {
      var oid := ChannelOid(idx);
      var val := read(oid);
      probed := probed + [oid];
      if val.Some? {
        switches := switches + [ChannelSwitch(idx)];
        states := states + [ChannelState(idx)];
      }
      idx := idx + 1;
    }
  }

  /**
   * The probing half of `async_discover`: both meter tables, then the cells,
   * then the switch channels, each read once in that order.
   */
  method ProbeAll(read: Oid -> Option<string>) returns (sensors: seq<SensorDesc>, switches: seq<SwitchDesc>, ghost probed: seq<Oid>)
    ensures sensors == DiscoveredSensors(read)
    ensures switches == DiscoveredSwitches(read)
    ensures probed == ProbeOrder()
  {
    var sdmSensors, sdmProbes := ProbeMeter(Sdm220, read);
    var ddsSensors, ddsProbes := ProbeMeter(Dds, read);
    var cellSensors, cellProbes := ProbeCells(read);
    var stateSensors;
    ghost var channelProbes;
    stateSensors, switches, channelProbes := ProbeChannels(read);
    sensors := sdmSensors + ddsSensors + cellSensors + stateSensors;
    probed := sdmProbes + ddsProbes + cellProbes + channelProbes;
  }

  /** The fetch stage of `_async_poll_all`: the text read from each sensor's OID, keyed by OID. */
  method FetchAll(ss: seq<SensorDesc>, read: Oid -> Option<string>) returns (results: map<Oid, Option<string>>)
    ensures forall k :: 0 <= k < |ss| ==> ss[k].oid in results
    ensures forall o :: o in results ==> results[o] == read(o)
  {
    results := map[];
    var i := 0;
    while i < |ss|
      invariant 0 <= i <= |ss|
      invariant forall k :: 0 <= k < i ==> ss[k].oid in results
      invariant forall o :: o in results ==> results[o] == read(o)
    {
      var oid := ss[i].oid;
      results := results[oid := read(oid)];
      i := i + 1;
    }
  }

  class MatisHub {
    var sensors: seq<SensorDesc>
    var switches: seq<SwitchDesc>
    var values: map<Id, Option<Reading>>

    ghost predicate Valid()
      reads this
    {
      Registered(sensors, switches, values)
    }

    constructor ()
      ensures Valid()
      ensures sensors == [] && switches == [] && values == map[]
    {
      sensors, switches, values := [], [], map[];
    }

    /**
     * `async_discover`: probes the catalogue and merges what it found into
     * the registry. Descriptors already registered stay as they are, so a
     * sensor whose probe fails this time is kept.
     */
    method Discover(read: Oid -> Option<string>) returns (ghost probed: seq<Oid>)
      requires Valid()
      modifies this`sensors, this`switches
      ensures Valid()
      ensures sensors == old(sensors) + Absent(DiscoveredSensors(read), Ids(old(sensors), SensorKey), SensorKey)
      ensures switches == old(switches) + Absent(DiscoveredSwitches(read), Ids(old(switches), SwitchKey), SwitchKey)
      ensures values == old(values)
      ensures probed == ProbeOrder()
    {
      var newSensors, newSwitches;
      newSensors, newSwitches, probed := ProbeAll(read);
      DiscoveryKeepsRegistered(sensors, switches, values, read);
      sensors := Merge(sensors, newSensors, SensorKey);
      switches := Merge(switches, newSwitches, SwitchKey);
    }

    /**
     * `_async_poll_all`: reads every sensor's OID, then writes each sensor's
     * cache entry in place. A failed read, and a rule that raises on the text
     * read, set the entry to None.
     */
    method Poll(read: Oid -> Option<string>) returns (r: map<Id, Option<Reading>>)
      requires Valid()
      modifies this`values
      ensures Valid()
      ensures values == Published(old(values), sensors, read)
      ensures forall k :: 0 <= k < |sensors| ==>
                sensors[k].id in values && values[sensors[k].id] == CacheEntry(sensors[k].tf, read(sensors[k].oid))
      ensures forall id :: id !in Ids(sensors, SensorKey) && id in old(values) ==> id in values && values[id] == old(values)[id]
      ensures forall id :: id !in Ids(sensors, SensorKey) && id !in old(values) ==> id !in values
      ensures r == values
    {
      var results := FetchAll(sensors, read);
      WriteEntries(results, read);
      PollKeepsRegistered(sensors, switches, old(values), read);
      PollEffect(old(values), sensors, read);
      r := values;
    }

    /**
     * The transform stage of `_async_poll_all`: for each sensor in order, its
     * rule applied to the fetched text becomes its cache entry, or None when
     * the rule raises.
     */
    method WriteEntries(results: map<Oid, Option<string>>, read: Oid -> Option<string>)
      requires forall o :: o in results ==> results[o] == read(o)
      requires forall k :: 0 <= k < |sensors| ==> sensors[k].oid in results
      modifies this`values
      ensures values == Published(old(values), sensors, read)
    {
      var i := 0;
      while i < |sensors|
        invariant 0 <= i <= |sensors|
        invariant values == Published(old(values), sensors[..i], read)
      {
        var s := sensors[i];
        var raw := if s.oid in results then results[s.oid] else None;
        match Apply(s.tf, raw) {
          case Returned(v) =>
            values := values[s.id := v];
          case Raised =>
            values := values[s.id := None];
        }
        assert sensors[..i + 1][..i] == sensors[..i];
        i := i + 1;
      }
      assert sensors[..|sensors|] == sensors;
    }

    /** `get_value`: the cached value of an id, absent when the cache has no entry for it. */
    function GetValue(id: Id): (v: Option<Reading>)
      reads this
      ensures id !in values ==> v == None
      ensures id in values ==> v == values[id]
    {
      if id in values then values[id] else None
    }

    /**
     * `async_set_switch`: writes 1 (on) or 0 (off) to `oid` and reports
     * whether the write succeeded. Neither the registry nor the cache
     * changes.
     */
    method SetSwitch(oid: Oid, on: bool, send: (Oid, int) -> bool) returns (ok: bool)
      ensures ok == send(oid, SwitchLevel(on))
    {
      ok := send(oid, if on then 1 else 0);
    }
  }
}
