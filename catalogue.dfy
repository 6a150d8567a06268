/**
 * The discovery catalogue (`async_discover`), as functions of the answers the
 * gateway gives. `read(oid)` is the text an SNMP GET of `oid` returns, or
 * None when the reply carries an error indication, an error status or no
 * variable bindings. The catalogue has two fixed
 * four-sensor meter profiles, 32 battery cells whose SOC reading is the only
 * probe per cell, and 8 switch channels, each discovered together with a
 * `_state` sensor on the same OID.
 */
module Catalogue {
  import opened Optional
  import opened Descriptors
  import opened Transforms
  import opened Registry

  /** The gateway vendor's enterprise subtree, 1.3.6.1.4.1.45797. */
  const Enterprise: Oid := [1, 3, 6, 1, 4, 1, 45797]

  const CellCount: nat := 32

  const ChannelCount: nat := 8

  // ---- Meter profiles ----

  /** One row of a meter table: key, OID, unit and scaling rule. */
  datatype MeterEntry = MeterEntry(key: MeterKey, oid: Oid, unit: string, tf: Transform)

  /** The row of key `k` in profile `p`'s table; `MeterRowShape` states what every row holds. */
  function MeterEntryFor(p: Profile, k: MeterKey): (e: MeterEntry)
    ensures e.key == k
  {
    match p
    case Sdm220 =>
      (match k
       case EnergyTotal => MeterEntry(k, Enterprise + [14, 11, 3, 1, 7, 1], "kWh", Div100)
       case PowerW => MeterEntry(k, Enterprise + [14, 11, 3, 1, 9, 1], "W", KwDiv100ToW)
       case Voltage => MeterEntry(k, Enterprise + [14, 11, 3, 1, 14, 1], "V", Div100)
       case Current => MeterEntry(k, Enterprise + [14, 11, 3, 1, 39, 1], "A", Div100))
    case Dds =>
      (match k
       case EnergyTotal => MeterEntry(k, Enterprise + [14, 21, 3, 1, 7, 1], "kWh", Div100)
       case PowerW => MeterEntry(k, Enterprise + [14, 21, 3, 1, 9, 1], "W", KwDiv1000ToW)
       case Voltage => MeterEntry(k, Enterprise + [14, 21, 3, 1, 15, 1], "V", Div100)
       case Current => MeterEntry(k, Enterprise + [14, 21, 3, 1, 14, 1], "A", Div1000))
  }

  /**
   * Both profiles' tables: instance 1 of a column under 14.11.3.1 (SDM220) or
   * 14.21.3.1 (DDS), so the ninth arc tells the profiles apart; energy in kWh, power in W, voltage in V, current in A;
   * power is the only reading converted from kW.
   */
  lemma MeterRowShape(p: Profile, k: MeterKey)
    ensures var e := MeterEntryFor(p, k);
            && |e.oid| == 13 && e.oid[..7] == Enterprise && e.oid[7] == 14 && e.oid[9..11] == [3, 1] && e.oid[12] == 1
            && Subtree(e.oid) == (if p == Sdm220 then 11 else 21)
            && (e.unit == "kWh" <==> k == EnergyTotal)
            && (e.unit == "W" <==> k == PowerW)
            && (e.unit == "V" <==> k == Voltage)
            && (e.unit == "A" <==> k == Current)
            && (e.tf in {KwDiv100ToW, KwDiv1000ToW} <==> k == PowerW)
  {
  }

  /** A meter profile's table, in the order the gateway probes it. */
  function MeterTable(p: Profile): seq<MeterEntry> {
    [MeterEntryFor(p, EnergyTotal), MeterEntryFor(p, PowerW), MeterEntryFor(p, Voltage), MeterEntryFor(p, Current)]
  }

  function MeterDesc(p: Profile, e: MeterEntry): SensorDesc {
    SensorDesc(Meter(p, e.key), e.oid, Some(e.unit), Tag(e.tf))
  }

  /** The descriptors for the entries of `es` whose read returned a value. */
  function MeterFound(p: Profile, es: seq<MeterEntry>, read: Oid -> Option<string>): seq<SensorDesc> {
    if es == [] then []
    else
      var e := es[|es| - 1];
      MeterFound(p, es[..|es| - 1], read) + (if read(e.oid).Some? then [MeterDesc(p, e)] else [])
  }

  function MeterSensors(p: Profile, read: Oid -> Option<string>): seq<SensorDesc> {
    MeterFound(p, MeterTable(p), read)
  }

  // ---- Battery cells ----

  /** The column of a cell reading in the battery table. */
  function CellColumn(f: CellField): nat {
    match f
    case Soc => 11
    case CellVoltage => 3
    case CellCurrent => 4
    case Temperature => 7
  }

  /** The OID of reading `f` of cell `n`: column `CellColumn(f)`, instance `n`, in the battery subtree 14.9.5.1. */
  function CellOid(n: nat, f: CellField): Oid {
    Enterprise + [14, 9, 5, 1, CellColumn(f), n]
  }

  function CellUnit(f: CellField): string {
    match f
    case Soc => "%"
    case CellVoltage => "V"
    case CellCurrent => "A"
    case Temperature => "°C"
  }

  function CellTransform(f: CellField): Transform {
    match f
    case Soc => Div100
    case CellVoltage => Div100
    case CellCurrent => Div100
    case Temperature => Div10
  }

  /** Cell `n`'s sensor for reading `f`, on that reading's OID; temperature is scaled by 10, the other readings by 100. */
  function CellDesc(n: nat, f: CellField): (d: SensorDesc)
    ensures d.id == Cell(n, f) && d.oid == CellOid(n, f) && d.unit.Some?
    ensures d.tf == Tag(if f == Temperature then Div10 else Div100)
  {
    SensorDesc(Cell(n, f), CellOid(n, f), Some(CellUnit(f)), Tag(CellTransform(f)))
  }

  /** Cell `n`'s SOC, voltage, current and temperature sensors, in that order. */
  function CellSensors(n: nat): seq<SensorDesc> {
    [CellDesc(n, Soc), CellDesc(n, CellVoltage), CellDesc(n, CellCurrent), CellDesc(n, Temperature)]
  }

  /** Cell `n`'s four descriptors when its SOC read returned a value, none otherwise. */
  function CellGroup(n: nat, read: Oid -> Option<string>): seq<SensorDesc> {
    if read(CellOid(n, Soc)).Some? then CellSensors(n) else []
  }

  /** The descriptors of cells 1 to `n`. */
  function CellsUpTo(n: nat, read: Oid -> Option<string>): seq<SensorDesc> {
    if n == 0 then [] else CellsUpTo(n - 1, read) + CellGroup(n, read)
  }

  /** One step of `CellsUpTo`: cell `n` contributes its four sensors when its SOC answered. */
  lemma CellsStep(n: nat, read: Oid -> Option<string>)
    requires n > 0
    ensures CellsUpTo(n, read) == CellsUpTo(n - 1, read) + (if read(CellOid(n, Soc)).Some? then CellSensors(n) else [])
  {
  }

  // ---- Switch channels ----

  /** The OID of switch channel `idx`, in the breaker subtree 14.18.3.1.3. */
  function ChannelOid(idx: nat): Oid {
    Enterprise + [14, 18, 3, 1, 3, idx]
  }

  /** The switch of channel `idx`, writing to the channel's OID. */
  function ChannelSwitch(idx: nat): (w: SwitchDesc)
    ensures w.id == Attomat(idx) && w.oid == ChannelOid(idx)
  {
    SwitchDesc(Attomat(idx), ChannelOid(idx))
  }

  /** The state sensor discovered with a switch: same OID, read without scaling. */
  function ChannelState(idx: nat): (d: SensorDesc)
    ensures d.id == State(ChannelSwitch(idx).id) && d.oid == ChannelSwitch(idx).oid
    ensures d.unit == None && d.tf == Tag(RawInt)
  {
    SensorDesc(State(Attomat(idx)), ChannelOid(idx), None, Tag(RawInt))
  }

  function SwitchesUpTo(n: nat, read: Oid -> Option<string>): seq<SwitchDesc> {
    if n == 0 then []
    else SwitchesUpTo(n - 1, read) + (if read(ChannelOid(n)).Some? then [ChannelSwitch(n)] else [])
  }

  function StatesUpTo(n: nat, read: Oid -> Option<string>): seq<SensorDesc> {
    if n == 0 then []
    else StatesUpTo(n - 1, read) + (if read(ChannelOid(n)).Some? then [ChannelState(n)] else [])
  }

  // ---- One discovery run ----

  /** The sensor descriptors one discovery run builds, in the order it appends them. */
  function DiscoveredSensors(read: Oid -> Option<string>): seq<SensorDesc> {
    MeterSensors(Sdm220, read) + MeterSensors(Dds, read) + CellsUpTo(CellCount, read) + StatesUpTo(ChannelCount, read)
  }

  /** The switch descriptors one discovery run builds. */
  function DiscoveredSwitches(read: Oid -> Option<string>): seq<SwitchDesc> {
    SwitchesUpTo(ChannelCount, read)
  }

  function MeterProbes(es: seq<MeterEntry>): seq<Oid> {
    if es == [] then [] else MeterProbes(es[..|es| - 1]) + [es[|es| - 1].oid]
  }

  function SocProbesUpTo(n: nat): seq<Oid> {
    if n == 0 then [] else SocProbesUpTo(n - 1) + [CellOid(n, Soc)]
  }

  function ChannelProbesUpTo(n: nat): seq<Oid> {
    if n == 0 then [] else ChannelProbesUpTo(n - 1) + [ChannelOid(n)]
  }

  /** The OIDs one discovery run reads, in order. */
  function ProbeOrder(): (r: seq<Oid>)
    ensures |r| == 2 * 4 + CellCount + ChannelCount
  {
    MeterProbesUnrolled(Sdm220);
    MeterProbesUnrolled(Dds);
    SocProbesFacts(CellCount);
    ChannelProbesFacts(ChannelCount);
    MeterProbes(MeterTable(Sdm220)) + MeterProbes(MeterTable(Dds)) + SocProbesUpTo(CellCount) + ChannelProbesUpTo(ChannelCount)
  }

  // ---- Facts about OIDs ----

  /** The subtree an OID belongs to: 11 SDM220, 21 DDS, 9 battery cells, 18 switches. */
  function Subtree(o: Oid): nat {
    if |o| > 8 then o[8] else 0
  }

  /**
   * OID layout: 13 arcs; the ninth is the subtree (9 battery cells, 18
   * breaker channels); a cell reading's twelfth arc is its column and its
   * last arc the cell index; a channel's last arc is the channel index.
   */
  lemma OidShape(n: nat, f: CellField, idx: nat)
    ensures |CellOid(n, f)| == 13 && Subtree(CellOid(n, f)) == 9
    ensures CellOid(n, f)[11] == CellColumn(f) && CellOid(n, f)[12] == n
    ensures |ChannelOid(idx)| == 13 && Subtree(ChannelOid(idx)) == 18 && ChannelOid(idx)[12] == idx
  {
  }

  lemma CellOidInjective(n: nat, f: CellField, m: nat, g: CellField)
    ensures CellOid(n, f) == CellOid(m, g) <==> n == m && f == g
  {
    if CellOid(n, f) == CellOid(m, g) {
      assert CellOid(n, f)[11] == CellColumn(f) && CellOid(m, g)[11] == CellColumn(g);
      assert CellOid(n, f)[12] == n && CellOid(m, g)[12] == m;
    }
  }

  lemma ChannelOidInjective(idx: nat, jdx: nat)
    ensures ChannelOid(idx) == ChannelOid(jdx) <==> idx == jdx
  {
    if ChannelOid(idx) == ChannelOid(jdx) {
      assert ChannelOid(idx)[12] == idx && ChannelOid(jdx)[12] == jdx;
    }
  }

  // ---- What one discovery run emits ----

  /** The descriptor a meter table row gives when its read returned a value. */
  function MeterHit(p: Profile, k: MeterKey, read: Oid -> Option<string>): seq<SensorDesc> {
    if read(MeterEntryFor(p, k).oid).Some? then [MeterDesc(p, MeterEntryFor(p, k))] else []
  }

  lemma MeterSensorsUnrolled(p: Profile, read: Oid -> Option<string>)
    ensures MeterSensors(p, read)
         == MeterHit(p, EnergyTotal, read) + MeterHit(p, PowerW, read) + MeterHit(p, Voltage, read) + MeterHit(p, Current, read)
  {
    var t := MeterTable(p);
    assert t[..3][..2][..1][..0] == [];
    assert MeterFound(p, t[..3][..2][..1], read) == MeterHit(p, EnergyTotal, read);
    assert t[..3][..2] == t[..2];
    assert MeterFound(p, t[..2], read) == MeterHit(p, EnergyTotal, read) + MeterHit(p, PowerW, read);
    assert t[..3][..2] == t[..2];
    assert MeterFound(p, t[..3], read) == MeterHit(p, EnergyTotal, read) + MeterHit(p, PowerW, read) + MeterHit(p, Voltage, read);
  }

  /** The row of key `k` contributes its descriptor exactly when its read returned a value. */
  lemma MeterHitFacts(p: Profile, k: MeterKey, read: Oid -> Option<string>)
    ensures forall d :: d in MeterHit(p, k, read) ==> d == MeterDesc(p, MeterEntryFor(p, k)) && read(MeterEntryFor(p, k).oid).Some?
    ensures read(MeterEntryFor(p, k).oid).Some? ==> MeterDesc(p, MeterEntryFor(p, k)) in MeterHit(p, k, read)
    ensures UniqueBy(MeterHit(p, k, read), SensorKey)
    ensures Ids(MeterHit(p, k, read), SensorKey) <= {Meter(p, k)}
  {
  }

  /** Every descriptor a meter profile emits is the row of its own key, and that row's read returned a value. */
  lemma MeterSound(p: Profile, read: Oid -> Option<string>)
    ensures forall d :: d in MeterSensors(p, read) ==>
              d.id.Meter? && d.id.profile == p && d == MeterDesc(p, MeterEntryFor(p, d.id.key))
              && read(MeterEntryFor(p, d.id.key).oid).Some?
  {
    MeterSensorsUnrolled(p, read);
    var a, b, c, e := MeterHit(p, EnergyTotal, read), MeterHit(p, PowerW, read), MeterHit(p, Voltage, read), MeterHit(p, Current, read);
    MeterHitFacts(p, EnergyTotal, read);
    MeterHitFacts(p, PowerW, read);
    MeterHitFacts(p, Voltage, read);
    MeterHitFacts(p, Current, read);
    forall d: SensorDesc | d in a + b + c + e
      ensures d.id.Meter? && d.id.profile == p && d == MeterDesc(p, MeterEntryFor(p, d.id.key))
              && read(MeterEntryFor(p, d.id.key).oid).Some?
    {
      if d in a {
      } else if d in b {
      } else if d in c {
      } else {
        assert d in e;
      }
    }
  }

  /** A meter profile emits the row of every key whose read returned a value. */
  lemma MeterComplete(p: Profile, read: Oid -> Option<string>)
    ensures forall k :: read(MeterEntryFor(p, k).oid).Some? ==> MeterDesc(p, MeterEntryFor(p, k)) in MeterSensors(p, read)
  {
    MeterSensorsUnrolled(p, read);
    var a, b, c, e := MeterHit(p, EnergyTotal, read), MeterHit(p, PowerW, read), MeterHit(p, Voltage, read), MeterHit(p, Current, read);
    forall k | read(MeterEntryFor(p, k).oid).Some? ensures MeterDesc(p, MeterEntryFor(p, k)) in a + b + c + e {
      MeterHitFacts(p, k, read);
      match k
      case EnergyTotal => assert MeterDesc(p, MeterEntryFor(p, k)) in a;
      case PowerW => assert MeterDesc(p, MeterEntryFor(p, k)) in b;
      case Voltage => assert MeterDesc(p, MeterEntryFor(p, k)) in c;
      case Current => assert MeterDesc(p, MeterEntryFor(p, k)) in e;
    }
  }

  /** No two descriptors a meter profile emits share an id. */
  lemma MeterUnique(p: Profile, read: Oid -> Option<string>)
    ensures UniqueBy(MeterSensors(p, read), SensorKey)
  {
    MeterSensorsUnrolled(p, read);
    var a, b, c, e := MeterHit(p, EnergyTotal, read), MeterHit(p, PowerW, read), MeterHit(p, Voltage, read), MeterHit(p, Current, read);
    MeterHitFacts(p, EnergyTotal, read);
    MeterHitFacts(p, PowerW, read);
    MeterHitFacts(p, Voltage, read);
    MeterHitFacts(p, Current, read);
    UniqueAppend(a, b, SensorKey);
    IdsAppend(a, b, SensorKey);
    UniqueAppend(a + b, c, SensorKey);
    IdsAppend(a + b, c, SensorKey);
    UniqueAppend(a + b + c, e, SensorKey);
  }

  /** A meter profile emits the row of key `k` exactly when that row's read returned a value, and nothing else. */
  lemma MeterFacts(p: Profile, read: Oid -> Option<string>)
    ensures forall d :: d in MeterSensors(p, read) ==>
              d.id.Meter? && d.id.profile == p && d == MeterDesc(p, MeterEntryFor(p, d.id.key))
              && read(MeterEntryFor(p, d.id.key).oid).Some?
    ensures forall k :: read(MeterEntryFor(p, k).oid).Some? ==> MeterDesc(p, MeterEntryFor(p, k)) in MeterSensors(p, read)
    ensures UniqueBy(MeterSensors(p, read), SensorKey)
  {
    MeterSound(p, read);
    MeterComplete(p, read);
    MeterUnique(p, read);
  }

  lemma CellGroupFacts(n: nat, read: Oid -> Option<string>)
    ensures forall d :: d in CellGroup(n, read) ==>
              d.id.Cell? && d.id.index == n && read(CellOid(n, Soc)).Some? && d == CellDesc(n, d.id.field)
    ensures read(CellOid(n, Soc)).Some? ==> forall f :: CellDesc(n, f) in CellGroup(n, read)
    ensures UniqueBy(CellGroup(n, read), SensorKey)
  {
    var group := CellGroup(n, read);
    if read(CellOid(n, Soc)).Some? {
      forall f ensures CellDesc(n, f) in group {
        match f
        case Soc => assert group[0] == CellDesc(n, f);
        case CellVoltage => assert group[1] == CellDesc(n, f);
        case CellCurrent => assert group[2] == CellDesc(n, f);
        case Temperature => assert group[3] == CellDesc(n, f);
      }
    }
  }

  /** Cells 1 to `n` emit the four descriptors of each cell whose SOC read returned a value, and nothing else. */
  lemma {:induction false} CellsFacts(n: nat, read: Oid -> Option<string>)
    ensures forall d :: d in CellsUpTo(n, read) ==>
              d.id.Cell? && 1 <= d.id.index <= n && read(CellOid(d.id.index, Soc)).Some?
              && d == CellDesc(d.id.index, d.id.field)
    ensures forall k, f :: 1 <= k <= n && read(CellOid(k, Soc)).Some? ==> CellDesc(k, f) in CellsUpTo(n, read)
    ensures UniqueBy(CellsUpTo(n, read), SensorKey)
  {
    if n > 0 {
      CellsFacts(n - 1, read);
      CellGroupFacts(n, read);
      var prev, group := CellsUpTo(n - 1, read), CellGroup(n, read);
      forall x | x in Ids(prev, SensorKey) ensures x.Cell? && x.index < n {
        var d :| d in prev && SensorKey(d) == x;
      }
      forall x | x in Ids(group, SensorKey) ensures x.Cell? && x.index == n {
        var d :| d in group && SensorKey(d) == x;
      }
      UniqueAppend(prev, group, SensorKey);
    }
  }

  /** Channels 1 to `n` emit a switch and its state sensor for each channel whose read returned a value, and nothing else. */
  lemma {:induction false} ChannelsFacts(n: nat, read: Oid -> Option<string>)
    ensures forall d :: d in StatesUpTo(n, read) ==>
              d.id.State? && d.id.base.Attomat? && 1 <= d.id.base.channel <= n
              && read(ChannelOid(d.id.base.channel)).Some? && d == ChannelState(d.id.base.channel)
    ensures forall w :: w in SwitchesUpTo(n, read) ==>
              w.id.Attomat? && 1 <= w.id.channel <= n
              && read(ChannelOid(w.id.channel)).Some? && w == ChannelSwitch(w.id.channel)
    ensures forall c :: 1 <= c <= n && read(ChannelOid(c)).Some? ==>
              ChannelState(c) in StatesUpTo(n, read) && ChannelSwitch(c) in SwitchesUpTo(n, read)
    ensures UniqueBy(StatesUpTo(n, read), SensorKey) && UniqueBy(SwitchesUpTo(n, read), SwitchKey)
  {
    if n > 0 {
      ChannelsFacts(n - 1, read);
      var hit := read(ChannelOid(n)).Some?;
      var states := if hit then [ChannelState(n)] else [];
      var switches := if hit then [ChannelSwitch(n)] else [];
      assert Ids(StatesUpTo(n - 1, read), SensorKey) !! Ids(states, SensorKey);
      assert Ids(SwitchesUpTo(n - 1, read), SwitchKey) !! Ids(switches, SwitchKey);
      UniqueAppend(StatesUpTo(n - 1, read), states, SensorKey);
      UniqueAppend(SwitchesUpTo(n - 1, read), switches, SwitchKey);
    }
  }

  /** An SDM220 or DDS sensor is emitted iff its one read returned a value (any value, "0" included), with its row's OID, unit and rule. */
  lemma MeterPresence(p: Profile, k: MeterKey, read: Oid -> Option<string>)
    ensures Meter(p, k) in Ids(DiscoveredSensors(read), SensorKey) <==> read(MeterEntryFor(p, k).oid).Some?
    ensures forall d :: d in DiscoveredSensors(read) && d.id == Meter(p, k) ==> d == MeterDesc(p, MeterEntryFor(p, k))
  {
    MeterFacts(Sdm220, read);
    MeterFacts(Dds, read);
    CellsFacts(CellCount, read);
    ChannelsFacts(ChannelCount, read);
    if read(MeterEntryFor(p, k).oid).Some? {
      assert SensorKey(MeterDesc(p, MeterEntryFor(p, k))) == Meter(p, k);
    }
  }

  /** Cell `n`'s SOC, voltage, current and temperature descriptors are all emitted iff its SOC read returned a value; otherwise none is. */
  lemma CellPresence(n: nat, f: CellField, read: Oid -> Option<string>)
    ensures Cell(n, f) in Ids(DiscoveredSensors(read), SensorKey) <==> 1 <= n <= CellCount && read(CellOid(n, Soc)).Some?
    ensures forall d :: d in DiscoveredSensors(read) && d.id == Cell(n, f) ==> d == CellDesc(n, f)
  {
    MeterFacts(Sdm220, read);
    MeterFacts(Dds, read);
    CellsFacts(CellCount, read);
    ChannelsFacts(ChannelCount, read);
    if 1 <= n <= CellCount && read(CellOid(n, Soc)).Some? {
      assert SensorKey(CellDesc(n, f)) == Cell(n, f);
    }
  }

  /** Switch `attomat_idx` is emitted iff sensor `attomat_idx_state` is; both carry the channel's OID and the sensor is read without scaling. */
  lemma ChannelPairing(idx: nat, read: Oid -> Option<string>)
    ensures Attomat(idx) in Ids(DiscoveredSwitches(read), SwitchKey) <==> 1 <= idx <= ChannelCount && read(ChannelOid(idx)).Some?
    ensures State(Attomat(idx)) in Ids(DiscoveredSensors(read), SensorKey) <==> 1 <= idx <= ChannelCount && read(ChannelOid(idx)).Some?
    ensures forall w :: w in DiscoveredSwitches(read) && w.id == Attomat(idx) ==> w == ChannelSwitch(idx)
    ensures forall d :: d in DiscoveredSensors(read) && d.id == State(Attomat(idx)) ==>
              d == ChannelState(idx) && d.oid == ChannelSwitch(idx).oid && d.tf == Tag(RawInt)
  {
    MeterFacts(Sdm220, read);
    MeterFacts(Dds, read);
    CellsFacts(CellCount, read);
    ChannelsFacts(ChannelCount, read);
    if 1 <= idx <= ChannelCount && read(ChannelOid(idx)).Some? {
      assert SwitchKey(ChannelSwitch(idx)) == Attomat(idx);
      assert SensorKey(ChannelState(idx)) == State(Attomat(idx));
    }
  }

  /** Every discovered switch has its `_state` sensor among the discovered sensors, and every discovered `_state` sensor its switch. */
  lemma DiscoveredPaired(read: Oid -> Option<string>)
    ensures forall id :: id in Ids(DiscoveredSwitches(read), SwitchKey) <==> State(id) in Ids(DiscoveredSensors(read), SensorKey)
  {
    MeterFacts(Sdm220, read);
    MeterFacts(Dds, read);
    CellsFacts(CellCount, read);
    ChannelsFacts(ChannelCount, read);
    var sw, ss := DiscoveredSwitches(read), DiscoveredSensors(read);
    forall id ensures id in Ids(sw, SwitchKey) <==> State(id) in Ids(ss, SensorKey) {
      if id in Ids(sw, SwitchKey) {
        var w :| w in sw && w.id == id;
        assert ChannelState(w.id.channel) in ss;
        assert SensorKey(ChannelState(w.id.channel)) == State(id);
      }
      if State(id) in Ids(ss, SensorKey) {
        var d :| d in ss && d.id == State(id);
        assert d !in MeterSensors(Sdm220, read) && d !in MeterSensors(Dds, read) && d !in CellsUpTo(CellCount, read);
        assert d in StatesUpTo(ChannelCount, read);
        var c := d.id.base.channel;
        assert ChannelSwitch(c) in sw;
        assert SwitchKey(ChannelSwitch(c)) == id;
      }
    }
  }

  /** The ids one discovery run emits are unique, among the sensors and among the switches. */
  lemma DiscoveredUnique(read: Oid -> Option<string>)
    ensures UniqueBy(DiscoveredSensors(read), SensorKey)
    ensures UniqueBy(DiscoveredSwitches(read), SwitchKey)
  {
    MeterFacts(Sdm220, read);
    MeterFacts(Dds, read);
    CellsFacts(CellCount, read);
    ChannelsFacts(ChannelCount, read);
    var a, b := MeterSensors(Sdm220, read), MeterSensors(Dds, read);
    var c, d := CellsUpTo(CellCount, read), StatesUpTo(ChannelCount, read);
    UniqueAppend(a, b, SensorKey);
    IdsAppend(a, b, SensorKey);
    UniqueAppend(a + b, c, SensorKey);
    IdsAppend(a + b, c, SensorKey);
    UniqueAppend(a + b + c, d, SensorKey);
  }

  /**
   * Every descriptor of a run is there because a probe answered: a switch or
   * a sensor on its own OID, or a cell reading on its cell's SOC. Switches
   * carry channel ids and sensors never do.
   */
  lemma DiscoveredAnswered(read: Oid -> Option<string>)
    ensures forall d :: d in DiscoveredSensors(read) ==> !d.id.Attomat?
    ensures forall d :: d in DiscoveredSensors(read) ==> read(d.oid).Some? || (d.id.Cell? && read(CellOid(d.id.index, Soc)).Some?)
    ensures forall w :: w in DiscoveredSwitches(read) ==> w.id.Attomat? && read(w.oid).Some?
  {
    MeterFacts(Sdm220, read);
    MeterFacts(Dds, read);
    CellsFacts(CellCount, read);
    ChannelsFacts(ChannelCount, read);
  }

  /** No id is both a discovered sensor's and a discovered switch's. */
  lemma DiscoveredDisjoint(read: Oid -> Option<string>)
    ensures Ids(DiscoveredSensors(read), SensorKey) !! Ids(DiscoveredSwitches(read), SwitchKey)
  {
    DiscoveredAnswered(read);
    var ss, sw := DiscoveredSensors(read), DiscoveredSwitches(read);
    forall id | id in Ids(ss, SensorKey) ensures id !in Ids(sw, SwitchKey) {
      var d :| d in ss && SensorKey(d) == id;
      assert !id.Attomat?;
    }
  }

  // ---- Which OIDs a discovery run reads ----

  /** An OID that is not the voltage, current or temperature reading of a cell. */
  predicate NotCellReading(o: Oid) {
    Subtree(o) != 9 || (|o| > 11 && o[11] == 11)
  }

  lemma {:induction false} SocProbesFacts(n: nat)
    ensures |SocProbesUpTo(n)| == n
    ensures forall i :: 0 <= i < n ==> SocProbesUpTo(n)[i] == CellOid(i + 1, Soc)
  {
    if n > 0 {
      SocProbesFacts(n - 1);
    }
  }

  lemma {:induction false} ChannelProbesFacts(n: nat)
    ensures |ChannelProbesUpTo(n)| == n
    ensures forall i :: 0 <= i < n ==> ChannelProbesUpTo(n)[i] == ChannelOid(i + 1)
  {
    if n > 0 {
      ChannelProbesFacts(n - 1);
    }
  }

  lemma MeterProbesUnrolled(p: Profile)
    ensures MeterProbes(MeterTable(p))
         == [MeterEntryFor(p, EnergyTotal).oid, MeterEntryFor(p, PowerW).oid, MeterEntryFor(p, Voltage).oid, MeterEntryFor(p, Current).oid]
  {
    var t := MeterTable(p);
    assert t[..3][..2][..1][..0] == [];
    assert t[..3][..2] == t[..2] && t[..2][..1] == t[..1];
    assert MeterProbes(t[..1]) == [t[0].oid];
    assert MeterProbes(t[..2]) == [t[0].oid, t[1].oid];
    assert MeterProbes(t[..3]) == [t[0].oid, t[1].oid, t[2].oid];
  }

  predicate NoCellReadings(s: seq<Oid>) {
    forall i :: 0 <= i < |s| ==> NotCellReading(s[i])
  }

  /** A discovery run reads the 8 meter OIDs, the SOC OID of cells 1 to 32 and the OID of channels 1 to 8. */
  lemma ProbeMembers()
    ensures forall p, k :: MeterEntryFor(p, k).oid in ProbeOrder()
    ensures forall n :: 1 <= n <= CellCount ==> CellOid(n, Soc) in ProbeOrder()
    ensures forall c :: 1 <= c <= ChannelCount ==> ChannelOid(c) in ProbeOrder()
  {
    MeterProbesUnrolled(Sdm220);
    MeterProbesUnrolled(Dds);
    SocProbesFacts(CellCount);
    ChannelProbesFacts(ChannelCount);
    forall p, k ensures MeterEntryFor(p, k).oid in MeterProbes(MeterTable(p)) {
      match k
      case EnergyTotal =>
      case PowerW =>
      case Voltage =>
      case Current =>
    }
    forall n | 1 <= n <= CellCount ensures CellOid(n, Soc) in SocProbesUpTo(CellCount) {
      assert SocProbesUpTo(CellCount)[n - 1] == CellOid(n, Soc);
    }
    forall c | 1 <= c <= ChannelCount ensures ChannelOid(c) in ChannelProbesUpTo(ChannelCount) {
      assert ChannelProbesUpTo(ChannelCount)[c - 1] == ChannelOid(c);
    }
  }

  /** A discovery run never reads a cell's voltage, current or temperature: the SOC read is the only probe per cell. */
  lemma ProbesSkipCellReadings()
    ensures forall n, f :: f != Soc ==> CellOid(n, f) !in ProbeOrder()
  {
    MeterProbesUnrolled(Sdm220);
    MeterProbesUnrolled(Dds);
    SocProbesFacts(CellCount);
    ChannelProbesFacts(ChannelCount);
    MeterRowShape(Sdm220, EnergyTotal);
    MeterRowShape(Sdm220, PowerW);
    MeterRowShape(Sdm220, Voltage);
    MeterRowShape(Sdm220, Current);
    MeterRowShape(Dds, EnergyTotal);
    MeterRowShape(Dds, PowerW);
    MeterRowShape(Dds, Voltage);
    MeterRowShape(Dds, Current);
    var a, b := MeterProbes(MeterTable(Sdm220)), MeterProbes(MeterTable(Dds));
    var c, d := SocProbesUpTo(CellCount), ChannelProbesUpTo(ChannelCount);
    assert NoCellReadings(a) && NoCellReadings(b);
    forall i | 0 <= i < |c| ensures NotCellReading(c[i]) {
      assert c[i][11] == 11;
    }
    forall i | 0 <= i < |d| ensures NotCellReading(d[i]) {
      }
    assert NoCellReadings(a + b + c + d);
    forall n, f | f != Soc ensures !NotCellReading(CellOid(n, f)) {
        assert CellOid(n, f)[11] == CellColumn(f);
    }
  }

  lemma {:induction false} CellsAgree(n: nat, r1: Oid -> Option<string>, r2: Oid -> Option<string>)
    requires forall k :: 1 <= k <= n ==> r1(CellOid(k, Soc)) == r2(CellOid(k, Soc))
    ensures CellsUpTo(n, r1) == CellsUpTo(n, r2)
  {
    if n > 0 {
      CellsAgree(n - 1, r1, r2);
    }
  }

  lemma {:induction false} ChannelsAgree(n: nat, r1: Oid -> Option<string>, r2: Oid -> Option<string>)
    requires forall c :: 1 <= c <= n ==> r1(ChannelOid(c)) == r2(ChannelOid(c))
    ensures StatesUpTo(n, r1) == StatesUpTo(n, r2) && SwitchesUpTo(n, r1) == SwitchesUpTo(n, r2)
  {
    if n > 0 {
      ChannelsAgree(n - 1, r1, r2);
    }
  }

  /** What a discovery run emits depends only on the answers to the OIDs it reads. */
  lemma DiscoveryReadsOnlyProbes(r1: Oid -> Option<string>, r2: Oid -> Option<string>)
    requires forall o :: o in ProbeOrder() ==> r1(o) == r2(o)
    ensures DiscoveredSensors(r1) == DiscoveredSensors(r2)
    ensures DiscoveredSwitches(r1) == DiscoveredSwitches(r2)
  {
    ProbeMembers();
    MeterSensorsUnrolled(Sdm220, r1);
    MeterSensorsUnrolled(Sdm220, r2);
    MeterSensorsUnrolled(Dds, r1);
    MeterSensorsUnrolled(Dds, r2);
    CellsAgree(CellCount, r1, r2);
    ChannelsAgree(ChannelCount, r1, r2);
  }
}
