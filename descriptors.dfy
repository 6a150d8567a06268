/**
 * What discovery produces: sensor and switch descriptors, keyed by a stable
 * unique id, each naming one object identifier (OID) on the gateway.
 */
module Descriptors {
  import opened Optional

  /** An SNMP object identifier as its dotted numeric path. */
  type Oid = seq<nat>

  /** The two energy-meter profiles: the SDM220 and the DDS meter. */
  datatype Profile = Sdm220 | Dds

  datatype MeterKey = EnergyTotal | PowerW | Voltage | Current

  datatype CellField = Soc | CellVoltage | CellCurrent | Temperature

  /**
   * A unique id. The gateway builds these as text: `sdm220_<key>`,
   * `dds_<key>`, `battery_cell_<n>_<field>`, `attomat_<idx>`; and
   * `State(x)` is the text of `x` followed by `_state`.
   */
  datatype Id =
    | Meter(profile: Profile, key: MeterKey)
    | Cell(index: nat, field: CellField)
    | Attomat(channel: nat)
    | State(base: Id)

  /** A sensor: its id, the OID it is read from, its unit and the tag of its scaling rule. */
  datatype SensorDesc = SensorDesc(id: Id, oid: Oid, unit: Option<string>, tf: string)

  /** A switch: its id and the OID written to turn it on or off. */
  datatype SwitchDesc = SwitchDesc(id: Id, oid: Oid)

  function SensorKey(d: SensorDesc): Id {
    d.id
  }

  function SwitchKey(d: SwitchDesc): Id {
    d.id
  }
}
