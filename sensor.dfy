/**
 * The sensor platform: one entity per hub sensor at setup, and a
 * reconciliation that runs on a timer and adds an entity for every hub
 * sensor that has none yet.
 */
module SensorPlatform {
  import opened Optional
  import opened Descriptors
  import opened Transforms
  import opened Registry
  import opened Hub

  /** `MatisSensor`: an entity bound to one sensor descriptor of a hub. */
  class MatisSensor {
    const hub: MatisHub
    const desc: SensorDesc

    constructor (hub: MatisHub, desc: SensorDesc)
      ensures this.hub == hub && this.desc == desc
    {
      this.hub := hub;
      this.desc := desc;
    }

    /** `native_value`: the hub's cached value for this sensor's own id, absent when there is none. */
    function NativeValue(): (v: Option<Reading>)
      reads hub
      ensures desc.id in hub.values ==> v == hub.values[desc.id]
      ensures desc.id !in hub.values ==> v == None
    {
      hub.GetValue(desc.id)
    }
  }

  /** The descriptor an entity is bound to. */
  function SensorOf(e: MatisSensor): SensorDesc {
    e.desc
  }

  /** New entities for those of `ds` whose id is not in `have`, in order. */
  method Create(hub: MatisHub, ds: seq<SensorDesc>, have: set<Id>) returns (added: seq<MatisSensor>)
    ensures Descs(added, SensorOf) == Absent(ds, have, SensorKey)
    ensures forall e :: e in added ==> fresh(e) && e.hub == hub
  {
    added := [];
    var i := 0;
    while i < |ds|
      invariant 0 <= i <= |ds|
      invariant Descs(added, SensorOf) == Absent(ds[..i], have, SensorKey)
      invariant forall e :: e in added ==> fresh(e) && e.hub == hub
    {
      if ds[i].id !in have {
        var ent := new MatisSensor(hub, ds[i]);
        added := added + [ent];
      }
      assert ds[..i + 1][..i] == ds[..i];
      i := i + 1;
    }
    assert ds[..|ds|] == ds;
  }

  /**
   * The entity list that `async_setup_entry` keeps for one hub, and the
   * batches it has handed to `async_add_entities`, oldest first.
   */
  class SensorEntities {
    const hub: MatisHub
    var entities: seq<MatisSensor>
    var batches: seq<seq<MatisSensor>>

    /** Every hub sensor id has an entity. */
    ghost predicate Covered()
      reads this, hub
    {
      Ids(hub.sensors, SensorKey) <= Ids(Descs(entities, SensorOf), SensorKey)
    }

    /** Setup: one new entity per hub sensor, in hub order, added as one batch. */
    constructor (hub: MatisHub)
      ensures this.hub == hub
      ensures Descs(entities, SensorOf) == hub.sensors
      ensures forall e :: e in entities ==> fresh(e) && e.hub == hub
      ensures batches == [entities]
    {
      this.hub := hub;
      var created: seq<MatisSensor> := [];
      var i := 0;
      while i < |hub.sensors|
        invariant 0 <= i <= |hub.sensors|
        invariant Descs(created, SensorOf) == hub.sensors[..i]
        invariant forall e :: e in created ==> fresh(e) && e.hub == hub
      {
        var ent := new MatisSensor(hub, hub.sensors[i]);
        created := created + [ent];
        i := i + 1;
      }
      assert hub.sensors[..|hub.sensors|] == hub.sensors;
      entities := created;
      batches := [created];
    }

    /**
     * `_maybe_add_new_entities`: appends a new entity for each hub sensor
     * whose id has no entity yet, in hub order, keeping the existing
     * entities; hands the new ones to `async_add_entities` only when there
     * is at least one.
     */
    method MaybeAddNew()
      modifies this
      ensures |old(entities)| <= |entities|
      ensures entities[..|old(entities)|] == old(entities)
      ensures Descs(entities[|old(entities)|..], SensorOf) == Absent(hub.sensors, Ids(Descs(old(entities), SensorOf), SensorKey), SensorKey)
      ensures forall e :: e in entities[|old(entities)|..] ==> fresh(e) && e.hub == hub
      ensures batches == old(batches) + (if |entities| == |old(entities)| then [] else [entities[|old(entities)|..]])
      ensures Covered()
      ensures old(Covered()) ==> entities == old(entities) && batches == old(batches)
    {
      ghost var before := entities;
      var added := Create(hub, hub.sensors, Ids(Descs(entities, SensorOf), SensorKey));
      entities := entities + added;
      if added != [] {
        batches := batches + [added];
      }
      assert entities[|before|..] == added;
      assert Descs(entities, SensorOf) == Descs(before, SensorOf) + Descs(added, SensorOf);
      MergedIds(Descs(before, SensorOf), hub.sensors, SensorKey);
      if Ids(hub.sensors, SensorKey) <= Ids(Descs(before, SensorOf), SensorKey) {
        AbsentWhenCovered(hub.sensors, Ids(Descs(before, SensorOf), SensorKey), SensorKey);
      }
    }
  }
}
