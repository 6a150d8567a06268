/**
 * The switch platform: one entity per hub switch, the same timer-driven
 * reconciliation as the sensor platform, the on/off state read from the
 * hub's cache, and the on/off commands.
 */
module SwitchPlatform {
  import opened Optional
  import opened Decimal
  import opened Descriptors
  import opened Transforms
  import opened Registry
  import opened Catalogue
  import opened Hub

  /** `float(base)`: a cached number as it is; cached text when it reads as a number. */
  function Numeric(v: Reading): (r: Option<real>)
    ensures v.Number? ==> r == Some(v.x)
    ensures v.Text? ==> (r.Some? <==> WellFormed(v.s))
  {
    match v
    case Number(x) => Some(x)
    case Text(s) => (match ParseInt(s) case Some(n) => Some(n as real) case None => None)
  }

  /** `float()` of the text of an integer is that integer. */
  lemma NumericOfRendered(n: int)
    ensures Numeric(Text(IntToDecimal(n))) == Some(n as real)
  {
    ParseIntRoundTrip(n);
  }

  /**
   * `is_on`'s decision over its two cache lookups: the `_state` entry when it
   * holds a value, otherwise the switch's own entry; on iff that value is
   * numerically 1, off for any other number, unknown when neither holds a
   * value or the value is not a number.
   */
  function OnState(primary: Option<Reading>, fallback: Option<Reading>): (r: Option<bool>)
    ensures primary.Some? ==> r.Some? == Numeric(primary.value).Some?
    ensures primary.Some? ==> (r == Some(true) <==> Numeric(primary.value) == Some(1.0))
    ensures primary.None? && fallback.Some? ==> r.Some? == Numeric(fallback.value).Some?
    ensures primary.None? && fallback.Some? ==> (r == Some(true) <==> Numeric(fallback.value) == Some(1.0))
    ensures primary.None? && fallback.None? ==> r == None
  {
    var base := if primary.Some? then primary else fallback;
    if base.None? then None
    else match Numeric(base.value)
      case None => None
      case Some(x) => Some(x == 1.0)
  }

  /** A switch set to `on` and read back through its `_state` sensor (the integer's text, rule raw_int) reports `on`, whatever its own entry holds. */
  lemma SwitchRoundTrip(on: bool, own: Option<Reading>)
    ensures OnState(CacheEntry(Tag(RawInt), Some(IntToDecimal(SwitchLevel(on)))), own) == Some(on)
  {
    CacheEntryOfRendered(RawInt, SwitchLevel(on));
  }

  /** After a poll in which channel `idx` reported level `SwitchLevel(on)`, its state entry makes `is_on` report `on`. */
  lemma OnStateAfterPoll(values: map<Id, Option<Reading>>, ss: seq<SensorDesc>, read: Oid -> Option<string>, idx: nat, on: bool, own: Option<Reading>)
    requires UniqueBy(ss, SensorKey) && ChannelState(idx) in ss
    requires read(ChannelOid(idx)) == Some(IntToDecimal(SwitchLevel(on)))
    ensures var cache := Published(values, ss, read);
            State(Attomat(idx)) in cache && OnState(cache[State(Attomat(idx))], own) == Some(on)
  {
    var k :| 0 <= k < |ss| && ss[k] == ChannelState(idx);
    PublishedEntry(values, ss, read, k);
    SwitchRoundTrip(on, own);
  }

  /** `MatisSwitch`: an entity bound to one switch descriptor of a hub. */
  class MatisSwitch {
    const hub: MatisHub
    const desc: SwitchDesc

    constructor (hub: MatisHub, desc: SwitchDesc)
      ensures this.hub == hub && this.desc == desc
    {
      this.hub := hub;
      this.desc := desc;
    }

    /** `is_on`: decided from the cached `<id>_state` value, falling back to the cached `<id>` value only when the first is absent. */
    function IsOn(): (r: Option<bool>)
      reads hub
      ensures hub.GetValue(State(desc.id)).Some? ==> r == OnState(hub.GetValue(State(desc.id)), None)
      ensures hub.GetValue(State(desc.id)).None? ==> r == OnState(hub.GetValue(desc.id), None)
    {
      OnState(hub.GetValue(State(desc.id)), hub.GetValue(desc.id))
    }

    /** `async_turn_on`: asks the hub to write 1 to this switch's OID; nothing local changes. */
    method TurnOn(send: (Oid, int) -> bool) returns (ok: bool)
      ensures ok == send(desc.oid, 1)
    {
      ok := hub.SetSwitch(desc.oid, true, send);
    }

    /** `async_turn_off`: asks the hub to write 0 to this switch's OID; nothing local changes. */
    method TurnOff(send: (Oid, int) -> bool) returns (ok: bool)
      ensures ok == send(desc.oid, 0)
    {
      ok := hub.SetSwitch(desc.oid, false, send);
    }
  }

  /**
   * A switch registered with a consistent hub never finds a cache entry
   * under its own id, so its state is decided by the `_state` entry alone.
   */
  lemma IsOnUsesStateOnly(s: MatisSwitch)
    requires s.hub.Valid() && s.desc in s.hub.switches
    ensures s.hub.GetValue(s.desc.id) == None
    ensures s.IsOn() == OnState(s.hub.GetValue(State(s.desc.id)), None)
  {
    SwitchIdsNeverCached(s.hub.sensors, s.hub.switches, s.hub.values);
  }

  /** The descriptor an entity is bound to. */
  function SwitchOf(e: MatisSwitch): SwitchDesc {
    e.desc
  }

  /** New entities for those of `ds` whose id is not in `have`, in order. */
  method Create(hub: MatisHub, ds: seq<SwitchDesc>, have: set<Id>) returns (added: seq<MatisSwitch>)
    ensures Descs(added, SwitchOf) == Absent(ds, have, SwitchKey)
    ensures forall e :: e in added ==> fresh(e) && e.hub == hub
  {
    added := [];
    var i := 0;
    while i < |ds|
      invariant 0 <= i <= |ds|
      invariant Descs(added, SwitchOf) == Absent(ds[..i], have, SwitchKey)
      invariant forall e :: e in added ==> fresh(e) && e.hub == hub
    {
      if ds[i].id !in have {
        var ent := new MatisSwitch(hub, ds[i]);
        added := added + [ent];
      }
      assert ds[..i + 1][..i] == ds[..i];
      i := i + 1;
    }
    assert ds[..|ds|] == ds;
  }

  /**
   * The entity list that `async_setup_entry` keeps for one hub, and the
   * batches it has handed to `async_add_entities`, oldest first.
   */
  class SwitchEntities {
    const hub: MatisHub
    var entities: seq<MatisSwitch>
    var batches: seq<seq<MatisSwitch>>

    /** Every hub switch id has an entity. */
    ghost predicate Covered()
      reads this, hub
    {
      Ids(hub.switches, SwitchKey) <= Ids(Descs(entities, SwitchOf), SwitchKey)
    }

    /** Setup: one new entity per hub switch, in hub order, added as one batch. */
    constructor (hub: MatisHub)
      ensures this.hub == hub
      ensures Descs(entities, SwitchOf) == hub.switches
      ensures forall e :: e in entities ==> fresh(e) && e.hub == hub
      ensures batches == [entities]
    {
      this.hub := hub;
      var created: seq<MatisSwitch> := [];
      var i := 0;
      while i < |hub.switches|
        invariant 0 <= i <= |hub.switches|
        invariant Descs(created, SwitchOf) == hub.switches[..i]
        invariant forall e :: e in created ==> fresh(e) && e.hub == hub
      {
        var ent := new MatisSwitch(hub, hub.switches[i]);
        created := created + [ent];
        i := i + 1;
      }
      assert hub.switches[..|hub.switches|] == hub.switches;
      entities := created;
      batches := [created];
    }

    /**
     * `_maybe_add_new_switches`: appends a new entity for each hub switch
     * whose id has no entity yet, in hub order, keeping the existing
     * entities; hands the new ones to `async_add_entities` only when there
     * is at least one.
     */
    method MaybeAddNew()
      modifies this
      ensures |old(entities)| <= |entities|
      ensures entities[..|old(entities)|] == old(entities)
      ensures Descs(entities[|old(entities)|..], SwitchOf) == Absent(hub.switches, Ids(Descs(old(entities), SwitchOf), SwitchKey), SwitchKey)
      ensures forall e :: e in entities[|old(entities)|..] ==> fresh(e) && e.hub == hub
      ensures batches == old(batches) + (if |entities| == |old(entities)| then [] else [entities[|old(entities)|..]])
      ensures Covered()
      ensures old(Covered()) ==> entities == old(entities) && batches == old(batches)
    {
      ghost var before := entities;
      var added := Create(hub, hub.switches, Ids(Descs(entities, SwitchOf), SwitchKey));
      entities := entities + added;
      if added != [] {
        batches := batches + [added];
      }
      assert entities[|before|..] == added;
      assert Descs(entities, SwitchOf) == Descs(before, SwitchOf) + Descs(added, SwitchOf);
      MergedIds(Descs(before, SwitchOf), hub.switches, SwitchKey);
      if Ids(hub.switches, SwitchKey) <= Ids(Descs(before, SwitchOf), SwitchKey) {
        AbsentWhenCovered(hub.switches, Ids(Descs(before, SwitchOf), SwitchKey), SwitchKey);
      }
    }
  }
}
