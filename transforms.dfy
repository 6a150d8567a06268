/**
 * The scaling rules of the gateway (the `TRANSFORMS` table). Each rule takes
 * the optional text of a reading and yields an optional number; a rule
 * applied to text that is not a number raises, and the poll stage stores
 * None instead. A tag the table does not know is applied as the identity,
 * so the raw text itself is cached.
 */
module Transforms {
  import opened Optional
  import opened Decimal

  /** A cached reading: a number from a scaling rule, or raw text passed through an unknown tag. */
  datatype Reading = Number(x: real) | Text(s: string)

  datatype Transform = RawInt | Div100 | Div1000 | Div10 | KwDiv100ToW | KwDiv1000ToW

  /** The key of each rule in the table, as descriptors carry it. */
  function Tag(t: Transform): string {
    match t
    case RawInt => "raw_int"
    case Div100 => "div100"
    case Div1000 => "div1000"
    case Div10 => "div10"
    case KwDiv100ToW => "kW_div100_to_W"
    case KwDiv1000ToW => "kW_div1000_to_W"
  }

  /** `TRANSFORMS.get(tag)`: the rule stored under a tag, if any. */
  function Lookup(tag: string): (r: Option<Transform>)
    ensures r.Some? ==> Tag(r.value) == tag
    ensures r.None? ==> forall t: Transform :: Tag(t) != tag
  {
    if tag == "raw_int" then Some(RawInt)
    else if tag == "div100" then Some(Div100)
    else if tag == "div1000" then Some(Div1000)
    else if tag == "div10" then Some(Div10)
    else if tag == "kW_div100_to_W" then Some(KwDiv100ToW)
    else if tag == "kW_div1000_to_W" then Some(KwDiv1000ToW)
    else None
  }

  /** The arithmetic of each rule on a parsed reading, in exact rational arithmetic. */
  function Scale(t: Transform, x: int): (r: real)
    ensures t == RawInt ==> r == x as real
    ensures t == Div10 ==> 10.0 * r == x as real
    ensures t == Div100 ==> 100.0 * r == x as real
    ensures t == Div1000 ==> 1000.0 * r == x as real
    ensures t == KwDiv100ToW ==> r == 10.0 * x as real
    ensures t == KwDiv1000ToW ==> r == x as real
  {
    match t
    case RawInt => x as real
    case Div100 => x as real / 100.0
    case Div1000 => x as real / 1000.0
    case Div10 => x as real / 10.0
    case KwDiv100ToW => x as real / 100.0 * 1000.0
    case KwDiv1000ToW => x as real / 1000.0 * 1000.0
  }

  /** What applying a rule does: it returns a value, or it raises. */
  datatype Outcome = Returned(value: Option<Reading>) | Raised

  /** `TRANSFORMS.get(tag, lambda x: x)(raw)`. */
  function Apply(tag: string, raw: Option<string>): (c: Outcome)
    ensures raw.None? ==> c == Returned(None)
    ensures c.Raised? <==> raw.Some? && Lookup(tag).Some? && !WellFormed(raw.value)
  {
    match Lookup(tag)
    case None => Returned(if raw.Some? then Some(Text(raw.value)) else None)
    case Some(t) =>
      if raw.None? then Returned(None)
      else match ParseInt(raw.value)
        case None => Raised
        case Some(x) => Returned(Some(Number(Scale(t, x))))
  }

  /** The value the poll stage caches for one sensor: a raised conversion is caught and cached as None. */
  function CacheEntry(tag: string, raw: Option<string>): (v: Option<Reading>)
    ensures raw.None? ==> v == None
    ensures Lookup(tag).None? ==> v == (if raw.Some? then Some(Text(raw.value)) else None)
    ensures Lookup(tag).Some? && raw.Some? ==> (v.Some? <==> WellFormed(raw.value))
    ensures Lookup(tag).Some? && v.Some? ==> v.value.Number?
  {
    match Apply(tag, raw)
    case Raised => None
    case Returned(r) => r
  }

  /** Every rule is found under its own tag, so no two rules share a tag. */
  lemma LookupTag(t: Transform)
    ensures Lookup(Tag(t)) == Some(t)
  {
  }

  /** A rule applied to the text the agent renders for integer `x` caches exactly the scaled `x`. */
  lemma CacheEntryOfRendered(t: Transform, x: int)
    ensures CacheEntry(Tag(t), Some(IntToDecimal(x))) == Some(Number(Scale(t, x)))
  {
    ParseIntRoundTrip(x);
  }
}
