/** The backup file stores enumerations as indexes; older and hand-made files may hold the names. */
module EnumMaps {
  import opened Common

  datatype EnumName = CostBasis | SourceType | SchemeKind | SchemePeriod | QtyUnit | ValueType | ClaimStatus

  function Names(name: EnumName): seq<string> {
    match name
    case CostBasis => ["km", "bag"]
    case SourceType => ["plant", "depot"]
    case SchemeKind => ["fixed", "variable", "mix", "cash"]
    case SchemePeriod => ["monthly", "quarterly", "annual"]
    case QtyUnit => ["bag", "mt"]
    case ValueType => ["perBag", "perMt", "percent"]
    case ClaimStatus => ["claimable", "claimed", "received"]
  }

  /** A value found where an enumeration is expected; `Nothing` is null, undefined or of another type. */
  datatype WireEnum = Index(i: int) | Name(s: string) | Nothing

  function IndexOf(s: seq<string>, v: string): int {
    if s == [] then -1
    else if s[0] == v then 0
    else if IndexOf(s[1..], v) == -1 then -1
    else 1 + IndexOf(s[1..], v)
  }

  function EnumFromLegacy(name: EnumName, v: WireEnum, def: Option<string>): Option<string> {
    match v
    case Index(i) => if 0 <= i < |Names(name)| then Some(Names(name)[i]) else def
    case Name(s) => if s in Names(name) then Some(s) else def
    case Nothing => def
  }

  function EnumToLegacy(name: EnumName, v: Option<string>): WireEnum {
    if v.None? || IndexOf(Names(name), v.value) < 0 then Nothing else Index(IndexOf(Names(name), v.value))
  }

  lemma {:induction false} IndexOfFinds(s: seq<string>, v: string)
    ensures v in s ==> 0 <= IndexOf(s, v) < |s| && s[IndexOf(s, v)] == v
    ensures v !in s ==> IndexOf(s, v) == -1
  {
    if s != [] {
      IndexOfFinds(s[1..], v);
      assert s == [s[0]] + s[1..];
    }
  }

  /** Exporting and importing gives back every value of the enumeration, and null as the importer's default. */
  lemma EnumRoundTrip(name: EnumName, v: Option<string>, def: Option<string>)
    ensures EnumFromLegacy(name, EnumToLegacy(name, v), def) == if v.Some? && v.value in Names(name) then v else def
  {
    if v.Some? { IndexOfFinds(Names(name), v.value); }
  }

  /**
   * An importer given the name or the index of a value reads the same value, and never one outside the
   * enumeration but its default.
   */
  lemma NameOrIndex(name: EnumName, i: nat, v: WireEnum, def: Option<string>)
    requires i < |Names(name)|
    ensures EnumFromLegacy(name, Name(Names(name)[i]), def) == Some(Names(name)[i])
    ensures EnumFromLegacy(name, Index(i), def) == Some(Names(name)[i])
    ensures var read := EnumFromLegacy(name, v, def);
            read == def || (read.Some? && read.value in Names(name))
  {
    assert Names(name)[i] in Names(name);
  }
}
