/**
 * `_convert_eligibility_requirements`: the translation of eligibility-requirement
 * descriptors into the provider's wire objects.
 */
module Eligibility {
  import opened Wrappers
  import opened Lookup

  /** A value carried by a descriptor key. */
  datatype Value = Int(i: int) | Str(s: string) | StrList(items: seq<string>) | Bool(b: bool)

  /** The seven descriptor variants, each with the keys it is written with, in their order. */
  datatype Requirement =
    | AgeRange(minAge: int, maxAge: int)
    | ApprovalNumbers(minimumApprovals: int, maximumApprovals: int)
    | ApprovalRate(minimumApprovalRate: int, maximumApprovalRate: int)
    | CustomBlacklist(blackList: seq<string>)
    | CustomWhitelist(whiteList: seq<string>)
    | JoinedBefore(joinedBefore: string)
    | ParticipantGroup(id: string)

  /** An attribute of a wire object: `{name: key, value}`, or `{id, value}` for a participant group. */
  datatype Attribute = NamedAttribute(name: string, value: Value) | IdAttribute(id: string, value: Value)

  datatype Query = Query(id: string)

  /** A wire object: `{_cls, attributes}`, with a `query` block only where the provider wants one. */
  datatype WireRequirement = WireRequirement(cls: string, attributes: seq<Attribute>, query: Option<Query>)

  const ClsNamespace := "web.eligibility.models."

  /** The fixed id the age-range variant carries in its query block. */
  const AgeRangeQueryId := "54ac6ea9fdf99b2204feb893"

  /** The common ending of every requirement name. */
  const NameSuffix := "EligibilityRequirement"

  /** The part of a descriptor's `name` that tells the variants apart. */
  function VariantName(r: Requirement): string
  {
    match r
    case AgeRange(_, _) => "AgeRange"
    case ApprovalNumbers(_, _) => "ApprovalNumbers"
    case ApprovalRate(_, _) => "ApprovalRate"
    case CustomBlacklist(_) => "CustomBlacklist"
    case CustomWhitelist(_) => "CustomWhitelist"
    case JoinedBefore(_) => "JoinedBefore"
    case ParticipantGroup(_) => "ParticipantGroup"
  }

  /** The value of a descriptor's `name` key, such as `AgeRangeEligibilityRequirement`. */
  function RequirementName(r: Requirement): string
  {
    VariantName(r) + NameSuffix
  }

  /** The keys of a descriptor other than `name`, with their values, in the order they are written. */
  function Keys(r: Requirement): seq<(string, Value)>
  {
    match r
    case AgeRange(lo, hi) => [("min_age", Int(lo)), ("max_age", Int(hi))]
    case ApprovalNumbers(lo, hi) => [("minimum_approvals", Int(lo)), ("maximum_approvals", Int(hi))]
    case ApprovalRate(lo, hi) => [("minimum_approval_rate", Int(lo)), ("maximum_approval_rate", Int(hi))]
    case CustomBlacklist(ids) => [("black_list", StrList(ids))]
    case CustomWhitelist(ids) => [("white_list", StrList(ids))]
    case JoinedBefore(date) => [("joined_before", Str(date))]
    case ParticipantGroup(id) => [("id", Str(id))]
  }

  /** The descriptor as the mapping it is written as: `name` first, then its own keys. */
  function Entries(r: Requirement): seq<(string, Value)>
  {
    [("name", Str(RequirementName(r)))] + Keys(r)
  }

  /** Whether an entry is one of the descriptor's own keys rather than its `name`. */
  function IsKeyEntry(): ((string, Value)) -> bool
  {
    (e: (string, Value)) => e.0 != "name"
  }

  /** One `{name: key, value}` attribute per entry whose key is not `name`, in order. */
  function NamedAttributes(entries: seq<(string, Value)>): (attrs: seq<Attribute>)
    ensures |attrs| <= |entries|
    ensures (forall j :: 0 <= j < |entries| ==> entries[j].0 != "name") ==>
      |attrs| == |entries| && forall j :: 0 <= j < |entries| ==> attrs[j] == NamedAttribute(entries[j].0, entries[j].1)
  {
    if |entries| == 0 then []
    else if entries[0].0 == "name" then NamedAttributes(entries[1..])
    else [NamedAttribute(entries[0].0, entries[0].1)] + NamedAttributes(entries[1..])
  }

  /** One `{name: key, value}` attribute per entry, in order. */
  function AsAttributes(keys: seq<(string, Value)>): (attrs: seq<Attribute>)
    ensures |attrs| == |keys|
    ensures forall k :: 0 <= k < |keys| ==> attrs[k] == NamedAttribute(keys[k].0, keys[k].1)
  {
    seq(|keys|, k requires 0 <= k < |keys| => NamedAttribute(keys[k].0, keys[k].1))
  }

  /** On every input, the attributes are those of the entries whose key is not `name`, in their order. */
  lemma {:induction false} NamedAttributesAreKeys(entries: seq<(string, Value)>)
    ensures NamedAttributes(entries) == AsAttributes(Filter(entries, IsKeyEntry()))
  {
    if |entries| > 0 {
      NamedAttributesAreKeys(entries[1..]);
      var rest := Filter(entries[1..], IsKeyEntry());
      if entries[0].0 == "name" {
        assert Filter(entries, IsKeyEntry()) == rest;
      } else {
        var keys := Filter(entries, IsKeyEntry());
        assert keys == [entries[0]] + rest;
        forall k | 0 <= k < |keys|
          ensures AsAttributes(keys)[k] == ([NamedAttribute(entries[0].0, entries[0].1)] + AsAttributes(rest))[k]
        {
          if k > 0 {
            assert keys[k] == rest[k - 1];
          }
        }
      }
    }
  }

  /** The wire object of one descriptor. */
  function ToWire(r: Requirement): WireRequirement
  {
    WireRequirement(
      ClsNamespace + RequirementName(r),
      if r.ParticipantGroup? then [IdAttribute(r.id, Bool(true))] else NamedAttributes(Entries(r)),
      if r.AgeRange? then Some(Query(AgeRangeQueryId)) else None)
  }

  /** `_convert_eligibility_requirements`: one wire object per descriptor, in the same order. */
  function Convert(rs: seq<Requirement>): (ws: seq<WireRequirement>)
    ensures |ws| == |rs|
    ensures forall i :: 0 <= i < |rs| ==> ws[i] == ToWire(rs[i])
  {
    if |rs| == 0 then [] else [ToWire(rs[0])] + Convert(rs[1..])
  }

  /** The shape of each wire object. */
  lemma WireShape(r: Requirement)
    ensures ToWire(r).cls == ClsNamespace + RequirementName(r)
    ensures ToWire(r).query == if r.AgeRange? then Some(Query(AgeRangeQueryId)) else None
    ensures r.ParticipantGroup? ==> ToWire(r).attributes == [IdAttribute(r.id, Bool(true))]
    ensures !r.ParticipantGroup? ==>
      var attrs := ToWire(r).attributes;
      && |attrs| == |Keys(r)|
      && forall j :: 0 <= j < |attrs| ==> attrs[j] == NamedAttribute(Keys(r)[j].0, Keys(r)[j].1)
  {
    assert Entries(r)[1..] == Keys(r);
    assert forall j :: 0 <= j < |Keys(r)| ==> Keys(r)[j].0 != "name";
  }

  /** Translating a concatenation translates each part independently. */
  lemma {:induction false} ConvertAppend(a: seq<Requirement>, b: seq<Requirement>)
    ensures Convert(a + b) == Convert(a) + Convert(b)
  {
    if |a| == 0 {
      assert a + b == b;
    } else {
      assert (a + b)[1..] == a[1..] + b;
      ConvertAppend(a[1..], b);
    }
  }

  /** The value of the `i`-th attribute when it is named `key`. */
  function FieldAt(attrs: seq<Attribute>, i: nat, key: string): Option<Value>
  {
    if i < |attrs| && attrs[i].NamedAttribute? && attrs[i].name == key then Some(attrs[i].value) else None
  }

  /** Reads a descriptor back from a wire object. */
  function FromWire(w: WireRequirement): Option<Requirement>
  {
    var c := w.cls;
    if |c| < |ClsNamespace| + |NameSuffix| || c[..|ClsNamespace|] != ClsNamespace || c[|c| - |NameSuffix|..] != NameSuffix
    then None
    else FromAttributes(c[|ClsNamespace|..|c| - |NameSuffix|], w.attributes)
  }

  /** Reads a descriptor back from the variant part of its name and its attributes. */
  function FromAttributes(variant: string, a: seq<Attribute>): Option<Requirement>
  {
    if variant == "AgeRange" then
      match (FieldAt(a, 0, "min_age"), FieldAt(a, 1, "max_age"))
      case (Some(Int(lo)), Some(Int(hi))) => Some(AgeRange(lo, hi))
      case _ => None
    else if variant == "ApprovalNumbers" then
      match (FieldAt(a, 0, "minimum_approvals"), FieldAt(a, 1, "maximum_approvals"))
      case (Some(Int(lo)), Some(Int(hi))) => Some(ApprovalNumbers(lo, hi))
      case _ => None
    else if variant == "ApprovalRate" then
      match (FieldAt(a, 0, "minimum_approval_rate"), FieldAt(a, 1, "maximum_approval_rate"))
      case (Some(Int(lo)), Some(Int(hi))) => Some(ApprovalRate(lo, hi))
      case _ => None
    else if variant == "CustomBlacklist" then
      match FieldAt(a, 0, "black_list")
      case Some(StrList(ids)) => Some(CustomBlacklist(ids))
      case _ => None
    else if variant == "CustomWhitelist" then
      match FieldAt(a, 0, "white_list")
      case Some(StrList(ids)) => Some(CustomWhitelist(ids))
      case _ => None
    else if variant == "JoinedBefore" then
      match FieldAt(a, 0, "joined_before")
      case Some(Str(date)) => Some(JoinedBefore(date))
      case _ => None
    else if variant == "ParticipantGroup" then
      if |a| > 0 && a[0].IdAttribute? && a[0].value == Bool(true) then Some(ParticipantGroup(a[0].id)) else None
    else None
  }

  /** A wire object determines the descriptor it was translated from. */
  lemma FromWireToWire(r: Requirement)
    ensures FromWire(ToWire(r)) == Some(r)
  {
    var c := ToWire(r).cls;
    var v := VariantName(r);
    assert c == ClsNamespace + v + NameSuffix;
    assert c[..|ClsNamespace|] == ClsNamespace;
    assert c[|c| - |NameSuffix|..] == NameSuffix;
    assert c[|ClsNamespace|..|c| - |NameSuffix|] == v;
    FromAttributesToWire(r);
  }

  lemma FromAttributesToWire(r: Requirement)
    ensures FromAttributes(VariantName(r), ToWire(r).attributes) == Some(r)
  {
    match r
    case AgeRange(lo, hi) => DecodeAgeRange(lo, hi);
    case ApprovalNumbers(lo, hi) => DecodeApprovalNumbers(lo, hi);
    case ApprovalRate(lo, hi) => DecodeApprovalRate(lo, hi);
    case CustomBlacklist(ids) => DecodeCustomBlacklist(ids);
    case CustomWhitelist(ids) => DecodeCustomWhitelist(ids);
    case JoinedBefore(date) => DecodeJoinedBefore(date);
    case ParticipantGroup(id) => DecodeParticipantGroup(id);
  }

  lemma DecodeAgeRange(lo: int, hi: int)
    ensures var r := AgeRange(lo, hi); FromAttributes(VariantName(r), ToWire(r).attributes) == Some(r)
  {
    assert ToWire(AgeRange(lo, hi)).attributes == [NamedAttribute("min_age", Int(lo)), NamedAttribute("max_age", Int(hi))];
  }

  lemma DecodeApprovalNumbers(lo: int, hi: int)
    ensures var r := ApprovalNumbers(lo, hi); FromAttributes(VariantName(r), ToWire(r).attributes) == Some(r)
  {
    assert ToWire(ApprovalNumbers(lo, hi)).attributes
      == [NamedAttribute("minimum_approvals", Int(lo)), NamedAttribute("maximum_approvals", Int(hi))];
  }

  lemma DecodeApprovalRate(lo: int, hi: int)
    ensures var r := ApprovalRate(lo, hi); FromAttributes(VariantName(r), ToWire(r).attributes) == Some(r)
  {
    assert ToWire(ApprovalRate(lo, hi)).attributes
      == [NamedAttribute("minimum_approval_rate", Int(lo)), NamedAttribute("maximum_approval_rate", Int(hi))];
  }

  lemma DecodeCustomBlacklist(ids: seq<string>)
    ensures var r := CustomBlacklist(ids); FromAttributes(VariantName(r), ToWire(r).attributes) == Some(r)
  {
    assert ToWire(CustomBlacklist(ids)).attributes == [NamedAttribute("black_list", StrList(ids))];
  }

  lemma DecodeCustomWhitelist(ids: seq<string>)
    ensures var r := CustomWhitelist(ids); FromAttributes(VariantName(r), ToWire(r).attributes) == Some(r)
  {
    assert ToWire(CustomWhitelist(ids)).attributes == [NamedAttribute("white_list", StrList(ids))];
  }

  lemma DecodeJoinedBefore(date: string)
    ensures var r := JoinedBefore(date); FromAttributes(VariantName(r), ToWire(r).attributes) == Some(r)
  {
    assert ToWire(JoinedBefore(date)).attributes == [NamedAttribute("joined_before", Str(date))];
  }

  lemma DecodeParticipantGroup(id: string)
    ensures var r := ParticipantGroup(id); FromAttributes(VariantName(r), ToWire(r).attributes) == Some(r)
  {
  }

  function FromWireAll(ws: seq<WireRequirement>): Option<seq<Requirement>>
  {
    if |ws| == 0 then Some([])
    else match (FromWire(ws[0]), FromWireAll(ws[1..]))
      case (Some(r), Some(rest)) => Some([r] + rest)
      case _ => None
  }

  /** The translation loses nothing: reading the wire objects back gives the descriptors. */
  lemma {:induction false} ConvertRoundTrip(rs: seq<Requirement>)
    ensures FromWireAll(Convert(rs)) == Some(rs)
  {
    if |rs| > 0 {
      var ws := Convert(rs);
      assert ws[0] == ToWire(rs[0]);
      assert ws[1..] == Convert(rs[1..]);
      FromWireToWire(rs[0]);
      ConvertRoundTrip(rs[1..]);
      assert [rs[0]] + rs[1..] == rs;
    }
  }
}
