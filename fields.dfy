/** The marshmallow field that writes an `Enum` out and reads it back
    (`EnumField` in database/models/fields.py). Only string-valued enums are
    modelled, which covers every enum of the schedule models. */
module EnumFields {
  import opened Common

  datatype Member = Member(name: string, value: string)

  /** An `Enum` class: its members in definition order, and whether it also
      derives from `str` (as `class Scope(str, Enum)` does). */
  datatype EnumClass = EnumClass(members: seq<Member>, strMixin: bool)

  /** What `@unique` guarantees: no two members share a value. */
  predicate UniqueValues(e: EnumClass)
  {
    forall i, j :: 0 <= i < j < |e.members| ==> e.members[i].value != e.members[j].value
  }

  /** Python refuses two members with one name, so every enum class has this. */
  predicate UniqueNames(e: EnumClass)
  {
    forall i, j :: 0 <= i < j < |e.members| ==> e.members[i].name != e.members[j].name
  }

  /** What a field can be handed: `None`, a plain string, a member of the field's
      own enum, or any other object (written by its `str()`). */
  datatype FieldValue = NoneValue | Text(s: string) | EnumValue(member: Member) | Other(repr: string)

  /** `_serialize`. A member of a `str`-derived enum is itself a string, so it takes
      the "already serialized" branch and comes back unchanged. */
  function Serialize(e: EnumClass, byValue: bool, v: FieldValue): (r: FieldValue)
    requires v.EnumValue? ==> v.member in e.members
    ensures v.NoneValue? <==> r.NoneValue?
    ensures v.Text? ==> r == v
    ensures v.EnumValue? && e.strMixin ==> r == v
    ensures v.EnumValue? && !e.strMixin ==> r == Text(if byValue then v.member.value else v.member.name)
    ensures v.Other? ==> r == Text(v.repr)
  {
    match v
    case NoneValue => NoneValue
    case Text(_) => v
    case EnumValue(m) =>
      if e.strMixin then v
      else if byValue then Text(m.value)
      else Text(m.name)
    case Other(repr) => Text(repr)
  }

  /** Result of `_deserialize`: a member (or `None`), or the `ValidationError`
      listing the valid values. */
  datatype Deserialized = Loaded(member: Option<Member>) | Invalid(validValues: seq<string>)

  /** The list the error message shows: every member's value, or every name. */
  function ValidValues(e: EnumClass, byValue: bool): (r: seq<string>)
    ensures |r| == |e.members|
    ensures forall i :: 0 <= i < |r| ==> r[i] == if byValue then e.members[i].value else e.members[i].name
  {
    seq(|e.members|, i requires 0 <= i < |e.members| =>
      if byValue then e.members[i].value else e.members[i].name)
  }

  /** `EnumClass(value)`: the member whose value is `s`, else `ValueError`. */
  function FindByValue(ms: seq<Member>, s: string): (r: Option<Member>)
    ensures r.Some? ==> r.value in ms && r.value.value == s
    ensures r.None? ==> forall m :: m in ms ==> m.value != s
  {
    if ms == [] then None
    else if ms[0].value == s then Some(ms[0])
    else FindByValue(ms[1..], s)
  }

  /** `getattr(EnumClass, s)`: the member named `s`, else `AttributeError`. */
  function FindByName(ms: seq<Member>, s: string): (r: Option<Member>)
    ensures r.Some? ==> r.value in ms && r.value.name == s
    ensures r.None? ==> forall m :: m in ms ==> m.name != s
  {
    if ms == [] then None
    else if ms[0].name == s then Some(ms[0])
    else FindByName(ms[1..], s)
  }

  /** `str.upper()` on the ASCII letters; every other character is kept, so
      Unicode case mappings are not modelled. */
  function Upper(s: string): (r: string)
    ensures |r| == |s|
    ensures forall i :: 0 <= i < |r| ==> !('a' <= r[i] <= 'z')
    ensures (forall i :: 0 <= i < |s| ==> !('a' <= s[i] <= 'z')) ==> r == s
  {
    if s == [] then []
    else
      var c := s[0];
      [if 'a' <= c <= 'z' then (c as int - 32) as char else c] + Upper(s[1..])
  }

  /** `_deserialize`. */
  function Deserialize(e: EnumClass, byValue: bool, v: FieldValue): (r: Deserialized)
    requires v.EnumValue? ==> v.member in e.members
    ensures v.NoneValue? ==> r == Loaded(None)
    ensures v.EnumValue? ==> r == Loaded(Some(v.member))
    ensures r.Loaded? && r.member.Some? ==> r.member.value in e.members
    ensures r.Invalid? ==> r.validValues == ValidValues(e, byValue)
    ensures v.Text? && byValue ==> (r.Loaded? <==> exists m :: m in e.members && m.value == v.s)
    ensures v.Text? && !byValue ==> (r.Loaded? <==> exists m :: m in e.members && m.name == Upper(v.s))
  {
    match v
    case NoneValue => Loaded(None)
    case EnumValue(m) => Loaded(Some(m))
    case Text(s) =>
      var found := if byValue then FindByValue(e.members, s) else FindByName(e.members, Upper(s));
      if found.Some? then Loaded(found) else Invalid(ValidValues(e, byValue))
    case Other(repr) =>
      // `EnumClass(obj)` fails for a non-string; by name, `str(obj).upper()` is looked up
      var found := if byValue then None else FindByName(e.members, Upper(repr));
      if found.Some? then Loaded(found) else Invalid(ValidValues(e, byValue))
  }

  lemma {:induction false} FindByValueUnique(ms: seq<Member>, m: Member)
    requires m in ms
    requires forall i, j :: 0 <= i < j < |ms| ==> ms[i].value != ms[j].value
    ensures FindByValue(ms, m.value) == Some(m)
  {
    if ms[0] != m {
      assert ms[0].value != m.value by {
        var k :| 0 <= k < |ms| && ms[k] == m;
        assert k > 0;
      }
      assert m in ms[1..];
      FindByValueUnique(ms[1..], m);
    }
  }

  lemma {:induction false} FindByNameUnique(ms: seq<Member>, m: Member)
    requires m in ms
    requires forall i, j :: 0 <= i < j < |ms| ==> ms[i].name != ms[j].name
    ensures FindByName(ms, m.name) == Some(m)
  {
    if ms[0] != m {
      assert ms[0].name != m.name by {
        var k :| 0 <= k < |ms| && ms[k] == m;
        assert k > 0;
      }
      assert m in ms[1..];
      FindByNameUnique(ms[1..], m);
    }
  }

  /** Writing a member by value and reading the text back yields the member. */
  lemma RoundTripByValue(e: EnumClass, m: Member)
    requires m in e.members && UniqueValues(e)
    ensures Deserialize(e, true, Serialize(e, true, EnumValue(m))) == Loaded(Some(m))
    ensures Deserialize(e, true, Text(m.value)) == Loaded(Some(m))
  {
    FindByValueUnique(e.members, m);
  }

  /** By name, the round trip holds for names that upper-casing leaves alone. */
  lemma RoundTripByName(e: EnumClass, m: Member)
    requires m in e.members && UniqueNames(e) && Upper(m.name) == m.name
    ensures Deserialize(e, false, Serialize(e, false, EnumValue(m))) == Loaded(Some(m))
    ensures Deserialize(e, false, Text(m.name)) == Loaded(Some(m))
  {
    FindByNameUnique(e.members, m);
  }
}
