/** The schema-level check on a settings entry (`SettingsSchema.validate_schema`
    in database/models/settings_schema.py). */
module SettingsSchema {
  import opened Common

  const MaxKeyLength: int := 100

  /** The characters Python's `str.strip()` removes (`str.isspace`). */
  predicate IsSpace(c: char)
  {
    var n := c as int;
    (9 <= n <= 13) || (28 <= n <= 32) || n == 0x85 || n == 0xA0 || n == 0x1680
    || (0x2000 <= n <= 0x200A) || n == 0x2028 || n == 0x2029 || n == 0x202F || n == 0x205F
    || n == 0x3000
  }

  /** `s.lstrip()`: the suffix after the leading whitespace. */
  function StripLeft(s: string): (r: string)
    ensures |r| <= |s| && r == s[|s| - |r|..]
    ensures r == [] || !IsSpace(r[0])
    ensures forall i :: 0 <= i < |s| - |r| ==> IsSpace(s[i])
  {
    if s == [] || !IsSpace(s[0]) then s else StripLeft(s[1..])
  }

  /** `s.rstrip()`: the prefix before the trailing whitespace. */
  function StripRight(s: string): (r: string)
    ensures |r| <= |s| && r == s[..|r|]
    ensures r == [] || !IsSpace(r[|r| - 1])
    ensures forall i :: |r| <= i < |s| ==> IsSpace(s[i])
  {
    if s == [] || !IsSpace(s[|s| - 1]) then s else StripRight(s[..|s| - 1])
  }

  /** `s.strip()`: empty exactly when `s` is all whitespace. */
  function Strip(s: string): (r: string)
    ensures r == [] <==> forall i :: 0 <= i < |s| ==> IsSpace(s[i])
  {
    var left := StripLeft(s);
    var r := StripRight(left);
    assert r == [] ==> forall i :: 0 <= i < |s| ==> IsSpace(s[i]) by {
      if r == [] {
        assert left == [];
      }
    }
    assert (forall i :: 0 <= i < |s| ==> IsSpace(s[i])) ==> r == [] by {
      if r != [] {
        var k := |s| - |left|;
        assert left[0] == s[k];
      }
    }
    r
  }

  /** The loaded fields; `None` is a key absent from the data. */
  function ValidateSettings(key: Option<string>, value: Option<map<string, Value>>): (r: Outcome)
    ensures r == Pass <==>
      (key.Some? && (exists i :: 0 <= i < |key.value| && !IsSpace(key.value[i])) && |key.value| <= MaxKeyLength
       && value.Some? && value.value != map[])
    ensures (key.None? || forall i :: 0 <= i < |key.value| ==> IsSpace(key.value[i])) ==>
      r == Fail("setting_key cannot be empty or whitespace")
    ensures key.Some? && Strip(key.value) != [] && |key.value| > MaxKeyLength ==>
      r == Fail("setting_key cannot be longer than 100 characters")
    ensures key.Some? && Strip(key.value) != [] && |key.value| <= MaxKeyLength && (value.None? || value.value == map[]) ==>
      r == Fail("setting_value cannot be empty")
  {
    var k := if key.Some? then key.value else "";
    if Strip(k) == [] then Fail("setting_key cannot be empty or whitespace")
    else if |k| > MaxKeyLength then Fail("setting_key cannot be longer than 100 characters")
    else if value.None? || value.value == map[] then Fail("setting_value cannot be empty")
    else Pass
  }

  /** A key of exactly 100 letters with a value passes; one more letter fails;
      a key of blanks fails. */
  lemma SettingsExamples(v: map<string, Value>)
    requires v != map[]
    ensures ValidateSettings(Some(seq(100, _ => 'a')), Some(v)) == Pass
    ensures ValidateSettings(Some(seq(101, _ => 'a')), Some(v)).Fail?
    ensures ValidateSettings(Some("   "), Some(v)) == Fail("setting_key cannot be empty or whitespace")
    ensures ValidateSettings(Some("theme"), Some(map[])) == Fail("setting_value cannot be empty")
  {
    assert !IsSpace(seq(100, _ => 'a')[0]);
    assert !IsSpace(seq(101, _ => 'a')[0]);
    assert !IsSpace("theme"[0]);
  }
}
