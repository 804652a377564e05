/** Schema-version handling shared by every schema (`SchemaVersionMixin` in
    core/serialization/schema_version.py): the compatibility check run before a
    load and the stamp written after a dump. */
module SchemaVersion {
  import opened Common

  /** A parsed release number; `packaging.version.parse` does the parsing. */
  datatype Version = Version(major: int, minor: int, patch: int)

  const SchemaVersionKey: string := "schema_version"

  /** Every schema's `__version__`. */
  const CurrentVersionText: string := "1.0.0"
  const CurrentVersion: Version := Version(1, 0, 0)

  /** How an incoming version relates to the supported one. */
  datatype Compatibility = Compatible | NewerMajor | OlderMajor | NewerMinor

  /** The three comparisons, in the order the mixin makes them. */
  function Compare(incoming: Version, current: Version): (c: Compatibility)
    ensures c == Compatible <==> incoming.major == current.major && incoming.minor <= current.minor
    ensures c == NewerMajor <==> incoming.major > current.major
    ensures c == OlderMajor <==> incoming.major < current.major
    ensures c == NewerMinor <==> incoming.major == current.major && incoming.minor > current.minor
  {
    if incoming.major > current.major then NewerMajor
    else if incoming.major < current.major then OlderMajor
    else if incoming.minor > current.minor then NewerMinor
    else Compatible
  }

  /** The patch number never matters. */
  lemma PatchIgnored(major: int, minor: int, p: int, q: int, current: Version)
    ensures Compare(Version(major, minor, p), current) == Compare(Version(major, minor, q), current)
  {
  }

  /** Outcome of the pre-load hook: the data passed on, or a `ValidationError`. */
  datatype VersionCheck = Accepted(data: map<string, Value>) | Rejected(message: string)

  function NewerMessage(text: string): string
  {
    "Data schema version " + text + " is newer than supported " + CurrentVersionText
  }

  function OlderMessage(text: string): string
  {
    "Data schema version " + text + " is older than supported " + CurrentVersionText
  }

  /** The message `packaging` raises with for text that is not a version. */
  function InvalidVersionMessage(text: string): string
  {
    "Invalid version: '" + text + "'"
  }

  /** `data.get('schema_version')`: a missing key reads as `None`. */
  function Lookup(data: map<string, Value>): Value
  {
    if SchemaVersionKey in data then data[SchemaVersionKey] else Null
  }

  /** `validate_schema_version`. `parse` is `packaging.version.parse`, `None`
      when it raises; a truthy value that is not text cannot be parsed either. */
  function ValidateSchemaVersion(data: map<string, Value>, parse: string -> Option<Version>): (r: VersionCheck)
    ensures !Truthy(Lookup(data)) ==> r == Accepted(data)
    ensures r.Accepted? ==> r.data == data
    ensures r.Accepted? <==>
      (!Truthy(Lookup(data)) ||
       (Lookup(data).Str? && parse(Lookup(data).s).Some? &&
        Compare(parse(Lookup(data).s).value, CurrentVersion) == Compatible))
    ensures Truthy(Lookup(data)) && Lookup(data).Str? && parse(Lookup(data).s).Some? ==>
      var text := Lookup(data).s;
      var v := parse(text).value;
      (v.major > CurrentVersion.major ==> r == Rejected(NewerMessage(text))) &&
      (v.major < CurrentVersion.major ==> r == Rejected(OlderMessage(text))) &&
      (v.major == CurrentVersion.major && v.minor > CurrentVersion.minor ==> r == Rejected(NewerMessage(text)))
  {
    var given := Lookup(data);
    if !Truthy(given) then Accepted(data)
    else if !given.Str? then Rejected("TypeError: expected string or bytes-like object")
    else
      match parse(given.s)
      case None => Rejected(InvalidVersionMessage(given.s))
      case Some(v) =>
        match Compare(v, CurrentVersion)
        case NewerMajor => Rejected(NewerMessage(given.s))
        case OlderMajor => Rejected(OlderMessage(given.s))
        case NewerMinor => Rejected(NewerMessage(given.s))
        case Compatible => Accepted(data)
  }

  /** The dictionary a schema dump produces, which the post-dump hook stamps in place. */
  class DumpedData {
    var entries: map<string, Value>

    constructor(entries0: map<string, Value>)
      ensures entries == entries0
    {
      entries := entries0;
    }

    /** `add_schema_version`: sets the version key and leaves every other key alone. */
    method AddSchemaVersion()
      modifies this
      ensures entries == old(entries)[SchemaVersionKey := Str(CurrentVersionText)]
      ensures entries.Keys == old(entries).Keys + {SchemaVersionKey}
      ensures forall k :: k in old(entries) && k != SchemaVersionKey ==> entries[k] == old(entries)[k]
    {
      entries := entries[SchemaVersionKey := Str(CurrentVersionText)];
    }
  }

  /** Whatever a dump stamps, a load of the same schema accepts, provided
      `packaging` reads "1.0.0" as 1.0.0. */
  lemma StampedDataLoads(data: map<string, Value>, parse: string -> Option<Version>)
    requires parse(CurrentVersionText) == Some(CurrentVersion)
    ensures var stamped := data[SchemaVersionKey := Str(CurrentVersionText)];
            ValidateSchemaVersion(stamped, parse) == Accepted(stamped)
  {
    var stamped := data[SchemaVersionKey := Str(CurrentVersionText)];
    assert Lookup(stamped) == Str(CurrentVersionText);
  }

  /** Compatibility is decided by major and minor alone: "1.0.7" loads, "1.1.0"
      and "2.0.0" are newer, "0.9.0" is older. */
  lemma VersionExamples()
    ensures Compare(Version(1, 0, 7), CurrentVersion) == Compatible
    ensures Compare(Version(1, 1, 0), CurrentVersion) == NewerMinor
    ensures Compare(Version(2, 0, 0), CurrentVersion) == NewerMajor
    ensures Compare(Version(0, 9, 0), CurrentVersion) == OlderMajor
  {
  }
}
