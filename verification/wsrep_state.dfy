/**
 `wsp::WSREPState`: the stored schema version marker, cleared on demand,
 loaded from and saved to a version file, and compared with the server's
 version component by component.

 The file system is a parameter: `load_from` receives the file's content
 (`None` when the file is absent or unreadable) and `save_to` receives
 whether its write succeeds, and returns the text it writes.
 */
module WsrepState {
  import opened Wrappers
  import opened SchemaVersion

  datatype State = State(schemaVersion: string)

  /** A freshly constructed state holds the empty version string. */
  const Initial := State([])

  /** `wsrep_schema_version_equals`: all three components of the stored and the server version agree. */
  function SchemaVersionEquals(st: State, serverVersion: string): (eq: bool)
    ensures eq <==> Normalize(st.schemaVersion) == Normalize(serverVersion)
    ensures eq <==> (var a, b := Parse(st.schemaVersion), Parse(serverVersion);
                     a.major == b.major && a.minor == b.minor && a.revision == b.revision)
  {
    NormalizeAgrees(st.schemaVersion, serverVersion);
    Parse(st.schemaVersion) == Parse(serverVersion)
  }

  /** `clear`: the stored version becomes empty, which compares equal only to versions parsing as 0.0.0. */
  function Clear(st: State): (r: State)
    ensures r.schemaVersion == []
    ensures forall server :: SchemaVersionEquals(r, server) <==> Parse(server) == Version(0, 0, 0)
  {
    ParseNoLeadingDigit([]);
    State([])
  }

  /**
   `load_from`: on a readable file the stored version becomes the normalised
   content and the call succeeds; otherwise the state is left untouched.
   */
  function LoadFrom(st: State, content: Option<string>): (r: (State, bool))
    ensures r.1 <==> content.Some?
    ensures !r.1 ==> r.0 == st
    ensures r.1 ==> IsPlainTriple(r.0.schemaVersion) && Parse(r.0.schemaVersion) == Parse(content.value)
  {
    match content
    case None => (st, false)
    case Some(text) =>
      (State(Normalize(text)), true)
  }

  /**
   `save_to`: the stored version is normalised before it is written; the
   written text (`None` when the write fails) is that normalised version.
   */
  function SaveTo(st: State, writeSucceeds: bool): (r: (State, Option<string>))
    ensures r.1.Some? <==> writeSucceeds
    ensures IsPlainTriple(r.0.schemaVersion)
    ensures Parse(r.0.schemaVersion) == Parse(st.schemaVersion)
    ensures r.1.Some? ==> r.1.value == r.0.schemaVersion
  {
    var normalized := State(Normalize(st.schemaVersion));
    (normalized, if writeSucceeds then Some(normalized.schemaVersion) else None)
  }

  /** A stored version that is already "x.y.z" is saved verbatim. */
  lemma SavePlainVerbatim(st: State)
    requires IsPlainTriple(st.schemaVersion)
    ensures SaveTo(st, true).1 == Some(st.schemaVersion)
  {
    NormalizeFixedPoint(st.schemaVersion);
  }

  /**
   Saving and loading back yields the normalised marker, whatever the loading
   state held before, and the comparison with any server version is the same
   before the save and after the load.
   */
  lemma SaveLoadRoundTrip(st: State, other: State)
    ensures var (saved, file) := SaveTo(st, true);
            var (loaded, ok) := LoadFrom(other, file);
            ok && loaded == saved && loaded.schemaVersion == Normalize(st.schemaVersion)
    ensures forall server ::
              SchemaVersionEquals(LoadFrom(other, SaveTo(st, true).1).0, server) <==> SchemaVersionEquals(st, server)
  {
    NormalizeIdempotent(st.schemaVersion);
  }

  /** Equal markers compare equal. */
  lemma EqualsSameExample()
    ensures SchemaVersionEquals(State("8.0.15"), "8.0.15")
  {
  }

  /** A differing revision makes the comparison fail. */
  lemma EqualsRevisionExample()
    ensures !SchemaVersionEquals(State("8.0.15"), "8.0.16")
  {
    SmallNumerals();
    assert Render(Version(8, 0, 15)) == "8.0.15";
    assert Render(Version(8, 0, 16)) == "8.0.16";
    ParseRender(Version(8, 0, 15));
    ParseRender(Version(8, 0, 16));
  }

  /** A stored "8.0" equals the server version "8.0.0". */
  lemma EqualsPaddedExample()
    ensures SchemaVersionEquals(State("8.0"), "8.0.0")
  {
    PadExample();
    ParseRender(Version(8, 0, 0));
  }

  /** Saving "8.0" and loading it back stores "8.0.0"; saving "8.0.15-5" stores "8.0.15". */
  lemma SaveLoadExamples()
    ensures LoadFrom(Initial, SaveTo(State("8.0"), true).1).0 == State("8.0.0")
    ensures LoadFrom(Initial, SaveTo(State("8.0.15-5"), true).1).0 == State("8.0.15")
  {
    SaveLoadRoundTrip(State("8.0"), Initial);
    SaveLoadRoundTrip(State("8.0.15-5"), Initial);
    PadExample();
    TruncateExample();
  }
}
