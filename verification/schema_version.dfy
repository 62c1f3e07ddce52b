/**
 The `major.minor.revision` version marker of `wsp::WSREPState`: parsing a
 version string into its three components, rendering them back as "x.y.z",
 and the normalisation that combines the two.

 Parsing reads the components left to right. Each component is the run of
 decimal digits at the current position. A missing component is 0. Parsing
 stops at the first character that neither belongs to a digit run nor is the
 single '.' between two components. So "8.0" is (8, 0, 0), "8.0.15-5" is
 (8, 0, 15) and "a.b.c" is (0, 0, 0).
 */
module SchemaVersion {
  import opened Decimal

  datatype Version = Version(major: nat, minor: nat, revision: nat)

  const Separator := '.'

  /** The number of components in a version marker. */
  const Components: nat := 3

  function Zeros(k: nat): (z: seq<nat>)
    ensures |z| == k
    ensures forall i :: 0 <= i < k ==> z[i] == 0
  {
    if k == 0 then [] else [0] + Zeros(k - 1)
  }

  /** The first `k` components of `s`, scanned left to right; unread components are 0. */
  function ParseFields(s: string, k: nat): (fields: seq<nat>)
    ensures |fields| == k
    decreases k
  {
    if k == 0 then []
    else
      var d := LeadingDigits(s);
      if |d| == 0 then Zeros(k)
      else
        var rest := s[|d|..];
        if k > 1 && |rest| > 0 && rest[0] == Separator then [ValueOf(d)] + ParseFields(rest[1..], k - 1)
        else [ValueOf(d)] + Zeros(k - 1)
  }

  /**
   `parse_version`: the three components of a version string. The major
   version is the leading digit run, and when no '.' follows that run the
   minor version and the revision are missing and so are 0.
   */
  function Parse(s: string): (v: Version)
    ensures v.major == ValueOf(LeadingDigits(s))
    ensures var d := LeadingDigits(s); (|d| == |s| || s[|d|] != Separator) ==> v.minor == 0 && v.revision == 0
  {
    var f := ParseFields(s, Components);
    Version(f[0], f[1], f[2])
  }

  /** The pieces of `s` between separators (one piece when there is no separator). */
  function Split(s: string): (parts: seq<string>)
    ensures |parts| >= 1
    ensures forall i :: 0 <= i < |parts| ==> Separator !in parts[i]
  {
    if |s| == 0 then [[]]
    else
      var tail := Split(s[1..]);
      if s[0] == Separator then [[]] + tail else [[s[0]] + tail[0]] + tail[1..]
  }

  /** The pieces joined with a separator between each two. */
  function Join(parts: seq<string>): string
    requires |parts| >= 1
  {
    if |parts| == 1 then parts[0] else parts[0] + [Separator] + Join(parts[1..])
  }

  /** The values of a sequence of digit runs. */
  function Values(parts: seq<string>): (vs: seq<nat>)
    requires forall i :: 0 <= i < |parts| ==> AllDigits(parts[i])
    ensures |vs| == |parts|
    ensures forall i :: 0 <= i < |parts| ==> vs[i] == ValueOf(parts[i])
  {
    if |parts| == 0 then [] else [ValueOf(parts[0])] + Values(parts[1..])
  }

  /** A version marker in normal form: exactly three plain decimal components. */
  predicate IsPlainTriple(s: string) {
    var parts := Split(s);
    |parts| == Components && forall i :: 0 <= i < |parts| ==> Canonical(parts[i])
  }

  function Render(v: Version): string {
    Join([NatToString(v.major), NatToString(v.minor), NatToString(v.revision)])
  }

  /**
   The "x.y.z" form a version string is truncated or padded to: exactly three
   plain decimal components, holding the components the string parses to.
   */
  function Normalize(s: string): (n: string)
    ensures IsPlainTriple(n)
    ensures Parse(n) == Parse(s)
  {
    RenderIsPlainTriple(Parse(s));
    ParseRender(Parse(s));
    Render(Parse(s))
  }

  // ---------------------------------------------------------------------------
  // Splitting and joining

  lemma {:induction false} JoinSplit(s: string)
    ensures Join(Split(s)) == s
  {
    if |s| > 0 {
      var tail := Split(s[1..]);
      JoinSplit(s[1..]);
      if s[0] == Separator {
        assert Join(Split(s)) == [] + [Separator] + Join(tail);
      } else if |tail| == 1 {
        assert Join(Split(s)) == [s[0]] + tail[0];
      } else {
        assert Join(tail) == tail[0] + [Separator] + Join(tail[1..]);
        assert Join(Split(s)) == [s[0]] + tail[0] + [Separator] + Join(tail[1..]);
      }
      assert [s[0]] + s[1..] == s;
    }
  }

  lemma {:induction false} SplitPiece(p: string, t: string)
    requires Separator !in p
    ensures Split(p + [Separator] + t) == [p] + Split(t)
  {
    if |p| > 0 {
      assert (p + [Separator] + t)[1..] == p[1..] + [Separator] + t;
      SplitPiece(p[1..], t);
      assert [p[0]] + p[1..] == p;
    }
  }

  lemma {:induction false} SplitNoSeparator(p: string)
    requires Separator !in p
    ensures Split(p) == [p]
  {
    if |p| > 0 {
      SplitNoSeparator(p[1..]);
      assert [p[0]] + p[1..] == p;
    }
  }

  /** Splitting undoes joining pieces that contain no separator. */
  lemma {:induction false} SplitJoin(parts: seq<string>)
    requires |parts| >= 1
    requires forall i :: 0 <= i < |parts| ==> Separator !in parts[i]
    ensures Split(Join(parts)) == parts
  {
    if |parts| == 1 {
      SplitNoSeparator(parts[0]);
    } else {
      SplitPiece(parts[0], Join(parts[1..]));
      SplitJoin(parts[1..]);
      assert [parts[0]] + parts[1..] == parts;
    }
  }

  // ---------------------------------------------------------------------------
  // Parsing

  /**
   Dotted digit runs followed by a qualifier parse to their values, and the
   components they do not supply are 0: "8.0" is (8, 0, 0) and "8.0.15-5" is
   (8, 0, 15).
   */
  lemma {:induction false} ParseDottedRuns(parts: seq<string>, tail: string, k: nat)
    requires 1 <= |parts| <= k
    requires forall i :: 0 <= i < |parts| ==> |parts[i]| > 0 && AllDigits(parts[i])
    requires |tail| > 0 ==> !IsDigit(tail[0]) && (|parts| < k ==> tail[0] != Separator)
    ensures ParseFields(Join(parts) + tail, k) == Values(parts) + Zeros(k - |parts|)
  {
    var s := Join(parts) + tail;
    if |parts| == 1 {
      LeadingDigitsOfRun(parts[0], tail);
      assert s[|parts[0]|..] == tail;
    } else {
      var more := Join(parts[1..]) + tail;
      assert s == parts[0] + ([Separator] + more);
      LeadingDigitsOfRun(parts[0], [Separator] + more);
      assert s[|parts[0]|..] == [Separator] + more;
      assert ([Separator] + more)[1..] == more;
      ParseDottedRuns(parts[1..], tail, k - 1);
      assert Values(parts) == [ValueOf(parts[0])] + Values(parts[1..]);
    }
  }

  /** A string that does not start with a digit parses as 0.0.0 ("", "a.b.c", "-1"). */
  lemma ParseNoLeadingDigit(s: string)
    requires |s| == 0 || !IsDigit(s[0])
    ensures Parse(s) == Version(0, 0, 0)
  {
  }

  /** Rendering and parsing are inverse: the components survive the round trip. */
  lemma ParseRender(v: Version)
    ensures Parse(Render(v)) == v
  {
    var parts := [NatToString(v.major), NatToString(v.minor), NatToString(v.revision)];
    ParseDottedRuns(parts, [], Components);
    assert Join(parts) + [] == Render(v);
  }

  lemma RenderInjective(v: Version, w: Version)
    ensures Render(v) == Render(w) <==> v == w
  {
    if Render(v) == Render(w) {
      ParseRender(v);
      ParseRender(w);
    }
  }

  /** Every rendering is three plain decimal components separated by dots. */
  lemma RenderIsPlainTriple(v: Version)
    ensures IsPlainTriple(Render(v))
  {
    var parts := [NatToString(v.major), NatToString(v.minor), NatToString(v.revision)];
    assert forall i :: 0 <= i < |parts| ==> Separator !in parts[i] by {
      forall i | 0 <= i < |parts|
        ensures Separator !in parts[i]
      {
        assert !IsDigit(Separator);
      }
    }
    SplitJoin(parts);
  }

  /** A plain triple parses to the values of its three pieces. */
  lemma ParsePlainTriple(s: string)
    requires IsPlainTriple(s)
    ensures Parse(s) == Version(ValueOf(Split(s)[0]), ValueOf(Split(s)[1]), ValueOf(Split(s)[2]))
  {
    var parts := Split(s);
    JoinSplit(s);
    assert Join(parts) + [] == s;
    ParseDottedRuns(parts, [], Components);
  }

  // ---------------------------------------------------------------------------
  // Normalisation

  /** A string comes back from normalisation unchanged exactly when it already is a plain triple. */
  lemma NormalizeFixedPoint(s: string)
    ensures Normalize(s) == s <==> IsPlainTriple(s)
  {
    if IsPlainTriple(s) {
      var parts := Split(s);
      ParsePlainTriple(s);
      CanonicalRoundTrip(parts[0]);
      CanonicalRoundTrip(parts[1]);
      CanonicalRoundTrip(parts[2]);
      assert [parts[0], parts[1], parts[2]] == parts;
      JoinSplit(s);
    }
  }

  lemma NormalizeIdempotent(s: string)
    ensures Normalize(Normalize(s)) == Normalize(s)
  {
  }

  /** Two strings normalise to the same marker exactly when all three components agree. */
  lemma NormalizeAgrees(s: string, t: string)
    ensures Normalize(s) == Normalize(t) <==> Parse(s) == Parse(t)
  {
    RenderInjective(Parse(s), Parse(t));
  }

  /** A qualifier after the revision digits is dropped: `Render(v) + "-5"` still parses as `v`. */
  lemma QualifierDropped(v: Version, qualifier: string)
    requires |qualifier| > 0 ==> !IsDigit(qualifier[0])
    ensures Parse(Render(v) + qualifier) == v
    ensures Normalize(Render(v) + qualifier) == Render(v)
  {
    var parts := [NatToString(v.major), NatToString(v.minor), NatToString(v.revision)];
    ParseDottedRuns(parts, qualifier, Components);
  }

  /** A missing revision is 0: "a.b" parses as a.b.0. */
  lemma RevisionPadded(major: nat, minor: nat)
    ensures Parse(NatToString(major) + [Separator] + NatToString(minor)) == Version(major, minor, 0)
  {
    var parts := [NatToString(major), NatToString(minor)];
    ParseDottedRuns(parts, [], Components);
    assert Join(parts) + [] == NatToString(major) + [Separator] + NatToString(minor);
  }

  lemma SmallNumerals()
    ensures NatToString(0) == "0" && NatToString(8) == "8"
    ensures NatToString(15) == "15" && NatToString(16) == "16"
  {
    assert NatToString(1) == "1";
  }

  /** The header's first example: the qualifier of "8.0.15-5" is dropped. */
  lemma TruncateExample()
    ensures Parse("8.0.15-5") == Version(8, 0, 15)
    ensures Normalize("8.0.15-5") == "8.0.15"
  {
    SmallNumerals();
    assert Render(Version(8, 0, 15)) == "8.0.15";
    assert "8.0.15" + "-5" == "8.0.15-5";
    QualifierDropped(Version(8, 0, 15), "-5");
  }

  /** The header's second example: "8.0" is padded with a zero revision. */
  lemma PadExample()
    ensures Parse("8.0") == Version(8, 0, 0)
    ensures Normalize("8.0") == "8.0.0"
  {
    SmallNumerals();
    RevisionPadded(8, 0);
    assert "8" + [Separator] + "0" == "8.0";
    assert Render(Version(8, 0, 0)) == "8.0.0";
  }
}
