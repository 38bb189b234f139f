/**
 * Version strings in the remediation script: `_parse_semver`, `_determine_update_type`
 * and `_build_fallback_constraint` (scripts/security_remediation_agent.py).
 */
module Versions {
  import opened Wrappers
  import opened Text

  /** The three numbers `(major, minor, patch)` that `_parse_semver` returns. */
  datatype Semver = Semver(major: nat, minor: nat, patch: nat)

  /** The classification `_determine_update_type` returns. */
  datatype UpdateType = Major | Minor | Patch | Unknown

  /** The decimal rendering "M.m.p" of a version triple. */
  function Render(v: Semver): string {
    NatToString(v.major) + "." + NatToString(v.minor) + "." + NatToString(v.patch)
  }

  /** The length of the maximal run of ASCII digits in s starting at position i. */
  function DigitRun(s: string, i: nat): (n: nat)
    requires i <= |s|
    ensures i + n <= |s|
    decreases |s| - i
  {
    if i < |s| && IsDigit(s[i]) then 1 + DigitRun(s, i + 1) else 0
  }

  /** The run found is all digits and cannot be extended. */
  lemma {:induction false} DigitRunMaximal(s: string, i: nat)
    requires i <= |s|
    ensures forall j :: i <= j < i + DigitRun(s, i) ==> IsDigit(s[j])
    ensures i + DigitRun(s, i) == |s| || !IsDigit(s[i + DigitRun(s, i)])
    decreases |s| - i
  {
    if i < |s| && IsDigit(s[i]) {
      DigitRunMaximal(s, i + 1);
    }
  }

  /**
   * The match of the pattern `(\d+)\.(\d+)\.(\d+)` that starts exactly at position i, if
   * any. Each group is greedy and followed by a dot or by nothing, so backtracking never
   * shortens a group: every group is a maximal run of digits.
   */
  function TripleAt(s: string, i: nat): Option<Semver>
    requires i <= |s|
  {
    var a := DigitRun(s, i);
    var j := i + a + 1;
    if a == 0 || j > |s| || s[j - 1] != '.' then None
    else
      var b := DigitRun(s, j);
      var k := j + b + 1;
      if b == 0 || k > |s| || s[k - 1] != '.' then None
      else
        var c := DigitRun(s, k);
        if c == 0 then None
        else Some(Semver(NumberAt(s, i, a), NumberAt(s, j, b), NumberAt(s, k, c)))
  }

  /** The decimal value of the n characters of s from position i. */
  function NumberAt(s: string, i: nat, n: nat): nat
    requires i + n <= |s|
  {
    if n == 0 then 0 else 10 * NumberAt(s, i, n - 1) + DigitValue(s[i + n - 1])
  }

  /** Reading the digits in place is reading the digit string they spell out. */
  lemma {:induction false} NumberAtIs(s: string, i: nat, t: string)
    requires i + |t| <= |s| && s[i..i + |t|] == t
    ensures NumberAt(s, i, |t|) == DigitsValue(t)
  {
    if t != [] {
      var u := t[..|t| - 1];
      assert s[i..i + |u|] == u;
      assert s[i + |t| - 1] == t[|t| - 1];
      NumberAtIs(s, i, u);
    }
  }

  /** No position of s starts a version triple. */
  ghost predicate NoTriple(s: string) {
    forall j :: 0 <= j < |s| ==> TripleAt(s, j).None?
  }

  /** v is the triple found at the leftmost position of s that starts one. */
  ghost predicate LeftmostTriple(s: string, v: Semver) {
    exists j :: 0 <= j < |s| && TripleAt(s, j) == Some(v) && forall j' :: 0 <= j' < j ==> TripleAt(s, j').None?
  }

  /** `re.search` for the triple, scanning the start positions from i onwards. */
  function SearchFrom(s: string, i: nat): Option<Semver>
    requires i <= |s|
    decreases |s| - i
  {
    if i == |s| then None
    else if TripleAt(s, i).Some? then TripleAt(s, i)
    else SearchFrom(s, i + 1)
  }

  /** The search from i finds the triple at the leftmost position from i on, and nothing when there is none. */
  lemma {:induction false} SearchFromLeftmost(s: string, i: nat)
    requires i <= |s|
    ensures SearchFrom(s, i).None? ==> forall j :: i <= j < |s| ==> TripleAt(s, j).None?
    ensures SearchFrom(s, i).Some? ==>
      exists j :: i <= j < |s| && TripleAt(s, j) == SearchFrom(s, i) && forall j' :: i <= j' < j ==> TripleAt(s, j').None?
    decreases |s| - i
  {
    if i < |s| && TripleAt(s, i).None? {
      SearchFromLeftmost(s, i + 1);
      if SearchFrom(s, i).Some? {
        var j :| i + 1 <= j < |s| && TripleAt(s, j) == SearchFrom(s, i + 1) && forall j' :: i + 1 <= j' < j ==> TripleAt(s, j').None?;
        assert forall j' :: i <= j' < j ==> TripleAt(s, j').None?;
      }
    } else if i < |s| {

    }
  }

  /**
   * `_parse_semver`: nothing for None or the empty string, otherwise the leftmost
   * digit triple of the string, and nothing when the string holds none.
   */
  function ParseSemver(version: Option<string>): Option<Semver> {
    if version.None? || version.value == "" then None
    else SearchFrom(version.value, 0)
  }

  /** Parsing fails exactly for None and for strings without a triple, and otherwise finds the leftmost one. */
  lemma ParseSemverLeftmost(version: Option<string>)
    ensures ParseSemver(version).None? <==> version.None? || NoTriple(version.value)
    ensures ParseSemver(version).Some? ==> version.Some? && LeftmostTriple(version.value, ParseSemver(version).value)
  {
    if version.Some? {
      SearchFromLeftmost(version.value, 0);
    }
  }

  /** The maximal digit run at i has length n when the n characters from i are digits and the next is not. */
  lemma {:induction false} DigitRunIs(s: string, i: nat, n: nat)
    requires i + n <= |s|
    requires forall j :: i <= j < i + n ==> IsDigit(s[j])
    requires i + n == |s| || !IsDigit(s[i + n])
    ensures DigitRun(s, i) == n
    decreases n
  {
    if n > 0 {
      DigitRunIs(s, i + 1, n - 1);
    }
  }

  /** A digit string t sits at position i of s, followed by the end of s or by a non-digit. */
  ghost predicate DigitsAt(s: string, i: nat, t: string) {
    && |t| > 0 && AllDigits(t)
    && i + |t| <= |s| && s[i..i + |t|] == t
    && (i + |t| == |s| || !IsDigit(s[i + |t|]))
  }

  lemma DigitsAtRun(s: string, i: nat, t: string)
    requires DigitsAt(s, i, t)
    ensures DigitRun(s, i) == |t| && NumberAt(s, i, |t|) == DigitsValue(t)
  {
    forall j | i <= j < i + |t|
      ensures IsDigit(s[j])
    {
      assert s[j] == t[j - i];
    }
    DigitRunIs(s, i, |t|);
    NumberAtIs(s, i, t);
  }

  /** The triple at i, given where its three digit runs start, how long they are, and the two dots. */
  lemma TripleAtRuns(s: string, i: nat, j: nat, k: nat, a: nat, b: nat, c: nat)
    requires j == i + a + 1 && k == j + b + 1 && k + c <= |s| && a > 0 && b > 0 && c > 0
    requires DigitRun(s, i) == a && DigitRun(s, j) == b && DigitRun(s, k) == c
    requires s[j - 1] == '.' && s[k - 1] == '.'
    ensures TripleAt(s, i) == Some(Semver(NumberAt(s, i, a), NumberAt(s, j, b), NumberAt(s, k, c)))
  {
  }

  /** Digit runs are read the same way after text is put in front of the string. */
  lemma {:induction false} RunShift(p: string, u: string, i: nat)
    requires i <= |u|
    ensures DigitRun(p + u, |p| + i) == DigitRun(u, i)
    decreases |u| - i
  {
    if i < |u| {
      assert (p + u)[|p| + i] == u[i];
      RunShift(p, u, i + 1);
    }
  }

  lemma {:induction false} NumberShift(p: string, u: string, i: nat, n: nat)
    requires i + n <= |u|
    ensures NumberAt(p + u, |p| + i, n) == NumberAt(u, i, n)
  {
    if n > 0 {
      assert (p + u)[|p| + i + n - 1] == u[i + n - 1];
      NumberShift(p, u, i, n - 1);
    }
  }

  /** The triple starting at a position does not depend on the text in front of the string. */
  lemma TripleShift(p: string, u: string, i: nat)
    requires i <= |u|
    ensures TripleAt(p + u, |p| + i) == TripleAt(u, i)
  {
    var s := p + u;
    RunShift(p, u, i);
    var a := DigitRun(u, i);
    NumberShift(p, u, i, a);
    var j := i + a + 1;
    if a > 0 && j <= |u| {
      assert s[|p| + j - 1] == u[j - 1];
      RunShift(p, u, j);
      var b := DigitRun(u, j);
      NumberShift(p, u, j, b);
      var k := j + b + 1;
      if b > 0 && k <= |u| {
        assert s[|p| + k - 1] == u[k - 1];
        RunShift(p, u, k);
        NumberShift(p, u, k, DigitRun(u, k));
      }
    }
  }

  /** A non-empty digit string at the start, followed by the end or by a non-digit, is the first run. */
  lemma RunLead(t: string, r: string)
    requires |t| > 0 && AllDigits(t)
    requires r == [] || !IsDigit(r[0])
    ensures DigitRun(t + r, 0) == |t| && NumberAt(t + r, 0, |t|) == DigitsValue(t)
  {
    assert (t + r)[0..|t|] == t;
    assert |t| == |t + r| || (t + r)[|t|] == r[0];
    DigitsAtRun(t + r, 0, t);
  }

  /** Reading a run of n characters at i is unaffected by text put in front of the string. */
  lemma ReadShift(p: string, u: string, i: nat, n: nat)
    requires i + n <= |u|
    ensures DigitRun(p + u, |p| + i) == DigitRun(u, i) && NumberAt(p + u, |p| + i, n) == NumberAt(u, i, n)
  {
    RunShift(p, u, i);
    NumberShift(p, u, i, n);
  }

  /** The second run of "A.B.C..." is B. */
  lemma SecondRun(A: string, B: string, w3: string)
    requires |B| > 0 && AllDigits(B) && (w3 == [] || !IsDigit(w3[0]))
    ensures var u := A + ("." + (B + w3));
      DigitRun(u, |A| + 1) == |B| && NumberAt(u, |A| + 1, |B|) == DigitsValue(B)
  {
    var w2 := B + w3;
    ReadShift(A, "." + w2, 1, |B|);
    ReadShift(".", w2, 0, |B|);
    RunLead(B, w3);
  }

  /** The third run of "A.B.C..." is C. */
  lemma ThirdRun(A: string, B: string, C: string, q: string)
    requires |C| > 0 && AllDigits(C) && (q == [] || !IsDigit(q[0]))
    ensures var u := A + ("." + (B + ("." + (C + q))));
      DigitRun(u, |A| + |B| + 2) == |C| && NumberAt(u, |A| + |B| + 2, |C|) == DigitsValue(C)
  {
    var w3 := C + q;
    var w2 := B + ("." + w3);
    var u := A + ("." + w2);
    ReadShift(A, "." + w2, |B| + 2, |C|);
    assert DigitRun(u, |A| + |B| + 2) == DigitRun("." + w2, |B| + 2);
    ReadShift(".", w2, |B| + 1, |C|);
    assert DigitRun("." + w2, |B| + 2) == DigitRun(w2, |B| + 1);
    ReadShift(B, "." + w3, 1, |C|);
    assert DigitRun(w2, |B| + 1) == DigitRun("." + w3, 1);
    ReadShift(".", w3, 0, |C|);
    assert DigitRun("." + w3, 1) == DigitRun(w3, 0);
    RunLead(C, q);
    assert DigitRun(w3, 0) == |C|;
    assert NumberAt(u, |A| + |B| + 2, |C|) == NumberAt("." + w2, |B| + 2, |C|) == NumberAt(w2, |B| + 1, |C|)
      == NumberAt("." + w3, 1, |C|) == NumberAt(w3, 0, |C|);
  }

  /** The three runs of a string starting with "A.B.C", followed by a non-digit or nothing. */
  lemma LeadRuns(A: string, B: string, C: string, q: string)
    requires |A| > 0 && AllDigits(A) && |B| > 0 && AllDigits(B) && |C| > 0 && AllDigits(C)
    requires q == [] || !IsDigit(q[0])
    ensures var u := A + ("." + (B + ("." + (C + q))));
      && DigitRun(u, 0) == |A| && DigitRun(u, |A| + 1) == |B| && DigitRun(u, |A| + |B| + 2) == |C|
      && NumberAt(u, 0, |A|) == DigitsValue(A) && NumberAt(u, |A| + 1, |B|) == DigitsValue(B)
      && NumberAt(u, |A| + |B| + 2, |C|) == DigitsValue(C)
  {
    var w3 := C + q;
    RunLead(A, "." + (B + ("." + w3)));
    SecondRun(A, B, "." + w3);
    ThirdRun(A, B, C, q);
  }

  /** A string that starts with the dotted triple "A.B.C", then a non-digit or nothing, starts with the triple. */
  lemma TripleLead(A: string, B: string, C: string, q: string)
    requires |A| > 0 && AllDigits(A) && |B| > 0 && AllDigits(B) && |C| > 0 && AllDigits(C)
    requires q == [] || !IsDigit(q[0])
    ensures TripleAt(A + ("." + (B + ("." + (C + q)))), 0) == Some(Semver(DigitsValue(A), DigitsValue(B), DigitsValue(C)))
  {
    LeadRuns(A, B, C, q);
    TripleOfRuns(A + ("." + (B + ("." + (C + q)))), A, B, C, q);
  }

  lemma TripleOfRuns(u: string, A: string, B: string, C: string, q: string)
    requires u == A + ("." + (B + ("." + (C + q))))
    requires |A| > 0 && |B| > 0 && |C| > 0
    requires DigitRun(u, 0) == |A| && DigitRun(u, |A| + 1) == |B| && DigitRun(u, |A| + |B| + 2) == |C|
    requires NumberAt(u, 0, |A|) == DigitsValue(A) && NumberAt(u, |A| + 1, |B|) == DigitsValue(B)
    requires NumberAt(u, |A| + |B| + 2, |C|) == DigitsValue(C)
    ensures TripleAt(u, 0) == Some(Semver(DigitsValue(A), DigitsValue(B), DigitsValue(C)))
  {
    assert u[|A|] == '.' && u[|A| + |B| + 1] == '.';
    TripleAtRuns(u, 0, |A| + 1, |A| + |B| + 2, |A|, |B|, |C|);
  }

  /** Parsing "M.m.p", with any digit-free text before it and non-digit text after it, gives (M, m, p). */
  lemma ParseRendered(prefix: string, v: Semver, suffix: string)
    requires forall i :: 0 <= i < |prefix| ==> !IsDigit(prefix[i])
    requires suffix == [] || !IsDigit(suffix[0])
    ensures ParseSemver(Some(prefix + Render(v) + suffix)) == Some(v)
  {
    var A, B, C := NatToString(v.major), NatToString(v.minor), NatToString(v.patch);
    var s := prefix + Render(v) + suffix;
    var u := A + ("." + (B + ("." + (C + suffix))));
    assert s == prefix + u;
    TripleLead(A, B, C, suffix);
    TripleShift(prefix, u, 0);
    NoTripleInPrefix(prefix, u);
    ParseSemverLeftmost(Some(s));
  }

  /** No triple starts inside a digit-free prefix. */
  lemma NoTripleInPrefix(prefix: string, u: string)
    requires forall i :: 0 <= i < |prefix| ==> !IsDigit(prefix[i])
    ensures forall j :: 0 <= j < |prefix| ==> TripleAt(prefix + u, j).None?
  {
    forall j | 0 <= j < |prefix|
      ensures TripleAt(prefix + u, j).None?
    {
      assert (prefix + u)[j] == prefix[j];
    }
  }

  /** Parsing the rendering of any triple gives the triple back. */
  lemma ParseRenderRoundTrip(v: Semver)
    ensures ParseSemver(Some(Render(v))) == Some(v)
  {
    ParseRendered("", v, "");
    assert "" + Render(v) + "" == Render(v);
  }

  /** Component-wise bump classification of two parsed versions, in the order major, minor, patch. */
  function Bump(before: Semver, after: Semver): UpdateType {
    if after.major > before.major then Major
    else if after.minor > before.minor then Minor
    else if after.patch > before.patch then Patch
    else Unknown
  }

  /** `_determine_update_type`: "unknown" unless both versions parse, otherwise the bump between them. */
  function DetermineUpdateType(oldVersion: Option<string>, newVersion: Option<string>): UpdateType {
    var o := ParseSemver(oldVersion);
    var n := ParseSemver(newVersion);
    if o.None? || n.None? then Unknown else Bump(o.value, n.value)
  }

  /** A version that does not parse, on either side, classifies as unknown. */
  lemma UpdateTypeUnparsed(oldVersion: Option<string>, newVersion: Option<string>)
    requires ParseSemver(oldVersion).None? || ParseSemver(newVersion).None?
    ensures DetermineUpdateType(oldVersion, newVersion) == Unknown
  {
  }

  /** An unchanged version classifies as unknown. */
  lemma UpdateTypeSameVersion(version: Option<string>)
    ensures DetermineUpdateType(version, version) == Unknown
  {
  }

  /**
   * When both sides parse, the result is major exactly when the major number grew, and
   * otherwise minor exactly when the minor number grew, and otherwise patch exactly when
   * the patch number grew. Components are compared one by one, not as a lexicographic tuple.
   */
  lemma UpdateTypeComponents(oldVersion: Option<string>, newVersion: Option<string>)
    requires ParseSemver(oldVersion).Some? && ParseSemver(newVersion).Some?
    ensures var o, n, r := ParseSemver(oldVersion).value, ParseSemver(newVersion).value, DetermineUpdateType(oldVersion, newVersion);
      && (r == Major <==> n.major > o.major)
      && (r == Minor <==> n.major <= o.major && n.minor > o.minor)
      && (r == Patch <==> n.major <= o.major && n.minor <= o.minor && n.patch > o.patch)
      && (r == Unknown <==> n.major <= o.major && n.minor <= o.minor && n.patch <= o.patch)
  {
  }

  /** Classifying two rendered triples is classifying the triples themselves. */
  lemma UpdateTypeOfRendered(before: Semver, after: Semver)
    ensures DetermineUpdateType(Some(Render(before)), Some(Render(after))) == Bump(before, after)
  {
    ParseRenderRoundTrip(before);
    ParseRenderRoundTrip(after);
  }

  /** The examples of a major, a minor and a patch bump, and of identical versions. */
  lemma UpdateTypeExamples()
    ensures DetermineUpdateType(Some("1.2.3"), Some("2.0.0")) == Major
    ensures DetermineUpdateType(Some("1.2.3"), Some("1.3.0")) == Minor
    ensures DetermineUpdateType(Some("1.2.3"), Some("1.2.4")) == Patch
    ensures DetermineUpdateType(Some("1.2.3"), Some("1.2.3")) == Unknown
  {
    assert Render(Semver(1, 2, 3)) == "1.2.3";
    assert Render(Semver(2, 0, 0)) == "2.0.0";
    assert Render(Semver(1, 3, 0)) == "1.3.0";
    assert Render(Semver(1, 2, 4)) == "1.2.4";
    UpdateTypeOfRendered(Semver(1, 2, 3), Semver(2, 0, 0));
    UpdateTypeOfRendered(Semver(1, 2, 3), Semver(1, 3, 0));
    UpdateTypeOfRendered(Semver(1, 2, 3), Semver(1, 2, 4));
  }

  /** Because components are compared one by one, a downgrade from 2.0.0 to 1.5.0 classifies as minor. */
  lemma DowngradeAcrossMajorsIsMinor()
    ensures DetermineUpdateType(Some("2.0.0"), Some("1.5.0")) == Minor
  {
    assert Render(Semver(2, 0, 0)) == "2.0.0";
    assert Render(Semver(1, 5, 0)) == "1.5.0";
    UpdateTypeOfRendered(Semver(2, 0, 0), Semver(1, 5, 0));
  }

  /** The f-string `">={major}.{minor}.{patch},<{major + 1}.0.0"`. */
  function ConstraintText(v: Semver): string {
    ">=" + NatToString(v.major) + "." + NatToString(v.minor) + "." + NatToString(v.patch)
    + ",<" + NatToString(v.major + 1) + ".0.0"
  }

  /** `_build_fallback_constraint`: the constraint text for the parsed first patched version, if it parses. */
  function BuildFallbackConstraint(firstPatchedVersion: string): Option<string> {
    match ParseSemver(Some(firstPatchedVersion))
    case None => None
    case Some(v) => Some(ConstraintText(v))
  }

  lemma ConstraintTextShape(v: Semver)
    ensures ConstraintText(v) == ">=" + Render(v) + (",<" + Render(Semver(v.major + 1, 0, 0)))
  {
    assert NatToString(0) == "0";
  }

  /** The constraint text is ">=" v ",<" (next major), and parsing it finds v, parsing its upper bound finds the next major. */
  lemma ConstraintTextBounds(v: Semver)
    ensures var c, upper := ConstraintText(v), Semver(v.major + 1, 0, 0);
      && c == ">=" + Render(v) + ",<" + Render(upper)
      && ParseSemver(Some(c)) == Some(v)
      && ParseSemver(Some(Render(upper))) == Some(upper)
  {
    var upper := Semver(v.major + 1, 0, 0);
    var lower, tail := ">=" + Render(v), ",<" + Render(upper);
    ConstraintTextShape(v);
    assert ParseSemver(Some(lower + tail)) == Some(v) by {
      ParseRendered(">=", v, tail);
    }
    ParseRenderRoundTrip(upper);
  }

  /**
   * The constraint exists exactly when the version parses. Its lower bound is the parsed
   * version and its exclusive upper bound is the next major version: parsing the whole
   * constraint finds the lower bound again, parsing the upper bound finds the next major.
   */
  lemma FallbackConstraintBounds(firstPatchedVersion: string)
    ensures BuildFallbackConstraint(firstPatchedVersion).None? <==> ParseSemver(Some(firstPatchedVersion)).None?
    ensures BuildFallbackConstraint(firstPatchedVersion).Some? ==>
      var v := ParseSemver(Some(firstPatchedVersion)).value;
      var c := BuildFallbackConstraint(firstPatchedVersion).value;
      var upper := Semver(v.major + 1, 0, 0);
      && c == ">=" + Render(v) + ",<" + Render(upper)
      && ParseSemver(Some(c)) == Some(v)
      && ParseSemver(Some(Render(upper))) == Some(upper)
  {
    if ParseSemver(Some(firstPatchedVersion)).Some? {
      ConstraintTextBounds(ParseSemver(Some(firstPatchedVersion)).value);
    }
  }
}
