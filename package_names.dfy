/**
 * Package names and branch names in the remediation script: `_normalize_package_name`
 * and `_safe_branch_component` (scripts/security_remediation_agent.py), both built on
 * `re.sub(<character class>+, "-", ...)`.
 */
module PackageNames {
  import opened Text

  /** The two character classes the script substitutes runs of. */
  datatype RunClass =
    | Separator  // `[-_.]`
    | Unsafe     // `[^A-Za-z0-9._-]`

  /** The characters a branch component may keep: `[A-Za-z0-9._-]`. */
  predicate IsBranchSafe(c: char) {
    ('a' <= c <= 'z') || ('A' <= c <= 'Z') || IsDigit(c) || c == '.' || c == '_' || c == '-'
  }

  predicate InClass(cls: RunClass, c: char) {
    match cls
    case Separator => c == '-' || c == '_' || c == '.'
    case Unsafe => !IsBranchSafe(c)
  }

  /** The end of the run of class characters that starts at position i of s. */
  function RunEnd(s: string, i: nat, cls: RunClass): (j: nat)
    requires i <= |s|
    ensures i <= j <= |s|
    ensures j == |s| || !InClass(cls, s[j])
    decreases |s| - i
  {
    if i < |s| && InClass(cls, s[i]) then RunEnd(s, i + 1, cls) else i
  }

  /** Everything between i and the end of its run is a class character. */
  lemma {:induction false} RunEndClass(s: string, i: nat, cls: RunClass)
    requires i <= |s|
    ensures forall k :: i <= k < RunEnd(s, i, cls) ==> InClass(cls, s[k])
    decreases |s| - i
  {
    if i < |s| && InClass(cls, s[i]) {
      RunEndClass(s, i + 1, cls);
    }
  }

  /** `re.sub(cls + "+", "-", s[i..])`: every maximal run of class characters becomes one "-". */
  function ReplaceFrom(s: string, i: nat, cls: RunClass): (r: string)
    requires i <= |s|
    decreases |s| - i
  {
    if i == |s| then []
    else if InClass(cls, s[i]) then "-" + ReplaceFrom(s, RunEnd(s, i + 1, cls), cls)
    else [s[i]] + ReplaceFrom(s, i + 1, cls)
  }

  function ReplaceRuns(s: string, cls: RunClass): string {
    ReplaceFrom(s, 0, cls)
  }

  /** Every character of r is a "-" or a character of s outside the class. */
  ghost predicate DashOrKept(r: string, s: string, cls: RunClass) {
    forall i :: 0 <= i < |r| ==> r[i] == '-' || (r[i] in s && !InClass(cls, r[i]))
  }

  /** The result consists of "-" put in for runs and of input characters outside the class. */
  lemma {:induction false} ReplaceFromChars(s: string, i: nat, cls: RunClass)
    requires i <= |s|
    ensures DashOrKept(ReplaceFrom(s, i, cls), s, cls)
    decreases |s| - i
  {
    if i < |s| {
      var r := ReplaceFrom(s, i, cls);
      var next := if InClass(cls, s[i]) then RunEnd(s, i + 1, cls) else i + 1;
      var t := ReplaceFrom(s, next, cls);
      ReplaceFromChars(s, next, cls);
      assert r == [r[0]] + t;
      forall k | 0 <= k < |r|
        ensures r[k] == '-' || (r[k] in s && !InClass(cls, r[k]))
      {
        if k > 0 {
          assert r[k] == t[k - 1];
        }
      }
    }
  }

  /** A "-" never comes right before a class character. */
  ghost predicate NoRunAfterDash(r: string, cls: RunClass) {
    forall i :: 0 <= i < |r| - 1 && r[i] == '-' ==> !InClass(cls, r[i + 1])
  }

  /** When "-" is itself in the class, a "-" of the result is never followed by a class character. */
  lemma {:induction false} ReplaceFromSingleDash(s: string, i: nat, cls: RunClass)
    requires i <= |s| && InClass(cls, '-')
    ensures NoRunAfterDash(ReplaceFrom(s, i, cls), cls)
    decreases |s| - i
  {
    if i < |s| {
      var r := ReplaceFrom(s, i, cls);
      var next := if InClass(cls, s[i]) then RunEnd(s, i + 1, cls) else i + 1;
      var t := ReplaceFrom(s, next, cls);
      ReplaceFromSingleDash(s, next, cls);
      assert r == [r[0]] + t;
      if next < |s| && !InClass(cls, s[next]) {
        assert t[0] == s[next];
      }
      forall k | 0 <= k < |r| - 1 && r[k] == '-'
        ensures !InClass(cls, r[k + 1])
      {
        if k > 0 {
          assert r[k] == t[k - 1] && r[k + 1] == t[k];
        }
      }
    }
  }

  /** The substitution changes nothing when every class character is a lone "-". */
  lemma {:induction false} ReplaceFromFixed(s: string, i: nat, cls: RunClass)
    requires i <= |s|
    requires forall k :: i <= k < |s| && InClass(cls, s[k]) ==> s[k] == '-' && (k + 1 == |s| || !InClass(cls, s[k + 1]))
    ensures ReplaceFrom(s, i, cls) == s[i..]
    decreases |s| - i
  {
    if i < |s| {
      ReplaceFromFixed(s, i + 1, cls);
      assert s[i..] == [s[i]] + s[i + 1..];
    }
  }

  /** The first and last characters of the result come from the ends of the input, or are "-". */
  lemma {:induction false} ReplaceFromEnds(s: string, i: nat, cls: RunClass)
    requires i < |s|
    ensures var r := ReplaceFrom(s, i, cls);
      && r != []
      && (r[0] == '-' || r[0] == s[i])
      && (r[|r| - 1] == '-' || r[|r| - 1] == s[|s| - 1])
    decreases |s| - i
  {
    var next := if InClass(cls, s[i]) then RunEnd(s, i + 1, cls) else i + 1;
    if next < |s| {
      ReplaceFromEnds(s, next, cls);
    }
  }

  /** `_normalize_package_name`: strip, lower-case, and collapse runs of "-", "_" and "." into "-". */
  function NormalizePackageName(name: string): string {
    ReplaceRuns(Lower(Strip(name)), Separator)
  }

  /** A lower-cased string has no upper-case character. */
  lemma LowerHasNoUpper(s: string)
    ensures forall c :: c in Lower(s) ==> !IsUpper(c)
  {
    forall c | c in Lower(s) ensures !IsUpper(c) {
      var k :| 0 <= k < |Lower(s)| && Lower(s)[k] == c;
    }
  }

  /** The characters of a normalised name: no "_", no "." and no upper-case letter. */
  lemma NormalizedChars(name: string)
    ensures var r := NormalizePackageName(name);
      forall i :: 0 <= i < |r| ==> r[i] != '_' && r[i] != '.' && !IsUpper(r[i])
  {
    var lowered := Lower(Strip(name));
    ReplaceFromChars(lowered, 0, Separator);
    LowerHasNoUpper(Strip(name));
  }

  /** A normalised name never has two adjacent "-". */
  lemma NormalizedDashes(name: string)
    ensures var r := NormalizePackageName(name);
      forall i :: 0 <= i < |r| - 1 ==> !(r[i] == '-' && r[i + 1] == '-')
  {
    ReplaceFromSingleDash(Lower(Strip(name)), 0, Separator);
  }

  /** A normalised name neither starts nor ends with whitespace. */
  lemma NormalizedEnds(name: string)
    ensures var r := NormalizePackageName(name);
      r == [] || (!IsSpace(r[0]) && !IsSpace(r[|r| - 1]))
  {
    var stripped := Strip(name);
    StripEnds(name, Whitespace);
    SpaceFreeEnds(stripped);
  }

  lemma SpaceFreeEnds(stripped: string)
    requires stripped == [] || (!IsSpace(stripped[0]) && !IsSpace(stripped[|stripped| - 1]))
    ensures var r := ReplaceRuns(Lower(stripped), Separator);
      r == [] || (!IsSpace(r[0]) && !IsSpace(r[|r| - 1]))
  {
    var lowered := Lower(stripped);
    if lowered != [] {
      assert lowered[0] == LowerChar(stripped[0]);
      assert lowered[|lowered| - 1] == LowerChar(stripped[|stripped| - 1]);
      ReplaceFromEnds(lowered, 0, Separator);
    }
  }

  /** Normalising twice is normalising once. */
  lemma NormalizeIdempotent(name: string)
    ensures NormalizePackageName(NormalizePackageName(name)) == NormalizePackageName(name)
  {
    var r := NormalizePackageName(name);
    NormalizedChars(name);
    NormalizedDashes(name);
    NormalizedEnds(name);
    StripUnchanged(r, Whitespace);
    LowerUnchanged(r);
    ReplaceFromFixed(r, 0, Separator);
  }

  /** What `_safe_branch_component` keeps of the stripped, lower-cased value: substitute, then strip "-". */
  function Cleaned(lowered: string): string {
    StripChar(ReplaceRuns(lowered, Unsafe), '-')
  }

  /** `_safe_branch_component`: the cleaned component, or "dependency" when nothing is left. */
  function SafeBranchComponent(value: string): string {
    var cleaned := Cleaned(Lower(Strip(value)));
    if cleaned == [] then "dependency" else cleaned
  }

  /** The characters of a valid branch component: `[a-z0-9._-]`. */
  predicate IsComponentChar(c: char) {
    IsBranchSafe(c) && !IsUpper(c)
  }

  /** A branch component is non-empty, uses only `[a-z0-9._-]` and has no "-" at either end. */
  ghost predicate ValidComponent(r: string) {
    && r != []
    && (forall i :: 0 <= i < |r| ==> IsComponentChar(r[i]))
    && r[0] != '-' && r[|r| - 1] != '-'
  }

  /** A character that survives cleaning: safe, and not the "-" that cleaning strips. */
  predicate Survives(c: char) {
    IsBranchSafe(c) && c != '-'
  }

  /** Stripping "-" from a string of component characters leaves a valid component, unless nothing is left. */
  lemma StripDashes(t: string)
    requires forall i :: 0 <= i < |t| ==> IsComponentChar(t[i])
    ensures var cleaned := StripChar(t, '-');
      cleaned == [] || ValidComponent(cleaned)
  {
    var u := TrimStart(t, Only('-'));
    var cleaned := TrimEnd(u, Only('-'));
    StripEnds(t, Only('-'));
    forall i | 0 <= i < |cleaned|
      ensures IsComponentChar(cleaned[i])
    {
      assert cleaned[i] == u[i];
      assert u[i] == t[|t| - |u| + i];
    }
  }

  /** Every result of `_safe_branch_component` is a valid component. */
  lemma SafeBranchComponentValid(value: string)
    ensures ValidComponent(SafeBranchComponent(value))
  {
    var lowered := Lower(Strip(value));
    LowerHasNoUpper(Strip(value));
    CleanedValid(lowered);
    DependencyValid();
  }

  lemma DependencyValid()
    ensures ValidComponent("dependency")
  {
    var d := "dependency";
    assert forall i :: 0 <= i < |d| ==> IsComponentChar(d[i]);
  }

  /** Cleaning a string without upper-case letters leaves a valid component, or nothing. */
  lemma CleanedValid(s: string)
    requires forall c :: c in s ==> !IsUpper(c)
    ensures Cleaned(s) == [] || ValidComponent(Cleaned(s))
  {
    SubstitutedChars(s);
    StripDashes(ReplaceRuns(s, Unsafe));
  }

  /** Substituting the unsafe runs of a string without upper-case letters leaves only component characters. */
  lemma SubstitutedChars(s: string)
    requires forall c :: c in s ==> !IsUpper(c)
    ensures var t := ReplaceRuns(s, Unsafe);
      forall i :: 0 <= i < |t| ==> IsComponentChar(t[i])
  {
    ReplaceFromChars(s, 0, Unsafe);
  }

  /** A character that survives cleaning is copied by the substitution. */
  lemma {:induction false} SurvivorKept(s: string, i: nat, k: nat)
    requires i <= k < |s| && Survives(s[k])
    ensures s[k] in ReplaceFrom(s, i, Unsafe)
    decreases |s| - i
  {
    if i < k {
      if InClass(Unsafe, s[i]) {
        var next := RunEnd(s, i + 1, Unsafe);
        RunEndClass(s, i + 1, Unsafe);
        SurvivorKept(s, next, k);
      } else {
        SurvivorKept(s, i + 1, k);
      }
    }
  }

  /** Stripping "-" leaves nothing exactly when no character of the substituted string survives. */
  lemma CleanedEmptyOf(s: string)
    ensures Cleaned(s) == [] <==> forall i :: 0 <= i < |s| ==> !Survives(s[i])
  {
    var t := ReplaceRuns(s, Unsafe);
    ReplaceFromChars(s, 0, Unsafe);
    if forall i :: 0 <= i < |s| ==> !Survives(s[i]) {
      assert forall i :: 0 <= i < |t| ==> t[i] == '-';
      TrimStartOfRemoved(t, Only('-'));
    } else {
      var k :| 0 <= k < |s| && Survives(s[k]);
      SurvivorKept(s, 0, k);
      var j :| 0 <= j < |t| && t[j] == s[k];
      SurvivorInStrip(t, j);
    }
  }

  /** Stripping "-" keeps any character that is not "-". */
  lemma SurvivorInStrip(t: string, j: nat)
    requires j < |t| && t[j] != '-'
    ensures StripChar(t, '-') != []
  {
    var u := TrimStart(t, Only('-'));
    assert |t| - |u| <= j;
    assert u[j - (|t| - |u|)] != '-';
  }

  /** The component is "dependency" when no lower-cased character survives, and the cleaned text otherwise. */
  lemma SafeBranchComponentFallback(value: string)
    ensures var lowered := Lower(Strip(value));
      && ((forall i :: 0 <= i < |lowered| ==> !Survives(lowered[i])) <==> Cleaned(lowered) == [])
      && ((forall i :: 0 <= i < |lowered| ==> !Survives(lowered[i])) ==> SafeBranchComponent(value) == "dependency")
      && (Cleaned(lowered) != [] ==> SafeBranchComponent(value) == Cleaned(lowered))
  {
    CleanedEmptyOf(Lower(Strip(value)));
  }

  /** A valid component is its own branch component. */
  lemma ValidComponentUnchanged(r: string)
    requires ValidComponent(r)
    ensures SafeBranchComponent(r) == r
  {
    assert forall i :: 0 <= i < |r| ==> !IsSpace(r[i]);
    StripUnchanged(r, Whitespace);
    LowerUnchanged(r);
    ReplaceFromFixed(r, 0, Unsafe);
    StripUnchanged(r, Only('-'));
  }

  /** Sanitising twice is sanitising once. */
  lemma SafeBranchComponentIdempotent(value: string)
    ensures SafeBranchComponent(SafeBranchComponent(value)) == SafeBranchComponent(value)
  {
    SafeBranchComponentValid(value);
    ValidComponentUnchanged(SafeBranchComponent(value));
  }
}
