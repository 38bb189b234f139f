/**
 * Dependabot alerts: choosing the vulnerability record of an alert, extracting the fields the
 * remediation agent works with, and the filter on state, ecosystem and severity.
 */
module Alerts {
  import opened Wrappers
  import opened Text
  import opened Json

  /** The fields extracted from one alert payload. */
  datatype AlertFields = AlertFields(
    alertId: Json,
    state: Json,
    severity: string,
    package: Json,
    ecosystem: string,
    manifestPath: Json,
    summary: Json,
    ghsaId: Json,
    cveId: Json,
    firstPatchedVersion: Json,
    htmlUrl: Json)

  predicate NoUpper(s: string) {
    forall i :: 0 <= i < |s| ==> !IsUpper(s[i])
  }

  /** `d.get(key, {}) or {}`: a nested record, an empty dict when it is absent or falsy. */
  function Nested(d: map<string, Json>, key: string): (r: Json)
    ensures Truthy(r) ==> key in d && r == d[key]
    ensures key in d && Truthy(d[key]) ==> r == d[key]
    ensures !Truthy(r) ==> r == EmptyObj
  {
    Or(Get(d, key, EmptyObj), EmptyObj)
  }

  /** `x.get(key) or ""`: the stored value when it is truthy, an empty string otherwise. */
  function OrEmpty(d: map<string, Json>, key: string): (r: Json)
    ensures Truthy(r) ==> key in d && r == d[key]
    ensures key in d && Truthy(d[key]) ==> r == d[key]
    ensures !Truthy(r) ==> r == Str("")
  {
    Or(Get(d, key, Null), Str(""))
  }

  /**
   * The vulnerability of an alert: the first element of a non-empty `security_vulnerabilities`
   * list, else a `security_vulnerability` dict, else an empty dict. Only a list element can be
   * something other than a dict, and every non-empty result comes from the payload.
   */
  function ChooseAlertVulnerability(alert: map<string, Json>): (r: Json)
    ensures var list := Get(alert, "security_vulnerabilities", Null);
      list.Arr? && list.items != [] ==> r == list.items[0]
    ensures var list := Get(alert, "security_vulnerabilities", Null);
      !r.Obj? ==> list.Arr? && list.items != [] && r == list.items[0]
    ensures var list := Get(alert, "security_vulnerabilities", Null);
      r != EmptyObj ==>
        (list.Arr? && list.items != [] && r == list.items[0])
        || ("security_vulnerability" in alert && r == alert["security_vulnerability"])
    ensures var list := Get(alert, "security_vulnerabilities", Null);
      !(list.Arr? && list.items != []) && Get(alert, "security_vulnerability", Null).Obj? ==>
        r == alert["security_vulnerability"]
    ensures var list := Get(alert, "security_vulnerabilities", Null);
      !(list.Arr? && list.items != []) && !Get(alert, "security_vulnerability", Null).Obj? ==> r == EmptyObj
  {
    var list := Get(alert, "security_vulnerabilities", Null);
    if list.Arr? && |list.items| > 0 then list.items[0]
    else
      var single := Get(alert, "security_vulnerability", Null);
      if single.Obj? then single else EmptyObj
  }

  /** A non-empty `security_vulnerabilities` list wins: the single record is then never read. */
  lemma ListShadowsSingle(alert: map<string, Json>, other: Json)
    requires var list := Get(alert, "security_vulnerabilities", Null); list.Arr? && list.items != []
    ensures ChooseAlertVulnerability(alert["security_vulnerability" := other]) == ChooseAlertVulnerability(alert)
  {
  }

  /**
   * `dep_package.get(key) or vuln_package.get(key) or ""`. The second `.get` only runs when the
   * first value is falsy, and raises unless the vulnerability's package is a dict.
   */
  function PackageValue(depPackage: map<string, Json>, vulnPackage: Json, key: string): Outcome<Json> {
    var own := Get(depPackage, key, Null);
    if Truthy(own) then Returned(own)
    else if vulnPackage.Obj? then Returned(OrEmpty(vulnPackage.fields, key))
    else Raised
  }

  /**
   * The fields of an alert payload. Every `.get` on something that is not a dict and the
   * `.lower()` of an ecosystem that is not a string raise.
   */
  function ExtractAlertFields(alert: Json): (r: Outcome<AlertFields>)
    ensures !alert.Obj? ==> r == Raised
    ensures r.Returned? ==> NoUpper(r.value.severity) && NoUpper(r.value.ecosystem)
    ensures r.Returned? ==> r.value.alertId == Or(Get(alert.fields, "number", Null), Get(alert.fields, "id", Null))
  {
    if !alert.Obj? then Raised
    else
      var a := alert.fields;
      var vulnerability := ChooseAlertVulnerability(a);
      var dependency := Nested(a, "dependency");
      if !dependency.Obj? then Raised
      else
        var depPackage := Nested(dependency.fields, "package");
        if !depPackage.Obj? || !vulnerability.Obj? then Raised
        else
          var vulnPackage := Nested(vulnerability.fields, "package");
          var firstPatched := Nested(vulnerability.fields, "first_patched_version");
          var advisory := Nested(a, "security_advisory");
          if !firstPatched.Obj? || !advisory.Obj? then Raised
          else
            match (PackageValue(depPackage.fields, vulnPackage, "name"),
                   PackageValue(depPackage.fields, vulnPackage, "ecosystem"))
            case (Returned(name), Returned(eco)) =>
              if !eco.Str? then Raised
              else
                Returned(AlertFields(
                  alertId := Or(Get(a, "number", Null), Get(a, "id", Null)),
                  state := Get(a, "state", Str("")),
                  severity := Lower(PyStr(Get(advisory.fields, "severity", Str("")))),
                  package := name,
                  ecosystem := Lower(eco.s),
                  manifestPath := OrEmpty(dependency.fields, "manifest_path"),
                  summary := OrEmpty(advisory.fields, "summary"),
                  ghsaId := OrEmpty(advisory.fields, "ghsa_id"),
                  cveId := OrEmpty(advisory.fields, "cve_id"),
                  firstPatchedVersion := OrEmpty(firstPatched.fields, "identifier"),
                  htmlUrl := OrEmpty(a, "html_url")))
            case _ => Raised
  }

  /** The severity scale low < moderate < high < critical. */
  const SeverityOrder: map<string, nat> := map["low" := 1, "moderate" := 2, "high" := 3, "critical" := 4]

  /** `SEVERITY_ORDER.get(severity, 0)`. */
  function SeverityRank(severity: string): nat {
    if severity in SeverityOrder then SeverityOrder[severity] else 0
  }

  /** `SEVERITY_ORDER.get(min_severity, SEVERITY_ORDER["high"])`. */
  function ThresholdRank(minSeverity: string): nat {
    if minSeverity in SeverityOrder then SeverityOrder[minSeverity] else SeverityOrder["high"]
  }

  /** An alert is remediated when it is open, for pip, and at least as severe as the threshold. */
  predicate PassesFilters(f: AlertFields, minSeverity: string) {
    if f.state != Str("open") then false
    else if f.ecosystem != "pip" then false
    else SeverityRank(f.severity) >= ThresholdRank(minSeverity)
  }

  /** Who is not open or not pip is rejected, whatever the severity and threshold. */
  lemma RejectsClosedOrForeign(f: AlertFields, minSeverity: string)
    requires f.state != Str("open") || f.ecosystem != "pip"
    ensures !PassesFilters(f, minSeverity)
  {
  }

  /** An unrecognised severity never passes, whatever the threshold. */
  lemma UnknownSeverityNeverPasses(f: AlertFields, minSeverity: string)
    requires f.severity !in SeverityOrder
    ensures !PassesFilters(f, minSeverity)
  {
  }

  /** An unrecognised threshold behaves like "high". */
  lemma UnknownThresholdIsHigh(f: AlertFields, minSeverity: string)
    requires minSeverity !in SeverityOrder
    ensures PassesFilters(f, minSeverity) == PassesFilters(f, "high")
  {
  }

  /** A lower threshold admits everything a higher one admits; critical implies high. */
  lemma ThresholdMonotone(f: AlertFields, lower: string, higher: string)
    requires ThresholdRank(lower) <= ThresholdRank(higher)
    ensures PassesFilters(f, higher) ==> PassesFilters(f, lower)
  {
  }

  lemma CriticalImpliesHigh(f: AlertFields)
    ensures PassesFilters(f, "critical") ==> PassesFilters(f, "high")
  {
    ThresholdMonotone(f, "high", "critical");
  }

  /** The two thresholds the command line offers, spelled out by severity name. */
  lemma PassesFiltersByName(f: AlertFields)
    ensures PassesFilters(f, "high") <==>
      f.state == Str("open") && f.ecosystem == "pip" && (f.severity == "high" || f.severity == "critical")
    ensures PassesFilters(f, "critical") <==>
      f.state == Str("open") && f.ecosystem == "pip" && f.severity == "critical"
  {
    if f.severity in SeverityOrder {
      assert f.severity == "low" || f.severity == "moderate" || f.severity == "high" || f.severity == "critical";
    }
  }

  /** The package name of the dependency wins over the one of the vulnerability. */
  lemma DependencyPackageWins(alert: Json, f: AlertFields)
    requires alert.Obj? && ExtractAlertFields(alert) == Returned(f)
    requires Nested(alert.fields, "dependency").Obj?
    requires
      var depPackage := Nested(Nested(alert.fields, "dependency").fields, "package");
      depPackage.Obj? && Truthy(Get(depPackage.fields, "name", Null))
    ensures f.package == Nested(Nested(alert.fields, "dependency").fields, "package").fields["name"]
  {
  }

  /** Without a dependency package name, the name of the vulnerability's package is used, or "". */
  lemma VulnerabilityPackageFallback(alert: Json, f: AlertFields)
    requires alert.Obj? && ExtractAlertFields(alert) == Returned(f)
    requires Nested(alert.fields, "dependency").Obj?
    requires
      var depPackage := Nested(Nested(alert.fields, "dependency").fields, "package");
      depPackage.Obj? && !Truthy(Get(depPackage.fields, "name", Null))
    ensures
      var vulnPackage := Nested(ChooseAlertVulnerability(alert.fields).fields, "package");
      vulnPackage.Obj? && f.package == OrEmpty(vulnPackage.fields, "name")
  {
  }

  /**
   * An alert whose dependency names its package and ecosystem as strings, and whose
   * vulnerability, first patched version and advisory are dicts (or absent), is extracted
   * without raising, with the dependency's package, the lower-cased ecosystem and severity.
   */
  lemma ExtractWellFormedAlert(a: map<string, Json>, dep: map<string, Json>, pkg: map<string, Json>, name: string, eco: string)
    requires Get(a, "dependency", Null) == Obj(dep) && Get(dep, "package", Null) == Obj(pkg)
    requires Get(pkg, "name", Null) == Str(name) && name != []
    requires Get(pkg, "ecosystem", Null) == Str(eco) && eco != []
    requires ChooseAlertVulnerability(a).Obj?
    requires Nested(ChooseAlertVulnerability(a).fields, "first_patched_version").Obj?
    requires Nested(a, "security_advisory").Obj?
    ensures var r := ExtractAlertFields(Obj(a));
      && r.Returned?
      && r.value.package == Str(name)
      && r.value.ecosystem == Lower(eco)
      && r.value.severity == Lower(PyStr(Get(Nested(a, "security_advisory").fields, "severity", Str(""))))
      && r.value.state == Get(a, "state", Str(""))
  {
    assert Nested(a, "dependency") == Obj(dep);
    assert Nested(dep, "package") == Obj(pkg);
  }

  /**
   * Where `_extract_alert_fields` raises: the alert is not a dict; the dependency, its package,
   * the vulnerability, its first patched version or the advisory is a truthy value that is not
   * a dict; the vulnerability's package is needed (a falsy name or ecosystem on the dependency's
   * package) but is not a dict; or the ecosystem found is not a string, so it has no `.lower()`.
   */
  predicate ExtractionRaises(alert: Json) {
    || !alert.Obj?
    || var a := alert.fields;
       var dependency := Nested(a, "dependency");
       var vulnerability := ChooseAlertVulnerability(a);
       || !dependency.Obj?
       || !Nested(dependency.fields, "package").Obj?
       || !vulnerability.Obj?
       || !Nested(vulnerability.fields, "first_patched_version").Obj?
       || !Nested(a, "security_advisory").Obj?
       || var depPackage := Nested(dependency.fields, "package").fields;
          var vulnPackage := Nested(vulnerability.fields, "package");
          var ownName, ownEco := Get(depPackage, "name", Null), Get(depPackage, "ecosystem", Null);
          || (!vulnPackage.Obj? && (!Truthy(ownName) || !Truthy(ownEco)))
          || (Truthy(ownEco) && !ownEco.Str?)
          || (!Truthy(ownEco) && vulnPackage.Obj? && !OrEmpty(vulnPackage.fields, "ecosystem").Str?)
  }

  /** Extraction raises exactly in the cases `ExtractionRaises` lists, and returns otherwise. */
  lemma ExtractRaisesExactly(alert: Json)
    ensures ExtractAlertFields(alert).Raised? <==> ExtractionRaises(alert)
  {
  }

  /**
   * Every field of a successful extraction in terms of the payload: the passthrough fields are
   * the payload's truthy values or "", the severity and ecosystem lower-cased.
   */
  lemma ExtractPassthrough(alert: Json, f: AlertFields)
    requires ExtractAlertFields(alert) == Returned(f)
    ensures alert.Obj? && ChooseAlertVulnerability(alert.fields).Obj?
    ensures var a := alert.fields;
      var dependency := Nested(a, "dependency");
      var vulnerability := ChooseAlertVulnerability(a).fields;
      var advisory := Nested(a, "security_advisory");
      var firstPatched := Nested(vulnerability, "first_patched_version");
      && dependency.Obj? && advisory.Obj? && firstPatched.Obj?
      && f.state == Get(a, "state", Str(""))
      && f.severity == Lower(PyStr(Get(advisory.fields, "severity", Str(""))))
      && f.manifestPath == OrEmpty(dependency.fields, "manifest_path")
      && f.summary == OrEmpty(advisory.fields, "summary")
      && f.ghsaId == OrEmpty(advisory.fields, "ghsa_id")
      && f.cveId == OrEmpty(advisory.fields, "cve_id")
      && f.firstPatchedVersion == OrEmpty(firstPatched.fields, "identifier")
      && f.htmlUrl == OrEmpty(a, "html_url")
    ensures var a := alert.fields;
      var depPackage := Nested(Nested(a, "dependency").fields, "package");
      var vulnPackage := Nested(ChooseAlertVulnerability(a).fields, "package");
      var eco := Get(depPackage.fields, "ecosystem", Null);
      && depPackage.Obj?
      && (Truthy(eco) ==> eco.Str? && f.ecosystem == Lower(eco.s))
      && (!Truthy(eco) ==>
            vulnPackage.Obj? && OrEmpty(vulnPackage.fields, "ecosystem").Str?
            && f.ecosystem == Lower(OrEmpty(vulnPackage.fields, "ecosystem").s))
  {
  }

  /**
   * The first patched version is the `identifier` of `first_patched_version` exactly when that
   * identifier is truthy (of any JSON kind), and "" otherwise.
   */
  lemma FirstPatchedIdentifier(alert: Json, f: AlertFields)
    requires ExtractAlertFields(alert) == Returned(f)
    ensures var firstPatched := Nested(ChooseAlertVulnerability(alert.fields).fields, "first_patched_version");
      && (Truthy(f.firstPatchedVersion) ==> f.firstPatchedVersion == firstPatched.fields["identifier"])
      && (Truthy(Get(firstPatched.fields, "identifier", Null)) ==>
            f.firstPatchedVersion == firstPatched.fields["identifier"])
      && (!Truthy(f.firstPatchedVersion) ==> f.firstPatchedVersion == Str(""))
  {
    ExtractPassthrough(alert, f);
  }
}
