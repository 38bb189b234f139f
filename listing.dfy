/**
 * Reading the open alerts page by page, selecting the ones to remediate, and looking one up by
 * its number. The API is a sequence of page responses: response k answers the request for page
 * k + 1, a failed request is `Raised`, and a request past the last response fails too.
 */
module Listing {
  import opened Wrappers
  import opened Json
  import opened Alerts

  /** `per_page`: a page with fewer alerts than this is the last one. */
  const PageSize: nat := 100

  /** A response that makes the loop ask for the next page: a list of a full page of alerts. */
  predicate Full(response: Outcome<Json>) {
    response.Returned? && response.value.Arr? && |response.value.items| >= PageSize
  }

  /** The alerts a response adds: the elements of a list, nothing otherwise. */
  function Items(response: Outcome<Json>): seq<Json> {
    if response.Returned? && response.value.Arr? then response.value.items else []
  }

  /** The items of responses from..to-1, in order. */
  function ItemsBetween(pages: seq<Outcome<Json>>, from: nat, to: nat): seq<Json>
    requires from <= to <= |pages|
    decreases (to as int) - (from as int)
  {
    if from == to then [] else Items(pages[from]) + ItemsBetween(pages, from + 1, to)
  }

  /** `alerts + rest` once the rest has been read, or the exception of reading it. */
  function Prepend(alerts: seq<Json>, rest: Outcome<seq<Json>>): Outcome<seq<Json>> {
    match rest
    case Raised => Raised
    case Returned(r) => Returned(alerts + r)
  }

  /** What the page loop returns when it starts at response `from`. */
  function Fetched(pages: seq<Outcome<Json>>, from: nat): Outcome<seq<Json>>
    decreases |pages| - from
  {
    if from >= |pages| then Raised
    else
      match pages[from]
      case Raised => Raised
      case Returned(payload) =>
        if !payload.Arr? then Returned([])
        else if |payload.items| < PageSize then Returned(payload.items)
        else Prepend(payload.items, Fetched(pages, from + 1))
  }

  /** `_fetch_open_alerts`: request pages until one is not a list or is not full. */
  method FetchOpenAlerts(pages: seq<Outcome<Json>>) returns (r: Outcome<seq<Json>>)
    ensures r == Fetched(pages, 0)
  {
    var page := 1;
    var alerts: seq<Json> := [];
    PrependNothing(Fetched(pages, 0));
    while true
      invariant 1 <= page <= |pages| + 1
      invariant Fetched(pages, 0) == Prepend(alerts, Fetched(pages, page - 1))
      decreases |pages| + 1 - page
    {
      if page > |pages| {
        return Raised;
      }
      var response := pages[page - 1];
      if response.Raised? {
        return Raised;
      }
      var payload := response.value;
      if !payload.Arr? {
        assert alerts + [] == alerts;
        break;
      }
      PrependTwice(alerts, payload.items, Fetched(pages, page));
      alerts := alerts + payload.items;
      if |payload.items| < PageSize {
        break;
      }
      page := page + 1;
    }
    r := Returned(alerts);
  }

  lemma PrependNothing(rest: Outcome<seq<Json>>)
    ensures Prepend([], rest) == rest
  {
    if rest.Returned? {
      assert [] + rest.value == rest.value;
    }
  }

  lemma PrependTwice(alerts: seq<Json>, items: seq<Json>, rest: Outcome<seq<Json>>)
    ensures Prepend(alerts, Prepend(items, rest)) == Prepend(alerts + items, rest)
  {
    if rest.Returned? {
      assert alerts + (items + rest.value) == alerts + items + rest.value;
    }
  }

  /**
   * Paging reads full pages until the first response that is not one; the result is the alerts
   * of all pages up to and including that response when it is a list (or not a list), and an
   * exception when that response failed or there is none.
   */
  lemma {:induction false} FetchedPages(pages: seq<Outcome<Json>>, from: nat, stop: nat)
    requires from <= stop <= |pages|
    requires forall j :: from <= j < stop ==> Full(pages[j])
    requires stop == |pages| || !Full(pages[stop])
    ensures stop == |pages| || pages[stop].Raised? ==> Fetched(pages, from) == Raised
    ensures stop < |pages| && pages[stop].Returned? ==> Fetched(pages, from) == Returned(ItemsBetween(pages, from, stop + 1))
    decreases stop - from
  {
    if from < stop {
      FetchedPages(pages, from + 1, stop);
    } else if stop < |pages| && pages[stop].Returned? {
      assert ItemsBetween(pages, stop, stop + 1) == Items(pages[stop]) + [];
      assert Items(pages[stop]) + [] == Items(pages[stop]);
    }
  }

  /** The first response at or after `from` that is not a full page, or |pages|. */
  function FirstStop(pages: seq<Outcome<Json>>, from: nat): (stop: nat)
    requires from <= |pages|
    ensures from <= stop <= |pages|
    ensures forall j :: from <= j < stop ==> Full(pages[j])
    ensures stop == |pages| || !Full(pages[stop])
    decreases |pages| - from
  {
    if from == |pages| || !Full(pages[from]) then from else FirstStop(pages, from + 1)
  }

  /** Paging from the first page, in terms of the first response that is not a full page. */
  lemma FetchedOutcome(pages: seq<Outcome<Json>>)
    ensures var stop := FirstStop(pages, 0);
      && (Fetched(pages, 0) == Raised <==> stop == |pages| || pages[stop].Raised?)
      && (Fetched(pages, 0).Returned? ==> Fetched(pages, 0).value == ItemsBetween(pages, 0, stop + 1))
  {
    FetchedPages(pages, 0, FirstStop(pages, 0));
  }

  /** One row of the selection: the fields `_list_alerts` reports. */
  datatype ListedAlert = ListedAlert(
    alertId: Json, package: Json, severity: string, ecosystem: string,
    firstPatchedVersion: Json, htmlUrl: Json)

  function Listed(f: AlertFields): ListedAlert {
    ListedAlert(f.alertId, f.package, f.severity, f.ecosystem, f.firstPatchedVersion, f.htmlUrl)
  }

  /** The fields of every alert, in order; one that cannot be extracted raises. */
  function ExtractAll(alerts: seq<Json>): (r: Outcome<seq<AlertFields>>)
    ensures r.Returned? ==> |r.value| == |alerts|
    ensures r.Returned? ==> forall i :: 0 <= i < |alerts| ==> ExtractAlertFields(alerts[i]) == Returned(r.value[i])
  {
    if alerts == [] then Returned([])
    else
      match ExtractAll(alerts[..|alerts| - 1])
      case Raised => Raised
      case Returned(fs) =>
        match ExtractAlertFields(alerts[|alerts| - 1])
        case Raised => Raised
        case Returned(f) => Returned(fs + [f])
  }

  /** The fields that pass the filters, in their order. */
  function Passing(fs: seq<AlertFields>, minSeverity: string): seq<AlertFields> {
    if fs == [] then []
    else Passing(fs[..|fs| - 1], minSeverity) + (if PassesFilters(fs[|fs| - 1], minSeverity) then [fs[|fs| - 1]] else [])
  }

  function ListAll(fs: seq<AlertFields>): (r: seq<ListedAlert>)
    ensures |r| == |fs| && forall i :: 0 <= i < |fs| ==> r[i] == Listed(fs[i])
  {
    if fs == [] then [] else ListAll(fs[..|fs| - 1]) + [Listed(fs[|fs| - 1])]
  }

  /** Python's `s[:n]`, where a negative n counts from the end. */
  function PyPrefix<T>(s: seq<T>, n: int): (r: seq<T>)
    ensures r <= s
    ensures 0 <= n <= |s| ==> |r| == n
    ensures n >= |s| ==> r == s
    ensures -|s| <= n < 0 ==> |r| == |s| + n
    ensures n < -|s| ==> r == []
  {
    if n >= 0 then (if n < |s| then s[..n] else s)
    else if |s| + n > 0 then s[..|s| + n] else []
  }

  /** The payload `_list_alerts` writes: the selected alerts and their number. */
  datatype Selection = Selection(alerts: seq<ListedAlert>, count: int)

  /** The selection from the alerts read: the passing ones, in order, truncated. */
  function Select(alerts: seq<Json>, minSeverity: string, maxAlerts: int): Outcome<Selection> {
    match ExtractAll(alerts)
    case Raised => Raised
    case Returned(fs) =>
      var chosen := PyPrefix(ListAll(Passing(fs, minSeverity)), maxAlerts);
      Returned(Selection(chosen, |chosen|))
  }

  /** `_list_alerts`: fetch, filter in a loop, then truncate to `max_alerts`. */
  method ListAlerts(pages: seq<Outcome<Json>>, minSeverity: string, maxAlerts: int) returns (r: Outcome<Selection>)
    ensures r == match Fetched(pages, 0)
      case Raised => Raised
      case Returned(alerts) => Select(alerts, minSeverity, maxAlerts)
  {
    var fetched := FetchOpenAlerts(pages);
    if fetched.Raised? {
      return Raised;
    }
    var alerts := fetched.value;
    var filtered: seq<ListedAlert> := [];
    ghost var fields: seq<AlertFields> := [];
    var i := 0;
    while i < |alerts|
      invariant 0 <= i <= |alerts|
      invariant ExtractAll(alerts[..i]) == Returned(fields)
      invariant filtered == ListAll(Passing(fields, minSeverity))
    {
      var extracted := ExtractAlertFields(alerts[i]);
      if extracted.Raised? {
        ExtractAllStep(alerts, i, fields);
        ExtractAllRaisedStays(alerts, i + 1);
        return Raised;
      }
      var f := extracted.value;
      ExtractAllStep(alerts, i, fields);
      PassingStep(fields, f, minSeverity);
      if PassesFilters(f, minSeverity) {
        filtered := filtered + [Listed(f)];
      }
      fields := fields + [f];
      i := i + 1;
    }
    assert alerts[..i] == alerts;
    filtered := PyPrefix(filtered, maxAlerts);
    r := Returned(Selection(filtered, |filtered|));
  }

  /** One more alert read: its fields follow the ones before, or its exception escapes. */
  lemma ExtractAllStep(alerts: seq<Json>, i: nat, fields: seq<AlertFields>)
    requires i < |alerts| && ExtractAll(alerts[..i]) == Returned(fields)
    ensures ExtractAll(alerts[..i + 1]) == match ExtractAlertFields(alerts[i])
      case Raised => Raised
      case Returned(f) => Returned(fields + [f])
  {
    assert alerts[..i + 1][..i] == alerts[..i];
  }

  lemma PassingStep(fields: seq<AlertFields>, f: AlertFields, minSeverity: string)
    ensures ListAll(Passing(fields + [f], minSeverity)) ==
      ListAll(Passing(fields, minSeverity)) + (if PassesFilters(f, minSeverity) then [Listed(f)] else [])
  {
    var fs := fields + [f];
    assert fs[..|fs| - 1] == fields;
    var p := Passing(fields, minSeverity);
    if PassesFilters(f, minSeverity) {
      assert (p + [f])[..|p|] == p;
    } else {
      assert p + [] == p;
    }
  }

  lemma {:induction false} ExtractAllRaisedStays(alerts: seq<Json>, i: nat)
    requires i <= |alerts| && ExtractAll(alerts[..i]) == Raised
    ensures ExtractAll(alerts) == Raised
    decreases |alerts| - i
  {
    if i < |alerts| {
      assert alerts[..i + 1][..i] == alerts[..i];
      ExtractAllRaisedStays(alerts, i + 1);
    } else {
      assert alerts[..i] == alerts;
    }
  }

  /** An alert is selected exactly when it passes the filters. */
  lemma {:induction false} PassingMembers(fs: seq<AlertFields>, minSeverity: string)
    ensures forall f :: f in Passing(fs, minSeverity) <==> f in fs && PassesFilters(f, minSeverity)
  {
    if fs != [] {
      var n := |fs| - 1;
      PassingMembers(fs[..n], minSeverity);
      assert fs == fs[..n] + [fs[n]];
    }
  }

  /** Filtering keeps the order: it distributes over concatenation. */
  lemma {:induction false} PassingConcat(a: seq<AlertFields>, b: seq<AlertFields>, minSeverity: string)
    ensures Passing(a + b, minSeverity) == Passing(a, minSeverity) + Passing(b, minSeverity)
    decreases |b|
  {
    if b == [] {
      assert a + b == a;
    } else {
      var n := |b| - 1;
      assert (a + b)[..|a + b| - 1] == a + b[..n];
      PassingConcat(a, b[..n], minSeverity);
    }
  }

  /**
   * For a non-negative `max_alerts`: every selected alert passes the filters, the selection is
   * the first passing alerts in input order, and `count` is its length, at most `max_alerts`.
   */
  lemma SelectionProperties(alerts: seq<Json>, minSeverity: string, maxAlerts: int, fs: seq<AlertFields>)
    requires maxAlerts >= 0 && ExtractAll(alerts) == Returned(fs)
    ensures var s := Select(alerts, minSeverity, maxAlerts).value;
      var passing := Passing(fs, minSeverity);
      && s.count == |s.alerts| <= maxAlerts
      && |s.alerts| == (if maxAlerts < |passing| then maxAlerts else |passing|)
      && (forall i :: 0 <= i < |s.alerts| ==> s.alerts[i] == Listed(passing[i]))
      && (forall f :: f in passing ==> PassesFilters(f, minSeverity))
  {
    PassingMembers(fs, minSeverity);
  }

  /** `alert.get("number") or alert.get("id")`. */
  function AlertId(alert: map<string, Json>): Json {
    Or(Get(alert, "number", Null), Get(alert, "id", Null))
  }

  /** The alert is a dict whose id reads as the wanted number. */
  predicate Matches(alert: Json, alertId: int) {
    alert.Obj? && PyInt(AlertId(alert.fields)) == Returned(alertId)
  }

  /** The alert is a dict whose id reads as some other number: the search goes on. */
  predicate Misses(alert: Json, alertId: int) {
    alert.Obj? && PyInt(AlertId(alert.fields)).Returned? && PyInt(AlertId(alert.fields)).value != alertId
  }

  /** The first alert whose id reads as `alertId`; an alert that is not a dict, or whose id `int()` cannot read, raises. */
  function FindIn(alerts: seq<Json>, alertId: int): Outcome<Option<Json>> {
    if alerts == [] then Returned(None)
    else if !alerts[0].Obj? then Raised
    else
      match PyInt(AlertId(alerts[0].fields))
      case Raised => Raised
      case Returned(current) => if current == alertId then Returned(Some(alerts[0])) else FindIn(alerts[1..], alertId)
  }

  /** `_find_alert`: the first open alert with the given number, or None. */
  method FindAlert(pages: seq<Outcome<Json>>, alertId: int) returns (r: Outcome<Option<Json>>)
    ensures r == match Fetched(pages, 0)
      case Raised => Raised
      case Returned(alerts) => FindIn(alerts, alertId)
  {
    var fetched := FetchOpenAlerts(pages);
    if fetched.Raised? {
      return Raised;
    }
    var alerts := fetched.value;
    var i := 0;
    while i < |alerts|
      invariant 0 <= i <= |alerts|
      invariant FindIn(alerts, alertId) == FindIn(alerts[i..], alertId)
    {
      var alert := alerts[i];
      assert alerts[i..][0] == alert && alerts[i..][1..] == alerts[i + 1..];
      if !alert.Obj? {
        return Raised;
      }
      var current := PyInt(AlertId(alert.fields));
      if current.Raised? {
        return Raised;
      }
      if current.value == alertId {
        return Returned(Some(alert));
      }
      i := i + 1;
    }
    return Returned(None);
  }

  /** Alert k is the given one and the first that matches. */
  predicate FirstMatchAt(alerts: seq<Json>, alertId: int, a: Json, k: int) {
    && 0 <= k < |alerts| && alerts[k] == a && Matches(a, alertId)
    && forall j :: 0 <= j < k ==> Misses(alerts[j], alertId)
  }

  /** After alerts that all miss, the search continues where they end. */
  lemma {:induction false} FindInAfterMisses(alerts: seq<Json>, alertId: int, k: nat)
    requires k <= |alerts| && forall j :: 0 <= j < k ==> Misses(alerts[j], alertId)
    ensures FindIn(alerts, alertId) == FindIn(alerts[k..], alertId)
  {
    if k > 0 {
      assert alerts[1..][k - 1..] == alerts[k..];
      forall j | 0 <= j < k - 1 ensures Misses(alerts[1..][j], alertId) {
        assert alerts[1..][j] == alerts[j + 1];
      }
      FindInAfterMisses(alerts[1..], alertId, k - 1);
    }
  }

  /**
   * The search returns the first match, after alerts that all miss; it returns None exactly
   * when every alert misses; otherwise it raises at the first alert that neither matches nor misses.
   */
  lemma {:induction false} FindInResult(alerts: seq<Json>, alertId: int)
    ensures FindIn(alerts, alertId) == Returned(None) <==> forall j :: 0 <= j < |alerts| ==> Misses(alerts[j], alertId)
    ensures forall a :: FindIn(alerts, alertId) == Returned(Some(a)) ==>
      exists k :: FirstMatchAt(alerts, alertId, a, k)
  {
    if alerts != [] {
      FindInResult(alerts[1..], alertId);
      if Misses(alerts[0], alertId) {
        forall a | FindIn(alerts, alertId) == Returned(Some(a))
          ensures exists k :: FirstMatchAt(alerts, alertId, a, k)
        {
          var k :| FirstMatchAt(alerts[1..], alertId, a, k);
          assert alerts[k + 1] == a;
          forall j | 0 <= j < k + 1 ensures Misses(alerts[j], alertId) {
            if j > 0 {
              assert alerts[j] == alerts[1..][j - 1];
            }
          }
          assert FirstMatchAt(alerts, alertId, a, k + 1);
        }
        if forall j :: 0 <= j < |alerts[1..]| ==> Misses(alerts[1..][j], alertId) {
          forall j | 0 <= j < |alerts| ensures Misses(alerts[j], alertId) {
            if j > 0 {
              assert alerts[j] == alerts[1..][j - 1];
            }
          }
        } else {
          var j :| 0 <= j < |alerts[1..]| && !Misses(alerts[1..][j], alertId);
          assert !Misses(alerts[j + 1], alertId);
        }
      } else if Matches(alerts[0], alertId) {
        assert FirstMatchAt(alerts, alertId, alerts[0], 0);
      }
    }
  }

  /** An alert with neither a number nor an id that the search reaches makes it raise. */
  lemma MissingIdRaises(alerts: seq<Json>, alertId: int, k: nat)
    requires k < |alerts| && forall j :: 0 <= j < k ==> Misses(alerts[j], alertId)
    requires alerts[k].Obj? && "number" !in alerts[k].fields && "id" !in alerts[k].fields
    ensures FindIn(alerts, alertId) == Raised
  {
    FindInAfterMisses(alerts, alertId, k);
    var rest := alerts[k..];
    assert rest[0] == alerts[k];
  }
}
