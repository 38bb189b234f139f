/**
 * The package → version map read from a parsed `poetry.lock`: one entry per package record
 * that has a name and a string version, keyed by the normalised name, later records winning.
 */
module LockFile {
  import opened Wrappers
  import opened Json
  import opened PackageNames

  /**
   * `content.get("package", [])` as the loop iterates it: the records of a list; nothing for an
   * empty string or dict. Any other value raises: the elements of a non-empty string or the keys
   * of a non-empty dict are strings, which have no `.get`, and the other values are not iterable.
   */
  function Packages(content: map<string, Json>): (r: Outcome<seq<Json>>)
    ensures "package" !in content ==> r == Returned([])
  {
    match Get(content, "package", Arr([]))
    case Arr(items) => Returned(items)
    case Str(s) => if s == [] then Returned([]) else Raised
    case Obj(fields) => if fields == map[] then Returned([]) else Raised
    case _ => Raised
  }

  /**
   * What one record contributes: its normalised name and its version when the name is
   * non-empty and the version a string, nothing otherwise. A record that is not a dict, and a
   * truthy name that is not a string, raise.
   */
  function Entry(record: Json): (r: Outcome<Option<(string, string)>>)
    ensures !record.Obj? ==> r == Raised
    ensures r.Returned? && r.value.Some? ==> r.value.value.0 != [] && Get(record.fields, "version", Null) == Str(r.value.value.1)
  {
    if !record.Obj? then Raised
    else
      var name := Get(record.fields, "name", Str(""));
      if Truthy(name) && !name.Str? then Raised
      else
        var key := NormalizePackageName(if Truthy(name) then name.s else "");
        var version := Get(record.fields, "version", Null);
        Returned(if key != [] && version.Str? then Some((key, version.s)) else None)
  }

  /**
   * A record whose name is a string normalising to a non-empty key, and whose version is a
   * string, contributes that key with that version.
   */
  lemma EntryOfRecord(fields: map<string, Json>, name: string, version: string)
    requires Get(fields, "name", Str("")) == Str(name)
    requires NormalizePackageName(name) != []
    requires Get(fields, "version", Null) == Str(version)
    ensures Entry(Obj(fields)) == Returned(Some((NormalizePackageName(name), version)))
  {
  }

  /** A record raises exactly when it is not a dict, or its name is truthy and not a string. */
  lemma EntryRaises(record: Json)
    ensures Entry(record) == Raised <==>
      !record.Obj? || (Truthy(Get(record.fields, "name", Str(""))) && !Get(record.fields, "name", Str("")).Str?)
  {
  }

  /** A record whose name is absent or normalises to nothing contributes no entry. */
  lemma EntryWithoutKey(fields: map<string, Json>)
    requires var name := Get(fields, "name", Str("")); name.Str? && NormalizePackageName(name.s) == []
    ensures Entry(Obj(fields)) == Returned(None)
  {
  }

  /** The key of an entry is a normalised package name. */
  lemma EntryKeyNormalized(record: Json)
    requires Entry(record).Returned? && Entry(record).value.Some?
    ensures NormalizePackageName(Entry(record).value.value.0) == Entry(record).value.value.0
  {
    var name := Get(record.fields, "name", Str(""));
    NormalizeIdempotent(if Truthy(name) then name.s else "");
  }

  /** `result[package_name] = package_version` when the record has an entry. */
  function Store(m: map<string, string>, entry: Option<(string, string)>): map<string, string> {
    match entry
    case None => m
    case Some(e) => m[e.0 := e.1]
  }

  /** The entries of the records, in order; an exception in any record escapes. */
  function Entries(records: seq<Json>): (r: Outcome<seq<Option<(string, string)>>>)
    ensures r.Returned? ==> |r.value| == |records|
    ensures r.Returned? ==> forall i :: 0 <= i < |records| ==> Entry(records[i]) == Returned(r.value[i])
  {
    if records == [] then Returned([])
    else
      var init := records[..|records| - 1];
      match Entries(init)
      case Raised => Raised
      case Returned(entries) =>
        match Entry(records[|records| - 1])
        case Raised => Raised
        case Returned(entry) =>
          assert forall i :: 0 <= i < |init| ==> init[i] == records[i];
          Returned(entries + [entry])
  }

  /** The map the entries fill, each stored over the ones before it. */
  function StoreAll(entries: seq<Option<(string, string)>>): map<string, string> {
    if entries == [] then map[] else Store(StoreAll(entries[..|entries| - 1]), entries[|entries| - 1])
  }

  /** The map the records give, or the exception one of them raises. */
  function RecordVersions(records: seq<Json>): Outcome<map<string, string>> {
    match Entries(records)
    case Raised => Raised
    case Returned(entries) => Returned(StoreAll(entries))
  }

  /** `_load_lock_versions`: no lock file gives an empty map. */
  function LockVersions(lock: Option<map<string, Json>>): Outcome<map<string, string>> {
    match lock
    case None => Returned(map[])
    case Some(content) =>
      match Packages(content)
      case Raised => Raised
      case Returned(records) => RecordVersions(records)
  }

  /** Once a record raises, so does every longer run of the loop. */
  lemma {:induction false} EntriesRaisedStays(records: seq<Json>, i: nat)
    requires i <= |records| && Entries(records[..i]) == Raised
    ensures Entries(records) == Raised
    decreases |records| - i
  {
    if i < |records| {
      assert records[..i + 1][..i] == records[..i];
      EntriesRaisedStays(records, i + 1);
    } else {
      assert records[..i] == records;
    }
  }

  /** One more record: its entry is appended, or its exception escapes. */
  lemma EntriesStep(records: seq<Json>, i: nat, entries: seq<Option<(string, string)>>)
    requires i < |records| && Entries(records[..i]) == Returned(entries)
    ensures Entry(records[i]).Raised? ==> Entries(records) == Raised
    ensures Entry(records[i]).Returned? ==> Entries(records[..i + 1]) == Returned(entries + [Entry(records[i]).value])
  {
    assert records[..i + 1][..i] == records[..i];
    if Entry(records[i]).Raised? {
      EntriesRaisedStays(records, i + 1);
    }
  }

  /** One more entry is stored over the map of the ones before it. */
  lemma StoreAllStep(entries: seq<Option<(string, string)>>, entry: Option<(string, string)>)
    ensures StoreAll(entries + [entry]) == Store(StoreAll(entries), entry)
  {
    assert (entries + [entry])[..|entries|] == entries;
  }

  /** `_load_lock_versions`, with the lock file already parsed, or absent. */
  method LoadLockVersions(lock: Option<map<string, Json>>) returns (r: Outcome<map<string, string>>)
    ensures r == LockVersions(lock)
    ensures lock.None? ==> r == Returned(map[])
  {
    if lock.None? {
      return Returned(map[]);
    }
    var packages := Packages(lock.value);
    if packages.Raised? {
      return Raised;
    }
    r := CollectVersions(packages.value);
  }

  /** The loop of `_load_lock_versions` over the package records. */
  method CollectVersions(records: seq<Json>) returns (r: Outcome<map<string, string>>)
    ensures r == RecordVersions(records)
  {
    var result: map<string, string> := map[];
    ghost var entries: seq<Option<(string, string)>> := [];
    var i := 0;
    while i < |records|
      invariant 0 <= i <= |records|
      invariant Entries(records[..i]) == Returned(entries)
      invariant result == StoreAll(entries)
    {
      var entry := Entry(records[i]);
      EntriesStep(records, i, entries);
      if entry.Raised? {
        return Raised;
      }
      StoreAllStep(entries, entry.value);
      result := Store(result, entry.value);
      entries := entries + [entry.value];
      i := i + 1;
    }
    assert records[..i] == records;
    r := Returned(result);
  }

  /** Every stored key and value comes from an entry. */
  lemma {:induction false} StoreAllFromEntries(entries: seq<Option<(string, string)>>)
    ensures forall k :: k in StoreAll(entries) ==>
      exists i :: 0 <= i < |entries| && entries[i] == Some((k, StoreAll(entries)[k]))
  {
    if entries != [] {
      var n := |entries| - 1;
      var prefix := entries[..n];
      StoreAllFromEntries(prefix);
      var m := StoreAll(entries);
      forall k | k in m
        ensures exists i :: 0 <= i < |entries| && entries[i] == Some((k, m[k]))
      {
        if entries[n] != Some((k, m[k])) {
          assert m == Store(StoreAll(prefix), entries[n]);
          assert k in StoreAll(prefix) && StoreAll(prefix)[k] == m[k];
          var i :| 0 <= i < |prefix| && prefix[i] == Some((k, StoreAll(prefix)[k]));
          assert entries[i] == prefix[i];
        }
      }
    }
  }

  /** An entry is in the map unless a later entry has the same key. */
  lemma {:induction false} StoreAllLastWins(entries: seq<Option<(string, string)>>, i: nat, key: string, version: string)
    requires i < |entries| && entries[i] == Some((key, version))
    requires forall j :: i < j < |entries| ==> entries[j].None? || entries[j].value.0 != key
    ensures key in StoreAll(entries) && StoreAll(entries)[key] == version
  {
    var n := |entries| - 1;
    if i < n {
      var prefix := entries[..n];
      assert prefix[i] == entries[i];
      forall j | i < j < |prefix| ensures prefix[j].None? || prefix[j].value.0 != key {
        assert prefix[j] == entries[j];
      }
      StoreAllLastWins(prefix, i, key, version);
    }
  }

  /** Every key of the map is a non-empty normalised package name, with a string version. */
  lemma LockVersionsFromRecords(records: seq<Json>, entries: seq<Option<(string, string)>>)
    requires Entries(records) == Returned(entries)
    ensures forall k :: k in StoreAll(entries) ==> k != [] && NormalizePackageName(k) == k
    ensures forall k :: k in StoreAll(entries) ==>
      exists i :: 0 <= i < |records| && Entry(records[i]) == Returned(Some((k, StoreAll(entries)[k])))
  {
    var m := StoreAll(entries);
    StoreAllFromEntries(entries);
    forall k | k in m
      ensures k != [] && NormalizePackageName(k) == k
      ensures exists i :: 0 <= i < |records| && Entry(records[i]) == Returned(Some((k, m[k])))
    {
      var i :| 0 <= i < |entries| && entries[i] == Some((k, m[k]));
      assert Entry(records[i]) == Returned(Some((k, m[k])));
      EntryKeyNormalized(records[i]);
    }
  }

  /**
   * A record that has an entry (a name normalising to `key` and a string version, see
   * `EntryOfRecord`) wins unless a later record has an entry with the same key.
   */
  lemma LastRecordWins(records: seq<Json>, entries: seq<Option<(string, string)>>, i: nat, key: string, version: string)
    requires Entries(records) == Returned(entries)
    requires i < |records| && Entry(records[i]) == Returned(Some((key, version)))
    requires forall j :: i < j < |records| ==> Entry(records[j]).value.None? || Entry(records[j]).value.value.0 != key
    ensures key in StoreAll(entries) && StoreAll(entries)[key] == version
  {
    forall j | i < j < |entries| ensures entries[j].None? || entries[j].value.0 != key {
      assert Entry(records[j]) == Returned(entries[j]);
    }
    StoreAllLastWins(entries, i, key, version);
  }

  /** A record whose version is not a string adds nothing, whatever its name. */
  lemma NonStringVersionSkipped(record: Json)
    requires record.Obj? && !Get(record.fields, "version", Null).Str?
    ensures Entry(record) == Raised || Entry(record) == Returned(None)
  {
  }
}
