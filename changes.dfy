/**
 * The snapshot differ of `AirtableMonitor` (src/monitor.py): building the keyed
 * snapshot of a poll's records and computing the added / removed / modified events
 * between two snapshots.
 */
module Changes {
  import opened Text
  import opened Records

  /** Trimmed server name -> the record that carries it. */
  type Snapshot = map<string, Record>

  /** The snapshot `_extract_server_data` builds: records in order, blank names dropped, later names overwrite. */
  function SnapshotOf(records: seq<Record>): Snapshot {
    if records == [] then map[]
    else
      var servers := SnapshotOf(records[..|records| - 1]);
      var r := records[|records| - 1];
      if Hostname(r) == "" then servers else servers[Hostname(r) := r]
  }

  /** Every key is a non-blank, stripped name, and it is the name of the record it maps to. */
  predicate WellKeyed(servers: Snapshot) {
    forall name :: name in servers ==> name != "" && IsTrimmed(name) && Hostname(servers[name]) == name
  }

  method ExtractServerData(records: seq<Record>) returns (servers: Snapshot)
    ensures servers == SnapshotOf(records)
  {
    servers := map[];
    for i := 0 to |records|
      invariant servers == SnapshotOf(records[..i])
    {
      assert records[..i + 1][..i] == records[..i];
      var r := records[i];
      var serverName := Trim(Field(r.fields, "Server name"));
      if serverName != "" {
        servers := servers[serverName := r];
      }
    }
    assert records[..|records|] == records;
  }

  /** A name is a key exactly when some record carries it after stripping and it is not blank. */
  lemma SnapshotKeys(records: seq<Record>, name: string)
    ensures name in SnapshotOf(records) <==>
              name != "" && exists i :: 0 <= i < |records| && Hostname(records[i]) == name
  {
    if name in SnapshotOf(records) {
      var i := SnapshotKeyFrom(records, name);
    }
    if name != "" && exists i :: 0 <= i < |records| && Hostname(records[i]) == name {
      var i :| 0 <= i < |records| && Hostname(records[i]) == name;
      SnapshotKeyOf(records, i);
    }
  }

  /** Every key is the name of some record. */
  lemma {:induction false} SnapshotKeyFrom(records: seq<Record>, name: string) returns (i: nat)
    requires name in SnapshotOf(records)
    ensures name != "" && i < |records| && Hostname(records[i]) == name
  {
    var init, last := records[..|records| - 1], records[|records| - 1];
    SnapshotStep(records, name);
    if name in SnapshotOf(init) {
      i := SnapshotKeyFrom(init, name);
      assert records[i] == init[i];
    } else {
      i := |records| - 1;
    }
  }

  /** Every record with a name puts that name among the keys. */
  lemma {:induction false} SnapshotKeyOf(records: seq<Record>, i: nat)
    requires i < |records| && Hostname(records[i]) != ""
    ensures Hostname(records[i]) in SnapshotOf(records)
  {
    var init := records[..|records| - 1];
    SnapshotStep(records, Hostname(records[i]));
    if i < |init| {
      SnapshotKeyOf(init, i);
      assert init[i] == records[i];
    }
  }

  /** The last record adds its own name, if it has one, to the names before it. */
  lemma SnapshotStep(records: seq<Record>, name: string)
    requires records != []
    ensures name in SnapshotOf(records) <==>
              name in SnapshotOf(records[..|records| - 1]) || (name != "" && Hostname(records[|records| - 1]) == name)
  {
  }

  /** A record whose name no later record repeats is the one kept for that name. */
  lemma {:induction false} SnapshotLastWins(records: seq<Record>, i: nat)
    requires i < |records| && Hostname(records[i]) != ""
    requires forall j :: i < j < |records| ==> Hostname(records[j]) != Hostname(records[i])
    ensures Hostname(records[i]) in SnapshotOf(records)
    ensures SnapshotOf(records)[Hostname(records[i])] == records[i]
  {
    if i < |records| - 1 {
      SnapshotLastWins(records[..|records| - 1], i);
    }
  }

  lemma {:induction false} SnapshotWellKeyed(records: seq<Record>)
    ensures WellKeyed(SnapshotOf(records))
  {
    if records != [] {
      SnapshotWellKeyed(records[..|records| - 1]);
      TrimCharacterization(Field(records[|records| - 1].fields, "Server name"));
    }
  }

  // ----- change events -----

  datatype ChangeKind = Added | Removed | Modified | Other(typeName: string)

  /** One entry of a change's `details` dict. */
  datatype Detail = Detail(key: string, value: string)

  /** A change event; `fieldsChanged` is empty except on a modification. */
  datatype Change = Change(kind: ChangeKind, serverName: string, fieldsChanged: seq<string>, details: seq<Detail>)

  /** The fields whose (stripped) change raises a `modified` event, in reporting order. */
  const WatchList: seq<string> := ["Server IP", "OS Name", "Location", "Group", "Status", "User"]

  /** The raw display fields carried by every event. */
  function DetailsOf(fields: map<string, string>): seq<Detail> {
    [ Detail("IP", Field(fields, "Server IP")), Detail("OS", Field(fields, "OS Name")),
      Detail("Location", Field(fields, "Location")), Detail("Group", Field(fields, "Group")) ]
  }

  predicate Differs(current: map<string, string>, previous: map<string, string>, name: string) {
    Trim(Field(current, name)) != Trim(Field(previous, name))
  }

  /** The names among `names` whose stripped values differ, in the order of `names`. */
  function ChangedAmong(names: seq<string>, current: map<string, string>, previous: map<string, string>): seq<string> {
    if names == [] then []
    else
      var last := names[|names| - 1];
      ChangedAmong(names[..|names| - 1], current, previous) + (if Differs(current, previous, last) then [last] else [])
  }

  function ChangedFields(current: map<string, string>, previous: map<string, string>): seq<string> {
    ChangedAmong(WatchList, current, previous)
  }

  /** The names that produce an event: only-new, only-old, and common names with a watched field changed. */
  function ChangedNames(current: Snapshot, previous: Snapshot): set<string> {
    (current.Keys - previous.Keys) + (previous.Keys - current.Keys)
    + (set name | name in current.Keys * previous.Keys
                  && ChangedFields(current[name].fields, previous[name].fields) != [])
  }

  /** The event `_detect_changes` reports for a name. */
  function EventFor(current: Snapshot, previous: Snapshot, name: string): Change
    requires name in current || name in previous
  {
    if name !in previous then Change(Added, name, [], DetailsOf(current[name].fields))
    else if name !in current then Change(Removed, name, [], DetailsOf(previous[name].fields))
    else Change(Modified, name, ChangedFields(current[name].fields, previous[name].fields), DetailsOf(current[name].fields))
  }

  /** Added events come first, then removed, then modified. */
  function Rank(kind: ChangeKind): nat {
    match kind
    case Added => 0
    case Removed => 1
    case Modified => 2
    case Other(_) => 3
  }

  function NamesOf(changes: seq<Change>): set<string> {
    set i | 0 <= i < |changes| :: changes[i].serverName
  }

  predicate DistinctNames(changes: seq<Change>) {
    forall i, j :: 0 <= i < j < |changes| ==> changes[i].serverName != changes[j].serverName
  }

  /** `changes` lists the events of exactly the names in `names`, each once, grouped by kind. */
  predicate Enumerates(changes: seq<Change>, current: Snapshot, previous: Snapshot, names: set<string>) {
    && NamesOf(changes) == names
    && (forall i :: 0 <= i < |changes| ==>
          (changes[i].serverName in current || changes[i].serverName in previous)
          && changes[i] == EventFor(current, previous, changes[i].serverName))
    && DistinctNames(changes)
    && (forall i, j :: 0 <= i < j < |changes| ==> Rank(changes[i].kind) <= Rank(changes[j].kind))
  }

  /** The result of diffing `current` against `previous`, in any order the set iteration yields. */
  predicate IsDiff(changes: seq<Change>, current: Snapshot, previous: Snapshot) {
    Enumerates(changes, current, previous, ChangedNames(current, previous))
  }

  lemma NamesOfAppend(changes: seq<Change>, c: Change)
    ensures NamesOf(changes + [c]) == NamesOf(changes) + {c.serverName}
  {
    var extended := changes + [c];
    assert extended[|changes|].serverName == c.serverName;
    forall name | name in NamesOf(changes)
      ensures name in NamesOf(extended)
    {
      var i :| 0 <= i < |changes| && changes[i].serverName == name;
      assert extended[i].serverName == name;
    }
  }

  /** Appending the event of a new name, of a kind no earlier than those present, keeps the enumeration. */
  lemma EnumeratesAppend(changes: seq<Change>, current: Snapshot, previous: Snapshot, names: set<string>, c: Change)
    requires Enumerates(changes, current, previous, names)
    requires c.serverName in current || c.serverName in previous
    requires c == EventFor(current, previous, c.serverName)
    requires c.serverName !in names
    requires forall i :: 0 <= i < |changes| ==> Rank(changes[i].kind) <= Rank(c.kind)
    ensures Enumerates(changes + [c], current, previous, names + {c.serverName})
  {
    NamesOfAppend(changes, c);
  }

  /** The common names with a changed watched field complete the set of reported names. */
  lemma ReportedNames(current: Snapshot, previous: Snapshot, reported: set<string>)
    requires reported <= current.Keys * previous.Keys
    requires forall name :: name in current.Keys * previous.Keys ==>
               (name in reported <==> ChangedFields(current[name].fields, previous[name].fields) != [])
    ensures (current.Keys - previous.Keys) + (previous.Keys - current.Keys) + reported == ChangedNames(current, previous)
  {
  }

  /** The inner loop of `_detect_changes`: the watched fields whose stripped values differ. */
  method CompareWatchedFields(currentFields: map<string, string>, previousFields: map<string, string>)
    returns (fieldsChanged: seq<string>)
    ensures fieldsChanged == ChangedFields(currentFields, previousFields)
  {
    fieldsChanged := [];
    for k := 0 to |WatchList|
      invariant fieldsChanged == ChangedAmong(WatchList[..k], currentFields, previousFields)
    {
      assert WatchList[..k + 1][..k] == WatchList[..k];
      var fieldName := WatchList[k];
      var currentValue := Trim(Field(currentFields, fieldName));
      var previousValue := Trim(Field(previousFields, fieldName));
      if currentValue != previousValue {
        fieldsChanged := fieldsChanged + [fieldName];
      }
    }
    assert WatchList[..|WatchList|] == WatchList;
  }

  /** `_detect_changes`: added names, then removed names, then modified names, each set in iteration order. */
  method DetectChanges(current: Snapshot, previous: Snapshot) returns (changes: seq<Change>)
    ensures IsDiff(changes, current, previous)
  {
    changes := AppendAdditions(current, previous);
    changes := AppendRemovals(changes, current, previous);
    changes := AppendModifications(changes, current, previous);
  }

  /** The first loop of `_detect_changes`: one added event per name only in `current`. */
  method AppendAdditions(current: Snapshot, previous: Snapshot) returns (changes: seq<Change>)
    ensures Enumerates(changes, current, previous, current.Keys - previous.Keys)
    ensures forall i :: 0 <= i < |changes| ==> changes[i].kind == Added
  {
    var addedNames := current.Keys - previous.Keys;
    changes := [];
    var todo := addedNames;
    while todo != {}
      invariant todo <= addedNames
      invariant Enumerates(changes, current, previous, addedNames - todo)
      invariant forall i :: 0 <= i < |changes| ==> changes[i].kind == Added
      decreases todo
    {
      var name :| name in todo;
      var c := Change(Added, name, [], DetailsOf(current[name].fields));
      EnumeratesAppend(changes, current, previous, addedNames - todo, c);
      changes := changes + [c];
      todo := todo - {name};
    }
  }

  /** The second loop of `_detect_changes`: one removed event per name only in `previous`. */
  method AppendRemovals(added: seq<Change>, current: Snapshot, previous: Snapshot) returns (changes: seq<Change>)
    requires Enumerates(added, current, previous, current.Keys - previous.Keys)
    requires forall i :: 0 <= i < |added| ==> added[i].kind == Added
    ensures Enumerates(changes, current, previous, (current.Keys - previous.Keys) + (previous.Keys - current.Keys))
    ensures forall i :: 0 <= i < |changes| ==> Rank(changes[i].kind) <= 1
  {
    ghost var addedNames := current.Keys - previous.Keys;
    var removedNames := previous.Keys - current.Keys;
    changes := added;
    var todo := removedNames;
    while todo != {}
      invariant todo <= removedNames
      invariant Enumerates(changes, current, previous, addedNames + (removedNames - todo))
      invariant forall i :: 0 <= i < |changes| ==> Rank(changes[i].kind) <= 1
      decreases todo
    {
      var name :| name in todo;
      var c := Change(Removed, name, [], DetailsOf(previous[name].fields));
      EnumeratesAppend(changes, current, previous, addedNames + (removedNames - todo), c);
      changes := changes + [c];
      todo := todo - {name};
    }
  }

  /** The third loop of `_detect_changes`: one modified event per common name with a changed watched field. */
  method AppendModifications(reported0: seq<Change>, current: Snapshot, previous: Snapshot) returns (changes: seq<Change>)
    requires Enumerates(reported0, current, previous, (current.Keys - previous.Keys) + (previous.Keys - current.Keys))
    requires forall i :: 0 <= i < |reported0| ==> Rank(reported0[i].kind) <= 1
    ensures IsDiff(changes, current, previous)
  {
    ghost var oneSided := (current.Keys - previous.Keys) + (previous.Keys - current.Keys);
    var modifiedNames := current.Keys * previous.Keys;
    changes := reported0;
    var todo := modifiedNames;
    ghost var reported: set<string> := {};
    while todo != {}
      invariant todo <= modifiedNames
      invariant reported <= modifiedNames - todo
      invariant forall name :: name in modifiedNames - todo ==>
                  (name in reported <==> ChangedFields(current[name].fields, previous[name].fields) != [])
      invariant Enumerates(changes, current, previous, oneSided + reported)
      decreases todo
    {
      var name :| name in todo;
      var currentFields := current[name].fields;
      var previousFields := previous[name].fields;
      var fieldsChanged := CompareWatchedFields(currentFields, previousFields);
      if fieldsChanged != [] {
        var c := Change(Modified, name, fieldsChanged, DetailsOf(currentFields));
        EnumeratesAppend(changes, current, previous, oneSided + reported, c);
        changes := changes + [c];
        reported := reported + {name};
      }
      todo := todo - {name};
    }
    assert modifiedNames - todo == modifiedNames;
    ReportedNames(current, previous, reported);
  }

  // ----- what a diff means -----

  lemma {:induction false} ChangedAmongMembers(names: seq<string>, current: map<string, string>, previous: map<string, string>)
    ensures forall f :: f in ChangedAmong(names, current, previous) <==> f in names && Differs(current, previous, f)
  {
    if names != [] {
      var init := names[..|names| - 1];
      ChangedAmongMembers(init, current, previous);
      assert names == init + [names[|names| - 1]];
    }
  }

  /** A modified event is raised exactly when some watched field differs after stripping, and it lists exactly those fields. */
  lemma ModifiedIffWatchedFieldDiffers(current: Snapshot, previous: Snapshot, name: string)
    requires name in current && name in previous
    ensures name in ChangedNames(current, previous) <==>
              exists f :: f in WatchList && Differs(current[name].fields, previous[name].fields, f)
    ensures forall f :: f in EventFor(current, previous, name).fieldsChanged <==>
              f in WatchList && Differs(current[name].fields, previous[name].fields, f)
  {
    var changed := ChangedFields(current[name].fields, previous[name].fields);
    ChangedAmongMembers(WatchList, current[name].fields, previous[name].fields);
    if changed != [] {
      assert changed[0] in changed;
    }
  }

  lemma {:induction false} NothingDiffersFromItself(names: seq<string>, fields: map<string, string>)
    ensures ChangedAmong(names, fields, fields) == []
  {
    if names != [] {
      NothingDiffersFromItself(names[..|names| - 1], fields);
    }
  }

  lemma {:induction false} DistinctNamesCount(changes: seq<Change>)
    requires DistinctNames(changes)
    ensures |NamesOf(changes)| == |changes|
  {
    if changes != [] {
      var init := changes[..|changes| - 1];
      var last := changes[|changes| - 1];
      DistinctNamesCount(init);
      assert changes == init + [last];
      NamesOfAppend(init, last);
      assert last.serverName !in NamesOf(init);
    }
  }

  lemma NameInNamesOf(changes: seq<Change>, i: nat)
    requires i < |changes|
    ensures changes[i].serverName in NamesOf(changes)
  {
  }

  lemma NoNamesNoChanges(changes: seq<Change>)
    requires NamesOf(changes) == {}
    ensures changes == []
  {
    if changes != [] {
      NameInNamesOf(changes, 0);
    }
  }

  /** A diff is empty exactly when no name changed, so an empty diff means the poll brought nothing to report. */
  lemma EmptyDiffIff(changes: seq<Change>, current: Snapshot, previous: Snapshot)
    requires IsDiff(changes, current, previous)
    ensures changes == [] <==> ChangedNames(current, previous) == {}
  {
    if changes == [] {
      assert NamesOf(changes) == {};
    } else {
      NameInNamesOf(changes, 0);
    }
  }

  /** Diffing a snapshot against itself yields nothing. */
  lemma DiffOfItselfIsEmpty(servers: Snapshot, changes: seq<Change>)
    requires IsDiff(changes, servers, servers)
    ensures changes == []
  {
    forall name | name in servers
      ensures ChangedFields(servers[name].fields, servers[name].fields) == []
    {
      NothingDiffersFromItself(WatchList, servers[name].fields);
    }
    assert ChangedNames(servers, servers) == {};
    NoNamesNoChanges(changes);
  }

  /** An enumeration of a single name is that name's event. */
  lemma OneEvent(changes: seq<Change>, current: Snapshot, previous: Snapshot, a: string)
    requires Enumerates(changes, current, previous, {a})
    ensures a in current || a in previous
    ensures changes == [EventFor(current, previous, a)]
  {
    DistinctNamesCount(changes);
    NameInNamesOf(changes, 0);
  }

  /** The only two-event enumeration of names of different kinds lists the lower kind first. */
  lemma TwoInRankOrder(changes: seq<Change>, current: Snapshot, previous: Snapshot, a: string, b: string)
    requires Enumerates(changes, current, previous, {a, b}) && a != b
    requires a in current || a in previous
    requires b in current || b in previous
    requires Rank(EventFor(current, previous, a).kind) < Rank(EventFor(current, previous, b).kind)
    ensures changes == [EventFor(current, previous, a), EventFor(current, previous, b)]
  {
    DistinctNamesCount(changes);
    NameInNamesOf(changes, 0);
    NameInNamesOf(changes, 1);
  }

  /** A renamed server is one removal of the old name and one addition of the new one. */
  lemma RenameIsRemovalPlusAddition(newName: string, oldName: string, x: Record, y: Record, changes: seq<Change>)
    requires newName != oldName
    requires IsDiff(changes, map[newName := x], map[oldName := y])
    ensures changes == [Change(Added, newName, [], DetailsOf(x.fields)), Change(Removed, oldName, [], DetailsOf(y.fields))]
  {
    var current, previous := map[newName := x], map[oldName := y];
    assert current.Keys * previous.Keys == {};
    assert ChangedNames(current, previous) == {newName, oldName};
    TwoInRankOrder(changes, current, previous, newName, oldName);
  }

  /** New servers added beside an unchanged snapshot are reported as additions only, one per new name. */
  lemma AdditionsOnly(before: Snapshot, newcomers: Snapshot, changes: seq<Change>)
    requires before.Keys !! newcomers.Keys
    requires IsDiff(changes, before + newcomers, before)
    ensures forall i :: 0 <= i < |changes| ==> changes[i].kind == Added
    ensures NamesOf(changes) == newcomers.Keys
  {
    var current := before + newcomers;
    forall name | name in before
      ensures ChangedFields(current[name].fields, before[name].fields) == []
    {
      NothingDiffersFromItself(WatchList, before[name].fields);
    }
    assert ChangedNames(current, before) == newcomers.Keys;
  }

  lemma {:induction false} ChangedAmongSingle(names: seq<string>, current: map<string, string>, previous: map<string, string>, key: string)
    requires forall f :: f in names ==> (Differs(current, previous, f) <==> f == key)
    requires forall i, j :: 0 <= i < j < |names| ==> names[i] != names[j]
    ensures ChangedAmong(names, current, previous) == if key in names then [key] else []
  {
    if names != [] {
      var init, last := names[..|names| - 1], names[|names| - 1];
      assert names == init + [last];
      assert forall f :: f in init ==> f in names;
      assert forall i, j :: 0 <= i < j < |init| ==> init[i] == names[i] && init[j] == names[j];
      ChangedAmongSingle(init, current, previous, key);
      assert ChangedAmong(names, current, previous)
             == ChangedAmong(init, current, previous) + (if last == key then [last] else []);
      if last == key {
        assert key !in init;
      }
    }
  }

  /** A change to a field outside the watch-list (a password, say) raises no modification. */
  lemma UnwatchedFieldIgnored(fields: map<string, string>, key: string, value: string)
    requires key !in WatchList
    ensures ChangedFields(fields[key := value], fields) == []
  {
    ChangedAmongSingle(WatchList, fields[key := value], fields, key);
  }

  /** Changing one watched server field produces exactly one modified event listing exactly that field. */
  lemma SingleWatchedFieldChange(previous: Snapshot, name: string, key: string, value: string, changes: seq<Change>)
    requires name in previous && key in WatchList
    requires Trim(value) != Trim(Field(previous[name].fields, key))
    requires IsDiff(changes, previous[name := Record(previous[name].id, previous[name].fields[key := value])], previous)
    ensures changes == [Change(Modified, name, [key], DetailsOf(previous[name].fields[key := value]))]
  {
    var newFields := previous[name].fields[key := value];
    var current := previous[name := Record(previous[name].id, newFields)];
    OnlyKeyDiffers(previous[name].fields, key, value, newFields);
    WatchListDistinct();
    ChangedAmongSingle(WatchList, newFields, previous[name].fields, key);
    forall other | other in previous && other != name
      ensures ChangedFields(current[other].fields, previous[other].fields) == []
    {
      assert current[other] == previous[other];
      NothingDiffersFromItself(WatchList, previous[other].fields);
    }
    OnlyNameChanged(current, previous, name);
    OneEvent(changes, current, previous, name);
  }

  /** Helper: the watched field names are pairwise different. */
  lemma WatchListDistinct()
    ensures forall i, j :: 0 <= i < j < |WatchList| ==> WatchList[i] != WatchList[j]
  {
  }

  /** Setting one field to a value that strips differently makes that field, and only it, differ. */
  lemma OnlyKeyDiffers(fields: map<string, string>, key: string, value: string, updated: map<string, string>)
    requires updated == fields[key := value]
    requires Trim(value) != Trim(Field(fields, key))
    ensures forall f :: Differs(updated, fields, f) <==> f == key
  {
    assert Field(updated, key) == value;
    forall f | f != key
      ensures Field(updated, f) == Field(fields, f)
    {
    }
  }

  /** Over the same names, when only `name` has a changed watched field, only `name` is reported. */
  lemma OnlyNameChanged(current: Snapshot, previous: Snapshot, name: string)
    requires current.Keys == previous.Keys && name in previous
    requires ChangedFields(current[name].fields, previous[name].fields) != []
    requires forall other :: other in previous && other != name ==> ChangedFields(current[other].fields, previous[other].fields) == []
    ensures ChangedNames(current, previous) == {name}
  {
    assert current.Keys - previous.Keys == {} && previous.Keys - current.Keys == {};
  }
}
