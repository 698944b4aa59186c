/**
 * `AirtableMonitor` (src/monitor.py): each poll ("tact") gathers the records of all
 * tables, gates on a content fingerprint, diffs the server snapshot against the
 * previous one and runs a debounce session that sends one alert once the records
 * have stayed unchanged for `alertTactsTimeout` tacts.
 */
module Monitor {
  import opened Wrappers
  import opened Records
  import opened OrderedDicts
  import opened Changes
  import Notifier
  import InventoryFile
  import Inventory
  import Generator

  /** The records of all tables, table after table (`all_records.extend(records)`). */
  function Concat(tables: seq<seq<Record>>): seq<Record> {
    if tables == [] then [] else Concat(tables[..|tables| - 1]) + tables[|tables| - 1]
  }

  /** The gathering loop shared by `check_for_changes` and `update_inventory`. */
  method GatherRecords(tables: seq<seq<Record>>) returns (allRecords: seq<Record>)
    ensures allRecords == Concat(tables)
  {
    allRecords := [];
    for i := 0 to |tables|
      invariant allRecords == Concat(tables[..i])
    {
      assert tables[..i + 1][..i] == tables[..i];
      allRecords := allRecords + tables[i];
    }
    assert tables[..|tables|] == tables;
  }

  /** A record is gathered exactly when some table holds it. */
  lemma {:induction false} ConcatMembers(tables: seq<seq<Record>>, r: Record)
    ensures r in Concat(tables) <==> exists t :: 0 <= t < |tables| && r in tables[t]
  {
    if tables != [] {
      var init := tables[..|tables| - 1];
      ConcatMembers(init, r);
      if r in Concat(init) {
        var t :| 0 <= t < |init| && r in init[t];
        assert r in tables[t];
      }
    }
  }

  /** Nothing is gathered exactly when every table is empty. */
  lemma {:induction false} ConcatEmpty(tables: seq<seq<Record>>)
    ensures Concat(tables) == [] <==> forall t :: 0 <= t < |tables| ==> tables[t] == []
  {
    if tables != [] {
      var init := tables[..|tables| - 1];
      ConcatEmpty(init);
      assert forall t :: 0 <= t < |init| ==> init[t] == tables[t];
    }
  }

  /** The files after `update_inventory` has regenerated from `records`: the group files, then the VPN file. */
  function Regenerated(directory: string, files: Generator.FileSystem, records: seq<Record>): Generator.FileSystem {
    Generator.WriteBatches(directory, files, Generator.GroupBatches(records))
      [directory + "/" + Inventory.VpnFileName := InventoryFile.Render(Inventory.Collect(records, Inventory.Vpn))]
  }

  class AirtableMonitor {
    /** `ALERT_TACTS_TIMEOUT` */
    const alertTactsTimeout: int
    /** Whether a Telegram notifier is configured. */
    const notifierEnabled: bool
    /** `_get_data_hash`: only compared for equality. */
    const fingerprint: seq<Record> -> string
    const inventoryGen: Generator.InventoryGenerator

    var lastDataHash: Option<string>
    var lastServersData: Snapshot
    var pendingChanges: seq<Change>
    var lastChangeTact: Option<int>
    var tactsSinceLastChange: nat
    var isEditingSession: bool

    /**
     * An active session has events waiting and a tact; events wait exactly when a tact
     * is recorded; the baseline is a well-keyed snapshot, empty before the first load.
     * Events may wait outside a session: that is the state a failed alert leaves.
     */
    ghost predicate Valid()
      reads this
    {
      && (isEditingSession ==> pendingChanges != [] && lastChangeTact.Some?)
      && (pendingChanges == [] <==> lastChangeTact.None?)
      && WellKeyed(lastServersData)
      && (lastDataHash.None? ==> lastServersData == map[] && pendingChanges == [])
    }

    /** No events wait, no tact is recorded and no session is active. */
    ghost predicate Idle()
      reads this
    {
      pendingChanges == [] && lastChangeTact.None? && tactsSinceLastChange == 0 && !isEditingSession
    }

    constructor(alertTactsTimeout: int, notifierEnabled: bool, fingerprint: seq<Record> -> string,
                inventoryGen: Generator.InventoryGenerator)
      ensures this.alertTactsTimeout == alertTactsTimeout && this.notifierEnabled == notifierEnabled
      ensures this.fingerprint == fingerprint && this.inventoryGen == inventoryGen
      ensures lastDataHash == None && lastServersData == map[] && Idle()
      ensures Valid()
    {
      this.alertTactsTimeout := alertTactsTimeout;
      this.notifierEnabled := notifierEnabled;
      this.fingerprint := fingerprint;
      this.inventoryGen := inventoryGen;
      lastDataHash := None;
      lastServersData := map[];
      pendingChanges := [];
      lastChangeTact := None;
      tactsSinceLastChange := 0;
      isEditingSession := false;
    }

    /** `_should_send_alert`: an active session with waiting events whose last change is at least the timeout ago. */
    function ShouldSendAlert(currentTact: int): (due: bool)
      reads this
      ensures due <==> pendingChanges != [] && isEditingSession && lastChangeTact.Some?
                       && currentTact >= lastChangeTact.value + alertTactsTimeout
    {
      if pendingChanges == [] then false
      else if lastChangeTact.None? then false
      else if !isEditingSession then false
      else
        var tactsPassed := currentTact - lastChangeTact.value;
        tactsPassed >= alertTactsTimeout
    }

    /**
     * `_send_pending_alert`, with `delivered` standing for the outcome of the Telegram call;
     * `message` is the text handed to the notifier, if any.
     */
    method SendPendingAlert(delivered: bool) returns (ok: bool, message: Option<string>)
      requires Valid()
      modifies this
      ensures Valid()
      ensures old(pendingChanges) == [] ==> ok && message == None && unchanged(this)
      ensures old(pendingChanges) != [] ==>
                message == (if notifierEnabled then Some(Notifier.Message(old(pendingChanges))) else None)
      ensures old(pendingChanges) != [] ==> ok == (!notifierEnabled || delivered)
      ensures !ok ==> unchanged(this)
      ensures old(pendingChanges) != [] && ok ==>
                Idle() && lastDataHash == old(lastDataHash) && lastServersData == old(lastServersData)
    {
      message := None;
      if pendingChanges == [] {
        return true, None;
      }
      if notifierEnabled {
        var success;
        success, message := Notifier.SendChangeAlert(pendingChanges, delivered);
        if !success {
          return false, message;
        }
      }
      pendingChanges := [];
      lastChangeTact := None;
      tactsSinceLastChange := 0;
      isEditingSession := false;
      ok := true;
    }

    /**
     * `check_for_changes` at tact `currentTact` over the fetched `tables`; `delivered` is
     * the outcome of an alert sent on this tact, and `alert` the message handed over.
     */
    method CheckForChanges(currentTact: int, tables: seq<seq<Record>>, delivered: bool) returns (changed: bool, alert: Option<string>)
      requires Valid()
      modifies this
      ensures Valid()
      ensures changed <==> old(lastDataHash) != Some(fingerprint(Concat(tables)))
      ensures changed ==>
                alert == None && lastDataHash == Some(fingerprint(Concat(tables)))
                && lastServersData == SnapshotOf(Concat(tables))
      // the first load and a change that no watched field shows leave the session as it was
      ensures changed && (old(lastDataHash).None? || ChangedNames(SnapshotOf(Concat(tables)), old(lastServersData)) == {}) ==>
                pendingChanges == old(pendingChanges) && lastChangeTact == old(lastChangeTact)
                && tactsSinceLastChange == old(tactsSinceLastChange) && isEditingSession == old(isEditingSession)
      // a reported change (re)starts the session and replaces the waiting events by this diff alone
      ensures changed && old(lastDataHash).Some? && ChangedNames(SnapshotOf(Concat(tables)), old(lastServersData)) != {} ==>
                IsDiff(pendingChanges, SnapshotOf(Concat(tables)), old(lastServersData))
                && isEditingSession && lastChangeTact == Some(currentTact) && tactsSinceLastChange == 0
      ensures !changed && !old(isEditingSession) ==> alert == None && unchanged(this)
      ensures !changed && old(isEditingSession) && !old(ShouldSendAlert(currentTact)) ==>
                alert == None && lastDataHash == old(lastDataHash) && lastServersData == old(lastServersData)
                && pendingChanges == old(pendingChanges) && lastChangeTact == old(lastChangeTact)
                && tactsSinceLastChange == old(tactsSinceLastChange) + 1 && isEditingSession
      // the session ends before the send, so a failed alert keeps its events but is never retried
      ensures !changed && old(isEditingSession) && old(ShouldSendAlert(currentTact)) ==>
                alert == (if notifierEnabled then Some(Notifier.Message(old(pendingChanges))) else None)
                && lastDataHash == old(lastDataHash) && lastServersData == old(lastServersData)
                && !isEditingSession
                && (if !notifierEnabled || delivered then Idle()
                    else pendingChanges == old(pendingChanges) && lastChangeTact == old(lastChangeTact)
                         && tactsSinceLastChange == old(tactsSinceLastChange) + 1)
    {
      var allRecords := GatherRecords(tables);
      var currentHash := fingerprint(allRecords);
      if lastDataHash.None? {
        lastDataHash := Some(currentHash);
        lastServersData := ExtractServerData(allRecords);
        SnapshotWellKeyed(allRecords);
        return true, None;
      }
      if currentHash != lastDataHash.value {
        var currentServers := ExtractServerData(allRecords);
        SnapshotWellKeyed(allRecords);
        var changes := DetectChanges(currentServers, lastServersData);
        EmptyDiffIff(changes, currentServers, lastServersData);
        RecordChanges(currentTact, currentServers, changes, currentHash);
        return true, None;
      }
      alert := QuietTact(currentTact, delivered);
      changed := false;
    }

    /** The assignments of the changed-hash branch of `check_for_changes`: a non-empty diff (re)starts the session and replaces the waiting events; the baseline moves. */
    method RecordChanges(currentTact: int, currentServers: Snapshot, changes: seq<Change>, currentHash: string)
      requires Valid() && WellKeyed(currentServers)
      modifies this
      ensures Valid()
      ensures lastDataHash == Some(currentHash) && lastServersData == currentServers
      ensures changes == [] ==>
                pendingChanges == old(pendingChanges) && lastChangeTact == old(lastChangeTact)
                && tactsSinceLastChange == old(tactsSinceLastChange) && isEditingSession == old(isEditingSession)
      ensures changes != [] ==>
                pendingChanges == changes && isEditingSession && lastChangeTact == Some(currentTact) && tactsSinceLastChange == 0
    {
      if changes != [] {
        isEditingSession := true;
        lastChangeTact := Some(currentTact);
        tactsSinceLastChange := 0;
        pendingChanges := changes;
      }
      lastDataHash := Some(currentHash);
      lastServersData := currentServers;
    }

    /** The unchanged-hash branch of `check_for_changes`: count the tact and send the alert once it is due. */
    method QuietTact(currentTact: int, delivered: bool) returns (alert: Option<string>)
      requires Valid()
      modifies this
      ensures Valid()
      ensures lastDataHash == old(lastDataHash) && lastServersData == old(lastServersData)
      ensures !old(isEditingSession) ==> alert == None && unchanged(this)
      ensures old(isEditingSession) && !old(ShouldSendAlert(currentTact)) ==>
                alert == None && pendingChanges == old(pendingChanges) && lastChangeTact == old(lastChangeTact)
                && tactsSinceLastChange == old(tactsSinceLastChange) + 1 && isEditingSession
      ensures old(isEditingSession) && old(ShouldSendAlert(currentTact)) ==>
                alert == (if notifierEnabled then Some(Notifier.Message(old(pendingChanges))) else None)
                && !isEditingSession
                && (if !notifierEnabled || delivered then Idle()
                    else pendingChanges == old(pendingChanges) && lastChangeTact == old(lastChangeTact)
                         && tactsSinceLastChange == old(tactsSinceLastChange) + 1)
    {
      alert := None;
      if isEditingSession {
        tactsSinceLastChange := tactsSinceLastChange + 1;
        if ShouldSendAlert(currentTact) {
          isEditingSession := false;
          var sent;
          sent, alert := SendPendingAlert(delivered);
        }
      }
    }

    /**
     * `update_inventory` over the fetched `tables`: nothing without records; otherwise the
     * group files and the VPN file, with the VPN path added to the created files.
     */
    method UpdateInventory(tables: seq<seq<Record>>) returns (ok: bool, created: ODict<string>)
      modifies inventoryGen
      ensures ok <==> Concat(tables) != []
      ensures !ok ==> created == [] && inventoryGen.files == old(inventoryGen.files)
      ensures ok ==>
                inventoryGen.files == Regenerated(inventoryGen.outputPath, old(inventoryGen.files), Concat(tables))
                && created == Put(Generator.CreatedPaths(inventoryGen.outputPath, Generator.GroupBatches(Concat(tables))),
                                  "vpn_servers", inventoryGen.outputPath + "/" + Inventory.VpnFileName)
    {
      var allServers := GatherRecords(tables);
      if allServers == [] {
        return false, [];
      }
      created := inventoryGen.GenerateSeparateGroupFiles(allServers);
      var vpnFilepath := inventoryGen.GenerateVpnInventory(allServers);
      created := Put(created, "vpn_servers", vpnFilepath);
      ok := true;
    }

    /**
     * `run_single_check`: the check leaves the monitor's session as `check_for_changes`
     * does and hands over its `alert`; the inventory is regenerated, from a fresh fetch
     * `refetched`, exactly when the check reports a change.
     */
    method RunSingleCheck(currentTact: int, tables: seq<seq<Record>>, refetched: seq<seq<Record>>, delivered: bool)
      returns (hasChanges: bool, alert: Option<string>, updated: bool)
      requires Valid()
      modifies this, inventoryGen
      ensures Valid()
      ensures hasChanges <==> old(lastDataHash) != Some(fingerprint(Concat(tables)))
      ensures updated <==> hasChanges && Concat(refetched) != []
      ensures inventoryGen.files ==
                if updated then Regenerated(inventoryGen.outputPath, old(inventoryGen.files), Concat(refetched))
                else old(inventoryGen.files)
      ensures hasChanges ==>
                alert == None && lastDataHash == Some(fingerprint(Concat(tables)))
                && lastServersData == SnapshotOf(Concat(tables))
      ensures hasChanges && (old(lastDataHash).None? || ChangedNames(SnapshotOf(Concat(tables)), old(lastServersData)) == {}) ==>
                pendingChanges == old(pendingChanges) && lastChangeTact == old(lastChangeTact)
                && tactsSinceLastChange == old(tactsSinceLastChange) && isEditingSession == old(isEditingSession)
      ensures hasChanges && old(lastDataHash).Some? && ChangedNames(SnapshotOf(Concat(tables)), old(lastServersData)) != {} ==>
                IsDiff(pendingChanges, SnapshotOf(Concat(tables)), old(lastServersData))
                && isEditingSession && lastChangeTact == Some(currentTact) && tactsSinceLastChange == 0
      ensures !hasChanges && !old(isEditingSession) ==>
                alert == None && lastDataHash == old(lastDataHash) && lastServersData == old(lastServersData)
                && pendingChanges == old(pendingChanges) && lastChangeTact == old(lastChangeTact)
                && tactsSinceLastChange == old(tactsSinceLastChange) && isEditingSession == old(isEditingSession)
      ensures !hasChanges && old(isEditingSession) && !old(ShouldSendAlert(currentTact)) ==>
                alert == None && lastDataHash == old(lastDataHash) && lastServersData == old(lastServersData)
                && pendingChanges == old(pendingChanges) && lastChangeTact == old(lastChangeTact)
                && tactsSinceLastChange == old(tactsSinceLastChange) + 1 && isEditingSession
      ensures !hasChanges && old(isEditingSession) && old(ShouldSendAlert(currentTact)) ==>
                alert == (if notifierEnabled then Some(Notifier.Message(old(pendingChanges))) else None)
                && lastDataHash == old(lastDataHash) && lastServersData == old(lastServersData)
                && !isEditingSession
                && (if !notifierEnabled || delivered then Idle()
                    else pendingChanges == old(pendingChanges) && lastChangeTact == old(lastChangeTact)
                         && tactsSinceLastChange == old(tactsSinceLastChange) + 1)
    {
      hasChanges, alert := CheckForChanges(currentTact, tables, delivered);
      updated := false;
      if hasChanges {
        var created;
        updated, created := UpdateInventory(refetched);
      }
    }
  }

  // ----- the debounce timing -----

  /** With timeout 5 and the last change at tact 10, no alert is due at tacts 10 to 14 and one is due at 15. */
  lemma AlertTimingExample(m: AirtableMonitor)
    requires m.alertTactsTimeout == 5 && m.lastChangeTact == Some(10)
    requires m.pendingChanges != [] && m.isEditingSession
    ensures forall t :: 10 <= t < 15 ==> !m.ShouldSendAlert(t)
    ensures m.ShouldSendAlert(15)
  {
  }

  /**
   * A second change restarts the wait: with timeout 5, a session opened at tact 10 and a
   * further change seen at tact 13, the alert due at 15 is no longer due, nor at 17, and
   * is due at 18.
   */
  method RestartExample(m: AirtableMonitor, tables: seq<seq<Record>>, delivered: bool)
    requires m.Valid() && m.alertTactsTimeout == 5
    requires m.isEditingSession && m.lastChangeTact == Some(10)
    requires m.lastDataHash.Some? && m.lastDataHash != Some(m.fingerprint(Concat(tables)))
    requires ChangedNames(SnapshotOf(Concat(tables)), m.lastServersData) != {}
    modifies m
    ensures old(m.ShouldSendAlert(15))
    ensures !m.ShouldSendAlert(15) && !m.ShouldSendAlert(17) && m.ShouldSendAlert(18)
  {
    var changed, alert := m.CheckForChanges(13, tables, delivered);
  }

  /** Once due, an alert stays due on every later tact while the state is unchanged. */
  lemma AlertStaysDue(m: AirtableMonitor, t: int, later: int)
    requires m.ShouldSendAlert(t) && t <= later
    ensures m.ShouldSendAlert(later)
  {
  }

  /** Outside a session no alert is ever due, whatever events wait: a failed alert is not sent again. */
  lemma NoAlertOutsideSession(m: AirtableMonitor, t: int)
    requires !m.isEditingSession
    ensures !m.ShouldSendAlert(t)
  {
  }
}
