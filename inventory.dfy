/**
 * What `InventoryGenerator` (src/inventory_generator.py) computes from a record list
 * before writing anything: the per-host settings, the host maps of the plain, per-group,
 * ungrouped and VPN inventories, and the names of the files they go to.
 */
module Inventory {
  import opened Text
  import opened Records
  import opened OrderedDicts
  import opened HostOrder
  import opened InventoryFile
  import opened Countries

  // ----- one host -----

  /** The SSH port for a stripped status: 22 for a new server (in any letter case), 11041 otherwise. */
  function AnsiblePort(status: string): nat {
    if Lower(status) == "new" then 22 else 11041
  }

  /** The stripped `Group` field; "" means the server has no group. */
  function GroupOf(fields: map<string, string>): string {
    Trim(Field(fields, "Group"))
  }

  /** The five settings every host has, possibly holding empty strings. */
  function RequiredSettings(fields: map<string, string>): HostConfig {
    var status := Trim(Field(fields, "Status"));
    [ Binding("ansible_host", Str(Trim(Field(fields, "Server IP")))),
      Binding("ansible_user", Str(Trim(Field(fields, "User")))),
      Binding("ansible_port", Int(AnsiblePort(status))),
      Binding("server_name", Str(Trim(Field(fields, "Server name")))),
      Binding("status", Str(status)) ]
  }

  /** Setting `key` with the stripped value of field `name`, present only when the raw field is non-empty. */
  function Optional(fields: map<string, string>, name: string, key: string): HostConfig {
    if Truthy(fields, name) then [Binding(key, Str(Trim(Field(fields, name))))] else []
  }

  /** The `location` setting: the country code of the stripped `Location`, present only when the raw field is non-empty. */
  function LocationSetting(fields: map<string, string>): HostConfig {
    if Truthy(fields, "Location") then [Binding("location", Str(CountryCode(Trim(Field(fields, "Location")))))] else []
  }

  /** The settings after the required ones and before `location`. */
  function ExtraSettings(fields: map<string, string>): HostConfig {
    Optional(fields, "Password", "ansible_password") + Optional(fields, "OS Name", "os_name")
    + Optional(fields, "Host provider", "host_provider")
  }

  /** The `host_config` of `generate_inventory` and `generate_separate_group_files`. */
  function HostConfigFor(fields: map<string, string>): HostConfig {
    RequiredSettings(fields) + ExtraSettings(fields) + LocationSetting(fields) + Optional(fields, "Group", "group")
  }

  /** The `host_config` of `generate_vpn_inventory`: the stripped group is always the sixth setting. */
  function VpnHostConfigFor(fields: map<string, string>): HostConfig {
    RequiredSettings(fields) + [Binding("group", Str(GroupOf(fields)))] + ExtraSettings(fields) + LocationSetting(fields)
  }

  function RequiredKeys(): seq<string> {
    ["ansible_host", "ansible_user", "ansible_port", "server_name", "status"]
  }

  function OptionalKey(fields: map<string, string>, name: string, key: string): seq<string> {
    if Truthy(fields, name) then [key] else []
  }

  lemma {:induction false} OptionalKeys(fields: map<string, string>, name: string, key: string)
    ensures Keys(Optional(fields, name, key)) == OptionalKey(fields, name, key)
  {
  }

  lemma RequiredSettingsKeys(fields: map<string, string>)
    ensures Keys(RequiredSettings(fields)) == RequiredKeys()
  {
    var req := RequiredSettings(fields);
    assert req[0].key == "ansible_host" && req[1].key == "ansible_user" && req[2].key == "ansible_port"
           && req[3].key == "server_name" && req[4].key == "status";
  }

  lemma LocationKeys(fields: map<string, string>)
    ensures Keys(LocationSetting(fields)) == OptionalKey(fields, "Location", "location")
  {
  }

  lemma ExtraKeys(fields: map<string, string>)
    ensures Keys(ExtraSettings(fields)) == OptionalKey(fields, "Password", "ansible_password") + OptionalKey(fields, "OS Name", "os_name")
                                            + OptionalKey(fields, "Host provider", "host_provider")
  {
    var p, o, h := Optional(fields, "Password", "ansible_password"), Optional(fields, "OS Name", "os_name"),
                   Optional(fields, "Host provider", "host_provider");
    KeysAppend(p + o, h);
    KeysAppend(p, o);
    OptionalKeys(fields, "Password", "ansible_password");
    OptionalKeys(fields, "OS Name", "os_name");
    OptionalKeys(fields, "Host provider", "host_provider");
  }

  /** The settings of a host, in order: the five required ones, then each optional one whose raw field is non-empty. */
  lemma HostConfigKeys(fields: map<string, string>)
    ensures Keys(HostConfigFor(fields)) ==
              RequiredKeys() + (OptionalKey(fields, "Password", "ansible_password") + OptionalKey(fields, "OS Name", "os_name")
              + OptionalKey(fields, "Host provider", "host_provider")) + OptionalKey(fields, "Location", "location")
              + OptionalKey(fields, "Group", "group")
  {
    var req, extra, loc, grp := RequiredSettings(fields), ExtraSettings(fields), LocationSetting(fields),
                                Optional(fields, "Group", "group");
    KeysAppend(req + extra + loc, grp);
    KeysAppend(req + extra, loc);
    KeysAppend(req, extra);
    ExtraKeys(fields);
    OptionalKeys(fields, "Group", "group");
    LocationKeys(fields);
    RequiredSettingsKeys(fields);
  }

  /** The settings of a VPN host, in order: the five required ones, `group` with the stripped group, then each optional one whose raw field is non-empty. */
  lemma VpnHostConfigKeys(fields: map<string, string>)
    ensures Keys(VpnHostConfigFor(fields)) ==
              RequiredKeys() + ["group"] + (OptionalKey(fields, "Password", "ansible_password") + OptionalKey(fields, "OS Name", "os_name")
              + OptionalKey(fields, "Host provider", "host_provider")) + OptionalKey(fields, "Location", "location")
  {
    var req, grp, extra, loc := RequiredSettings(fields), [Binding("group", Str(GroupOf(fields)))], ExtraSettings(fields),
                                LocationSetting(fields);
    KeysAppend(req + grp + extra, loc);
    KeysAppend(req + grp, extra);
    KeysAppend(req, grp);
    ExtraKeys(fields);
    LocationKeys(fields);
    RequiredSettingsKeys(fields);
  }

  /** The `group` setting of a VPN host is its stripped group. */
  lemma VpnGroupSetting(fields: map<string, string>)
    ensures "group" in Keys(VpnHostConfigFor(fields)) && Get(VpnHostConfigFor(fields), "group") == Str(GroupOf(fields))
  {
    var cfg := VpnHostConfigFor(fields);
    assert cfg[5] == Binding("group", Str(GroupOf(fields)));
    GetFirst(cfg, 5);
  }

  /** The port setting is 22 exactly when the stripped status reads `new` in some letter case, and 11041 otherwise. */
  lemma PortSetting(fields: map<string, string>)
    ensures "ansible_port" in Keys(HostConfigFor(fields))
    ensures Get(HostConfigFor(fields), "ansible_port") == Int(if Lower(Trim(Field(fields, "Status"))) == "new" then 22 else 11041)
  {
    var cfg := HostConfigFor(fields);
    assert cfg[2] == RequiredSettings(fields)[2];
    GetFirst(cfg, 2);
  }

  /** A raw value of only white space still adds its setting, holding the empty string. */
  lemma WhitespaceOnlyOsName(fields: map<string, string>)
    requires Truthy(fields, "OS Name") && Trim(Field(fields, "OS Name")) == ""
    ensures "os_name" in Keys(HostConfigFor(fields)) && Get(HostConfigFor(fields), "os_name") == Str("")
  {
    var i := OsNameSetting(fields);
    GetFirst(HostConfigFor(fields), i);
  }

  /** Where the `os_name` setting of a host with a non-empty raw `OS Name` sits: after the required settings and the password. */
  lemma OsNameSetting(fields: map<string, string>) returns (i: nat)
    requires Truthy(fields, "OS Name")
    ensures i == if Truthy(fields, "Password") then 6 else 5
    ensures i < |HostConfigFor(fields)|
    ensures HostConfigFor(fields)[i] == Binding("os_name", Str(Trim(Field(fields, "OS Name"))))
    ensures forall j :: 0 <= j < i ==> HostConfigFor(fields)[j].key != "os_name"
  {
    var cfg := HostConfigFor(fields);
    i := if Truthy(fields, "Password") then 6 else 5;
    assert cfg[i] == Binding("os_name", Str(Trim(Field(fields, "OS Name"))));
    forall j | 0 <= j < i
      ensures cfg[j].key != "os_name"
    {
      if j < 5 {
        assert cfg[j] == RequiredSettings(fields)[j];
      }
    }
  }

  // ----- which hosts go into which map -----

  /** The host maps the generator builds: all servers, one group, the servers without a group, the VPN servers. */
  datatype Selection = All | InGroup(name: string) | Ungrouped | Vpn

  /** `vpn_groups`: the groups whose servers make up the VPN inventory. */
  const VpnGroups: set<string> := {"Remnawave-nodes", "3X-UI"}

  predicate Selects(sel: Selection, fields: map<string, string>) {
    match sel
    case All => true
    case InGroup(g) => GroupOf(fields) == g
    case Ungrouped => GroupOf(fields) == ""
    case Vpn => GroupOf(fields) in VpnGroups
  }

  function ConfigFor(sel: Selection, fields: map<string, string>): HostConfig {
    if sel.Vpn? then VpnHostConfigFor(fields) else HostConfigFor(fields)
  }

  /**
   * The host map the loop over `servers_data` builds for a selection: records in order,
   * blank names skipped, a later record with the same name replacing the earlier settings.
   */
  function Collect(records: seq<Record>, sel: Selection): ODict<HostConfig> {
    if records == [] then []
    else
      var hosts := Collect(records[..|records| - 1], sel);
      var r := records[|records| - 1];
      if Hostname(r) == "" || !Selects(sel, r.fields) then hosts
      else Put(hosts, Hostname(r), ConfigFor(sel, r.fields))
  }

  /** How one more record changes the host map. */
  lemma CollectStep(records: seq<Record>, i: nat, sel: Selection)
    requires i < |records|
    ensures Collect(records[..i + 1], sel) ==
              if Hostname(records[i]) == "" || !Selects(sel, records[i].fields) then Collect(records[..i], sel)
              else Put(Collect(records[..i], sel), Hostname(records[i]), ConfigFor(sel, records[i].fields))
  {
    assert records[..i + 1][..i] == records[..i];
  }

  lemma {:induction false} CollectDistinct(records: seq<Record>, sel: Selection)
    ensures DistinctKeys(Collect(records, sel))
  {
    if records != [] {
      var init, r := records[..|records| - 1], records[|records| - 1];
      CollectDistinct(init, sel);
      if Hostname(r) != "" && Selects(sel, r.fields) {
        PutDistinct(Collect(init, sel), Hostname(r), ConfigFor(sel, r.fields));
      }
    }
  }

  /** A selected record with a non-blank name puts that name in the map. */
  lemma {:induction false} CollectHas(records: seq<Record>, sel: Selection, i: nat)
    requires i < |records| && Hostname(records[i]) != "" && Selects(sel, records[i].fields)
    ensures Hostname(records[i]) in Keys(Collect(records, sel))
  {
    var init := records[..|records| - 1];
    CollectKeysStep(records, sel, Hostname(records[i]));
    if i < |records| - 1 {
      CollectHas(init, sel, i);
      assert init[i] == records[i];
    }
  }

  /** Every name in the map comes from a selected record that carries it, and is not blank. */
  lemma CollectFrom(records: seq<Record>, sel: Selection, name: string)
    requires name in Keys(Collect(records, sel))
    ensures name != ""
    ensures exists i :: 0 <= i < |records| && Hostname(records[i]) == name && Selects(sel, records[i].fields)
  {
    var i := CollectSource(records, sel, name);
  }

  /** The position of the record that put `name` in the map. */
  lemma {:induction false} CollectSource(records: seq<Record>, sel: Selection, name: string) returns (i: nat)
    requires name in Keys(Collect(records, sel))
    ensures name != "" && i < |records| && Hostname(records[i]) == name && Selects(sel, records[i].fields)
  {
    var init := records[..|records| - 1];
    CollectKeysStep(records, sel, name);
    if name in Keys(Collect(init, sel)) {
      i := CollectSource(init, sel, name);
      assert records[i] == init[i];
    } else {
      i := |records| - 1;
    }
  }

  /** The last record adds its name, when it has one and is selected, to the names before it. */
  lemma CollectKeysStep(records: seq<Record>, sel: Selection, name: string)
    requires records != []
    ensures var r := records[|records| - 1];
      name in Keys(Collect(records, sel)) <==>
      name in Keys(Collect(records[..|records| - 1], sel)) || (Hostname(r) != "" && Selects(sel, r.fields) && name == Hostname(r))
  {
    var init, r := records[..|records| - 1], records[|records| - 1];
    if Hostname(r) != "" && Selects(sel, r.fields) {
      CollectDistinct(init, sel);
      PutGet(Collect(init, sel), Hostname(r), ConfigFor(sel, r.fields), name);
    }
  }

  /** A host is listed exactly when some selected record carries its (non-blank, stripped) name. */
  lemma CollectKeys(records: seq<Record>, sel: Selection, name: string)
    ensures name in Keys(Collect(records, sel)) <==>
              name != "" && exists i :: 0 <= i < |records| && Hostname(records[i]) == name && Selects(sel, records[i].fields)
  {
    if name in Keys(Collect(records, sel)) {
      CollectFrom(records, sel, name);
    } else if name != "" && exists i :: 0 <= i < |records| && Hostname(records[i]) == name && Selects(sel, records[i].fields) {
      var i :| 0 <= i < |records| && Hostname(records[i]) == name && Selects(sel, records[i].fields);
      CollectHas(records, sel, i);
    }
  }

  /** A selected record that no later selected record renames over supplies that host's settings. */
  lemma {:induction false} CollectLastWins(records: seq<Record>, sel: Selection, i: nat)
    requires i < |records| && Hostname(records[i]) != "" && Selects(sel, records[i].fields)
    requires forall j :: i < j < |records| && Selects(sel, records[j].fields) ==> Hostname(records[j]) != Hostname(records[i])
    ensures Hostname(records[i]) in Keys(Collect(records, sel))
    ensures Get(Collect(records, sel), Hostname(records[i])) == ConfigFor(sel, records[i].fields)
  {
    var init, r := records[..|records| - 1], records[|records| - 1];
    var name := Hostname(records[i]);
    CollectDistinct(init, sel);
    if i == |records| - 1 {
      PutGet(Collect(init, sel), name, ConfigFor(sel, r.fields), name);
    } else {
      CollectLastWins(init, sel, i);
      if Hostname(r) != "" && Selects(sel, r.fields) {
        PutGet(Collect(init, sel), Hostname(r), ConfigFor(sel, r.fields), name);
      }
    }
  }

  /** Every listed host name is non-blank and stripped, so the written file lists it back. */
  lemma {:induction false} CollectNamesReadable(records: seq<Record>, sel: Selection)
    ensures forall i :: 0 <= i < |Collect(records, sel)| ==> Readable(Collect(records, sel)[i].key)
  {
    var hosts := Collect(records, sel);
    forall i | 0 <= i < |hosts|
      ensures Readable(hosts[i].key)
    {
      var name := hosts[i].key;
      assert Keys(hosts)[i] == name;
      CollectFrom(records, sel, name);
      var j :| 0 <= j < |records| && Hostname(records[j]) == name && Selects(sel, records[j].fields);
      TrimCharacterization(Field(records[j].fields, "Server name"));
    }
  }

  // ----- the per-group buckets -----

  /**
   * The `groups` dict of `generate_separate_group_files`: one host map per non-empty
   * stripped group, groups in order of first appearance.
   */
  function Buckets(records: seq<Record>): ODict<ODict<HostConfig>> {
    if records == [] then []
    else
      var groups := Buckets(records[..|records| - 1]);
      var r := records[|records| - 1];
      var g := GroupOf(r.fields);
      if Hostname(r) == "" || g == "" then groups
      else Put(groups, g, Put(GetOr(groups, g, []), Hostname(r), HostConfigFor(r.fields)))
  }

  /** How one more record changes the group buckets. */
  lemma BucketsStep(records: seq<Record>, i: nat)
    requires i < |records|
    ensures var r, groups := records[i], Buckets(records[..i]);
            Buckets(records[..i + 1]) ==
              if Hostname(r) == "" || GroupOf(r.fields) == "" then groups
              else Put(groups, GroupOf(r.fields), Put(GetOr(groups, GroupOf(r.fields), []), Hostname(r), HostConfigFor(r.fields)))
  {
    assert records[..i + 1][..i] == records[..i];
  }

  lemma {:induction false} BucketsDistinct(records: seq<Record>)
    ensures DistinctKeys(Buckets(records))
  {
    if records != [] {
      var init, r := records[..|records| - 1], records[|records| - 1];
      BucketsDistinct(init);
      var groups, g := Buckets(init), GroupOf(r.fields);
      if Hostname(r) != "" && g != "" {
        PutDistinct(groups, g, Put(GetOr(groups, g, []), Hostname(r), HostConfigFor(r.fields)));
      }
    }
  }

  /** A group has a bucket exactly when it is non-empty and holds a host, and its bucket is the host map of that group. */
  lemma {:induction false} BucketOf(records: seq<Record>, g: string)
    ensures g in Keys(Buckets(records)) <==> g != "" && Collect(records, InGroup(g)) != []
    ensures g in Keys(Buckets(records)) ==> Get(Buckets(records), g) == Collect(records, InGroup(g))
  {
    if records != [] {
      var init, r := records[..|records| - 1], records[|records| - 1];
      var rg := GroupOf(r.fields);
      if Hostname(r) != "" && rg != "" && g == rg {
        BucketOf(init, rg);
        BucketFiledSame(records);
      } else if Hostname(r) != "" && rg != "" {
        BucketOf(init, g);
        BucketFiledOther(records, g);
      } else {
        BucketOf(init, g);
        assert Buckets(records) == Buckets(init);
        assert g != "" ==> Collect(records, InGroup(g)) == Collect(init, InGroup(g));
      }
    }
  }

  /** The step of `BucketOf` for a record filed under its group `rg`: its bucket gains the record. */
  lemma BucketFiledSame(records: seq<Record>)
    requires records != []
    requires Hostname(records[|records| - 1]) != "" && GroupOf(records[|records| - 1].fields) != ""
    requires var init, rg := records[..|records| - 1], GroupOf(records[|records| - 1].fields);
             (rg in Keys(Buckets(init)) <==> Collect(init, InGroup(rg)) != [])
             && (rg in Keys(Buckets(init)) ==> Get(Buckets(init), rg) == Collect(init, InGroup(rg)))
    ensures var rg := GroupOf(records[|records| - 1].fields);
            rg in Keys(Buckets(records)) && Collect(records, InGroup(rg)) != []
            && Get(Buckets(records), rg) == Collect(records, InGroup(rg))
  {
    var init, r := records[..|records| - 1], records[|records| - 1];
    var h, rg, config := Hostname(r), GroupOf(r.fields), HostConfigFor(r.fields);
    var groups := Buckets(init);
    BucketsDistinct(init);
    var previous := GetOr(groups, rg, []);
    assert previous == Collect(init, InGroup(rg));
    var bucket := Put(previous, h, config);
    BucketsLast(records);
    assert Selects(InGroup(rg), r.fields);
    CollectLast(records, InGroup(rg));
    assert ConfigFor(InGroup(rg), r.fields) == config;
    PutNotEmpty(previous, h, config);
    PutGet(groups, rg, bucket, rg);
  }

  /** A last record with a name and a group is filed in its group's bucket. */
  lemma BucketsLast(records: seq<Record>)
    requires records != []
    requires Hostname(records[|records| - 1]) != "" && GroupOf(records[|records| - 1].fields) != ""
    ensures var groups, r := Buckets(records[..|records| - 1]), records[|records| - 1];
            Buckets(records) == Put(groups, GroupOf(r.fields), Put(GetOr(groups, GroupOf(r.fields), []), Hostname(r), HostConfigFor(r.fields)))
  {
  }

  /** A selected last record with a name is put in the host map. */
  lemma CollectLast(records: seq<Record>, sel: Selection)
    requires records != []
    requires Hostname(records[|records| - 1]) != "" && Selects(sel, records[|records| - 1].fields)
    ensures var r := records[|records| - 1];
            Collect(records, sel) == Put(Collect(records[..|records| - 1], sel), Hostname(r), ConfigFor(sel, r.fields))
  {
  }

  /** The step of `BucketOf` for a record filed under another group than `g`: the bucket of `g` is unchanged. */
  lemma BucketFiledOther(records: seq<Record>, g: string)
    requires records != []
    requires Hostname(records[|records| - 1]) != "" && GroupOf(records[|records| - 1].fields) != g
    requires GroupOf(records[|records| - 1].fields) != ""
    requires var init := records[..|records| - 1];
             (g in Keys(Buckets(init)) <==> g != "" && Collect(init, InGroup(g)) != [])
             && (g in Keys(Buckets(init)) ==> Get(Buckets(init), g) == Collect(init, InGroup(g)))
    ensures g in Keys(Buckets(records)) <==> g != "" && Collect(records, InGroup(g)) != []
    ensures g in Keys(Buckets(records)) ==> Get(Buckets(records), g) == Collect(records, InGroup(g))
  {
    var init, r := records[..|records| - 1], records[|records| - 1];
    var rg := GroupOf(r.fields);
    var groups := Buckets(init);
    BucketsDistinct(init);
    var bucket := Put(GetOr(groups, rg, []), Hostname(r), HostConfigFor(r.fields));
    var after := Buckets(records);
    assert after == Put(groups, rg, bucket);
    assert !Selects(InGroup(g), r.fields);
    assert Collect(records, InGroup(g)) == Collect(init, InGroup(g));
    PutGet(groups, rg, bucket, g);
    assert g in Keys(after) <==> g in Keys(groups);
    if g in Keys(groups) {
      assert Get(after, g) == Get(groups, g);
    }
  }

  /**
   * Every named server is filed once: in the bucket of its stripped group, or among the
   * ungrouped servers when that group is empty; and it is in the plain inventory.
   */
  lemma ServerFiled(records: seq<Record>, i: nat)
    requires i < |records| && Hostname(records[i]) != ""
    ensures Hostname(records[i]) in Keys(Collect(records, All))
    ensures GroupOf(records[i].fields) == "" ==> Hostname(records[i]) in Keys(Collect(records, Ungrouped))
    ensures GroupOf(records[i].fields) != "" ==>
              GroupOf(records[i].fields) in Keys(Buckets(records))
              && Hostname(records[i]) in Keys(Get(Buckets(records), GroupOf(records[i].fields)))
  {
    var g := GroupOf(records[i].fields);
    CollectHas(records, All, i);
    if g == "" {
      CollectHas(records, Ungrouped, i);
    } else {
      CollectHas(records, InGroup(g), i);
      BucketOf(records, g);
    }
  }

  // ----- file names -----

  /** `group_name.replace(' ', '_').replace('/', '_').replace('\\', '_')` */
  function Sanitize(group: string): string {
    ReplaceChar(ReplaceChar(ReplaceChar(group, ' ', '_'), '/', '_'), '\\', '_')
  }

  /** The sanitised name has the same length, no space or slash of either kind, and every other character kept. */
  lemma SanitizeFacts(group: string)
    ensures |Sanitize(group)| == |group|
    ensures forall i :: 0 <= i < |group| ==>
              Sanitize(group)[i] == if group[i] in {' ', '/', '\\'} then '_' else group[i]
    ensures forall i :: 0 <= i < |group| ==> Sanitize(group)[i] !in {' ', '/', '\\'}
  {
  }

  /** The file of a group. */
  function GroupFileName(group: string): string {
    Sanitize(group) + "_inventory.yml"
  }

  /** `os.path.join(directory, name)` */
  function JoinPath(directory: string, name: string): string {
    if name != [] && name[0] == '/' then name
    else if directory == [] || directory[|directory| - 1] == '/' then directory + name
    else directory + "/" + name
  }

  /** The file of the VPN inventory. */
  const VpnFileName: string := "all-vpn-servers.yml"

  /** The name under which the ungrouped servers are filed. */
  const UngroupedName: string := "ungrouped"
}
