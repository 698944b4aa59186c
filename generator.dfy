/**
 * `InventoryGenerator` (src/inventory_generator.py): builds the host maps from the
 * record list and writes them as inventory files. The file system is modelled as the
 * map `files` from a path to the lines last written there.
 */
module Generator {
  import opened Text
  import opened Records
  import opened OrderedDicts
  import opened InventoryFile
  import opened Countries
  import opened Inventory

  type FileSystem = map<string, seq<string>>

  /** The path `_create_group_file` writes for a group. */
  function GroupFilePath(directory: string, group: string): string {
    JoinPath(directory, GroupFileName(group))
  }

  /**
   * What `generate_separate_group_files` writes, in order: each group's host map, then
   * the ungrouped servers under `ungrouped` when there are any.
   */
  function GroupBatches(records: seq<Record>): ODict<ODict<HostConfig>> {
    var ungrouped := Collect(records, Ungrouped);
    Buckets(records) + (if ungrouped == [] then [] else [Binding(UngroupedName, ungrouped)])
  }

  /** The file system after writing the batches in order; a later batch overwrites an earlier one with the same path. */
  function WriteBatches(directory: string, files: FileSystem, batches: ODict<ODict<HostConfig>>): FileSystem {
    if batches == [] then files
    else
      var last := batches[|batches| - 1];
      WriteBatches(directory, files, batches[..|batches| - 1])[GroupFilePath(directory, last.key) := Render(last.value)]
  }

  /** The `created_files` dict: each batch's name bound to the path of its file. */
  function CreatedPaths(directory: string, batches: ODict<ODict<HostConfig>>): ODict<string> {
    if batches == [] then []
    else
      var last := batches[|batches| - 1];
      Put(CreatedPaths(directory, batches[..|batches| - 1]), last.key, GroupFilePath(directory, last.key))
  }

  class InventoryGenerator {
    const outputPath: string
    /** Stored and never read, as in the source. */
    const formatType: string
    /** The files written so far, by path. */
    var files: FileSystem

    constructor(outputPath: string, formatType: string, files: FileSystem)
      ensures this.outputPath == outputPath && this.formatType == formatType && this.files == files
    {
      this.outputPath := outputPath;
      this.formatType := formatType;
      this.files := files;
    }

    /** The `host_config` that `generate_inventory` builds for one record. */
    method BuildHostConfig(fields: map<string, string>) returns (config: HostConfig)
      ensures config == HostConfigFor(fields)
    {
      config := RequiredSettings(fields);
      var extra := OptionalSettings(fields);
      config := config + extra;
      if Truthy(fields, "Location") {
        var code := ConvertCountryToCode(CountryMapping(), Trim(Field(fields, "Location")));
        config := config + [Binding("location", Str(code))];
      }
      if Truthy(fields, "Group") {
        config := config + [Binding("group", Str(Trim(Field(fields, "Group"))))];
      }
    }

    /** The `host_config` that `generate_vpn_inventory` builds: `group` follows the required settings. */
    method BuildVpnHostConfig(fields: map<string, string>) returns (config: HostConfig)
      ensures config == VpnHostConfigFor(fields)
    {
      config := RequiredSettings(fields) + [Binding("group", Str(GroupOf(fields)))];
      var extra := OptionalSettings(fields);
      config := config + extra;
      if Truthy(fields, "Location") {
        var code := ConvertCountryToCode(CountryMapping(), Trim(Field(fields, "Location")));
        config := config + [Binding("location", Str(code))];
      }
    }

    /** The password, OS and provider settings, each added only when its raw field is non-empty. */
    method OptionalSettings(fields: map<string, string>) returns (extra: HostConfig)
      ensures extra == ExtraSettings(fields)
    {
      extra := [];
      if Truthy(fields, "Password") {
        extra := extra + [Binding("ansible_password", Str(Trim(Field(fields, "Password"))))];
      }
      if Truthy(fields, "OS Name") {
        extra := extra + [Binding("os_name", Str(Trim(Field(fields, "OS Name"))))];
      }
      if Truthy(fields, "Host provider") {
        extra := extra + [Binding("host_provider", Str(Trim(Field(fields, "Host provider"))))];
      }
    }

    /** `generate_inventory`, returning the `hosts` map of the nested inventory. */
    method GenerateInventory(records: seq<Record>) returns (hosts: ODict<HostConfig>)
      ensures hosts == Collect(records, All)
    {
      hosts := [];
      for i := 0 to |records|
        invariant hosts == Collect(records[..i], All)
      {
        CollectStep(records, i, All);
        var hostname := Hostname(records[i]);
        if hostname == "" {
          continue;
        }
        var config := BuildHostConfig(records[i].fields);
        hosts := Put(hosts, hostname, config);
      }
      assert records[..|records|] == records;
    }

    /** The loop of `generate_vpn_inventory`: the servers of the VPN groups. */
    method CollectVpnHosts(records: seq<Record>) returns (hosts: ODict<HostConfig>)
      ensures hosts == Collect(records, Vpn)
    {
      hosts := [];
      for i := 0 to |records|
        invariant hosts == Collect(records[..i], Vpn)
      {
        CollectStep(records, i, Vpn);
        var hostname := Hostname(records[i]);
        if hostname == "" {
          continue;
        }
        var groupName := GroupOf(records[i].fields);
        if groupName !in VpnGroups {
          assert !Selects(Vpn, records[i].fields);
          continue;
        }
        assert Selects(Vpn, records[i].fields);
        var config := BuildVpnHostConfig(records[i].fields);
        hosts := Put(hosts, hostname, config);
      }
      assert records[..|records|] == records;
    }

    /** Writes the header, then each host's block in `sort_key` order, blocks separated by one blank line. */
    method WriteInventoryFile(path: string, hosts: ODict<HostConfig>)
      modifies this
      ensures files == old(files)[path := Render(hosts)]
    {
      var sorted := HostOrder.SortHosts(hosts);
      var lines := Header;
      var i := 0;
      while i < |sorted|
        invariant 0 <= i <= |sorted|
        invariant files == old(files)
        invariant lines == Header + Sections(sorted[..i]) + (if 0 < i < |sorted| then [""] else [])
      {
        var block := HostBlock(sorted[i]);
        SectionsStep(sorted, i);
        lines := lines + block;
        if i < |sorted| - 1 {
          lines := lines + [""];
        }
        i := i + 1;
      }
      assert sorted[..|sorted|] == sorted;
      assert lines == Render(hosts) by {
        if sorted == [] {
          assert lines == Header && Render(hosts) == Header + [];
        }
      }
      files := files[path := lines];
    }

    /** The lines written for one host: its name line, then one line per setting, quoting a string with a space or a colon. */
    method HostBlock(host: Binding<HostConfig>) returns (block: seq<string>)
      ensures block == Section(host)
    {
      block := [HostLine(host.key)];
      for j := 0 to |host.value|
        invariant block == [HostLine(host.key)] + ConfigLines(host.value[..j])
      {
        assert host.value[..j + 1][..j] == host.value[..j];
        var setting := host.value[j];
        var text := match setting.value
          case Str(s) => if ' ' in s || ':' in s then "\"" + s + "\"" else s
          case Int(n) => NatToString(n);
        assert text == FormatValue(setting.value);
        assert ConfigLines(host.value[..j + 1]) == ConfigLines(host.value[..j]) + [KeyLine(setting.key, setting.value)];
        AppendAssoc([HostLine(host.key)], ConfigLines(host.value[..j]), [KeyLine(setting.key, setting.value)]);
        block := block + [Spaces(20) + setting.key + ": " + text];
      }
      assert host.value[..|host.value|] == host.value;
    }

    /** `save_inventory`: writes the file `<output_path>/<filename>` and returns that path. */
    method SaveInventory(hosts: ODict<HostConfig>, filename: string) returns (path: string)
      modifies this
      ensures path == outputPath + "/" + filename
      ensures files == old(files)[path := Render(hosts)]
    {
      path := outputPath + "/" + filename;
      WriteInventoryFile(path, hosts);
    }

    /** `generate_from_airtable`: the plain inventory of all named servers. */
    method GenerateFromAirtable(records: seq<Record>, filename: string) returns (path: string)
      modifies this
      ensures path == outputPath + "/" + filename
      ensures files == old(files)[path := Render(Collect(records, All))]
    {
      var hosts := GenerateInventory(records);
      path := SaveInventory(hosts, filename);
    }

    /** `_create_group_file`: writes a group's servers to `<sanitised group>_inventory.yml` under the output path. */
    method CreateGroupFile(groupName: string, servers: ODict<HostConfig>) returns (path: string)
      modifies this
      ensures path == GroupFilePath(outputPath, groupName)
      ensures files == old(files)[path := Render(servers)]
    {
      var safeGroupName := Sanitize(groupName);
      path := JoinPath(outputPath, safeGroupName + "_inventory.yml");
      WriteInventoryFile(path, servers);
    }

    /**
     * `generate_separate_group_files`: one file per group in order of first appearance,
     * then the ungrouped servers' file when there are any; returns `created_files`.
     */
    method GenerateSeparateGroupFiles(records: seq<Record>) returns (created: ODict<string>)
      modifies this
      ensures files == WriteBatches(outputPath, old(files), GroupBatches(records))
      ensures created == CreatedPaths(outputPath, GroupBatches(records))
    {
      var groups, ungroupedServers := GroupServers(records);
      created := CreateGroupFiles(groups);
      if ungroupedServers != [] {
        var batches := groups + [Binding(UngroupedName, ungroupedServers)];
        assert batches[..|groups|] == groups;
        var path := CreateGroupFile(UngroupedName, ungroupedServers);
        created := Put(created, UngroupedName, path);
      } else {
        assert GroupBatches(records) == groups;
      }
    }

    /** The first loop of `generate_separate_group_files`: the servers of each group and the ungrouped servers. */
    method GroupServers(records: seq<Record>) returns (groups: ODict<ODict<HostConfig>>, ungroupedServers: ODict<HostConfig>)
      ensures groups == Buckets(records)
      ensures ungroupedServers == Collect(records, Ungrouped)
    {
      groups := [];
      ungroupedServers := [];
      for i := 0 to |records|
        invariant groups == Buckets(records[..i])
        invariant ungroupedServers == Collect(records[..i], Ungrouped)
      {
        CollectStep(records, i, Ungrouped);
        BucketsStep(records, i);
        var hostname := Hostname(records[i]);
        if hostname == "" {
          continue;
        }
        var config := BuildHostConfig(records[i].fields);
        var groupName := GroupOf(records[i].fields);
        if groupName != "" {
          var servers := if groupName in Keys(groups) then Get(groups, groupName) else [];
          groups := Put(groups, groupName, Put(servers, hostname, config));
        } else {
          ungroupedServers := Put(ungroupedServers, hostname, config);
        }
      }
      assert records[..|records|] == records;
    }

    /** The second loop of `generate_separate_group_files`: one file per group, in order. */
    method CreateGroupFiles(groups: ODict<ODict<HostConfig>>) returns (created: ODict<string>)
      modifies this
      ensures files == WriteBatches(outputPath, old(files), groups)
      ensures created == CreatedPaths(outputPath, groups)
    {
      created := [];
      for j := 0 to |groups|
        invariant files == WriteBatches(outputPath, old(files), groups[..j])
        invariant created == CreatedPaths(outputPath, groups[..j])
      {
        assert groups[..j + 1][..j] == groups[..j];
        var path := CreateGroupFile(groups[j].key, groups[j].value);
        created := Put(created, groups[j].key, path);
      }
      assert groups[..|groups|] == groups;
    }

    /** `save_vpn_inventory`: the same file layout as `save_inventory`. */
    method SaveVpnInventory(hosts: ODict<HostConfig>, filename: string) returns (path: string)
      modifies this
      ensures path == outputPath + "/" + filename
      ensures files == old(files)[path := Render(hosts)]
    {
      path := outputPath + "/" + filename;
      WriteInventoryFile(path, hosts);
    }

    /** `generate_vpn_inventory`: writes `all-vpn-servers.yml` with the servers of the VPN groups. */
    method GenerateVpnInventory(records: seq<Record>) returns (path: string)
      modifies this
      ensures path == outputPath + "/" + VpnFileName
      ensures files == old(files)[path := Render(Collect(records, Vpn))]
    {
      var hosts := CollectVpnHosts(records);
      path := SaveVpnInventory(hosts, VpnFileName);
    }
  }

  /** Helper: concatenation regroups. */
  lemma AppendAssoc<T>(a: seq<T>, b: seq<T>, c: seq<T>)
    ensures a + b + c == a + (b + c)
  {
  }

  /** Writing host `i`'s block after the first `i` blocks and their separator gives the first `i + 1` blocks. */
  lemma SectionsStep(sorted: seq<Binding<HostConfig>>, i: nat)
    requires i < |sorted|
    ensures Header + Sections(sorted[..i]) + (if 0 < i then [""] else []) + Section(sorted[i])
            == Header + Sections(sorted[..i + 1])
  {
    assert sorted[..i + 1][..i] == sorted[..i];
    if i == 0 {
      assert Header + Sections(sorted[..i]) + [] == Header;
    } else {
      AppendAssoc(Header + Sections(sorted[..i]), [""], Section(sorted[i]));
      AppendAssoc(Header, Sections(sorted[..i]) + [""], Section(sorted[i]));
    }
  }

  // ----- where the group files go -----

  lemma PrefixCancel(p: string, x: string, y: string)
    ensures p + x == p + y <==> x == y
  {
    if p + x == p + y {
      assert x == (p + x)[|p|..] && y == (p + y)[|p|..];
    }
  }

  lemma SuffixCancel(x: string, y: string, suffix: string)
    ensures x + suffix == y + suffix <==> x == y
  {
    if x + suffix == y + suffix {
      assert x == (x + suffix)[..|x|] && y == (y + suffix)[..|y|];
    }
  }

  /** A group's file name never starts with a slash, so it always lands inside the output directory. */
  lemma GroupFileNameIsRelative(group: string)
    ensures GroupFileName(group)[0] != '/'
  {
    SanitizeFacts(group);
    if group == [] {
      assert GroupFileName(group) == "_inventory.yml";
    } else {
      assert GroupFileName(group)[0] == Sanitize(group)[0];
    }
  }

  /** Two groups share a file exactly when their sanitised names are equal. */
  lemma GroupPathsCollide(directory: string, a: string, b: string)
    ensures GroupFilePath(directory, a) == GroupFilePath(directory, b) <==> Sanitize(a) == Sanitize(b)
  {
    GroupFileNameIsRelative(a);
    GroupFileNameIsRelative(b);
    var prefix := if directory == [] || directory[|directory| - 1] == '/' then directory else directory + "/";
    assert GroupFilePath(directory, a) == prefix + GroupFileName(a);
    assert GroupFilePath(directory, b) == prefix + GroupFileName(b);
    PrefixCancel(prefix, GroupFileName(a), GroupFileName(b));
    SuffixCancel(Sanitize(a), Sanitize(b), "_inventory.yml");
  }

  /** A group whose name has a space where another has an underscore is written to that other group's file. */
  lemma SpaceAndUnderscoreShareAFile(directory: string, front: string, back: string)
    ensures GroupFilePath(directory, front + " " + back) == GroupFilePath(directory, front + "_" + back)
  {
    var spaced, underscored := front + " " + back, front + "_" + back;
    SanitizeFacts(spaced);
    SanitizeFacts(underscored);
    assert forall i :: 0 <= i < |spaced| ==> Sanitize(spaced)[i] == Sanitize(underscored)[i] by {
      forall i | 0 <= i < |spaced|
        ensures Sanitize(spaced)[i] == Sanitize(underscored)[i]
      {
        if i != |front| {
          assert spaced[i] == underscored[i];
        }
      }
    }
    GroupPathsCollide(directory, spaced, underscored);
  }

  /** A batch that no later batch overwrites leaves its rendering in its file. */
  lemma {:induction false} WrittenLast(directory: string, files: FileSystem, batches: ODict<ODict<HostConfig>>, i: nat)
    requires i < |batches|
    requires forall j :: i < j < |batches| ==> GroupFilePath(directory, batches[j].key) != GroupFilePath(directory, batches[i].key)
    ensures GroupFilePath(directory, batches[i].key) in WriteBatches(directory, files, batches)
    ensures WriteBatches(directory, files, batches)[GroupFilePath(directory, batches[i].key)] == Render(batches[i].value)
  {
    var init := batches[..|batches| - 1];
    WriteBatchesStep(directory, files, batches, GroupFilePath(directory, batches[i].key));
    if i < |batches| - 1 {
      assert forall j :: i < j < |init| ==> init[j] == batches[j];
      WrittenLast(directory, files, init, i);
      assert init[i] == batches[i];
    }
  }

  /** The last batch overwrites its own file and no other. */
  lemma WriteBatchesStep(directory: string, files: FileSystem, batches: ODict<ODict<HostConfig>>, path: string)
    requires batches != []
    ensures var before, last := WriteBatches(directory, files, batches[..|batches| - 1]), batches[|batches| - 1];
            var after := WriteBatches(directory, files, batches);
            (path in after <==> path in before || path == GroupFilePath(directory, last.key))
            && (path == GroupFilePath(directory, last.key) ==> after[path] == Render(last.value))
            && (path != GroupFilePath(directory, last.key) && path in before ==> after[path] == before[path])
  {
  }

  /** A path that no batch writes keeps what it held. */
  lemma {:induction false} NotWritten(directory: string, files: FileSystem, batches: ODict<ODict<HostConfig>>, path: string)
    requires forall j :: 0 <= j < |batches| ==> GroupFilePath(directory, batches[j].key) != path
    ensures path in WriteBatches(directory, files, batches) <==> path in files
    ensures path in files ==> WriteBatches(directory, files, batches)[path] == files[path]
  {
    if batches != [] {
      var init := batches[..|batches| - 1];
      assert forall j :: 0 <= j < |init| ==> init[j] == batches[j];
      NotWritten(directory, files, init, path);
    }
  }

  /** `created_files` has one entry per distinct batch name, bound to that name's file. */
  lemma {:induction false} CreatedPathsFacts(directory: string, batches: ODict<ODict<HostConfig>>, name: string)
    ensures DistinctKeys(CreatedPaths(directory, batches))
    ensures name in Keys(CreatedPaths(directory, batches)) <==> name in Keys(batches)
    ensures name in Keys(batches) ==> Get(CreatedPaths(directory, batches), name) == GroupFilePath(directory, name)
  {
    if batches != [] {
      var init, last := batches[..|batches| - 1], batches[|batches| - 1];
      CreatedPathsFacts(directory, init, name);
      KeysOfInit(batches);
      PutDistinct(CreatedPaths(directory, init), last.key, GroupFilePath(directory, last.key));
      PutGet(CreatedPaths(directory, init), last.key, GroupFilePath(directory, last.key), name);
    }
  }

  /** With distinct batch names, `created_files` lists the names in batch order. */
  lemma {:induction false} CreatedPathsOrder(directory: string, batches: ODict<ODict<HostConfig>>)
    requires DistinctKeys(batches)
    ensures Keys(CreatedPaths(directory, batches)) == Keys(batches)
  {
    if batches != [] {
      var init, last := batches[..|batches| - 1], batches[|batches| - 1];
      assert DistinctKeys(init);
      CreatedPathsOrder(directory, init);
      CreatedPathsFacts(directory, init, last.key);
      KeysOfInit(batches);
      assert last.key !in Keys(init);
      PutShape(CreatedPaths(directory, init), last.key, GroupFilePath(directory, last.key));
    }
  }

  // ----- the outcome of `generate_separate_group_files` -----

  /**
   * A group whose sanitised name no other written name shares gets a file holding exactly
   * its servers, unless it is named `ungrouped` and there are ungrouped servers.
   */
  lemma GroupFileContents(records: seq<Record>, directory: string, files: FileSystem, g: string)
    requires g in Keys(Buckets(records))
    requires g != UngroupedName || Collect(records, Ungrouped) == []
    requires forall h :: h in Keys(GroupBatches(records)) && h != g ==> Sanitize(h) != Sanitize(g)
    ensures GroupFilePath(directory, g) in WriteBatches(directory, files, GroupBatches(records))
    ensures WriteBatches(directory, files, GroupBatches(records))[GroupFilePath(directory, g)]
            == Render(Collect(records, InGroup(g)))
  {
    var groups, batches := Buckets(records), GroupBatches(records);
    var i := IndexOf(groups, g);
    BucketsDistinct(records);
    BucketOf(records, g);
    assert batches[i] == groups[i];
    forall j | i < j < |batches|
      ensures GroupFilePath(directory, batches[j].key) != GroupFilePath(directory, g)
    {
      LaterBatchIsOtherGroup(records, g, i, j);
      assert Keys(batches)[j] == batches[j].key;
      GroupPathsCollide(directory, batches[j].key, g);
    }
    WrittenLast(directory, files, batches, i);
  }

  lemma LaterBatchIsOtherGroup(records: seq<Record>, g: string, i: nat, j: nat)
    requires i < j < |GroupBatches(records)| && i < |Buckets(records)| && Buckets(records)[i].key == g
    requires g != UngroupedName || Collect(records, Ungrouped) == []
    ensures GroupBatches(records)[j].key != g
  {
    BucketsDistinct(records);
    var groups := Buckets(records);
    if j < |groups| {
      assert GroupBatches(records)[j] == groups[j];
    }
  }

  /** When there are ungrouped servers, `ungrouped_inventory.yml` holds exactly them, whatever group was written there before. */
  lemma UngroupedFileContents(records: seq<Record>, directory: string, files: FileSystem)
    requires Collect(records, Ungrouped) != []
    ensures GroupFilePath(directory, UngroupedName) in WriteBatches(directory, files, GroupBatches(records))
    ensures WriteBatches(directory, files, GroupBatches(records))[GroupFilePath(directory, UngroupedName)]
            == Render(Collect(records, Ungrouped))
  {
    var batches := GroupBatches(records);
    WrittenLast(directory, files, batches, |batches| - 1);
  }

  /**
   * `created_files` names every group in order of first appearance, then `ungrouped` when
   * there are ungrouped servers and no group of that name already took the entry.
   */
  lemma CreatedFileNames(records: seq<Record>, directory: string)
    ensures Keys(CreatedPaths(directory, GroupBatches(records))) ==
              Keys(Buckets(records))
              + (if Collect(records, Ungrouped) != [] && UngroupedName !in Keys(Buckets(records)) then [UngroupedName] else [])
  {
    var groups, ungrouped := Buckets(records), Collect(records, Ungrouped);
    BucketsDistinct(records);
    CreatedPathsOrder(directory, groups);
    if ungrouped != [] {
      var batches := GroupBatches(records);
      assert batches[..|batches| - 1] == groups;
      CreatedPathsFacts(directory, groups, UngroupedName);
      PutShape(CreatedPaths(directory, groups), UngroupedName, GroupFilePath(directory, UngroupedName));
    } else {
      assert GroupBatches(records) == groups;
    }
  }
}
