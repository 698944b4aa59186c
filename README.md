# Airtable → Ansible inventory monitor, modelled in Dafny

The system polls Airtable tables that list servers. From each poll it does three things:

- It builds a snapshot keyed by the stripped `Server name`.
- It detects added, removed and modified servers against the previous poll.
- It runs a debounce "editing session" that sends one Telegram alert once the data has been quiet for `ALERT_TACTS_TIMEOUT` polls ("tacts").

Whenever the content fingerprint changes, it regenerates Ansible inventory files:

- one file per group;
- an `ungrouped` file;
- a VPN file for the groups `Remnawave-nodes` and `3X-UI`.

This project models three parts:

- the monitor's state machine (`AirtableMonitor`, src/monitor.py);
- the inventory generator (`InventoryGenerator`, src/inventory_generator.py);
- the change-alert formatter (`TelegramNotifier`, src/telegram_notifier.py).

Modules, in dependency order:

- `Wrappers`: `Option`.
- `Text`: Python's `strip`, `lower`, `replace`, `join` and `str(int)` on `seq<char>`.
- `Records`: an Airtable record, `fields.get(name, '')`, truthiness, and the host name.
- `OrderedDicts`: Python's insertion-ordered `dict` as a sequence of bindings. `Put` keeps a re-assigned key in its place.
- `Changes`: `_extract_server_data` and `_detect_changes`.
- `Notifier`: `_format_changes_message` and `send_change_alert`.
- `HostOrder`: `sort_key` and the stable `sorted`.
- `InventoryFile`: the line-by-line writer shared by `save_inventory`, `_create_group_file` and `save_vpn_inventory`.
- `Countries`: `COUNTRY_MAPPING` and `_convert_country_to_code`.
- `Inventory`: the host configs, the host maps (all servers, one group, ungrouped, VPN), the group buckets and the file names.
- `Generator`: the `InventoryGenerator` class. Its `files` field maps a path to the lines last written there.
- `Monitor`: the `AirtableMonitor` class with its session fields.

The following are parameters of the model:

- the fetched tables (`seq<seq<Record>>`, table by table);
- the content fingerprint (an uninterpreted function `seq<Record> -> string`, compared only for equality);
- the outcome of a Telegram send (`delivered: bool`).

Three behaviours of the code are modelled as written, since the code is what runs:

- A change seen during an active session replaces the waiting events with the latest diff. It does not add to them, because the baseline moves on every changed tact (`CheckForChanges`, `RecordChanges`).
- The session flag is cleared before the alert is sent. A failed send therefore keeps its events and tact, but no alert is ever due outside a session, so it is never retried. The next change replaces those events (`QuietTact`, `NoAlertOutsideSession`).
- Two other cases overwrite a file:
  - When there are ungrouped servers, the `ungrouped` batch is written after the groups. It overwrites the file of a group literally named `ungrouped` (`UngroupedFileContents`, `CreatedFileNames`).
  - Two groups whose names differ only by `' '`, `'/'`, `'\\'` or `'_'` share one file, and the later one wins (`GroupPathsCollide`, `SpaceAndUnderscoreShareAFile`).

## Model

| member | source | states |
|---|---|---|
| Text.TrimCharacterization | src/monitor.py:68 | `strip()` yields a string with no white space at either end, obtained by removing a white-space prefix and a white-space suffix |
| Text.TrimIdempotent | src/monitor.py:118-119 | stripping twice is stripping once |
| Text.Lower | src/inventory_generator.py:98 | `lower()` keeps the length and lowers each character |
| Text.ReplaceChar | src/inventory_generator.py:266 | `replace(a, b)` keeps the length and replaces exactly the occurrences of `a` |
| Text.NatToString | src/inventory_generator.py:188 | the printed integer is never empty; that it is the decimal text of the integer is InventoryFile.NatToStringReadsBack |
| Text.BlankCountAppend | src/inventory_generator.py:190-191 | counting empty lines distributes over concatenation |
| OrderedDicts.Keys | src/inventory_generator.py:184 | the key list of a dict has one key per binding, in insertion order |
| OrderedDicts.IndexOf | src/inventory_generator.py:95-96 | a present key is found at its first binding |
| OrderedDicts.GetAt | src/inventory_generator.py:96 | with distinct keys, lookup returns the value bound at the key's position |
| OrderedDicts.PutShape | src/inventory_generator.py:242 | `d[k] = v` keeps the key order, appending `k` only when it is new, and changes only the value at `k` |
| OrderedDicts.PutDistinct | src/inventory_generator.py:242 | assignment keeps the keys distinct |
| OrderedDicts.PutGet | src/inventory_generator.py:151 | after `d[k] = v`, `d[k]` is `v` and every other key keeps its presence and its value |
| Changes.ExtractServerData | src/monitor.py:64-74 | the loop builds exactly `SnapshotOf(records)` |
| Changes.SnapshotKeys | src/monitor.py:66-70 | a name is a key iff it is non-blank and some record's stripped `Server name` equals it |
| Changes.SnapshotStep | src/monitor.py:66-70 | one more record adds its own non-blank name to the keys and removes none |
| Changes.SnapshotLastWins | src/monitor.py:69-73 | the last record carrying a name is the one kept |
| Changes.SnapshotWellKeyed | src/monitor.py:68-70 | every key is non-blank, stripped, and the name of the record it maps to |
| Changes.CompareWatchedFields | src/monitor.py:116-121 | the inner loop returns the watched fields whose stripped values differ, in watch-list order |
| Changes.DetectChanges | src/monitor.py:76-136 | the result enumerates each changed name exactly once, with its event, added before removed before modified |
| Changes.AppendAdditions | src/monitor.py:86-97 | one added event per name only in the current snapshot |
| Changes.AppendRemovals | src/monitor.py:99-110 | one removed event per name only in the previous snapshot, after the additions |
| Changes.AppendModifications | src/monitor.py:112-134 | one modified event per common name with a changed watched field, after the rest |
| Changes.ChangedAmongMembers | src/monitor.py:117-121 | a field is listed iff it is watched and differs after stripping |
| Changes.ModifiedIffWatchedFieldDiffers | src/monitor.py:112-134 | a common name is reported iff some watched field differs after stripping, and its event lists exactly those fields |
| Changes.NothingDiffersFromItself | src/monitor.py:118-121 | no field differs between a record and itself |
| Changes.EmptyDiffIff | src/monitor.py:200 | the diff is empty iff no name changed |
| Changes.DiffOfItselfIsEmpty | src/monitor.py:76-136 | diffing a snapshot against itself yields no events |
| Changes.OneEvent | src/monitor.py:76-136 | a diff of a single changed name is that name's event |
| Changes.TwoInRankOrder | src/monitor.py:86-134 | two changed names of different kinds are listed in kind order |
| Changes.RenameIsRemovalPlusAddition | src/monitor.py:82-110 | a rename is exactly one added event (new name) followed by one removed event (old name) |
| Changes.AdditionsOnly | src/monitor.py:82-97 | adding servers next to an unchanged snapshot reports only additions, one per new name |
| Changes.UnwatchedFieldIgnored | src/monitor.py:117 | changing a field outside the watch-list (a password, say) changes no watched field |
| Changes.SingleWatchedFieldChange | src/monitor.py:112-134 | changing one watched field of one server yields exactly one modified event listing exactly that field |
| Notifier.FormatChangesMessage | src/telegram_notifier.py:44-73 | the loop builds exactly `Message(changes)` |
| Notifier.FormatChange | src/telegram_notifier.py:48-71 | the parts of one event: the type line(s), the details line, then an empty part |
| Notifier.FormatDetails | src/telegram_notifier.py:64-67 | the `key: value` texts of the non-empty details, in order |
| Notifier.SendChangeAlert | src/telegram_notifier.py:37-42 | an empty list returns True and sends nothing; otherwise the formatted message is sent and the send's outcome returned |
| Notifier.DetailTextsFacts | src/telegram_notifier.py:65-67 | every detail with a value appears as `key: value`, and nothing else does |
| Notifier.EmptyDetailsAddNothing | src/telegram_notifier.py:68-69 | details whose values are all empty add no line |
| Notifier.BlockHasOneBlank | src/telegram_notifier.py:71 | each event contributes exactly one empty part |
| Notifier.BlankPartsCountEvents | src/telegram_notifier.py:47-71 | the parts after the title hold exactly one empty part per event |
| Notifier.MessageOpensWithTitle | src/telegram_notifier.py:45 | the message starts with the title, followed by a newline when there are events |
| Notifier.BlocksFlatten | src/telegram_notifier.py:47-71 | the parts after the title are the events' own parts, concatenated in event order |
| Notifier.PartIsListed | src/telegram_notifier.py:47-71 | in such a concatenation each event's parts appear contiguously, right after those of the events before it |
| Notifier.EventIsAnnounced | src/telegram_notifier.py:51-56 | every added, removed or modified event has its own type line with the server name |
| Notifier.OneTypeLine | src/telegram_notifier.py:47-71 | an added, removed or modified event's parts open with its type line naming the server, and none of its other parts is a type line |
| Notifier.BlockTypeLineCount | src/telegram_notifier.py:47-71 | one event's parts hold exactly one type line, or none for an unknown type |
| Notifier.BlocksTypeLines | src/telegram_notifier.py:47-73 | the event parts of the message hold one type line per added, removed or modified event |
| Notifier.TypeLinesCountEvents | src/telegram_notifier.py:44-73 | the message holds exactly one type line per added, removed or modified event, and the title is none |
| Notifier.OtherKindHasNoTypeLine | src/telegram_notifier.py:51-56 | an event of another type contributes only its details line and its empty part, and no type line |
| Notifier.ModifiedListsFields | src/telegram_notifier.py:57-60 | a modification with changed fields lists them, joined by `", "`, on the line after its type line |
| HostOrder.LeadingDigits | src/inventory_generator.py:174 | the longest digit prefix: all digits, and the next character is not one |
| HostOrder.FirstDigitRun | src/inventory_generator.py:174 | a found run is a non-empty string of digits |
| HostOrder.SortKeyOfDigitRun | src/inventory_generator.py:172-177 | a name whose first digit run is `run` has the decimal value of `run` as its key |
| HostOrder.SortKeyWithoutDigits | src/inventory_generator.py:177 | a name without digits has key 999999 |
| HostOrder.SortHostsFacts | src/inventory_generator.py:179 | the sort orders by key, is a permutation, and keeps hosts with equal keys in input order |
| HostOrder.SortExample | src/inventory_generator.py:172-179 | `srv10, srv2, srv1, gateway` sorts as `srv1, srv2, srv10, gateway` |
| HostOrder.SortOfFour | src/inventory_generator.py:179 | four hosts with strictly ordered keys come out in key order |
| InventoryFile.Spaces | src/inventory_generator.py:182 | the indentation is exactly `n` spaces |
| InventoryFile.ConfigLines | src/inventory_generator.py:184-188 | one key line per setting, in insertion order |
| InventoryFile.NatToStringReadsBack | src/inventory_generator.py:187-188 | an integer setting is written as decimal digits that read back as the integer |
| InventoryFile.PortTexts | src/inventory_generator.py:187-188 | the ports 22 and 11041 are written as `22` and `11041` |
| InventoryFile.PlainValueExample | src/inventory_generator.py:184-188 | `10.0.0.1`, with no space or colon, is written unquoted |
| InventoryFile.QuotedValueExample | src/inventory_generator.py:184-185 | `New York, US` is written in double quotes |
| InventoryFile.PortValueExample | src/inventory_generator.py:186-188 | the port 11041 is written unquoted as `11041` |
| InventoryFile.RenderRoundTrip | src/inventory_generator.py:164-191 | reading back the host lines of a written file gives the host names in `sort_key` order |
| InventoryFile.HostNamesOfSections | src/inventory_generator.py:181-191 | the host blocks list exactly the hosts, in order |
| InventoryFile.HostNamesOfSection | src/inventory_generator.py:182-188 | a block lists exactly its own host |
| InventoryFile.ConfigLinesAreNotHostLines | src/inventory_generator.py:184-188 | a key line (20 spaces) is never read as a host line |
| InventoryFile.HeaderListsNoHost | src/inventory_generator.py:164-168 | the header lists no host |
| InventoryFile.ShortLinesListNoHost | src/inventory_generator.py:182 | lines of at most 17 characters list no host |
| InventoryFile.SectionHasNoBlank | src/inventory_generator.py:182-188 | a host block has no empty line |
| InventoryFile.ConfigLinesHaveNoBlank | src/inventory_generator.py:184-188 | key lines are never empty |
| InventoryFile.BlankLinesBetweenHosts | src/inventory_generator.py:190-191 | exactly one empty line between consecutive hosts and none after the last |
| InventoryFile.LastLineNotBlank | src/inventory_generator.py:182-188 | a block does not end in an empty line |
| InventoryFile.SectionsLength | src/inventory_generator.py:181-191 | a file body has one line per host and per setting plus the separators |
| Countries.CountryMapping | src/inventory_generator.py:7-80 | the table has its 72 entries |
| Countries.CaseInsensitiveMatch | src/inventory_generator.py:98-101 | the first entry whose lower-cased name equals the lowered input, or none exists |
| Countries.FirstMatchFound | src/inventory_generator.py:98-101 | when entry `i` is the first whose lower-cased name matches, the search returns exactly `i` |
| Countries.ConvertCountryToCode | src/inventory_generator.py:89-104 | the method returns `CodeFor(table, name)` |
| Countries.ExactMatchAt | src/inventory_generator.py:93-96 | an exact match of the stripped name gives that entry's code |
| Countries.CaseInsensitiveAt | src/inventory_generator.py:98-101 | without an exact match, the first case-insensitive match gives the code |
| Countries.UnknownNameKept | src/inventory_generator.py:103-104 | an unknown name is returned stripped |
| Countries.CodeForResult | src/inventory_generator.py:89-104 | the result is the empty input, the stripped input, or a code of the table |
| Countries.DeutschlandExample | src/inventory_generator.py:89-96 | `Deutschland` gives `DE` |
| Countries.GermanyExample | src/inventory_generator.py:98-101 | `germany` gives `DE` through the case-insensitive search |
| Countries.GermanyIsNotAKey | src/inventory_generator.py:7-80 | `germany` is not an exact key, so the search above is needed |
| Countries.NamesAreCapitalised | src/inventory_generator.py:7-80 | every name in the table starts with a capital letter |
| Inventory.HostConfigKeys | src/inventory_generator.py:128-147 | the settings are the five required ones, then each optional one exactly when its raw field is truthy, in source order |
| Inventory.VpnHostConfigKeys | src/inventory_generator.py:349-367 | a VPN host always has `group` sixth, then the optional settings without `group` |
| Inventory.VpnGroupSetting | src/inventory_generator.py:355 | a VPN host's `group` is its stripped group |
| Inventory.PortSetting | src/inventory_generator.py:125-126 | `ansible_port` is 22 iff the stripped status lower-cases to `new`, otherwise 11041 |
| Inventory.WhitespaceOnlyOsName | src/inventory_generator.py:139-140 | a white-space-only `OS Name` still adds `os_name`, as the empty string |
| Inventory.OsNameSetting | src/inventory_generator.py:128-140 | with a non-empty raw `OS Name`, `os_name` is the sixth setting, or the seventh after a password, and no earlier setting has that key |
| Inventory.OptionalKeys | src/inventory_generator.py:136-147 | an optional setting is present iff its raw field is truthy |
| Inventory.RequiredSettingsKeys | src/inventory_generator.py:128-134 | the five required settings are always present, in order |
| Inventory.LocationKeys | src/inventory_generator.py:143-145 | `location` is present iff the raw `Location` is truthy |
| Inventory.ExtraKeys | src/inventory_generator.py:136-142 | password, OS name and provider settings, each iff its raw field is truthy |
| Inventory.CollectDistinct | src/inventory_generator.py:151 | a host map never lists a name twice |
| Inventory.CollectHas | src/inventory_generator.py:117-151 | a selected record with a non-blank name is listed |
| Inventory.CollectFrom | src/inventory_generator.py:117-151 | every listed name is non-blank and comes from a selected record |
| Inventory.CollectKeys | src/inventory_generator.py:117-151 | a host is listed iff a selected record carries its non-blank stripped name (all, one group, ungrouped or VPN) |
| Inventory.CollectKeysStep | src/inventory_generator.py:117-151 | one more record adds its name to the listed names exactly when it is named and selected, and removes none |
| Inventory.CollectLastWins | src/inventory_generator.py:151 | the last selected record with a name supplies that host's settings |
| Inventory.CollectNamesReadable | src/inventory_generator.py:120-123 | listed names are non-blank and stripped, so the file lists them back |
| Inventory.BucketsDistinct | src/inventory_generator.py:238-242 | the group map never lists a group twice |
| Inventory.BucketOf | src/inventory_generator.py:238-242 | a group has a bucket iff it is non-empty and holds a server, and the bucket is exactly that group's host map |
| Inventory.BucketFiledSame | src/inventory_generator.py:240-242 | a record adds itself to its own group's bucket |
| Inventory.BucketFiledOther | src/inventory_generator.py:238-242 | a record of another group leaves a bucket unchanged |
| Inventory.ServerFiled | src/inventory_generator.py:238-246 | each named server is listed, and filed under its group, or among the ungrouped when it has none |
| Inventory.SanitizeFacts | src/inventory_generator.py:266 | sanitising keeps the length, replaces space and both slashes by `_`, and keeps every other character |
| Generator.InventoryGenerator.constructor | src/inventory_generator.py:85-87 | stores the output path and format |
| Generator.InventoryGenerator.BuildHostConfig | src/inventory_generator.py:125-147 | the settings loop builds `HostConfigFor(fields)` |
| Generator.InventoryGenerator.BuildVpnHostConfig | src/inventory_generator.py:346-367 | the VPN settings build `VpnHostConfigFor(fields)` |
| Generator.InventoryGenerator.OptionalSettings | src/inventory_generator.py:136-142 | the optional settings before `location` |
| Generator.InventoryGenerator.GenerateInventory | src/inventory_generator.py:106-155 | the loop builds the host map of all named servers |
| Generator.InventoryGenerator.CollectVpnHosts | src/inventory_generator.py:326-371 | the loop builds the host map of the VPN-group servers |
| Generator.InventoryGenerator.WriteInventoryFile | src/inventory_generator.py:163-191 | the file at `path` becomes `Render(hosts)` and no other file changes |
| Generator.InventoryGenerator.HostBlock | src/inventory_generator.py:182-188 | one host's lines, with the quoting rule |
| Generator.InventoryGenerator.SaveInventory | src/inventory_generator.py:157-198 | writes `Render(hosts)` to `output_path/filename` and returns that path |
| Generator.InventoryGenerator.GenerateFromAirtable | src/inventory_generator.py:428-430 | writes the all-servers map to `output_path/filename` |
| Generator.InventoryGenerator.CreateGroupFile | src/inventory_generator.py:263-305 | writes a group's file at the joined sanitised path |
| Generator.InventoryGenerator.GenerateSeparateGroupFiles | src/inventory_generator.py:200-261 | writes each group's batch, then the ungrouped one if any, and returns the created paths |
| Generator.InventoryGenerator.GroupServers | src/inventory_generator.py:204-246 | the loop builds the group buckets and the ungrouped host map |
| Generator.InventoryGenerator.CreateGroupFiles | src/inventory_generator.py:250-252 | writes the batches in order and records their paths |
| Generator.InventoryGenerator.SaveVpnInventory | src/inventory_generator.py:385-426 | writes `Render(hosts)` to `output_path/filename` |
| Generator.InventoryGenerator.GenerateVpnInventory | src/inventory_generator.py:307-383 | writes the VPN host map to `all-vpn-servers.yml` |
| Generator.GroupFileNameIsRelative | src/inventory_generator.py:266-268 | a group file name never starts with `/`, so the join stays inside the output directory |
| Generator.GroupPathsCollide | src/inventory_generator.py:266-268 | two groups share a file iff their sanitised names are equal |
| Generator.SpaceAndUnderscoreShareAFile | src/inventory_generator.py:266 | names that differ by a space versus an underscore share a file |
| Generator.WrittenLast | src/inventory_generator.py:250-256 | a batch that no later batch overwrites leaves its render in its file |
| Generator.WriteBatchesStep | src/inventory_generator.py:250-256 | writing one more group file sets that path to the group's render and leaves every other path as it was |
| Generator.NotWritten | src/inventory_generator.py:250-256 | a path no batch targets keeps its previous contents |
| Generator.CreatedPathsFacts | src/inventory_generator.py:248-256 | `created_files` names exactly the batches, each with its path |
| Generator.CreatedPathsOrder | src/inventory_generator.py:250-252 | with distinct names, `created_files` lists the groups in order |
| Generator.GroupFileContents | src/inventory_generator.py:238-256 | a group whose sanitised name is unshared gets a file holding exactly its servers |
| Generator.UngroupedFileContents | src/inventory_generator.py:254-256 | with ungrouped servers, the `ungrouped` file holds exactly them, overwriting any group of that name |
| Generator.CreatedFileNames | src/inventory_generator.py:248-256 | the groups in order of first appearance, then `ungrouped` when there are ungrouped servers and no such group |
| Monitor.GatherRecords | src/monitor.py:177-180 | the loop concatenates the tables in order |
| Monitor.ConcatMembers | src/monitor.py:177-180 | a record is gathered iff some table holds it |
| Monitor.ConcatEmpty | src/monitor.py:243-250 | nothing is gathered iff every table is empty |
| Monitor.AirtableMonitor.constructor | src/monitor.py:48-55 | no hash, an empty baseline, no waiting events, no tact, counter 0, no session |
| Monitor.AirtableMonitor.ShouldSendAlert | src/monitor.py:138-149 | due iff events wait, a session is active, a tact is recorded and the timeout has passed since it |
| Monitor.AirtableMonitor.SendPendingAlert | src/monitor.py:151-169 | nothing waiting: True and no change. Otherwise the message is sent when a notifier exists, and success or no notifier resets the session. A failed send returns False and changes nothing |
| Monitor.AirtableMonitor.CheckForChanges | src/monitor.py:171-235 | True iff the fingerprint differs from the stored one. First load: store hash and baseline, session untouched. Changed data: store both; a non-empty diff (re)starts the session at this tact and replaces the waiting events by exactly this diff. Quiet: False, the counter grows during a session, and a due alert ends the session before sending |
| Monitor.AirtableMonitor.RecordChanges | src/monitor.py:200-214 | a non-empty diff restarts the session and replaces the waiting events; the baseline and hash always move |
| Monitor.AirtableMonitor.QuietTact | src/monitor.py:216-231 | no session: nothing changes. Otherwise the counter grows, and a due alert clears the session; a failed send keeps events and tact |
| Monitor.AirtableMonitor.UpdateInventory | src/monitor.py:237-267 | no records: False and no file written. Otherwise the group files and the VPN file are written, `vpn_servers` is added to the created files, and the result is True |
| Monitor.AirtableMonitor.RunSingleCheck | src/monitor.py:269-287 | the inventory is regenerated, from a fresh fetch, iff the check reported a change and that fetch is non-empty; the monitor's hash, baseline, waiting events and session, and the alert handed over, are those `check_for_changes` leaves, branch by branch |
| Monitor.AlertTimingExample | src/monitor.py:138-149 | timeout 5 and a change at tact 10: not due at tacts 10–14, due at 15 |
| Monitor.RestartExample | src/monitor.py:138-206 | with timeout 5, a session opened at tact 10 and a further change at tact 13, the alert due at 15 is no longer due at 15 or 17, and is due at 18 |
| Monitor.AlertStaysDue | src/monitor.py:148-149 | once due, an alert stays due at later tacts |
| Monitor.NoAlertOutsideSession | src/monitor.py:145-146 | outside a session no alert is due, so a failed alert is never retried |

## Left out

- HTTP access: Airtable pagination and requests, Telegram `send_message` and both `test_connection` methods. The fetched tables and the send outcome are parameters.
- A failed table fetch becomes an empty table in the Airtable client. The model takes the tables as given, so that case is just an input.
- `_get_data_hash` (MD5 over sorted JSON) is an uninterpreted `fingerprint` function, used only for the equal/unequal gate.
- Logging, `last_check_time` and the `vpn_servers_found` / `all_groups_found` counters feed only log lines.
- The `start_monitoring` sleep loop, `KeyboardInterrupt`, the `main.py` command line and `config.py` are left out. Configuration values are constructor parameters.
- The `except` branches of `check_for_changes`, `update_inventory` and `run_single_check` are not modelled. The fetch never raises: the client turns each failure into an empty table. Directory creation and file writes are modelled as never failing.
- `os.makedirs` is left out. A file's contents are the lines written, without their newline terminators.
- InventoryFile.BlankLinesBetweenHosts and InventoryFile.SectionsLength count the lines written, each ended by one newline. Values are stripped only at their ends, so a value with an embedded newline makes one written line two lines of the file. For such values these counts describe the writes, not the lines read back.
- Field values are modelled as strings. A non-string Airtable value (a number, a list) would make `.strip()` raise.
- The `v is not None` filter of the host configs is not modelled: no value can be `None` there.
- `format_type` is stored but never used by the code.
- The nested `all/children/servers/hosts` dict is modelled as its innermost host map.
- Countries.ConvertCountryToCode takes the mapping as a parameter. `CountryCode` applies it to `COUNTRY_MAPPING`.
- Text.Lower lowers only ASCII and Cyrillic (U+0400–U+042F) capitals, the only capitals in `COUNTRY_MAPPING`. Other capitals in an input, such as accented Latin ones, are kept, where Python would lower them.
- HostOrder.SortKey uses ASCII digits. Python's `\d` also matches other Unicode decimal digits.
- `created_files` is returned by UpdateInventory only so that its contents can be stated. The code only logs it.
