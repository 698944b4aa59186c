/**
 * The YAML-like inventory file the generator writes (`save_inventory`,
 * `_create_group_file`, `save_vpn_inventory`), as the sequence of its lines, each
 * line written without its terminating newline.
 */
module InventoryFile {
  import opened Text
  import opened OrderedDicts
  import opened HostOrder

  /** A host-config value: the generator stores strings and the integer SSH port. */
  datatype Value = Str(s: string) | Int(n: nat)

  /** A host's settings, in insertion order. */
  type HostConfig = ODict<Value>

  /** The fixed opening lines of every inventory file. */
  const Header: seq<string> := ["---", "all:", "    children:", "        servers:", "            hosts:"]

  function Spaces(n: nat): (r: string)
    ensures |r| == n && forall i :: 0 <= i < n ==> r[i] == ' '
  {
    if n == 0 then "" else Spaces(n - 1) + " "
  }

  /** A string value containing a space or a colon is written in double quotes. */
  predicate NeedsQuotes(s: string) {
    ' ' in s || ':' in s
  }

  function FormatValue(v: Value): string {
    match v
    case Str(s) => if NeedsQuotes(s) then "\"" + s + "\"" else s
    case Int(n) => NatToString(n)
  }

  /** The decimal digit written for `d` reads back as `d`. */
  lemma DigitCharValue(d: nat)
    requires d < 10
    ensures IsDigit(DigitChar(d)) && DigitChar(d) as int - '0' as int == d
  {
  }

  /** `int(str(n)) == n`: the port is written in decimal digits that read back as the port. */
  lemma {:induction false} NatToStringReadsBack(n: nat)
    ensures AllDigits(NatToString(n)) && DecimalValue(NatToString(n)) == n
  {
    var s := NatToString(n);
    if n < 10 {
      DigitCharValue(n);
      assert s[..0] == [];
    } else {
      NatToStringReadsBack(n / 10);
      DigitCharValue(n % 10);
      assert s[..|s| - 1] == NatToString(n / 10);
      assert s[|s| - 1] == DigitChar(n % 10);
    }
  }

  /** The two ports the generator writes. */
  lemma PortTexts()
    ensures NatToString(22) == "22" && NatToString(11041) == "11041"
  {
    assert NatToString(2) == "2" && NatToString(1) == "1";
    assert NatToString(22) == "22";
    assert NatToString(11) == "11";
    assert NatToString(110) == "110";
    assert NatToString(1104) == "1104";
  }

  /** A value without spaces or colons is written as is. */
  lemma PlainValueExample()
    ensures FormatValue(Str("10.0.0.1")) == "10.0.0.1"
  {
    var s := "10.0.0.1";
    forall i | 0 <= i < |s|
      ensures s[i] != ' ' && s[i] != ':'
    {
    }
  }

  /** A value with a space is written in double quotes. */
  lemma QuotedValueExample()
    ensures FormatValue(Str("New York, US")) == "\"New York, US\""
  {
    assert "New York, US"[3] == ' ';
  }

  /** The port is written in decimal, without quotes. */
  lemma PortValueExample()
    ensures FormatValue(Int(11041)) == "11041"
  {
    PortTexts();
  }

  /** The line that opens a host's block: the name at 16 spaces, then a colon. */
  function HostLine(name: string): string {
    Spaces(16) + name + ":"
  }

  /** One setting of a host: the key at 20 spaces, then `: ` and the formatted value. */
  function KeyLine(key: string, v: Value): string {
    Spaces(20) + key + ": " + FormatValue(v)
  }

  function ConfigLines(config: HostConfig): (r: seq<string>)
    ensures |r| == |config|
    ensures forall i :: 0 <= i < |config| ==> r[i] == KeyLine(config[i].key, config[i].value)
  {
    if config == [] then []
    else ConfigLines(config[..|config| - 1]) + [KeyLine(config[|config| - 1].key, config[|config| - 1].value)]
  }

  function Section(host: Binding<HostConfig>): seq<string> {
    [HostLine(host.key)] + ConfigLines(host.value)
  }

  /** The host blocks in order, with one blank line between consecutive blocks and none after the last. */
  function Sections(hosts: seq<Binding<HostConfig>>): seq<string> {
    if hosts == [] then []
    else if |hosts| == 1 then Section(hosts[0])
    else Sections(hosts[..|hosts| - 1]) + [""] + Section(hosts[|hosts| - 1])
  }

  /** The whole file for a host map: the header, then the hosts in `sort_key` order. */
  function Render(hosts: ODict<HostConfig>): seq<string> {
    Header + Sections(SortHosts(hosts))
  }

  // ----- reading the file back -----

  /** A line that opens a host block: exactly 16 spaces of indentation, a name, a final colon. */
  predicate IsHostLine(line: string) {
    |line| > 17 && line[..16] == Spaces(16) && line[16] != ' ' && line[|line| - 1] == ':'
  }

  /** The host names listed in a file, in file order. */
  function HostNames(lines: seq<string>): seq<string> {
    if lines == [] then []
    else
      var line := lines[|lines| - 1];
      HostNames(lines[..|lines| - 1]) + (if IsHostLine(line) then [line[16..|line| - 1]] else [])
  }

  lemma {:induction false} HostNamesAppend(a: seq<string>, b: seq<string>)
    ensures HostNames(a + b) == HostNames(a) + HostNames(b)
  {
    if b == [] {
      assert a + b == a;
    } else {
      assert (a + b)[..|a + b| - 1] == a + b[..|b| - 1];
      assert (a + b)[|a + b| - 1] == b[|b| - 1];
      HostNamesAppend(a, b[..|b| - 1]);
    }
  }

  /** A host name the model can read back: non-empty and not starting with a space. */
  predicate Readable(name: string) {
    name != [] && name[0] != ' '
  }

  lemma HostNamesOfSection(host: Binding<HostConfig>)
    requires Readable(host.key)
    ensures HostNames(Section(host)) == [host.key]
  {
    var line := HostLine(host.key);
    assert line[..16] == Spaces(16) && line[16] == host.key[0] && line[16..|line| - 1] == host.key;
    assert HostNames([line]) == [host.key];
    ConfigLinesAreNotHostLines(host.value);
    HostNamesAppend([line], ConfigLines(host.value));
  }

  lemma {:induction false} ConfigLinesAreNotHostLines(config: HostConfig)
    ensures HostNames(ConfigLines(config)) == []
  {
    if config != [] {
      var init := config[..|config| - 1];
      ConfigLinesAreNotHostLines(init);
      var line := KeyLine(config[|config| - 1].key, config[|config| - 1].value);
      assert line[16] == ' ';
      HostNamesAppend(ConfigLines(init), [line]);
    }
  }

  lemma {:induction false} HostNamesOfSections(hosts: seq<Binding<HostConfig>>)
    requires forall i :: 0 <= i < |hosts| ==> Readable(hosts[i].key)
    ensures HostNames(Sections(hosts)) == Keys(hosts)
  {
    if |hosts| == 1 {
      HostNamesOfSection(hosts[0]);
    } else if |hosts| > 1 {
      var init, last := hosts[..|hosts| - 1], hosts[|hosts| - 1];
      assert forall i :: 0 <= i < |init| ==> init[i] == hosts[i];
      HostNamesOfSections(init);
      HostNamesOfSection(last);
      var s := Sections(init);
      assert Sections(hosts) == (s + [""]) + Section(last);
      HostNamesAppend(s + [""], Section(last));
      HostNamesAppend(s, [""]);
      assert HostNames([""]) == [];
      assert HostNames(s + [""]) == Keys(init);
      KeysOfInit(hosts);
    }
  }

  /** Reading the host lines of a written file back gives the host names in `sort_key` order. */
  lemma RenderRoundTrip(hosts: ODict<HostConfig>)
    requires forall i :: 0 <= i < |hosts| ==> Readable(hosts[i].key)
    ensures HostNames(Render(hosts)) == Keys(SortHosts(hosts))
  {
    var sorted := SortHosts(hosts);
    SortHostsFacts(hosts);
    forall i | 0 <= i < |sorted|
      ensures Readable(sorted[i].key)
    {
      assert sorted[i] in multiset(hosts);
    }
    HostNamesOfSections(sorted);
    HeaderListsNoHost();
    HostNamesAppend(Header, Sections(sorted));
  }

  lemma HeaderListsNoHost()
    ensures HostNames(Header) == []
  {
    var h := Header;
    assert h[..4] == ["---", "all:", "    children:", "        servers:"];
    ShortLinesListNoHost(h[..4]);
    assert h[4][..16][12] == 'h';
  }

  lemma {:induction false} ShortLinesListNoHost(lines: seq<string>)
    requires forall i :: 0 <= i < |lines| ==> |lines[i]| <= 17
    ensures HostNames(lines) == []
  {
    if lines != [] {
      ShortLinesListNoHost(lines[..|lines| - 1]);
    }
  }

  // ----- shape of the file -----

  lemma {:induction false} SectionHasNoBlank(host: Binding<HostConfig>)
    ensures BlankCount(Section(host)) == 0
  {
    ConfigLinesHaveNoBlank(host.value);
    BlankCountAppend([HostLine(host.key)], ConfigLines(host.value));
  }

  lemma {:induction false} ConfigLinesHaveNoBlank(config: HostConfig)
    ensures BlankCount(ConfigLines(config)) == 0
  {
    if config != [] {
      ConfigLinesHaveNoBlank(config[..|config| - 1]);
    }
  }

  /** Exactly one blank line separates each pair of consecutive host blocks, and there is none after the last. */
  lemma {:induction false} BlankLinesBetweenHosts(hosts: seq<Binding<HostConfig>>)
    ensures BlankCount(Sections(hosts)) == if hosts == [] then 0 else |hosts| - 1
    ensures hosts != [] ==> Sections(hosts)[|Sections(hosts)| - 1] != ""
  {
    if |hosts| == 1 {
      SectionHasNoBlank(hosts[0]);
      LastLineNotBlank(hosts[0]);
    } else if |hosts| > 1 {
      var init, last := hosts[..|hosts| - 1], hosts[|hosts| - 1];
      BlankLinesBetweenHosts(init);
      SectionHasNoBlank(last);
      LastLineNotBlank(last);
      BlankCountAppend(Sections(init) + [""], Section(last));
      BlankCountAppend(Sections(init), [""]);
    }
  }

  lemma LastLineNotBlank(host: Binding<HostConfig>)
    ensures Section(host)[|Section(host)| - 1] != ""
  {
  }

  /** A file has the 5 header lines, one line per host and per setting, and the separators. */
  lemma {:induction false} SectionsLength(hosts: seq<Binding<HostConfig>>)
    ensures |Sections(hosts)| == SettingCount(hosts) + 2 * |hosts| - (if hosts == [] then 0 else 1)
  {
    if |hosts| > 1 {
      SectionsLength(hosts[..|hosts| - 1]);
    }
  }

  /** The total number of settings of the hosts. */
  function SettingCount(hosts: seq<Binding<HostConfig>>): nat {
    if hosts == [] then 0 else SettingCount(hosts[..|hosts| - 1]) + |hosts[|hosts| - 1].value|
  }
}
