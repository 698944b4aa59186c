/**
 * The order in which the inventory writers list hosts: `sorted(servers.items(),
 * key=...)` with `sort_key` = the integer value of the first run of digits in the
 * host name, or 999999 when the name has no digit. Python's sort is stable.
 */
module HostOrder {
  import opened Wrappers
  import opened OrderedDicts

  /** The key of a host name without any digit. */
  const NoDigitsKey: nat := 999999

  predicate IsDigit(c: char) {
    '0' <= c <= '9'
  }

  predicate AllDigits(s: string) {
    forall i :: 0 <= i < |s| ==> IsDigit(s[i])
  }

  /** `int(s)` for a string of decimal digits. */
  function DecimalValue(s: string): nat
    requires AllDigits(s)
  {
    if s == [] then 0 else 10 * DecimalValue(s[..|s| - 1]) + (s[|s| - 1] as int - '0' as int)
  }

  /** The longest prefix of `s` made of digits. */
  function LeadingDigits(s: string): (r: string)
    ensures AllDigits(r) && r <= s
    ensures |r| < |s| ==> !IsDigit(s[|r|])
  {
    if s != [] && IsDigit(s[0]) then [s[0]] + LeadingDigits(s[1..]) else []
  }

  /** `re.findall(r'\d+', s)[0]`, when there is a match. */
  function FirstDigitRun(s: string): (r: Option<string>)
    ensures r.Some? ==> r.value != [] && AllDigits(r.value)
  {
    if s == [] then None
    else if IsDigit(s[0]) then Some(LeadingDigits(s))
    else FirstDigitRun(s[1..])
  }

  /** `sort_key(server_name)` */
  function SortKey(name: string): nat {
    match FirstDigitRun(name)
    case None => NoDigitsKey
    case Some(run) => DecimalValue(run)
  }

  /** A name made of a digit-free prefix, a run of digits and a rest not starting with a digit is keyed by that run. */
  lemma {:induction false} SortKeyOfDigitRun(prefix: string, run: string, rest: string)
    requires !exists i :: 0 <= i < |prefix| && IsDigit(prefix[i])
    requires run != [] && AllDigits(run)
    requires rest == [] || !IsDigit(rest[0])
    ensures FirstDigitRun(prefix + run + rest) == Some(run)
    ensures SortKey(prefix + run + rest) == DecimalValue(run)
  {
    var s := prefix + run + rest;
    if prefix == [] {
      LeadingDigitsOfRun(run, rest);
      assert s == run + rest;
    } else {
      assert !IsDigit(prefix[0]);
      SortKeyOfDigitRun(prefix[1..], run, rest);
      assert s[1..] == prefix[1..] + run + rest;
    }
  }

  lemma {:induction false} LeadingDigitsOfRun(run: string, rest: string)
    requires AllDigits(run)
    requires rest == [] || !IsDigit(rest[0])
    ensures LeadingDigits(run + rest) == run
  {
    if run != [] {
      LeadingDigitsOfRun(run[1..], rest);
      assert (run + rest)[1..] == run[1..] + rest;
    }
  }

  /** A name without digits sorts after every name whose digits are below 999999. */
  lemma {:induction false} SortKeyWithoutDigits(name: string)
    requires !exists i :: 0 <= i < |name| && IsDigit(name[i])
    ensures FirstDigitRun(name) == None && SortKey(name) == NoDigitsKey
  {
    if name != [] {
      assert !IsDigit(name[0]);
      SortKeyWithoutDigits(name[1..]);
    }
  }

  // ----- the stable sort -----

  predicate SortedByKey<V>(s: seq<Binding<V>>) {
    forall i, j :: 0 <= i < j < |s| ==> SortKey(s[i].key) <= SortKey(s[j].key)
  }

  /** Places `b` after every element whose key is not larger than its own. */
  function Insert<V>(s: seq<Binding<V>>, b: Binding<V>): seq<Binding<V>> {
    if s == [] || SortKey(s[|s| - 1].key) <= SortKey(b.key) then s + [b]
    else Insert(s[..|s| - 1], b) + [s[|s| - 1]]
  }

  /** `sorted(d.items(), key=lambda x: sort_key(x[0]))`, as a stable insertion sort. */
  function SortHosts<V>(d: seq<Binding<V>>): seq<Binding<V>> {
    if d == [] then [] else Insert(SortHosts(d[..|d| - 1]), d[|d| - 1])
  }

  /** The elements of `s` whose key is `n`, in order. */
  function WithKey<V>(s: seq<Binding<V>>, n: nat): seq<Binding<V>> {
    if s == [] then []
    else WithKey(s[..|s| - 1], n) + (if SortKey(s[|s| - 1].key) == n then [s[|s| - 1]] else [])
  }

  lemma {:induction false} WithKeyAppend<V>(s: seq<Binding<V>>, t: seq<Binding<V>>, n: nat)
    ensures WithKey(s + t, n) == WithKey(s, n) + WithKey(t, n)
  {
    if t != [] {
      assert (s + t)[..|s + t| - 1] == s + t[..|t| - 1];
      assert (s + t)[|s + t| - 1] == t[|t| - 1];
      WithKeyAppend(s, t[..|t| - 1], n);
    } else {
      assert s + t == s;
    }
  }

  lemma {:induction false} InsertElements<V>(s: seq<Binding<V>>, b: Binding<V>)
    ensures multiset(Insert(s, b)) == multiset(s) + multiset{b}
  {
    if !(s == [] || SortKey(s[|s| - 1].key) <= SortKey(b.key)) {
      var init := s[..|s| - 1];
      assert s == init + [s[|s| - 1]];
      InsertElements(init, b);
    }
  }

  lemma {:induction false} InsertSorted<V>(s: seq<Binding<V>>, b: Binding<V>)
    requires SortedByKey(s)
    ensures SortedByKey(Insert(s, b))
  {
    if !(s == [] || SortKey(s[|s| - 1].key) <= SortKey(b.key)) {
      var init, last := s[..|s| - 1], s[|s| - 1];
      InsertSorted(init, b);
      InsertElements(init, b);
      var r := Insert(init, b);
      assert Insert(s, b) == r + [last];
      forall i, j | 0 <= i < j < |r + [last]|
        ensures SortKey((r + [last])[i].key) <= SortKey((r + [last])[j].key)
      {
        if j == |r| {
          var x := r[i];
          assert x in multiset(r);
          if x != b {
            assert x in init;
            var k :| 0 <= k < |init| && init[k] == x;
            assert s[k] == x && s[|s| - 1] == last;
          }
        } else {
          assert (r + [last])[i] == r[i] && (r + [last])[j] == r[j];
        }
      }
    }
  }

  lemma {:induction false} InsertWithKey<V>(s: seq<Binding<V>>, b: Binding<V>, n: nat)
    ensures WithKey(Insert(s, b), n) == WithKey(s, n) + WithKey([b], n)
  {
    if s == [] || SortKey(s[|s| - 1].key) <= SortKey(b.key) {
      WithKeyAppend(s, [b], n);
    } else {
      var init, last := s[..|s| - 1], s[|s| - 1];
      var wi, wl, wb := WithKey(init, n), WithKey([last], n), WithKey([b], n);
      assert s == init + [last];
      assert Insert(s, b) == Insert(init, b) + [last];
      InsertWithKey(init, b, n);
      WithKeyAppend(Insert(init, b), [last], n);
      WithKeyAppend(init, [last], n);
      WithKeySingle(last, n);
      WithKeySingle(b, n);
      if wb == [] {
        assert wi + wb == wi && wi + wl + wb == wi + wl;
      } else {
        assert wl == [];
        assert wi + wb + wl == wi + wb && wi + wl == wi;
      }
    }
  }

  lemma WithKeySingle<V>(b: Binding<V>, n: nat)
    ensures WithKey([b], n) == if SortKey(b.key) == n then [b] else []
  {
    assert [b][..0] == [];
  }

  /** The sort orders by key, permutes its input, and keeps equal keys in input order. */
  lemma {:induction false} SortHostsFacts<V>(d: seq<Binding<V>>)
    ensures SortedByKey(SortHosts(d))
    ensures multiset(SortHosts(d)) == multiset(d)
    ensures forall n: nat :: WithKey(SortHosts(d), n) == WithKey(d, n)
  {
    if d != [] {
      var init, last := d[..|d| - 1], d[|d| - 1];
      assert d == init + [last];
      SortHostsFacts(init);
      InsertSorted(SortHosts(init), last);
      InsertElements(SortHosts(init), last);
      forall n: nat ensures WithKey(SortHosts(d), n) == WithKey(d, n) {
        InsertWithKey(SortHosts(init), last, n);
        WithKeyAppend(init, [last], n);
      }
    }
  }

  /** Four hosts whose keys are in the order third < second < first < fourth. */
  lemma SortOfFour<V>(a: Binding<V>, b: Binding<V>, c: Binding<V>, g: Binding<V>)
    requires SortKey(c.key) < SortKey(b.key) < SortKey(a.key) < SortKey(g.key)
    ensures SortHosts([a, b, c, g]) == [c, b, a, g]
  {
    assert [a, b, c, g][..3] == [a, b, c] && [a, b, c][..2] == [a, b] && [a, b][..1] == [a] && [a][..0] == [];
    assert SortHosts([a]) == [a];
    assert Insert([a], b) == Insert([], b) + [a];
    assert SortHosts([a, b]) == [b, a];
    assert [b, a][..1] == [b];
    assert Insert([b, a], c) == Insert([b], c) + [a];
    assert SortHosts([a, b, c]) == [c, b, a];
  }

  /** `srv10, srv2, srv1, gateway` is listed as `srv1, srv2, srv10, gateway`. */
  lemma SortExample()
    ensures SortHosts([Binding("srv10", 0), Binding("srv2", 1), Binding("srv1", 2), Binding("gateway", 3)])
            == [Binding("srv1", 2), Binding("srv2", 1), Binding("srv10", 0), Binding("gateway", 3)]
  {
    ExampleKeys();
    SortOfFour(Binding("srv10", 0), Binding("srv2", 1), Binding("srv1", 2), Binding("gateway", 3));
  }

  lemma ExampleKeys()
    ensures SortKey("srv1") < SortKey("srv2") < SortKey("srv10") < SortKey("gateway")
  {
    SrvKey("srv10", "10");
    SrvKey("srv2", "2");
    SrvKey("srv1", "1");
    assert DecimalValue("10") == 10;
    SortKeyWithoutDigits("gateway");
  }

  lemma SrvKey(name: string, run: string)
    requires run != [] && AllDigits(run) && name == "srv" + run
    ensures SortKey(name) == DecimalValue(run)
  {
    SortKeyOfDigitRun("srv", run, "");
    assert "srv" + run + "" == name;
  }
}
