/** `IFUCube.check`: the orchestrator. It skips the file when it does not
    exist or cannot be opened, and otherwise runs every rule, discovered by
    the `check_` name prefix in `dir()` order, once against the one shared
    primary HDU, whatever the earlier rules returned. */
module Checker {
  import opened Fits
  import opened Rules

  // ---------------------------------------------------------------------
  // Discovery
  // ---------------------------------------------------------------------

  /** A member name that marks a rule: it starts with `check_`. The bare
      `check` does not. */
  predicate HasRulePrefix(name: string): (isRule: bool)
    ensures isRule ==> |name| > 0 && name[0] != '_' && name != "check"
  {
    |name| >= 6 && name[..6] == "check_"
  }

  /** `dir()` order: strict lexicographic order on code points, a proper
      prefix coming first. */
  predicate LexLess(a: string, b: string): (less: bool)
    ensures less ==> a != b
    decreases |a|
  {
    |b| > 0 && (|a| == 0 || a[0] < b[0] || (a[0] == b[0] && LexLess(a[1..], b[1..])))
  }

  lemma {:induction false} LexLessPrefixed(p: string, a: string, b: string)
    requires LexLess(a, b)
    ensures LexLess(p + a, p + b)
    decreases |p|
  {
    if p != [] {
      LexLessPrefixed(p[1..], a, b);
      assert (p + a)[0] == p[0] == (p + b)[0];
      assert (p + a)[1..] == p[1..] + a && (p + b)[1..] == p[1..] + b;
    } else {
      assert p + a == a && p + b == b;
    }
  }

  predicate Sorted(names: seq<string>)
  {
    forall i, j :: 0 <= i < j < |names| ==> LexLess(names[i], names[j])
  }

  /** The rules among `names`, in the order they come: the list
      comprehension over `dir(self)` that keeps the `check_` names. */
  function Discover(names: seq<string>): (rules: seq<string>)
    ensures forall i :: 0 <= i < |rules| ==> HasRulePrefix(rules[i]) && rules[i] in names
    ensures forall n :: n in names && HasRulePrefix(n) ==> n in rules
    decreases |names|
  {
    if names == [] then []
    else (if HasRulePrefix(names[0]) then [names[0]] else []) + Discover(names[1..])
  }

  lemma SortedTail(names: seq<string>)
    requires Sorted(names) && names != []
    ensures Sorted(names[1..])
    ensures forall n :: n in names[1..] ==> LexLess(names[0], n)
  {
    var tail := names[1..];
    forall i, j | 0 <= i < j < |tail| ensures LexLess(tail[i], tail[j]) {
      assert tail[i] == names[i + 1] && tail[j] == names[j + 1];
    }
    forall n | n in tail ensures LexLess(names[0], n) {
      var m :| 0 <= m < |tail| && tail[m] == n;
      assert names[m + 1] == n;
    }
  }

  lemma SortedCons(x: string, s: seq<string>)
    requires Sorted(s)
    requires forall n :: n in s ==> LexLess(x, n)
    ensures Sorted([x] + s)
  {
    var d := [x] + s;
    forall i, j | 0 <= i < j < |d| ensures LexLess(d[i], d[j]) {
      assert d[j] == s[j - 1];
      if i > 0 {
        assert d[i] == s[i - 1];
      }
    }
  }

  /** Discovery keeps `dir()`'s sorted order. */
  lemma {:induction false} DiscoverKeepsOrder(names: seq<string>)
    requires Sorted(names)
    ensures Sorted(Discover(names))
    decreases |names|
  {
    if names != [] {
      var tail := names[1..];
      SortedTail(names);
      DiscoverKeepsOrder(tail);
      if HasRulePrefix(names[0]) {
        var rest := Discover(tail);
        assert forall n :: n in rest ==> n in tail;
        SortedCons(names[0], rest);
      }
    }
  }

  /** Names outside the convention contribute nothing. */
  lemma {:induction false} DiscoverSkips(others: seq<string>, names: seq<string>)
    requires forall n :: n in others ==> !HasRulePrefix(n)
    ensures Discover(others + names) == Discover(names)
    decreases |others|
  {
    if others != [] {
      assert others[0] in others && !HasRulePrefix(others[0]);
      assert forall n :: n in others[1..] ==> n in others;
      assert (others + names)[0] == others[0];
      assert (others + names)[1..] == others[1..] + names;
      assert Discover(others + names) == Discover(others[1..] + names);
      DiscoverSkips(others[1..], names);
    } else {
      assert others + names == names;
    }
  }

  /** The names of `IFUCube` that do not start with `_`, in `dir()` order.
      Every other name of the instance (its own `__init__` and what it
      inherits from `object`) starts with `_`, which sorts before `c`, so a
      `dir()` listing is some underscore names followed by these. */
  const PlainNames: seq<string> := ["check", "check_ctype", "check_data"]

  /** The rules, in the order `check` runs them. */
  datatype Rule = CtypeRule | DataRule {
    function Name(): (name: string)
      ensures HasRulePrefix(name)
    {
      match this
      case CtypeRule => "check_ctype"
      case DataRule => "check_data"
    }
  }

  /** The bound methods `check` collects into `methods`, in the order it
      calls them. */
  const AllRules: seq<Rule> := [CtypeRule, DataRule]

  /** The names of `rules`, in order. */
  function Names(rules: seq<Rule>): (names: seq<string>)
    ensures |names| == |rules|
    ensures forall i :: 0 <= i < |rules| ==> names[i] == rules[i].Name()
  {
    seq(|rules|, i requires 0 <= i < |rules| => rules[i].Name())
  }

  /** The fixed rule sequence is what discovery finds: on any `dir()`
      listing of an `IFUCube`, some names starting with `_` and then
      `check`, `check_ctype`, `check_data`, discovery keeps exactly the
      names of `AllRules`, in `AllRules` order, which is sorted; `check`
      itself is not kept. */
  lemma RulesAreDiscovered(underscored: seq<string>)
    requires forall n :: n in underscored ==> |n| > 0 && n[0] == '_'
    ensures Discover(underscored + PlainNames) == Names(AllRules)
    ensures Sorted(Names(AllRules))
  {
    DiscoverSkips(underscored, PlainNames);
    PlainRules();
    RuleNamesSorted();
    RuleNames();
  }

  lemma RuleNames()
    ensures Names(AllRules) == ["check_ctype", "check_data"]
  {
    var names := Names(AllRules);
    assert names[0] == "check_ctype" && names[1] == "check_data";
  }

  lemma PlainRules()
    ensures Discover(PlainNames) == ["check_ctype", "check_data"]
  {
    var d := ["check_data"];
    assert |"check"| == 5;
    assert HasRulePrefix("check_ctype") && HasRulePrefix("check_data");
    assert PlainNames[1..] == ["check_ctype", "check_data"];
    assert PlainNames[1..][1..] == d;
    assert Discover(d) == d by { assert d[1..] == []; }
  }

  lemma RuleNamesSorted()
    ensures Sorted(["check_ctype", "check_data"])
  {
    assert LexLess("ctype", "data");
    LexLessPrefixed("check_", "ctype", "data");
    assert "check_" + "ctype" == "check_ctype" && "check_" + "data" == "check_data";
  }

  // ---------------------------------------------------------------------
  // Running the rules
  // ---------------------------------------------------------------------

  /** The result of one rule. */
  datatype Verdict = Verdict(rule: Rule, good: bool)

  /** One rule on the header and data it is given: its verdict and the
      header it leaves behind. */
  function ApplyRule(rule: Rule, h: Header, data: DataAttr, fix: bool): (out: (bool, Header))
    ensures h.Keys <= out.1.Keys
    ensures out.0 ==> out.1 == h
  {
    match rule
    case CtypeRule => CtypeScan(h, CtypeKeys(), fix)
    case DataRule => (CheckData(data, fix), h)
  }

  /** The report and the final header of running `rules` in order, each on
      the header as the previous one left it. */
  datatype Run = Run(report: seq<Verdict>, header: Header)

  function RunAll(rules: seq<Rule>, h: Header, data: DataAttr, fix: bool): (run: Run)
    ensures h.Keys <= run.header.Keys
    decreases |rules|
  {
    if rules == [] then Run([], h)
    else
      var (good, h1) := ApplyRule(rules[0], h, data, fix);
      var rest := RunAll(rules[1..], h1, data, fix);
      Run([Verdict(rules[0], good)] + rest.report, rest.header)
  }

  /** One step of `RunAll`: the first rule, then the rest. */
  lemma RunAllStep(rules: seq<Rule>, h: Header, data: DataAttr, fix: bool)
    requires rules != []
    ensures var step := ApplyRule(rules[0], h, data, fix);
      var rest := RunAll(rules[1..], step.1, data, fix);
      RunAll(rules, h, data, fix) == Run([Verdict(rules[0], step.0)] + rest.report, rest.header)
  {
  }

  /** No short-circuit: every rule runs exactly once, in order, whatever
      the verdicts are. */
  lemma {:induction false} RunAllRunsEveryRule(rules: seq<Rule>, h: Header, data: DataAttr, fix: bool)
    ensures |RunAll(rules, h, data, fix).report| == |rules|
    ensures forall i :: 0 <= i < |rules| ==> RunAll(rules, h, data, fix).report[i].rule == rules[i]
    decreases |rules|
  {
    if rules != [] {
      var h1 := ApplyRule(rules[0], h, data, fix).1;
      RunAllRunsEveryRule(rules[1..], h1, data, fix);
    }
  }

  /** Running `a + b` is running `a`, then `b` on the header `a` left. */
  lemma {:induction false} RunAllAppend(a: seq<Rule>, b: seq<Rule>, h: Header, data: DataAttr, fix: bool)
    ensures var first := RunAll(a, h, data, fix);
      var second := RunAll(b, first.header, data, fix);
      RunAll(a + b, h, data, fix) == Run(first.report + second.report, second.header)
    decreases |a|
  {
    if a != [] {
      assert (a + b)[0] == a[0];
      assert (a + b)[1..] == a[1..] + b;
      var (good, h1) := ApplyRule(a[0], h, data, fix);
      RunAllStep(a + b, h, data, fix);
      RunAllStep(a, h, data, fix);
      RunAllAppend(a[1..], b, h1, data, fix);
      var first := RunAll(a[1..], h1, data, fix);
      var second := RunAll(b, first.header, data, fix);
      assert [Verdict(a[0], good)] + (first.report + second.report)
          == ([Verdict(a[0], good)] + first.report) + second.report;
    } else {
      assert a + b == b;
    }
  }

  /** Rule `i` sees the header as the rules before it left it. */
  lemma RunAllVerdictAt(rules: seq<Rule>, h: Header, data: DataAttr, fix: bool, i: nat)
    requires i < |rules|
    ensures |RunAll(rules, h, data, fix).report| == |rules|
    ensures var before := RunAll(rules[..i], h, data, fix).header;
      RunAll(rules, h, data, fix).report[i] ==
        Verdict(rules[i], ApplyRule(rules[i], before, data, fix).0)
  {
    RunAllRunsEveryRule(rules, h, data, fix);
    assert rules == rules[..i] + rules[i..];
    RunAllAppend(rules[..i], rules[i..], h, data, fix);
    RunAllRunsEveryRule(rules[..i], h, data, fix);
    assert rules[i..][0] == rules[i];
  }

  /** Without `fix` no rule changes the header. */
  lemma {:induction false} RunAllReadOnly(rules: seq<Rule>, h: Header, data: DataAttr)
    ensures RunAll(rules, h, data, false).header == h
    decreases |rules|
  {
    if rules != [] {
      ScanReadOnly(h, CtypeKeys());
      RunAllReadOnly(rules[1..], h, data);
    }
  }

  /** One pass of `IFUCube`'s rules: `check_ctype` passes iff CTYPE1..3
      were all present, `check_data` iff the data exists and is not None,
      and only `check_ctype` with `fix` touches the header. */
  lemma CheckPass(h: Header, data: DataAttr, fix: bool)
    ensures var run := RunAll(AllRules, h, data, fix);
      && run.report == [Verdict(CtypeRule, forall k :: k in CtypeKeys() ==> k in h),
                        Verdict(DataRule, data.Present?)]
      && run.header == CtypeScan(h, CtypeKeys(), fix).1
      && (!fix ==> run.header == h)
  {
    var h1 := CtypeScan(h, CtypeKeys(), fix).1;
    assert AllRules[1..] == [DataRule] && AllRules[1..][1..] == [];
    assert RunAll(AllRules[1..], h1, data, fix) == Run([Verdict(DataRule, data.Present?)], h1);
    ScanVerdict(h, CtypeKeys(), fix);
    ScanReadOnly(h, CtypeKeys());
  }

  /** Fixing converges: a second fixing pass over the header the first one
      repaired reports `check_ctype` as passing, gives `check_data` the same
      verdict as before, and changes nothing more. */
  lemma CheckFixTwice(h: Header, data: DataAttr)
    ensures var first := RunAll(AllRules, h, data, true);
      var second := RunAll(AllRules, first.header, data, true);
      && second.report == [Verdict(CtypeRule, true), first.report[1]]
      && second.header == first.header
  {
    var first := RunAll(AllRules, h, data, true);
    CheckPass(h, data, true);
    CheckPass(first.header, data, true);
    ScanFixIdempotent(h, CtypeKeys());
    ScanVerdict(first.header, CtypeKeys(), true);
  }

  // ---------------------------------------------------------------------
  // check
  // ---------------------------------------------------------------------

  /** `method(fits_file, fix)`: run one rule on the shared HDU. */
  method RunRule(rule: Rule, hdu: Hdu, fix: bool) returns (good: bool)
    modifies hdu
    ensures (good, hdu.header) == ApplyRule(rule, old(hdu.header), old(hdu.data), fix)
    ensures hdu.data == old(hdu.data)
  {
    match rule
    case CtypeRule =>
      good := CheckCtype(hdu, fix);
    case DataRule =>
      good := CheckData(hdu.data, fix);
  }

  /** The loop `for method in methods: method(fits_file, fix)`: every rule
      in turn on the one shared HDU, the verdict of each recorded and none
      of them stopping the loop. */
  method RunRules(rules: seq<Rule>, hdu: Hdu, fix: bool) returns (report: seq<Verdict>)
    modifies hdu
    ensures var run := RunAll(rules, old(hdu.header), old(hdu.data), fix);
      report == run.report && hdu.header == run.header
    ensures hdu.data == old(hdu.data)
  {
    ghost var final := RunAll(rules, hdu.header, hdu.data, fix);
    report := [];
    for i := 0 to |rules|
      invariant hdu.data == old(hdu.data)
      invariant report + RunAll(rules[i..], hdu.header, hdu.data, fix).report == final.report
      invariant RunAll(rules[i..], hdu.header, hdu.data, fix).header == final.header
    {
      var rule := rules[i];
      ghost var before := hdu.header;
      var good := RunRule(rule, hdu, fix);
      ghost var rest := RunAll(rules[i + 1..], hdu.header, hdu.data, fix);
      assert RunAll(rules[i..], before, hdu.data, fix) == Run([Verdict(rule, good)] + rest.report, rest.header) by {
        RunAllStep(rules[i..], before, hdu.data, fix);
        assert rules[i..][0] == rule && rules[i..][1..] == rules[i + 1..];
      }
      assert report + ([Verdict(rule, good)] + rest.report) == (report + [Verdict(rule, good)]) + rest.report;
      report := report + [Verdict(rule, good)];
    }
  }

  /** What `check` did: skipped a missing file, skipped a file that would
      not open, or ran the rules and produced this report. */
  datatype Outcome = FileMissing | CannotOpen | Ran(report: seq<Verdict>)

  /** `IFUCube.check(filename, fix)`. `isFile` is what `os.path.isfile`
      says; `open` is what `fits.open` gives. */
  method Check(isFile: bool, open: OpenResult, fix: bool) returns (outcome: Outcome)
    modifies if open.Opened? then {open.hdu} else {}
    ensures !isFile ==> outcome == FileMissing
    ensures isFile && open.OpenFailed? ==> outcome == CannotOpen
    ensures isFile && open.Opened? ==>
      var run := RunAll(AllRules, old(open.hdu.header), old(open.hdu.data), fix);
      outcome == Ran(run.report) && open.hdu.header == run.header
    ensures open.Opened? && (!isFile || !fix) ==> open.hdu.header == old(open.hdu.header)
    ensures open.Opened? ==> open.hdu.data == old(open.hdu.data)
  {
    if !isFile {
      return FileMissing;
    }
    if open.OpenFailed? {
      return CannotOpen;
    }
    var hdu := open.hdu;
    var report := RunRules(AllRules, hdu, fix);
    RunAllReadOnly(AllRules, old(hdu.header), hdu.data);
    return Ran(report);
  }
}
