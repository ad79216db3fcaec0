/** The tunnel's rule matching with rematch passes. */
module RuleMatch {
  import opened Wrappers
  import opened GroupGraph
  import opened GroupSort

  datatype Kind = Pass | Rematch | Other

  datatype Proxy = Proxy(name: Name, kind: Kind, udp: bool)

  datatype Metadata = Metadata(udp: bool, rematchName: string, specialRules: string, rest: nat)

  /** What a rule says about a connection: whether it matches, its adapter, the metadata it leaves. */
  datatype Verdict = Verdict(matched: bool, adapter: Name, metadata: Metadata)

  datatype Rule = Rule(test: Metadata -> Verdict)

  datatype Next = End | To(adapter: nat)

  /**
   A loaded configuration.  Adapters are numbered in the order they were parsed;
   unwrap is the choice a group makes, dial what a rematch does to the metadata.
   */
  datatype Config = Config(
    rules: seq<Rule>,
    subRules: map<string, seq<Rule>>,
    proxies: map<Name, nat>,
    adapters: seq<Proxy>,
    unwrap: (nat, Metadata) -> Next,
    dial: (nat, Metadata) -> Result<Metadata>)

  /** Every group chooses among adapters parsed before it. */
  ghost predicate Valid(w: Config) {
    && (forall n | n in w.proxies :: w.proxies[n] < |w.adapters|)
    && (forall i: nat, m | i < |w.adapters| && w.unwrap(i, m).To? :: w.unwrap(i, m).adapter < i)
  }

  /** The names rematch adapters go by. */
  function RematchNames(w: Config): set<Name> {
    set i | 0 <= i < |w.adapters| && w.adapters[i].kind.Rematch? :: w.adapters[i].name
  }

  function GetRules(w: Config, m: Metadata): seq<Rule> {
    if m.specialRules in w.subRules then w.subRules[m.specialRules] else w.rules
  }

  // ---- one walk ----

  datatype Walk = Clean | ThroughPass | ThroughRematch(adapter: nat)

  function Follow(w: Config, i: nat, m: Metadata): Walk
    requires Valid(w) && i < |w.adapters|
    decreases i
  {
    match w.adapters[i].kind
    case Pass => ThroughPass
    case Rematch => ThroughRematch(i)
    case Other => if w.unwrap(i, m).To? then Follow(w, w.unwrap(i, m).adapter, m) else Clean
  }

  method FollowChain(w: Config, start: nat, m: Metadata) returns (r: Walk)
    requires Valid(w) && start < |w.adapters|
    ensures r == Follow(w, start, m)
  {
    var adapter: nat := start;
    while true
      invariant adapter < |w.adapters| && Follow(w, start, m) == Follow(w, adapter, m)
      decreases adapter
    {
      if w.adapters[adapter].kind.Pass? {
        return ThroughPass;
      }
      if w.adapters[adapter].kind.Rematch? {
        return ThroughRematch(adapter);
      }
      var next := w.unwrap(adapter, m);
      if next.End? {
        return Clean;
      }
      adapter := next.adapter;
    }
  }

  // ---- one pass over the rules ----

  datatype Scan = Hit(adapter: nat, rule: Rule, metadata: Metadata)
                | Again(adapter: nat, rule: Rule, metadata: Metadata)
                | NoRule(metadata: Metadata)

  function ScanRules(w: Config, rules: seq<Rule>, m: Metadata): Scan
    requires Valid(w)
    decreases |rules|
  {
    if rules == [] then NoRule(m)
    else
      var v := rules[0].test(m);
      if !v.matched || v.adapter !in w.proxies then ScanRules(w, rules[1..], v.metadata)
      else
        var i := w.proxies[v.adapter];
        match Follow(w, i, v.metadata)
        case ThroughPass => ScanRules(w, rules[1..], v.metadata)
        case ThroughRematch(j) => Again(j, rules[0], v.metadata)
        case Clean =>
          if v.metadata.udp && !w.adapters[i].udp then ScanRules(w, rules[1..], v.metadata)
          else Hit(i, rules[0], v.metadata)
  }

  method ScanOnce(w: Config, rules: seq<Rule>, start: Metadata) returns (r: Scan)
    requires Valid(w)
    ensures r == ScanRules(w, rules, start)
  {
    var m := start;
    for i := 0 to |rules|
      invariant ScanRules(w, rules, start) == ScanRules(w, rules[i..], m)
    {
      var rule := rules[i];
      assert rules[i..][0] == rule && rules[i..][1..] == rules[i + 1..];
      var v := rule.test(m);
      m := v.metadata;
      if v.matched && v.adapter in w.proxies {
        var adapter := w.proxies[v.adapter];
        var walk := FollowChain(w, adapter, m);
        if walk.ThroughRematch? {
          return Again(walk.adapter, rule, m);
        }
        if walk.Clean? && !(m.udp && !w.adapters[adapter].udp) {
          return Hit(adapter, rule, m);
        }
      }
    }
    r := NoRule(m);
  }

  // ---- all passes ----

  datatype Exit = Found(adapter: nat, rule: Rule, metadata: Metadata)
                | Stopped(adapter: nat, rule: Rule, metadata: Metadata)
                | Direct(metadata: Metadata)

  lemma {:induction false} FollowRematch(w: Config, i: nat, m: Metadata)
    requires Valid(w) && i < |w.adapters| && Follow(w, i, m).ThroughRematch?
    ensures var j := Follow(w, i, m).adapter;
            j <= i && w.adapters[j].kind.Rematch? && w.adapters[j].name in RematchNames(w)
    decreases i
  {
    if w.adapters[i].kind.Other? {
      FollowRematch(w, w.unwrap(i, m).adapter, m);
    }
  }

  lemma {:induction false} ScanRematch(w: Config, rules: seq<Rule>, m: Metadata)
    requires Valid(w) && ScanRules(w, rules, m).Again?
    ensures var j := ScanRules(w, rules, m).adapter;
            j < |w.adapters| && w.adapters[j].kind.Rematch? && w.adapters[j].name in RematchNames(w)
    decreases |rules|
  {
    var v := rules[0].test(m);
    if ScanRules(w, rules, m) == ScanRules(w, rules[1..], v.metadata) {
      ScanRematch(w, rules[1..], v.metadata);
    } else {
      FollowRematch(w, w.proxies[v.adapter], v.metadata);
    }
  }

  /** Matching with the rematch adapters in chain already used up. */
  function MatchFrom(w: Config, m: Metadata, chain: set<Name>): Exit
    requires Valid(w)
    decreases RematchNames(w) - chain
  {
    match ScanRules(w, GetRules(w, m), m)
    case Hit(i, rule, m') => Found(i, rule, m')
    case NoRule(m') => Direct(m')
    case Again(j, rule, m') =>
      ScanRematch(w, GetRules(w, m), m);
      if w.adapters[j].name in chain then Stopped(j, rule, m')
      else (
        match w.dial(j, m')
        case Err => Stopped(j, rule, m')
        case Ok(m'') => MatchFrom(w, m'', chain + {w.adapters[j].name}))
  }

  /** The first pass runs over the sub-rules the metadata names, or over the main rules if there are none. */
  lemma FirstPassDecides(w: Config, m: Metadata)
    requires Valid(w)
    ensures var table := if m.specialRules in w.subRules then w.subRules[m.specialRules] else w.rules;
            match ScanRules(w, table, m)
            case Hit(i, rule, m') => MatchFrom(w, m, {}) == Found(i, rule, m')
            case NoRule(m') => MatchFrom(w, m, {}) == Direct(m')
            case Again(j, rule, m') => j < |w.adapters| && (w.dial(j, m').Err? ==> MatchFrom(w, m, {}) == Stopped(j, rule, m'))
  {
    if ScanRules(w, GetRules(w, m), m).Again? {
      ScanRematch(w, GetRules(w, m), m);
    }
  }

  /** match, which also counts its passes over the rules. */
  method Match(w: Config, start: Metadata) returns (r: Exit, passes: nat)
    requires Valid(w)
    ensures r == MatchFrom(w, start, {})
    ensures passes <= |RematchNames(w)| + 1
    ensures var table := if start.specialRules in w.subRules then w.subRules[start.specialRules] else w.rules;
            match ScanRules(w, table, start)
            case Hit(i, rule, m) => r == Found(i, rule, m)
            case NoRule(m) => r == Direct(m)
            case Again(j, rule, m) => j < |w.adapters| && (w.dial(j, m).Err? ==> r == Stopped(j, rule, m))
  {
    FirstPassDecides(w, start);
    var m := start;
    var rematchChain: set<Name> := {};
    passes := 0;
    while true
      invariant MatchFrom(w, start, {}) == MatchFrom(w, m, rematchChain)
      invariant rematchChain <= RematchNames(w) && passes == |rematchChain|
      decreases RematchNames(w) - rematchChain
    {
      Subset(rematchChain, RematchNames(w));
      var rules := GetRules(w, m);
      var scan := ScanOnce(w, rules, m);
      passes := passes + 1;
      match scan {
        case Hit(adapter, rule, m') =>
          return Found(adapter, rule, m'), passes;
        case NoRule(m') =>
          return Direct(m'), passes;
        case Again(adapter, rule, m') =>
          ScanRematch(w, rules, m);
          var name := w.adapters[adapter].name;
          if name in rematchChain {
            return Stopped(adapter, rule, m'), passes;
          }
          var dialed := w.dial(adapter, m');
          if dialed.Err? {
            return Stopped(adapter, rule, m'), passes;
          }
          rematchChain := rematchChain + {name};
          m := dialed.value;
      }
    }
  }

  lemma {:induction false} Subset(a: set<Name>, b: set<Name>)
    requires a <= b
    ensures |a| <= |b|
    decreases |a|
  {
    if a != {} {
      var x :| x in a;
      Subset(a - {x}, b - {x});
    }
  }

  // ---- what a result means ----

  /** j is met when unwrapping i step by step. */
  predicate Reaches(w: Config, i: nat, m: Metadata, j: nat)
    requires Valid(w) && i < |w.adapters|
    decreases i
  {
    j == i || (w.unwrap(i, m).To? && Reaches(w, w.unwrap(i, m).adapter, m, j))
  }

  lemma {:induction false} CleanWalk(w: Config, i: nat, m: Metadata, j: nat)
    requires Valid(w) && i < |w.adapters| && Reaches(w, i, m, j)
    ensures j <= i
    ensures Follow(w, i, m) == Clean ==> w.adapters[j].kind == Other
    decreases i
  {
    if j != i {
      CleanWalk(w, w.unwrap(i, m).adapter, m, j);
    }
  }

  lemma {:induction false} CleanExactly(w: Config, i: nat, m: Metadata)
    requires Valid(w) && i < |w.adapters| && Follow(w, i, m) != Clean
    ensures exists j: nat | j < |w.adapters| :: Reaches(w, i, m, j) && w.adapters[j].kind != Other
    decreases i
  {
    if w.adapters[i].kind.Other? {
      CleanExactly(w, w.unwrap(i, m).adapter, m);
      var j: nat :| j < |w.adapters| && Reaches(w, w.unwrap(i, m).adapter, m, j) && w.adapters[j].kind != Other;
      assert Reaches(w, i, m, j);
    } else {
      assert Reaches(w, i, m, i);
    }
  }

  /** The rule that hit matched, its adapter exists, and every rule before it was passed over. */
  lemma {:induction false} FirstRuleWins(w: Config, rules: seq<Rule>, m: Metadata) returns (k: nat, mk: Metadata)
    requires Valid(w) && ScanRules(w, rules, m).Hit?
    ensures k < |rules| && ScanRules(w, rules[..k], m) == NoRule(mk)
    ensures var hit := ScanRules(w, rules, m);
            && hit.rule == rules[k] && rules[k].test(mk).matched && rules[k].test(mk).metadata == hit.metadata
            && rules[k].test(mk).adapter in w.proxies && w.proxies[rules[k].test(mk).adapter] == hit.adapter
            && Follow(w, hit.adapter, hit.metadata) == Clean
            && (hit.metadata.udp ==> w.adapters[hit.adapter].udp)
    decreases |rules|
  {
    var v := rules[0].test(m);
    if v.matched && v.adapter in w.proxies && ScanRules(w, rules, m) == Hit(w.proxies[v.adapter], rules[0], v.metadata)
       && Follow(w, w.proxies[v.adapter], v.metadata) == Clean && (v.metadata.udp ==> w.adapters[w.proxies[v.adapter]].udp) {
      k, mk := 0, m;
    } else {
      var k', mk' := FirstRuleWins(w, rules[1..], v.metadata);
      k, mk := k' + 1, mk';
      assert rules[..k][0] == rules[0] && rules[..k][1..] == rules[1..][..k'];
    }
  }

  /**
   Outside the rematch exits, the adapter handed to the caller never unwraps
   through Pass or Rematch, and it carries UDP if the flow is UDP; a rematch exit
   hands over a rematch adapter.
   */
  lemma {:induction false} ResultIsUsable(w: Config, m: Metadata, chain: set<Name>)
    requires Valid(w)
    ensures var r := MatchFrom(w, m, chain);
            && (r.Found? ==>
                && r.adapter < |w.adapters|
                && (forall j: nat | Reaches(w, r.adapter, r.metadata, j) :: j <= r.adapter && w.adapters[j].kind == Other)
                && (r.metadata.udp ==> w.adapters[r.adapter].udp))
            && (r.Stopped? ==> r.adapter < |w.adapters| && w.adapters[r.adapter].kind == Rematch)
    decreases RematchNames(w) - chain
  {
    var scan := ScanRules(w, GetRules(w, m), m);
    match scan
    case Hit(i, rule, m') =>
      var k, mk := FirstRuleWins(w, GetRules(w, m), m);
      forall j: nat | Reaches(w, i, m', j) ensures j <= i && w.adapters[j].kind == Other {
        CleanWalk(w, i, m', j);
      }
    case NoRule(m') =>
    case Again(j, rule, m') =>
      ScanRematch(w, GetRules(w, m), m);
      if w.adapters[j].name !in chain && w.dial(j, m').Ok? {
        ResultIsUsable(w, w.dial(j, m').value, chain + {w.adapters[j].name});
      }
  }

  /** The metadata after the rules have all looked at m, one after the other. */
  function Thread(rules: seq<Rule>, m: Metadata): Metadata {
    if rules == [] then m else Thread(rules[1..], rules[0].test(m).metadata)
  }

  /** The rule does not apply to m, has no adapter, leads to Pass, or cannot carry the flow's UDP. */
  predicate PassedOver(w: Config, rule: Rule, m: Metadata)
    requires Valid(w)
  {
    var v := rule.test(m);
    || !v.matched || v.adapter !in w.proxies
    || Follow(w, w.proxies[v.adapter], v.metadata) == ThroughPass
    || (Follow(w, w.proxies[v.adapter], v.metadata) == Clean && v.metadata.udp && !w.adapters[w.proxies[v.adapter]].udp)
  }

  /** A pass is decided by the first rule that is not passed over, alone; with none it ends without a rule. */
  lemma {:induction false} FirstTakenDecides(w: Config, rules: seq<Rule>, m: Metadata) returns (k: nat)
    requires Valid(w)
    ensures k <= |rules| && forall i | 0 <= i < k :: PassedOver(w, rules[i], Thread(rules[..i], m))
    ensures k == |rules| ==> ScanRules(w, rules, m) == NoRule(Thread(rules, m))
    ensures k < |rules| ==>
              && !PassedOver(w, rules[k], Thread(rules[..k], m))
              && !ScanRules(w, rules, m).NoRule?
              && ScanRules(w, rules, m) == ScanRules(w, [rules[k]], Thread(rules[..k], m))
    decreases |rules|
  {
    k := 0;
    if rules != [] {
      assert rules[..0] == [];
      if PassedOver(w, rules[0], m) {
        var rest, next := rules[1..], rules[0].test(m).metadata;
        var j := FirstTakenDecides(w, rest, next);
        k := j + 1;
        forall i | 0 <= i <= j ensures Thread(rules[..i + 1], m) == Thread(rest[..i], next) {
          assert rules[..i + 1][0] == rules[0] && rules[..i + 1][1..] == rest[..i];
        }
        forall i | 0 <= i < k ensures PassedOver(w, rules[i], Thread(rules[..i], m)) {
          if i > 0 {
            assert rest[i - 1] == rules[i] && Thread(rules[..i - 1 + 1], m) == Thread(rest[..i - 1], next);
          }
        }
        assert Thread(rules[..j + 1], m) == Thread(rest[..j], next);
      } else {
        assert [rules[0]][0] == rules[0];
      }
    }
  }

  /** Scanning m ends at the rematch adapter called name, which turns the metadata into next. */
  ghost predicate Rematches(w: Config, m: Metadata, name: Name, next: Metadata)
    requires Valid(w)
  {
    var scan := ScanRules(w, if m.specialRules in w.subRules then w.subRules[m.specialRules] else w.rules, m);
    scan.Again? && scan.adapter < |w.adapters| && w.adapters[scan.adapter].name == name
    && w.dial(scan.adapter, scan.metadata) == Ok(next)
  }

  /** Passes over the metadata ms, each but the last ended by the rematch adapter of that name. */
  ghost predicate Passes(w: Config, ms: seq<Metadata>, names: seq<Name>)
    requires Valid(w)
  {
    |ms| == |names| + 1 && forall i | 0 <= i < |names| :: Rematches(w, ms[i], names[i], ms[i + 1])
  }

  /** What the last pass over m makes of a match that has used the names in chain. */
  ghost predicate Ends(w: Config, m: Metadata, chain: set<Name>, r: Exit)
    requires Valid(w)
  {
    match ScanRules(w, if m.specialRules in w.subRules then w.subRules[m.specialRules] else w.rules, m)
    case Hit(i, rule, m') => r == Found(i, rule, m')
    case NoRule(m') => r == Direct(m')
    case Again(j, rule, m') =>
      r == Stopped(j, rule, m') && j < |w.adapters| && (w.adapters[j].name in chain || w.dial(j, m').Err?)
  }

  function NameSet(names: seq<Name>): set<Name> {
    set n | n in names
  }

  /**
   Every match is a chain of passes through pairwise different rematch names, and its
   exit is that of the last pass: a hit, no rule, or a rematch whose name was used or that fails.
   */
  lemma {:induction false} MatchExplained(w: Config, m: Metadata, chain: set<Name>) returns (ms: seq<Metadata>, names: seq<Name>)
    requires Valid(w)
    ensures Passes(w, ms, names) && ms[0] == m
    ensures forall i | 0 <= i < |names| :: names[i] !in chain && names[i] in RematchNames(w)
    ensures forall i, j | 0 <= i < j < |names| :: names[i] != names[j]
    ensures Ends(w, ms[|names|], chain + NameSet(names), MatchFrom(w, m, chain))
    decreases RematchNames(w) - chain
  {
    ms, names := [m], [];
    var scan := ScanRules(w, GetRules(w, m), m);
    if scan.Again? {
      ScanRematch(w, GetRules(w, m), m);
      var name, dialed := w.adapters[scan.adapter].name, w.dial(scan.adapter, scan.metadata);
      if name !in chain && dialed.Ok? {
        var later, rest := MatchExplained(w, dialed.value, chain + {name});
        ms, names := [m] + later, [name] + rest;
        forall i | 0 <= i < |names| ensures Rematches(w, ms[i], names[i], ms[i + 1]) {
          if i > 0 {
            assert Rematches(w, later[i - 1], rest[i - 1], later[i]);
          }
        }
        assert chain + NameSet(names) == chain + {name} + NameSet(rest);
        return;
      }
    }
    assert chain + NameSet(names) == chain;
  }

  // ---- which table a pass uses ----

  predicate AllSubRules(w: Config, ms: seq<Metadata>) {
    forall i | 0 <= i < |ms| :: ms[i].specialRules in w.subRules
  }

  /** Every pass of a match from m runs over a sub-rule table. */
  ghost predicate OnlySubRules(w: Config, m: Metadata)
    requires Valid(w)
  {
    forall ms, names | Passes(w, ms, names) && ms[0] == m :: AllSubRules(w, ms)
  }

  lemma {:induction false} FollowIgnoresRules(w: Config, other: seq<Rule>, i: nat, m: Metadata)
    requires Valid(w) && i < |w.adapters|
    ensures Valid(w.(rules := other)) && Follow(w.(rules := other), i, m) == Follow(w, i, m)
    decreases i
  {
    if w.adapters[i].kind.Other? && w.unwrap(i, m).To? {
      FollowIgnoresRules(w, other, w.unwrap(i, m).adapter, m);
    }
  }

  lemma {:induction false} ScanIgnoresRules(w: Config, other: seq<Rule>, rules: seq<Rule>, m: Metadata)
    requires Valid(w)
    ensures Valid(w.(rules := other)) && ScanRules(w.(rules := other), rules, m) == ScanRules(w, rules, m)
    decreases |rules|
  {
    if rules != [] {
      var v := rules[0].test(m);
      ScanIgnoresRules(w, other, rules[1..], v.metadata);
      if v.matched && v.adapter in w.proxies {
        FollowIgnoresRules(w, other, w.proxies[v.adapter], v.metadata);
      }
    }
  }

  lemma LaterPassesUseSubRules(w: Config, m: Metadata, name: Name, next: Metadata)
    requires Valid(w) && OnlySubRules(w, m) && Rematches(w, m, name, next)
    ensures OnlySubRules(w, next)
  {
    forall ms, names | Passes(w, ms, names) && ms[0] == next ensures AllSubRules(w, ms) {
      var all, more := [m] + ms, [name] + names;
      forall i | 0 <= i < |more| ensures Rematches(w, all[i], more[i], all[i + 1]) {
        if i > 0 {
          assert Rematches(w, ms[i - 1], names[i - 1], ms[i]);
        }
      }
      assert Passes(w, all, more) && AllSubRules(w, all);
      assert forall i | 0 <= i < |ms| :: all[i + 1] == ms[i];
    }
  }

  /** When every pass runs over a sub-rule table, the main table might as well be any other. */
  lemma {:induction false} MainTableUnused(w: Config, other: seq<Rule>, m: Metadata, chain: set<Name>)
    requires Valid(w) && OnlySubRules(w, m)
    ensures Valid(w.(rules := other)) && MatchFrom(w.(rules := other), m, chain) == MatchFrom(w, m, chain)
    decreases RematchNames(w) - chain
  {
    assert Passes(w, [m], []) && [m][0] == m && AllSubRules(w, [m]);
    var rules := w.subRules[m.specialRules];
    ScanIgnoresRules(w, other, rules, m);
    var scan := ScanRules(w, rules, m);
    if scan.Again? {
      ScanRematch(w, rules, m);
      var name, dialed := w.adapters[scan.adapter].name, w.dial(scan.adapter, scan.metadata);
      if name !in chain && dialed.Ok? {
        LaterPassesUseSubRules(w, m, name, dialed.value);
        assert RematchNames(w.(rules := other)) == RematchNames(w);
        MainTableUnused(w, other, dialed.value, chain + {name});
      }
    }
  }

  // ---- what a rematch hit means ----

  /** A pass that ends in a rematch: the rule that led there, the metadata it left, and the adapter the walk met first. */
  lemma {:induction false} RematchMeans(w: Config, rules: seq<Rule>, m: Metadata) returns (k: nat)
    requires Valid(w) && ScanRules(w, rules, m).Again?
    ensures k < |rules| && forall i | 0 <= i < k :: PassedOver(w, rules[i], Thread(rules[..i], m))
    ensures var scan, v := ScanRules(w, rules, m), rules[k].test(Thread(rules[..k], m));
            && v.matched && v.adapter in w.proxies && scan.rule == rules[k] && scan.metadata == v.metadata
            && Reaches(w, w.proxies[v.adapter], v.metadata, scan.adapter)
            && scan.adapter < |w.adapters| && w.adapters[scan.adapter].kind == Rematch
  {
    k := FirstTakenDecides(w, rules, m);
    var at := Thread(rules[..k], m);
    var v := rules[k].test(at);
    assert [rules[k]][0] == rules[k] && [rules[k]][1..] == [];
    assert ScanRules(w, [rules[k]], at) == Again(ScanRules(w, rules, m).adapter, rules[k], v.metadata);
    MetRematch(w, w.proxies[v.adapter], v.metadata);
  }

  lemma {:induction false} MetRematch(w: Config, i: nat, m: Metadata)
    requires Valid(w) && i < |w.adapters| && Follow(w, i, m).ThroughRematch?
    ensures var j := Follow(w, i, m).adapter; j <= i && Reaches(w, i, m, j) && w.adapters[j].kind == Rematch
    decreases i
  {
    if w.adapters[i].kind.Other? {
      MetRematch(w, w.unwrap(i, m).adapter, m);
    }
  }

  // ---- where the parse order comes from ----

  /**
   Plain proxies are parsed first, then the sorted groups, then the GLOBAL selector if the
   configuration has none; a group chooses a plain proxy or one of its members, GLOBAL anything.
   */
  ghost predicate ParsedFrom(w: Config, plain: nat, groups: seq<Group>, addsGlobal: bool) {
    && |w.adapters| == plain + |groups| + (if addsGlobal then 1 else 0)
    && (forall i: nat, m | i < plain :: w.unwrap(i, m).End?)
    && (forall i: nat, m | plain <= i < plain + |groups| && w.unwrap(i, m).To? ::
          Chooses(plain, groups, i - plain, w.unwrap(i, m).adapter))
    && (forall i: nat, m | plain + |groups| <= i < |w.adapters| && w.unwrap(i, m).To? :: w.unwrap(i, m).adapter < i)
  }

  predicate Chooses(plain: nat, groups: seq<Group>, g: nat, choice: nat)
    requires g < |groups|
  {
    choice < plain || (choice < plain + |groups| && groups[choice - plain].name in groups[g].proxies)
  }

  /** The order proxyGroupsDagSort leaves is what makes every unwrap walk descend. */
  lemma SortedGroupsDescend(w: Config, plain: nat, groups: seq<Group>, addsGlobal: bool)
    requires ParsedFrom(w, plain, groups, addsGlobal) && MembersFirst(groups)
    requires forall n | n in w.proxies :: w.proxies[n] < |w.adapters|
    ensures Valid(w)
  {
  }
}
