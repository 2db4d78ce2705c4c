/** Manual alias and suppress rules for generated issue fingerprints, and the walk that
    resolves a fingerprint through them. Fingerprints are abstract names. */
module FingerprintGovernance {
  import opened Wrappers

  type Fp = string

  datatype Action = Alias | Suppress

  datatype Rule = Rule(
    source: Fp,
    action: Action,
    canonical: Fp,
    reason: string,
    createdAt: string,
    createdBy: string,
    updatedAt: string,
    updatedBy: string,
    metadata: map<string, string>)

  type Rules = map<Fp, Rule>

  /** What the rule at one fingerprint says to do next. */
  datatype Move = Stop | Drop | Hop(to: Fp)

  function MoveAt(rules: Rules, n: Fp): Move {
    if n !in rules then Stop
    else if rules[n].action == Suppress then Drop
    else if rules[n].canonical == "" then Stop
    else Hop(rules[n].canonical)
  }

  // ---------------------------------------------------------------------------------
  // The unbounded walk: the design the 16-step loop is meant to compute.
  // ---------------------------------------------------------------------------------

  datatype Ending = Settled | Suppressed | Cycled

  /** `nodes` are the fingerprints met, in order; the last one is where the walk ended.
      On a cycle the last node is the first one met a second time. */
  datatype Walk = Walk(nodes: seq<Fp>, ending: Ending) {
    function Hops(): int { |nodes| - 1 }

    function Last(): Fp
      requires nodes != []
    {
      nodes[|nodes| - 1]
    }

    function Value(): Option<Fp>
      requires nodes != []
    {
      if ending == Suppressed then None else Some(Last())
    }
  }

  function WalkFrom(rules: Rules, n: Fp, seen: set<Fp>): (w: Walk)
    ensures w.nodes != []
    decreases rules.Keys - seen
  {
    if n in seen then Walk([n], Cycled)
    else
      match MoveAt(rules, n)
      case Stop => Walk([n], Settled)
      case Drop => Walk([n], Suppressed)
      case Hop(m) =>
        var rest := WalkFrom(rules, m, seen + {n});
        Walk([n] + rest.nodes, rest.ending)
  }

  function FullWalk(rules: Rules, n: Fp): (w: Walk)
    ensures w.nodes != []
  {
    WalkFrom(rules, n, {})
  }

  /** The declarative reading of a walk: consecutive nodes are linked by alias rules, no node
      repeats before the end, and the ending is the one the last node calls for. */
  ghost predicate IsWalk(rules: Rules, n: Fp, seen: set<Fp>, w: Walk) {
    && w.nodes != []
    && w.nodes[0] == n
    && (forall i :: 0 <= i < w.Hops() ==> MoveAt(rules, w.nodes[i]) == Hop(w.nodes[i + 1]))
    && (forall i :: 0 <= i < w.Hops() ==> w.nodes[i] !in seen)
    && (forall i, j :: 0 <= i < j < w.Hops() ==> w.nodes[i] != w.nodes[j])
    && (w.ending == Cycled <==> w.Last() in seen || w.Last() in w.nodes[..w.Hops()])
    && (w.ending == Settled ==> MoveAt(rules, w.Last()) == Stop)
    && (w.ending == Suppressed ==> MoveAt(rules, w.Last()) == Drop)
  }

  lemma {:induction false} WalkFromIsWalk(rules: Rules, n: Fp, seen: set<Fp>)
    ensures IsWalk(rules, n, seen, WalkFrom(rules, n, seen))
    decreases rules.Keys - seen
  {
    var w := WalkFrom(rules, n, seen);
    if n !in seen && MoveAt(rules, n).Hop? {
      var m := MoveAt(rules, n).to;
      var rest := WalkFrom(rules, m, seen + {n});
      WalkFromIsWalk(rules, m, seen + {n});
      assert forall i :: 0 < i <= w.Hops() ==> w.nodes[i] == rest.nodes[i - 1];
      assert w.nodes[..w.Hops()] == [n] + rest.nodes[..rest.Hops()];
      assert w.Last() == rest.Last();
    }
  }

  /** What follows the first node of a walk is a walk. */
  lemma TailIsWalk(rules: Rules, n: Fp, seen: set<Fp>, w: Walk)
    requires IsWalk(rules, n, seen, w) && w.Hops() > 0
    ensures MoveAt(rules, n) == Hop(w.nodes[1]) && n !in seen && w.nodes == [n] + w.nodes[1..]
    ensures IsWalk(rules, w.nodes[1], seen + {n}, Walk(w.nodes[1..], w.ending))
  {
    hide MoveAt;
    var tail := Walk(w.nodes[1..], w.ending);
    assert MoveAt(rules, w.nodes[0]) == Hop(w.nodes[1]);
    assert w.nodes[..w.Hops()] == [n] + tail.nodes[..tail.Hops()];
    forall i | 0 <= i < tail.Hops()
      ensures MoveAt(rules, tail.nodes[i]) == Hop(tail.nodes[i + 1]) && tail.nodes[i] !in seen + {n}
    {
      assert tail.nodes[i] == w.nodes[i + 1];
      assert MoveAt(rules, w.nodes[i + 1]) == Hop(w.nodes[i + 2]);
    }
  }

  /** A rule table and a start determine the walk: any node list that reads as a walk is it. */
  lemma {:induction false} WalkIsUnique(rules: Rules, n: Fp, seen: set<Fp>, w: Walk)
    requires IsWalk(rules, n, seen, w)
    ensures w == WalkFrom(rules, n, seen)
    decreases |w.nodes|
  {
    if w.Hops() == 0 {
      assert w.nodes == [n];
    } else {
      hide IsWalk;
      TailIsWalk(rules, n, seen, w);
      WalkIsUnique(rules, w.nodes[1], seen + {n}, Walk(w.nodes[1..], w.ending));
    }
  }

  /** The walk yields no fingerprint exactly when it meets a suppress rule. */
  lemma SuppressedIffMeetsSuppressRule(rules: Rules, n: Fp)
    ensures var w := FullWalk(rules, n);
      w.Value() == None <==>
        exists i :: 0 <= i < |w.nodes| && w.nodes[i] in rules && rules[w.nodes[i]].action == Suppress
  {
    WalkFromIsWalk(rules, n, {});
    var w := FullWalk(rules, n);
    if w.ending == Suppressed {
      assert w.nodes[w.Hops()] == w.Last();
    } else {
      forall i | 0 <= i < |w.nodes|
        ensures MoveAt(rules, w.nodes[i]) != Drop
      {
        if i < w.Hops() {
          assert MoveAt(rules, w.nodes[i]) == Hop(w.nodes[i + 1]);
        } else if w.ending == Cycled {
          var j :| 0 <= j < w.Hops() && w.nodes[j] == w.nodes[i];
          assert MoveAt(rules, w.nodes[j]) == Hop(w.nodes[j + 1]);
        }
      }
    }
  }

  /** Only the rules at the walk's own nodes matter: two tables that agree there give the
      same walk. */
  lemma WalkDependsOnlyOnItsNodes(rules: Rules, rules': Rules, n: Fp)
    requires forall x :: x in FullWalk(rules, n).nodes ==> MoveAt(rules, x) == MoveAt(rules', x)
    ensures FullWalk(rules', n) == FullWalk(rules, n)
  {
    WalkFromIsWalk(rules, n, {});
    WalkIsUnique(rules', n, {}, FullWalk(rules, n));
  }

  /** From the first repeated node on, a cycling walk goes round its cycle. */
  lemma CycleIsWalk(rules: Rules, n: Fp, w: Walk, j: nat)
    requires IsWalk(rules, n, {}, w) && w.ending == Cycled && j < w.Hops() && w.nodes[j] == w.Last()
    ensures IsWalk(rules, w.Last(), {}, Walk(w.nodes[j..], Cycled))
  {
    var loop := Walk(w.nodes[j..], Cycled);
    assert loop.nodes[0] in loop.nodes[..loop.Hops()];
    forall i | 0 <= i < loop.Hops()
      ensures MoveAt(rules, loop.nodes[i]) == Hop(loop.nodes[i + 1])
    {
      assert MoveAt(rules, w.nodes[i + j]) == Hop(w.nodes[i + j + 1]);
    }
  }

  /** Resolving a resolved value gives that value again, along every walk. */
  lemma UnboundedResolutionIsIdempotent(rules: Rules, n: Fp)
    ensures var w := FullWalk(rules, n);
      w.Value().Some? ==>
        && FullWalk(rules, w.Last()).Value() == w.Value()
        && FullWalk(rules, w.Last()).Hops() <= w.Hops()
  {
    var w := FullWalk(rules, n);
    WalkFromIsWalk(rules, n, {});
    if w.ending == Settled {
      WalkIsUnique(rules, w.Last(), {}, Walk([w.Last()], Settled));
    } else if w.ending == Cycled {
      var j :| 0 <= j < w.Hops() && w.nodes[j] == w.Last();
      CycleIsWalk(rules, n, w, j);
      WalkIsUnique(rules, w.Last(), {}, Walk(w.nodes[j..], Cycled));
    }
  }

  // ---------------------------------------------------------------------------------
  // The loop as written: sixteen rounds, then whatever has been reached.
  // ---------------------------------------------------------------------------------

  const MAX_HOPS := 16

  /** What sixteen rounds can see of a walk. */
  function Bounded(w: Walk): Option<Fp>
    requires w.nodes != []
  {
    if w.Hops() < MAX_HOPS then w.Value() else Some(w.nodes[MAX_HOPS])
  }

  /** The nodes whose rules a walk applies: every distinct node that has a rule. */
  function RuleNodes(rules: Rules, w: Walk): seq<Fp>
    requires w.nodes != []
  {
    if w.ending == Cycled || w.Last() !in rules then w.nodes[..w.Hops()] else w.nodes
  }

  function Applied(rules: Rules, w: Walk): seq<Fp>
    requires w.nodes != []
  {
    var all := RuleNodes(rules, w);
    if |all| <= MAX_HOPS then all else all[..MAX_HOPS]
  }

  /** The loop agrees with the unbounded walk exactly on these walks. Beyond sixteen hops it
      can agree only by landing, on its sixteenth hop, on the node the cycle closes at; and a
      suppress rule must be met within the first fifteen hops. */
  lemma LoopAgreesExactlyWhen(rules: Rules, n: Fp)
    ensures var w := FullWalk(rules, n);
      Bounded(w) == w.Value() <==>
        match w.ending
        case Settled => w.Hops() <= MAX_HOPS
        case Suppressed => w.Hops() < MAX_HOPS
        case Cycled => w.Hops() <= MAX_HOPS || w.nodes[MAX_HOPS] == w.Last()
  {
    WalkFromIsWalk(rules, n, {});
    var w := FullWalk(rules, n);
    if w.ending == Settled && w.Hops() > MAX_HOPS {
      assert w.nodes[MAX_HOPS] in w.nodes[..w.Hops()];
      assert w.Last() !in w.nodes[..w.Hops()];
    }
  }

  function ChainName(length: nat): (name: Fp)
    ensures |name| == length
  {
    if length == 0 then "" else ChainName(length - 1) + "f"
  }

  /** Aliases "f" -> "ff" -> ... that reach a suppress rule after sixteen hops. */
  function LongChain(): Rules {
    var names := set i | 1 <= i <= MAX_HOPS + 1 :: ChainName(i);
    map n | n in names :: Rule(n, if |n| <= MAX_HOPS then Alias else Suppress, n + "f", "", "", "", "", "", map[])
  }

  /** So the full design is not met for every table: a suppress rule sixteen hops away is
      never reached, and the issue stays visible under the suppressed fingerprint. */
  lemma LongChainEscapesSuppression()
    ensures FullWalk(LongChain(), ChainName(1)).Value() == None
    ensures Bounded(FullWalk(LongChain(), ChainName(1))) == Some(ChainName(MAX_HOPS + 1))
  {
    var rules := LongChain();
    var nodes := seq(MAX_HOPS + 1, i requires 0 <= i => ChainName(i + 1));
    forall i | 0 <= i <= MAX_HOPS
      ensures |nodes[i]| == i + 1
      ensures MoveAt(rules, nodes[i]) == if i < MAX_HOPS then Hop(ChainName(i + 2)) else Drop
    {
      assert nodes[i] == ChainName(i + 1) && ChainName(i + 1) in rules;
    }
    forall i, j | 0 <= i < j <= MAX_HOPS
      ensures nodes[i] != nodes[j]
    {
      assert |nodes[i]| != |nodes[j]|;
    }
    WalkIsUnique(rules, ChainName(1), {}, Walk(nodes, Suppressed));
  }

  /** In particular a walk that applies at most sixteen distinct rules is resolved in full. */
  lemma LoopRefinesWalkUpToSixteenRules(rules: Rules, n: Fp)
    requires |RuleNodes(rules, FullWalk(rules, n))| <= MAX_HOPS
    ensures Bounded(FullWalk(rules, n)) == FullWalk(rules, n).Value()
  {
    WalkFromIsWalk(rules, n, {});
    LoopAgreesExactlyWhen(rules, n);
  }

  /** For such walks the value the loop returns is a fixed point of the loop. */
  lemma LoopIsIdempotentUpToSixteenRules(rules: Rules, n: Fp)
    requires |RuleNodes(rules, FullWalk(rules, n))| <= MAX_HOPS
    ensures var r := Bounded(FullWalk(rules, n));
      r.Some? ==> Bounded(FullWalk(rules, r.value)) == r
  {
    LoopRefinesWalkUpToSixteenRules(rules, n);
    UnboundedResolutionIsIdempotent(rules, n);
    var w := FullWalk(rules, n);
    if w.Value().Some? {
      LoopAgreesExactlyWhen(rules, w.Last());
      WalkFromIsWalk(rules, w.Last(), {});
    }
  }

  // ---------------------------------------------------------------------------------
  // Adding an alias rule.
  // ---------------------------------------------------------------------------------

  /** Every node of a walk but the last has a rule. */
  lemma PassedNodesHaveRules(rules: Rules, n: Fp, w: Walk)
    requires IsWalk(rules, n, {}, w)
    ensures forall i :: 0 <= i < w.Hops() ==> w.nodes[i] in rules
  {
    forall i | 0 <= i < w.Hops()
      ensures w.nodes[i] in rules
    {
      assert MoveAt(rules, w.nodes[i]) == Hop(w.nodes[i + 1]);
    }
  }

  lemma LongerWalk(rules: Rules, a: Fp, b: Fp, rule: Rule, n: Fp, w: Walk)
    requires a !in rules && b !in rules && a != b && b != ""
    requires rule.action == Alias && rule.canonical == b
    requires IsWalk(rules, n, {}, w) && w.Last() == a
    ensures w.ending == Settled
    ensures IsWalk(rules[a := rule], n, {}, Walk(w.nodes + [b], Settled))
  {
    PassedNodesHaveRules(rules, n, w);
    var longer := Walk(w.nodes + [b], Settled);
    assert longer.nodes[..longer.Hops()] == w.nodes;
    assert a !in w.nodes[..w.Hops()];
    forall i | 0 <= i < longer.Hops()
      ensures MoveAt(rules[a := rule], longer.nodes[i]) == Hop(longer.nodes[i + 1])
    {
      if i < w.Hops() {
        assert MoveAt(rules, w.nodes[i]) == Hop(w.nodes[i + 1]);
      }
    }
  }

  lemma OtherWalkStays(rules: Rules, a: Fp, b: Fp, rule: Rule, n: Fp, w: Walk)
    requires a !in rules && b !in rules
    requires w == FullWalk(rules, n) && IsWalk(rules, n, {}, w) && w.Last() != a
    ensures FullWalk(rules[a := rule], n) == w
    ensures w.Last() == b ==> w.ending == Settled
  {
    PassedNodesHaveRules(rules, n, w);
    forall x | x in w.nodes
      ensures MoveAt(rules, x) == MoveAt(rules[a := rule], x)
    {
      assert x != a;
    }
    WalkDependsOnlyOnItsNodes(rules, rules[a := rule], n);
    assert b !in w.nodes[..w.Hops()];
  }

  /** The effect on whole walks of aliasing a rule-free fingerprint to another one: walks that
      ended at `a` take one more hop to `b`, all other walks stay as they were. */
  lemma AliasExtendsWalks(rules: Rules, a: Fp, b: Fp, rule: Rule, n: Fp)
    requires a !in rules && b !in rules && a != b && b != ""
    requires rule.action == Alias && rule.canonical == b
    ensures var w, w' := FullWalk(rules, n), FullWalk(rules[a := rule], n);
      w' == if w.Last() == a then Walk(w.nodes + [b], Settled) else w
    ensures var w := FullWalk(rules, n); w.Last() == a || w.Last() == b ==> w.ending == Settled
  {
    var w := FullWalk(rules, n);
    WalkFromIsWalk(rules, n, {});
    if w.Last() == a {
      LongerWalk(rules, a, b, rule, n, w);
      WalkIsUnique(rules[a := rule], n, {}, Walk(w.nodes + [b], Settled));
    } else {
      OtherWalkStays(rules, a, b, rule, n, w);
    }
  }

  /** The effect on resolved values. A fingerprint that resolved to `a` now resolves to `b`
      exactly when its walk had a hop to spare; every other fingerprint is untouched. */
  lemma AliasRedirectsExactlyShortWalks(rules: Rules, a: Fp, b: Fp, rule: Rule, n: Fp)
    requires a !in rules && b !in rules && a != b && b != ""
    requires rule.action == Alias && rule.canonical == b
    ensures var old', new' := Bounded(FullWalk(rules, n)), Bounded(FullWalk(rules[a := rule], n));
      && (old' != Some(a) ==> new' == old')
      && (old' == Some(a) ==>
            && FullWalk(rules, n).Last() == a
            && (new' == Some(b) <==> FullWalk(rules, n).Hops() < MAX_HOPS)
            && (new' == Some(a) <==> FullWalk(rules, n).Hops() == MAX_HOPS))
  {
    AliasExtendsWalks(rules, a, b, rule, n);
    WalkFromIsWalk(rules, n, {});
    var w := FullWalk(rules, n);
    assert w.Hops() > MAX_HOPS ==> MoveAt(rules, w.nodes[MAX_HOPS]) == Hop(w.nodes[MAX_HOPS + 1]);
  }

  // ---------------------------------------------------------------------------------
  // The service.
  // ---------------------------------------------------------------------------------

  /** The parts a generated fingerprint is hashed from. */
  datatype Components = Components(
    issueType: string,
    package: string,
    process: string,
    scenario: string,
    titleKey: string,
    rawKey: string)

  /** What the governance service leaves on a fingerprint it has redirected. */
  datatype Trace = Trace(original: Fp, canonical: Fp, applied: seq<Rule>)

  datatype IssueFingerprint = IssueFingerprint(
    value: Fp,
    ruleVersion: string,
    components: Components,
    governance: Option<Trace>)

  function RulesAt(rules: Rules, nodes: seq<Fp>): (applied: seq<Rule>)
    requires forall n :: n in nodes ==> n in rules
    ensures |applied| == |nodes|
  {
    seq(|nodes|, i requires 0 <= i < |nodes| => assert nodes[i] in nodes; rules[nodes[i]])
  }

  lemma AppliedNodesHaveRules(rules: Rules, n: Fp)
    ensures forall x :: x in Applied(rules, FullWalk(rules, n)) ==> x in rules
  {
    WalkFromIsWalk(rules, n, {});
    var w := FullWalk(rules, n);
    forall i | 0 <= i < w.Hops()
      ensures w.nodes[i] in rules
    {
      assert MoveAt(rules, w.nodes[i]) == Hop(w.nodes[i + 1]);
    }
  }

  /** The governed form of a fingerprint, read off the unbounded walk. */
  function Governed(rules: Rules, fp: IssueFingerprint): Option<IssueFingerprint> {
    var w := FullWalk(rules, fp.value);
    AppliedNodesHaveRules(rules, fp.value);
    var applied := RulesAt(rules, Applied(rules, w));
    match Bounded(w)
    case None => None
    case Some(v) =>
      if applied == [] then Some(fp)
      else Some(fp.(value := v,
                    ruleVersion := fp.ruleVersion + "+governance",
                    governance := Some(Trace(fp.value, v, applied))))
  }

  /** Whether or not a rule applied, the governed value is the bounded resolution. */
  lemma GovernedValue(rules: Rules, fp: IssueFingerprint)
    ensures match Governed(rules, fp)
      case None => Bounded(FullWalk(rules, fp.value)) == None
      case Some(g) => Bounded(FullWalk(rules, fp.value)) == Some(g.value) && g.components == fp.components
  {
    WalkFromIsWalk(rules, fp.value, {});
  }

  /** A fingerprint comes back as it was exactly when it has no rule. Otherwise it carries the marked
      version and a trace from the incoming to the resolved fingerprint, with one to sixteen rules:
      its own, and each further one that of the fingerprint the rule before is an alias for. */
  lemma TraceTellsTheWay(rules: Rules, fp: IssueFingerprint)
    requires Governed(rules, fp).Some?
    ensures var g := Governed(rules, fp).value;
      && g.components == fp.components
      && (fp.value !in rules <==> g == fp)
      && (fp.value in rules ==>
            && g.ruleVersion == fp.ruleVersion + "+governance" && g.governance.Some?
            && var trace := g.governance.value;
            && trace.original == fp.value && trace.canonical == g.value && 1 <= |trace.applied| <= 16
            && trace.applied[0] == rules[fp.value]
            && forall i, j :: 0 <= i && j == i + 1 && j < |trace.applied| ==>
                 LeadsTo(rules, trace.applied[i], trace.applied[j]))
  {
    hide WalkFrom;
    var w := FullWalk(rules, fp.value);
    WalkFromIsWalk(rules, fp.value, {});
    AppliedNodesHaveRules(rules, fp.value);
    var nodes := Applied(rules, w);
    forall i | 0 <= i < |nodes|
      ensures nodes[i] == w.nodes[i] && nodes[i] in rules
    {
      assert nodes[i] in nodes;
    }
    if fp.value in rules {
      assert w.Hops() == 0 ==> w.ending != Cycled;
    }
    VersionIsMarked(fp.ruleVersion);
  }

  /** The one rule is an alias for the fingerprint of the other. */
  predicate LeadsTo(rules: Rules, rule: Rule, next: Rule) {
    rule.action == Alias && rule.canonical in rules && next == rules[rule.canonical]
  }

  lemma VersionIsMarked(version: string)
    ensures version + "+governance" != version
  {
    assert |version + "+governance"| == |version| + 11;
  }

  datatype GovernanceError = BlankFingerprint | SameFingerprint

  /** The new rule for a source: who first made a rule for it, and when, is kept. */
  function Rewritten(rules: Rules, source: Fp, action: Action, canonical: Fp, reason: string, actor: string,
                     now: string, metadata: map<string, string>): Rule {
    var first := source !in rules;
    Rule(source, action, canonical, reason, if first then now else rules[source].createdAt,
         if first then actor else rules[source].createdBy, now, actor, metadata)
  }

  class IssueFingerprintGovernanceService {
    var rules: Rules

    /** The registry only ever holds rules filed under their own, non-blank, source. */
    ghost predicate Valid()
      reads this
    {
      forall s :: s in rules ==> s != "" && rules[s].source == s
    }

    constructor ()
      ensures Valid() && rules == map[]
    {
      rules := map[];
    }

    method ResolveFingerprint(fp: IssueFingerprint) returns (r: Result<Option<IssueFingerprint>, GovernanceError>)
      ensures r == if fp.value == "" then Err(BlankFingerprint) else Ok(Governed(rules, fp))
    {
      if fp.value == "" {
        return Err(BlankFingerprint);
      }
      AppliedNodesHaveRules(rules, fp.value);
      var resolved, applied := FollowRules(fp.value);
      if resolved == None {
        return Ok(None);
      }
      if applied == [] {
        return Ok(Some(fp));
      }
      var current := resolved.value;
      var trace := Trace(fp.value, current, applied);
      return Ok(Some(fp.(value := current,
                         ruleVersion := fp.ruleVersion + "+governance",
                         governance := Some(trace))));
    }

    /** The loop of ResolveFingerprint: at most sixteen rounds over the rule table. */
    method FollowRules(start: Fp) returns (resolved: Option<Fp>, applied: seq<Rule>)
      ensures resolved == Bounded(FullWalk(rules, start))
      ensures resolved != None ==>
        && (forall x :: x in Applied(rules, FullWalk(rules, start)) ==> x in rules)
        && applied == RulesAt(rules, Applied(rules, FullWalk(rules, start)))
    {
      ghost var w := FullWalk(rules, start);
      WalkFromIsWalk(rules, start, {});
      var current, visited := start, {};
      applied := [];
      var i := 0;
      while i < MAX_HOPS
        invariant 0 <= i <= MAX_HOPS && i <= w.Hops() && current == w.nodes[i]
        invariant visited == set x | x in w.nodes[..i]
        invariant forall x :: x in w.nodes[..i] ==> x in rules
        invariant applied == RulesAt(rules, w.nodes[..i])
      {
        if i < w.Hops() {
          assert MoveAt(rules, w.nodes[i]) == Hop(w.nodes[i + 1]);
        }
        if current in visited {
          break;
        }
        visited := visited + {current};
        if current !in rules {
          break;
        }
        var rule := rules[current];
        assert w.nodes[..i + 1] == w.nodes[..i] + [current];
        applied := applied + [rule];
        if rule.action == Suppress {
          return None, applied;
        }
        if rule.action != Alias || rule.canonical == "" {
          assert w.nodes[..i + 1] == w.nodes;
          break;
        }
        current := rule.canonical;
        i := i + 1;
      }
      return Some(current), applied;
    }

    method UpsertRule(source: Fp, action: Action, canonical: Fp, reason: string, actor: string, now: string,
                      metadata: map<string, string>)
      returns (rule: Rule)
      requires Valid() && source != ""
      modifies this
      ensures Valid()
      ensures rule == Rewritten(old(rules), source, action, canonical, reason, actor, now, metadata)
      ensures rules == old(rules)[source := rule]
    {
      var createdAt, createdBy := now, actor;
      if source in rules {
        createdAt, createdBy := rules[source].createdAt, rules[source].createdBy;
      }
      rule := Rule(source, action, canonical, reason, createdAt, createdBy, now, actor, metadata);
      rules := rules[source := rule];
    }

    method UpsertAlias(source: Fp, canonical: Fp, reason: string, actor: string, now: string,
                       metadata: map<string, string>)
      returns (r: Result<Rule, GovernanceError>)
      requires Valid()
      modifies this
      ensures Valid()
      ensures r.Ok? <==> source != "" && canonical != "" && source != canonical
      ensures r.Err? ==> rules == old(rules)
      ensures r.Err? ==> r.error == if source == "" || canonical == "" then BlankFingerprint else SameFingerprint
      ensures r.Ok? ==> rules == old(rules)[source := r.value]
      ensures r.Ok? ==> r.value == Rewritten(old(rules), source, Alias, canonical, reason, actor, now, metadata)
      // Every fingerprint whose walk avoids the source keeps its whole walk.
      ensures forall n :: source !in FullWalk(old(rules), n).nodes ==> FullWalk(rules, n) == FullWalk(old(rules), n)
    {
      if source == "" || canonical == "" {
        return Err(BlankFingerprint);
      }
      if source == canonical {
        return Err(SameFingerprint);
      }
      var rule := UpsertRule(source, Alias, canonical, reason, actor, now, metadata);
      OtherWalksUnchanged(old(rules), rules, source);
      return Ok(rule);
    }

    method SuppressFingerprint(fp: Fp, reason: string, actor: string, now: string, metadata: map<string, string>)
      returns (r: Result<Rule, GovernanceError>)
      requires Valid()
      modifies this
      ensures Valid()
      ensures r.Ok? <==> fp != ""
      ensures r.Err? ==> rules == old(rules)
      ensures r.Ok? ==> rules == old(rules)[fp := r.value]
      ensures r.Ok? ==> r.value == Rewritten(old(rules), fp, Suppress, "", reason, actor, now, metadata)
      ensures r.Ok? ==> FullWalk(rules, fp).Value() == None
      ensures forall n :: fp !in FullWalk(old(rules), n).nodes ==> FullWalk(rules, n) == FullWalk(old(rules), n)
    {
      if fp == "" {
        return Err(BlankFingerprint);
      }
      var rule := UpsertRule(fp, Suppress, "", reason, actor, now, metadata);
      OtherWalksUnchanged(old(rules), rules, fp);
      return Ok(rule);
    }

    method RemoveRule(source: Fp) returns (r: Result<bool, GovernanceError>)
      requires Valid()
      modifies this
      ensures Valid()
      ensures r == if source == "" then Err(BlankFingerprint) else Ok(source in old(rules))
      ensures rules == old(rules) - {source}
      ensures forall n :: source !in FullWalk(old(rules), n).nodes ==> FullWalk(rules, n) == FullWalk(old(rules), n)
    {
      if source == "" {
        return Err(BlankFingerprint);
      }
      if source !in rules {
        return Ok(false);
      }
      rules := rules - {source};
      OtherWalksUnchanged(old(rules), rules, source);
      return Ok(true);
    }
  }

  /** Changing the rule at `s` only affects walks that visit `s`. */
  lemma OtherWalksUnchanged(rules: Rules, rules': Rules, s: Fp)
    requires forall x :: x != s ==> MoveAt(rules, x) == MoveAt(rules', x)
    ensures forall n :: s !in FullWalk(rules, n).nodes ==> FullWalk(rules', n) == FullWalk(rules, n)
  {
    forall n | s !in FullWalk(rules, n).nodes
      ensures FullWalk(rules', n) == FullWalk(rules, n)
    {
      WalkDependsOnlyOnItsNodes(rules, rules', n);
    }
  }
}
