/** The kernel commands both ingress guards issue, and what both guards read off a
    dumped table: where their own anchors stand and who refers to their chain. */
module IngressKernel {
  import opened Results
  import opened Netfilter

  const LOOPBACK_NETWORK := Net(0x7F00_0000, 8)

  /** A trusted subnet: the network decision never yields a zero-length prefix. */
  predicate IsSubnet(s: Token) {
    s.Net? && 1 <= s.prefix <= 32 && NetworkOf(s) == s
  }

  type Subnet = s: Token | IsSubnet(s) witness Net(0, 32)

  // ----- Rules that the guards write

  function Commented(comment: Word): seq<Clause> {
    [Known(DashM, Lit(CommentModule)), Known(Comment2, Lit(comment))]
  }

  function AllowRule(iface: Word, source: Token, comment: Word): (r: Rule) {
    RawRule([Known(DashI, Lit(iface)), Known(DashS, source)] + Commented(comment),
            JumpTo(Opt(DashJ), ReturnTarget), [])
  }

  function DropRule(comment: Word): (r: Rule) {
    RawRule(Commented(comment), JumpTo(Opt(DashJ), DropTarget), [])
  }

  function PortAnchor(protocol: Word, port: nat, comment: Word, chain: Chain): (r: Rule) {
    RawRule([Known(DashP, Lit(protocol)), Known(DashM, Lit(protocol)), Known(Dport2, Number(port))]
              + Commented(comment),
            JumpTo(Opt(DashJ), ChainTarget(chain)), [])
  }

  // ----- Commands

  function Inserted(t: Table, chain: Chain, index: nat, rule: Rule): Table
    requires chain in t && index <= |t[chain]|
  {
    t[chain := t[chain][..index] + [rule] + t[chain][index..]]
  }

  /** The live table.  `budget` is the number of kernel commands that still succeed:
      after that every command fails, which covers a crash between two commands, a
      command that fails outright, and a command whose effect happens but whose
      success is not reported (the next command is then the one that fails). */
  class FilterTable {
    var rules: Table
    var budget: nat

    constructor (rules: Table, budget: nat)
      ensures this.rules == rules && this.budget == budget
    {
      this.rules, this.budget := rules, budget;
    }

    method Save() returns (snapshot: Option<Table>)
      modifies this`budget
      ensures old(budget) == 0 ==> snapshot == None && budget == 0
      ensures old(budget) > 0 ==> snapshot == Some(rules) && budget == old(budget) - 1
    {
      if budget == 0 {
        return None;
      }
      budget := budget - 1;
      return Some(rules);
    }

    /** One atomic restore that replaces the body of one chain and leaves the rest. */
    method RestoreChain(chain: Chain, body: seq<Rule>, create: bool) returns (ok: bool)
      modifies this
      ensures ok == (old(budget) > 0 && (create || chain in old(rules)))
      ensures rules == if ok then old(rules)[chain := body] else old(rules)
      ensures budget == if old(budget) > 0 then old(budget) - 1 else 0
    {
      if budget == 0 {
        return false;
      }
      budget := budget - 1;
      if !create && chain !in rules {
        return false;
      }
      rules := rules[chain := body];
      return true;
    }

    /** Insert at a one-based position; the kernel refuses a position past the end
        and a rule whose target chain does not exist. */
    method Insert(chain: Chain, position: nat, rule: Rule) returns (ok: bool)
      requires position >= 1
      modifies this
      ensures ok == (old(budget) > 0 && chain in old(rules) && position - 1 <= |old(rules)[chain]|
                     && (rule.control.JumpTo? && rule.control.target.ChainTarget? ==>
                           rule.control.target.chain in old(rules)))
      ensures rules == if ok then Inserted(old(rules), chain, position - 1, rule) else old(rules)
      ensures budget == if old(budget) > 0 then old(budget) - 1 else 0
    {
      if budget == 0 {
        return false;
      }
      budget := budget - 1;
      if chain !in rules || position - 1 > |rules[chain]| {
        return false;
      }
      if rule.control.JumpTo? && rule.control.target.ChainTarget? && rule.control.target.chain !in rules {
        return false;
      }
      rules := Inserted(rules, chain, position - 1, rule);
      return true;
    }
  }

  // ----- What a guard reads off a dumped chain

  predicate Mentions(r: RawRule, comment: Word) {
    Lit(comment) in Tokens(r)
  }

  function MatchCount(r: RawRule, anchors: seq<Rule>): nat {
    if anchors == [] then 0
    else (if RuleMatches(r, anchors[0]) then 1 else 0) + MatchCount(r, anchors[1..])
  }

  datatype Anchors = Anchors(positions: seq<nat>, ambiguous: seq<Rule>)

  /** Rules that carry the owner's comment: the one-based positions of those that
      read like exactly one of the expected anchors, and the others. */
  function ScanAnchors(rules: seq<Rule>, comment: Word, expected: seq<Rule>): Anchors {
    if rules == [] then Anchors([], [])
    else
      var front := ScanAnchors(rules[..|rules| - 1], comment, expected);
      var r := rules[|rules| - 1];
      if !Mentions(r, comment) then front
      else if MatchCount(r, expected) == 1 then front.(positions := front.positions + [|rules|])
      else front.(ambiguous := front.ambiguous + [r])
  }

  method ReadAnchors(rules: seq<Rule>, comment: Word, expected: seq<Rule>) returns (found: Anchors)
    ensures found == ScanAnchors(rules, comment, expected)
  {
    var positions: seq<nat>, ambiguous: seq<Rule> := [], [];
    for i := 0 to |rules|
      invariant Anchors(positions, ambiguous) == ScanAnchors(rules[..i], comment, expected)
    {
      assert rules[..i + 1][..i] == rules[..i];
      if Mentions(rules[i], comment) {
        if MatchCount(rules[i], expected) == 1 {
          positions := positions + [i + 1];
        } else {
          ambiguous := ambiguous + [rules[i]];
        }
      }
    }
    assert rules[..|rules|] == rules;
    return Anchors(positions, ambiguous);
  }

  /** Some argument that looks like a jump (or, when asked for, a goto) is followed by
      the chain's name. */
  predicate Refers(r: RawRule, chain: Chain, gotoToo: bool) {
    exists i | 0 <= i < |Tokens(r)| - 1 ::
      (IsJumpFlag(Tokens(r)[i]) || (gotoToo && IsGotoFlag(Tokens(r)[i]))) && Tokens(r)[i + 1] == To(ChainTarget(chain))
  }

  /** Whether some rule of the table is such a reference. */
  method FindReference(t: Table, refers: (Chain, Rule) -> bool) returns (found: bool)
    ensures found <==> exists chain | chain in t :: exists r | r in t[chain] :: refers(chain, r)
  {
    var pending := t.Keys;
    while pending != {}
      invariant pending <= t.Keys
      invariant forall chain | chain in t && chain !in pending :: forall r | r in t[chain] :: !refers(chain, r)
      decreases pending
    {
      var chain :| chain in pending;
      for i := 0 to |t[chain]|
        invariant forall j | 0 <= j < i :: !refers(chain, t[chain][j])
      {
        if refers(chain, t[chain][i]) {
          assert t[chain][i] in t[chain];
          return true;
        }
      }
      pending := pending - {chain};
    }
    return false;
  }

  /** The scan finds every rule that really passes control to the chain. */
  lemma ControlIsSeen(r: Rule, chain: Chain)
    requires !r.control.NoTarget? && r.control.target == ChainTarget(chain)
    ensures Refers(r, chain, r.control.GotoTo?)
  {
    var i := |ClauseTokens(r.clauses)|;
    assert Tokens(r)[i] == r.control.flag;
    assert Tokens(r)[i + 1] == To(r.control.target);
  }

  function {:tailrecursion false} SourceValues(tokens: seq<Token>): seq<Token> {
    if |tokens| < 2 then []
    else (if IsSourceFlag(tokens[0]) then [tokens[1]] else []) + SourceValues(tokens[1..])
  }

  /** The network named by the only source flag of a rule, if there is exactly one. */
  function AllowSource(r: RawRule): Option<Token> {
    var values := SourceValues(Tokens(r));
    if |values| == 1 && values[0].Net? then Some(NetworkOf(values[0])) else None
  }

  predicate ReadsAs(rules: seq<Rule>, expected: seq<Rule>) {
    |rules| == |expected| && forall i | 0 <= i < |rules| :: RuleMatches(rules[i], expected[i])
  }

  // ----- Facts about scans

  predicate IsAnchor(r: RawRule, comment: Word, expected: seq<Rule>) {
    Mentions(r, comment) && MatchCount(r, expected) == 1
  }

  /** The `n` rules after the first `from` are anchors, and no other rule of the chain
      carries the owner's comment. */
  predicate Led(rules: seq<Rule>, from: nat, n: nat, comment: Word, expected: seq<Rule>) {
    && (n > 0 ==> from + n <= |rules|)
    && (forall i | from <= i < from + n :: IsAnchor(rules[i], comment, expected))
    && (forall i | 0 <= i < |rules| && !(from <= i < from + n) :: !Mentions(rules[i], comment))
  }

  /** The one-based positions `from + 1 .. from + n`. */
  function Consecutive(from: nat, n: nat): (s: seq<nat>)
    ensures |s| == n && forall i | 0 <= i < n :: s[i] == from + i + 1
  {
    if n == 0 then [] else Consecutive(from, n - 1) + [from + n]
  }

  lemma {:induction false} ScanSound(rules: seq<Rule>, comment: Word, expected: seq<Rule>, p: nat)
    requires p in ScanAnchors(rules, comment, expected).positions
    ensures 1 <= p <= |rules| && IsAnchor(rules[p - 1], comment, expected)
  {
    if rules != [] {
      var front := rules[..|rules| - 1];
      if p in ScanAnchors(front, comment, expected).positions {
        ScanSound(front, comment, expected, p);
      }
    }
  }

  lemma {:induction false} ScanComplete(rules: seq<Rule>, comment: Word, expected: seq<Rule>, i: nat)
    requires i < |rules| && Mentions(rules[i], comment)
    requires ScanAnchors(rules, comment, expected).ambiguous == []
    ensures i + 1 in ScanAnchors(rules, comment, expected).positions
  {
    if i < |rules| - 1 {
      ScanComplete(rules[..|rules| - 1], comment, expected, i);
    }
  }

  lemma {:induction false} ScanLed(rules: seq<Rule>, from: nat, n: nat, comment: Word, expected: seq<Rule>)
    requires Led(rules, from, n, comment, expected)
    ensures ScanAnchors(rules, comment, expected) == Anchors(Consecutive(from, n), [])
    decreases |rules|
  {
    if rules != [] {
      var last := |rules| - 1;
      var front := rules[..last];
      if from <= last < from + n {
        LedFront(rules, from, n, comment, expected, n - 1);
        ScanLed(front, from, n - 1, comment, expected);
        assert IsAnchor(rules[last], comment, expected);
        assert last + 1 == from + n;
      } else {
        LedFront(rules, from, n, comment, expected, n);
        ScanLed(front, from, n, comment, expected);
        assert !Mentions(rules[last], comment);
      }
    }
  }

  lemma LedFront(rules: seq<Rule>, from: nat, n: nat, comment: Word, expected: seq<Rule>, n': nat)
    requires Led(rules, from, n, comment, expected) && rules != []
    requires n' == if from <= |rules| - 1 < from + n then n - 1 else n
    ensures Led(rules[..|rules| - 1], from, n', comment, expected)
  {
  }

  lemma ScanGivesLed(rules: seq<Rule>, from: nat, n: nat, comment: Word, expected: seq<Rule>)
    requires ScanAnchors(rules, comment, expected) == Anchors(Consecutive(from, n), [])
    ensures Led(rules, from, n, comment, expected)
  {
    hide ScanAnchors, IsAnchor, Mentions;
    var s := Consecutive(from, n);
    if n > 0 {
      assert s[n - 1] == from + n;
      ScanSound(rules, comment, expected, from + n);
    }
    forall i | from <= i < from + n
      ensures IsAnchor(rules[i], comment, expected)
    {
      assert s[i - from] == i + 1;
      ScanSound(rules, comment, expected, i + 1);
    }
    assert forall p | p in s :: from < p <= from + n;
    forall i | 0 <= i < |rules| && !(from <= i < from + n)
      ensures !Mentions(rules[i], comment)
    {
      if Mentions(rules[i], comment) {
        ScanComplete(rules, comment, expected, i);
      }
    }
  }

  /** What the guards' position check establishes about the chain itself. */
  lemma ScanExact(rules: seq<Rule>, from: nat, n: nat, comment: Word, expected: seq<Rule>)
    ensures Led(rules, from, n, comment, expected) <==>
              ScanAnchors(rules, comment, expected) == Anchors(Consecutive(from, n), [])
  {
    if Led(rules, from, n, comment, expected) {
      ScanLed(rules, from, n, comment, expected);
    }
    if ScanAnchors(rules, comment, expected) == Anchors(Consecutive(from, n), []) {
      ScanGivesLed(rules, from, n, comment, expected);
    }
  }

  // ----- The only source flag of an allow rule

  predicate PlainValues(clauses: seq<Clause>) {
    forall c | c in clauses :: c.Known? && !c.value.Opt?
  }

  function SourcesOf(clauses: seq<Clause>): seq<Token> {
    if clauses == [] then []
    else (if clauses[0].Known? && IsSourceFlag(Opt(clauses[0].flag)) then [clauses[0].value] else [])
         + SourcesOf(clauses[1..])
  }

  lemma SourceValuesPair(flag: Token, value: Token, rest: seq<Token>)
    requires !value.Opt?
    ensures SourceValues([flag, value] + rest) == (if IsSourceFlag(flag) then [value] else []) + SourceValues(rest)
  {
    var all := [flag, value] + rest;
    assert all[1..] == [value] + rest;
    assert ([value] + rest)[1..] == rest;
    assert SourceValues([value] + rest) == SourceValues(rest);
  }

  lemma ThreeJoined(a: seq<Token>, b: seq<Token>, c: seq<Token>)
    ensures a + b + c == a + (b + c)
  {
  }

  lemma {:induction false} SourceValuesOfClauses(clauses: seq<Clause>, rest: seq<Token>)
    requires PlainValues(clauses)
    ensures SourceValues(ClauseTokens(clauses) + rest) == SourcesOf(clauses) + SourceValues(rest)
  {
    if clauses == [] {
      assert ClauseTokens(clauses) + rest == rest;
    } else {
      var c := clauses[0];
      assert c in clauses;
      SourceValuesOfClauses(clauses[1..], rest);
      ThreeJoined([Opt(c.flag), c.value], ClauseTokens(clauses[1..]), rest);
      SourceValuesPair(Opt(c.flag), c.value, ClauseTokens(clauses[1..]) + rest);
      var own := if IsSourceFlag(Opt(c.flag)) then [c.value] else [];
      ThreeJoined(own, SourcesOf(clauses[1..]), SourceValues(rest));
    }
  }

  lemma SourceClause(c: Clause, net: Token)
    requires ReadsClause(c) && net.Net? && (ClausePair(c).0 == Source ==> ClausePair(c).1 == net)
    ensures c.Known? && IsSourceFlag(Opt(c.flag)) <==> ClausePair(c) == (Source, net)
    ensures c.Known? && IsSourceFlag(Opt(c.flag)) ==> c.value.Net? && NetworkOf(c.value) == net
  {
  }

  lemma {:induction false} OneSource(clauses: seq<Clause>, net: Token)
    requires Reads(clauses) && net.Net?
    requires forall pair | pair in Bag(clauses) && pair.0 == Source :: pair.1 == net
    ensures |SourcesOf(clauses)| == Bag(clauses)[(Source, net)]
    ensures forall v | v in SourcesOf(clauses) :: v.Net? && NetworkOf(v) == net
  {
    hide NetworkOf, ClausePair, ReadsClause, IsSourceFlag;
    if clauses != [] {
      var c := clauses[0];
      SourceClause(c, net);
      assert ClausePair(c) in Bag(clauses);
      assert forall pair | pair in Bag(clauses[1..]) :: pair in Bag(clauses);
      OneSource(clauses[1..], net);
    }
  }

  lemma {:induction false} BagValuesPlain(clauses: seq<Clause>)
    requires Reads(clauses)
    requires forall pair | pair in Bag(clauses) :: !pair.1.Opt?
    ensures PlainValues(clauses)
  {
    if clauses != [] {
      assert ClausePair(clauses[0]) in Bag(clauses);
      assert forall pair | pair in Bag(clauses[1..]) :: pair in Bag(clauses);
      BagValuesPlain(clauses[1..]);
    }
  }

  lemma AllowBag(iface: Word, source: Token, comment: Word)
    requires source.Net?
    ensures Reads(AllowRule(iface, source, comment).clauses)
    ensures Bag(AllowRule(iface, source, comment).clauses) ==
              multiset{(InInterface, Lit(iface)), (Source, NetworkOf(source))}
              + multiset{(Match, Lit(CommentModule)), (Comment, Lit(comment))}
  {
    hide NetworkOf;
    var c0, c1 := Known(DashI, Lit(iface)), Known(DashS, source);
    var c2, c3 := Known(DashM, Lit(CommentModule)), Known(Comment2, Lit(comment));
    assert AllowRule(iface, source, comment).clauses == [c0, c1, c2, c3];
    assert ReadsClause(c0) && ClausePair(c0) == (InInterface, Lit(iface));
    assert ReadsClause(c1) && ClausePair(c1) == (Source, NetworkOf(source));
    assert ReadsClause(c2) && ClausePair(c2) == (Match, Lit(CommentModule));
    assert ReadsClause(c3) && ClausePair(c3) == (Comment, Lit(comment));
    Bag4(c0, c1, c2, c3);
  }

  lemma Bag1(c: Clause)
    requires ReadsClause(c)
    ensures Reads([c]) && Bag([c]) == multiset{ClausePair(c)}
  {
    assert [c][1..] == [];
  }

  lemma Bag2(c0: Clause, c1: Clause)
    requires ReadsClause(c0) && ReadsClause(c1)
    ensures Reads([c0, c1]) && Bag([c0, c1]) == multiset{ClausePair(c0), ClausePair(c1)}
  {
    Bag1(c0);
    Bag1(c1);
    BagSplit([c0], [c1]);
    assert [c0] + [c1] == [c0, c1];
  }

  lemma Bag4(c0: Clause, c1: Clause, c2: Clause, c3: Clause)
    requires ReadsClause(c0) && ReadsClause(c1) && ReadsClause(c2) && ReadsClause(c3)
    ensures Reads([c0, c1, c2, c3])
    ensures Bag([c0, c1, c2, c3]) ==
              multiset{ClausePair(c0), ClausePair(c1)} + multiset{ClausePair(c2), ClausePair(c3)}
  {
    Bag2(c0, c1);
    Bag2(c2, c3);
    BagSplit([c0, c1], [c2, c3]);
    assert [c0, c1] + [c2, c3] == [c0, c1, c2, c3];
  }

  lemma AllowClauses(clauses: seq<Clause>, iface: Word, source: Token, comment: Word)
    requires source.Net? && Reads(clauses)
    requires Bag(clauses) == Bag(AllowRule(iface, source, comment).clauses)
    ensures PlainValues(clauses) && |SourcesOf(clauses)| == 1
    ensures SourcesOf(clauses)[0].Net? && NetworkOf(SourcesOf(clauses)[0]) == NetworkOf(source)
  {
    AllowBag(iface, source, comment);
    BagValuesPlain(clauses);
    OneSource(clauses, NetworkOf(source));
    assert SourcesOf(clauses)[0] in SourcesOf(clauses);
  }

  lemma SourcesOfRule(r: Rule)
    requires PlainValues(r.clauses) && r.control.JumpTo? && r.extras == []
    ensures SourceValues(Tokens(r)) == SourcesOf(r.clauses)
  {
    var rest := ControlTokens(r.control) + r.extras;
    SourceValuesOfClauses(r.clauses, rest);
    assert rest == [r.control.flag, To(r.control.target)] + [];
    SourceValuesPair(r.control.flag, To(r.control.target), []);
    assert SourceValues(rest) == [];
  }

  /** Whatever the order of its arguments, a rule that reads like an allow rule has
      exactly the allowed network as its only source. */
  lemma AllowSourceFound(r: Rule, iface: Word, source: Token, comment: Word)
    requires source.Net? && RuleMatches(r, AllowRule(iface, source, comment))
    ensures AllowSource(r) == Some(NetworkOf(source))
  {
    RuleMatchesParts(r, AllowRule(iface, source, comment));
    AllowClauses(r.clauses, iface, source, comment);
    ReadRule(r);
    SourcesOfRule(r);
  }

  /** A source written with host bits set reads like the network it belongs to. */
  lemma AllowReadsNormalised(iface: Word, source: Token, comment: Word)
    requires source.Net?
    ensures ReadTokens(Tokens(AllowRule(iface, source, comment))) ==
              ReadTokens(Tokens(AllowRule(iface, NetworkOf(source), comment)))
  {
    AllowBag(iface, source, comment);
    AllowBag(iface, NetworkOf(source), comment);
    ClearTwice(source.address, HostBits(source.prefix));
    ReadRule(AllowRule(iface, source, comment));
    ReadRule(AllowRule(iface, NetworkOf(source), comment));
  }

  /** So such a rule still matches when the source is taken from the rule itself. */
  lemma AllowRecovered(r: Rule, iface: Word, source: Token, comment: Word)
    requires source.Net? && RuleMatches(r, AllowRule(iface, source, comment))
    ensures AllowSource(r) == Some(NetworkOf(source))
    ensures RuleMatches(r, AllowRule(iface, NetworkOf(source), comment))
  {
    AllowSourceFound(r, iface, source, comment);
    AllowReadsNormalised(iface, source, comment);
  }

  // ----- What the printed arguments of a rule contain

  lemma {:induction false} ValuePrinted(clauses: seq<Clause>, c: Clause)
    requires c in clauses && c.Known?
    ensures c.value in ClauseTokens(clauses)
  {
    if clauses[0] != c {
      ValuePrinted(clauses[1..], c);
    } else {
      assert ClauseTokens(clauses)[1] == c.value;
    }
  }

  lemma {:induction false} OnlyValuesPrinted(clauses: seq<Clause>, word: Word)
    requires forall c | c in clauses :: c.Known? && c.value != Lit(word)
    ensures Lit(word) !in ClauseTokens(clauses)
  {
    if clauses != [] {
      assert clauses[0] in clauses;
      OnlyValuesPrinted(clauses[1..], word);
    }
  }

  lemma {:induction false} NoControlFlags(clauses: seq<Clause>)
    requires PlainValues(clauses) && forall c | c in clauses :: WellFormedClause(c)
    ensures forall token | token in ClauseTokens(clauses) :: !IsJumpFlag(token) && !IsGotoFlag(token)
  {
    if clauses != [] {
      assert clauses[0] in clauses;
      NoControlFlags(clauses[1..]);
    }
  }

  /** A plainly written rule refers to a chain exactly when that chain is its target. */
  lemma PlainRuleRefers(r: Rule, chain: Chain)
    requires PlainValues(r.clauses) && r.control.JumpTo? && r.extras == []
    ensures Refers(r, chain, true) <==> r.control.target == ChainTarget(chain)
    ensures Refers(r, chain, false) <==> r.control.target == ChainTarget(chain)
  {
    NoControlFlags(r.clauses);
    var front := ClauseTokens(r.clauses);
    forall i | 0 <= i < |front|
      ensures !IsJumpFlag(Tokens(r)[i]) && !IsGotoFlag(Tokens(r)[i])
    {
      assert front[i] in front;
    }
    assert Tokens(r)[|front|] == r.control.flag && Tokens(r)[|front| + 1] == To(r.control.target);
  }

  lemma PlainRuleSilent(r: Rule, word: Word)
    requires r.control.JumpTo? && r.extras == []
    requires forall c | c in r.clauses :: c.Known? && c.value != Lit(word)
    ensures !Mentions(r, word)
  {
    OnlyValuesPrinted(r.clauses, word);
  }

  lemma CommentMentioned(r: RawRule, comment: Word)
    requires Known(Comment2, Lit(comment)) in r.clauses
    ensures Mentions(r, comment)
  {
    ValuePrinted(r.clauses, Known(Comment2, Lit(comment)));
  }

  lemma PlainRuleReads(r: Rule)
    requires Reads(r.clauses) && r.control.JumpTo? && r.extras == []
    ensures RuleMatches(r, r)
  {
    ReadRule(r);
  }

  lemma AllowRuleFacts(iface: Word, source: Token, comment: Word, chain: Chain)
    requires source.Net?
    ensures var r := AllowRule(iface, source, comment);
            RuleMatches(r, r) && !Refers(r, chain, true) && !Refers(r, chain, false)
  {
    var r := AllowRule(iface, source, comment);
    AllowBag(iface, source, comment);
    PlainRuleReads(r);
    PlainRuleRefers(r, chain);
  }

  lemma DropRuleFacts(comment: Word, chain: Chain)
    ensures var r := DropRule(comment);
            RuleMatches(r, r) && !Refers(r, chain, true) && !Refers(r, chain, false)
  {
    var r := DropRule(comment);
    PlainRuleReads(r);
    PlainRuleRefers(r, chain);
  }

  lemma CommentClause(clauses: seq<Clause>, comment: Word)
    ensures Known(Comment2, Lit(comment)) in clauses + Commented(comment)
  {
    assert (clauses + Commented(comment))[|clauses| + 1] == Known(Comment2, Lit(comment));
  }

  lemma PortAnchorFacts(protocol: Word, port: nat, comment: Word, chain: Chain)
    ensures var r := PortAnchor(protocol, port, comment, chain); RuleMatches(r, r) && Mentions(r, comment)
  {
    var r := PortAnchor(protocol, port, comment, chain);
    PlainRuleReads(r);
    var front := [Known(DashP, Lit(protocol)), Known(DashM, Lit(protocol)), Known(Dport2, Number(port))];
    CommentClause(front, comment);
    CommentMentioned(r, comment);
  }
}
