/** The registration ingress guard: it owns one chain and three anchors, which stand at
    INPUT positions 2, 3 and 4 behind the broker guard's anchor. */
module RegistrationGuard {
  import opened Results
  import opened Netfilter
  import opened IngressKernel
  import BrokerGuard

  /** The three anchors, in the order of the guarded ports. */
  function PortAnchors(): seq<Rule> {
    [PortAnchor(Tcp, 47110, RegistrationComment, RegistrationIngress),
     PortAnchor(Udp, 47111, RegistrationComment, RegistrationIngress),
     PortAnchor(Tcp, 47112, RegistrationComment, RegistrationIngress)]
  }

  function TrustedRule(subnet: Token): Rule {
    AllowRule(Eth0, subnet, RegistrationComment)
  }

  function OwnedDrop(): Rule {
    DropRule(RegistrationComment)
  }

  function OwnedChain(subnet: Option<Token>): seq<Rule> {
    match subnet
    case None => [OwnedDrop()]
    case Some(s) => [TrustedRule(s), OwnedDrop()]
  }

  predicate Owned(rules: seq<Rule>) {
    if |rules| == 1 then RuleMatches(rules[0], OwnedDrop())
    else if |rules| != 2 then false
    else
      && AllowSource(rules[0]).Some?
      && RuleMatches(rules[0], TrustedRule(AllowSource(rules[0]).value))
      && RuleMatches(rules[1], OwnedDrop())
  }

  lemma OwnedIff(rules: seq<Rule>)
    ensures Owned(rules) <==>
              || ReadsAs(rules, OwnedChain(None))
              || exists s: Token | s.Net? :: ReadsAs(rules, OwnedChain(Some(s)))
  {
    hide RuleMatches;
    if Owned(rules) && |rules| == 2 {
      assert ReadsAs(rules, OwnedChain(Some(AllowSource(rules[0]).value)));
    }
    forall s: Token | s.Net? && ReadsAs(rules, OwnedChain(Some(s)))
      ensures Owned(rules)
    {
      assert RuleMatches(rules[0], OwnedChain(Some(s))[0]);
      AllowRecovered(rules[0], Eth0, s, RegistrationComment);
    }
  }

  // ----- Inventory

  datatype Inventory = Inventory(
    inputPresent: bool, customChain: Option<seq<Rule>>, inputRules: seq<Rule>,
    anchors: Anchors, foreignReference: bool, brokerAnchorPosition: Option<nat>)

  predicate IsPortAnchor(r: Rule) {
    exists k | 0 <= k < 3 :: RuleMatches(r, PortAnchors()[k])
  }

  predicate ForeignReference(chain: Chain, r: Rule) {
    Refers(r, RegistrationIngress, true) && !(chain == Input && IsPortAnchor(r))
  }

  predicate HasForeignReference(t: Table) {
    exists chain | chain in t :: exists r | r in t[chain] :: ForeignReference(chain, r)
  }

  /** One-based positions of the rules that read exactly like the broker's INPUT anchor. */
  function BrokerPositions(rules: seq<Rule>): seq<nat> {
    if rules == [] then []
    else
      BrokerPositions(rules[..|rules| - 1])
      + (if RuleMatches(rules[|rules| - 1], BrokerGuard.InputAnchor()) then [|rules|] else [])
  }

  function BrokerPosition(rules: seq<Rule>): Option<nat> {
    if |BrokerPositions(rules)| == 1 then Some(BrokerPositions(rules)[0]) else None
  }

  function InventoryOf(t: Table): Inventory {
    var input := BrokerGuard.RulesOf(t, Input);
    Inventory(Input in t, if RegistrationIngress in t then Some(t[RegistrationIngress]) else None, input,
              ScanAnchors(input, RegistrationComment, PortAnchors()), HasForeignReference(t), BrokerPosition(input))
  }

  method ParseFirewallInventory(t: Table) returns (inventory: Inventory)
    ensures inventory == InventoryOf(t)
  {
    var input := BrokerGuard.RulesOf(t, Input);
    var anchors := ReadAnchors(input, RegistrationComment, PortAnchors());
    var foreign := FindReference(t, ForeignReference);
    inventory := Inventory(Input in t, if RegistrationIngress in t then Some(t[RegistrationIngress]) else None,
                           input, anchors, foreign, BrokerPosition(input));
  }

  // ----- Checks

  datatype GuardError =
    | InputChainMissing | BrokerGuardMustBeFirst | ChainOwnershipUnproven | AnchorSemanticsAmbiguous
    | ChainForeignReference | AnchorsNotExact234 | AnchorOrderInvalid
    | ChainRuleCountInvalid | ChainRuleSemanticsInvalid | CommandFailed

  predicate InOrder(rules: seq<Rule>) {
    |rules| >= 4 && forall k | 0 <= k < 3 :: RuleMatches(rules[k + 1], PortAnchors()[k])
  }

  function ValidatePrestate(inv: Inventory): Option<GuardError> {
    if !inv.inputPresent then Some(InputChainMissing)
    else if inv.brokerAnchorPosition != Some(1) then Some(BrokerGuardMustBeFirst)
    else if inv.customChain.Some? && !Owned(inv.customChain.value) then Some(ChainOwnershipUnproven)
    else if inv.anchors.ambiguous != [] then Some(AnchorSemanticsAmbiguous)
    else if inv.foreignReference then Some(ChainForeignReference)
    else if inv.anchors.positions != [] && inv.anchors.positions != [2, 3, 4] then Some(AnchorsNotExact234)
    else if inv.anchors.positions == [2, 3, 4] && !InOrder(inv.inputRules) then Some(AnchorOrderInvalid)
    else None
  }

  function ValidateAppliedState(inv: Inventory, subnet: Option<Token>): Option<GuardError> {
    if ValidatePrestate(inv).Some? then ValidatePrestate(inv)
    else if inv.anchors.positions != [2, 3, 4] then Some(AnchorsNotExact234)
    else if inv.customChain.None? || |inv.customChain.value| != |OwnedChain(subnet)| then Some(ChainRuleCountInvalid)
    else if !ReadsAs(inv.customChain.value, OwnedChain(subnet)) then Some(ChainRuleSemanticsInvalid)
    else None
  }

  predicate Accepts(t: Table) {
    ValidatePrestate(InventoryOf(t)).None?
  }

  predicate Applied(t: Table, subnet: Option<Token>) {
    ValidateAppliedState(InventoryOf(t), subnet).None?
  }

  // ----- What an accepted table looks like

  /** The broker's anchor is the first INPUT rule and occurs only there. */
  predicate BehindBroker(rules: seq<Rule>) {
    && rules != [] && RuleMatches(rules[0], BrokerGuard.InputAnchor())
    && forall i | 1 <= i < |rules| :: !RuleMatches(rules[i], BrokerGuard.InputAnchor())
  }

  lemma {:induction false} BrokerPositionsBelow(rules: seq<Rule>, i: nat)
    requires i < |rules|
    ensures i + 1 in BrokerPositions(rules) <==> RuleMatches(rules[i], BrokerGuard.InputAnchor())
    ensures forall p | p in BrokerPositions(rules) :: 1 <= p <= |rules|
    decreases |rules|
  {
    hide RuleMatches, BrokerGuard.InputAnchor;
    var front := rules[..|rules| - 1];
    if i < |front| {
      BrokerPositionsBelow(front, i);
    } else if front != [] {
      BrokerPositionsBelow(front, 0);
    }
  }

  lemma {:induction false} NoBrokerPositions(rules: seq<Rule>)
    requires forall i | 0 <= i < |rules| :: !RuleMatches(rules[i], BrokerGuard.InputAnchor())
    ensures BrokerPositions(rules) == []
  {
    if rules != [] {
      NoBrokerPositions(rules[..|rules| - 1]);
    }
  }

  lemma {:induction false} FirstBrokerPosition(rules: seq<Rule>)
    requires BehindBroker(rules)
    ensures BrokerPositions(rules) == [1]
    decreases |rules|
  {
    var front := rules[..|rules| - 1];
    if |rules| == 1 {
      NoBrokerPositions(front);
    } else {
      assert BehindBroker(front);
      FirstBrokerPosition(front);
    }
  }

  lemma BrokerPositionExact(rules: seq<Rule>)
    ensures BrokerPosition(rules) == Some(1) <==> BehindBroker(rules)
  {
    if BehindBroker(rules) {
      FirstBrokerPosition(rules);
    }
    if BrokerPosition(rules) == Some(1) {
      var positions := BrokerPositions(rules);
      assert positions == [1];
      if rules != [] {
        BrokerPositionsBelow(rules, 0);
      }
      forall i | 1 <= i < |rules|
        ensures !RuleMatches(rules[i], BrokerGuard.InputAnchor())
      {
        BrokerPositionsBelow(rules, i);
      }
    }
  }

  predicate Anchored(rules: seq<Rule>) {
    Led(rules, 1, 3, RegistrationComment, PortAnchors())
  }

  predicate Unanchored(rules: seq<Rule>) {
    Led(rules, 0, 0, RegistrationComment, PortAnchors())
  }

  lemma ScanPlaced(rules: seq<Rule>)
    ensures Anchored(rules) <==> ScanAnchors(rules, RegistrationComment, PortAnchors()) == Anchors([2, 3, 4], [])
    ensures Unanchored(rules) <==> ScanAnchors(rules, RegistrationComment, PortAnchors()) == Anchors([], [])
  {
    ScanExact(rules, 1, 3, RegistrationComment, PortAnchors());
    ScanExact(rules, 0, 0, RegistrationComment, PortAnchors());
    assert Consecutive(1, 3) == [2, 3, 4];
  }

  predicate OwnsChain(t: Table) {
    RegistrationIngress in t ==> Owned(t[RegistrationIngress])
  }

  lemma AcceptsIff(t: Table)
    ensures Accepts(t) <==>
              && Input in t && BehindBroker(t[Input]) && OwnsChain(t) && !HasForeignReference(t)
              && ((Anchored(t[Input]) && InOrder(t[Input])) || Unanchored(t[Input]))
  {
    hide RuleMatches, ScanAnchors, Led, BrokerPosition, Owned, HasForeignReference, InOrder, BehindBroker;
    if Input in t {
      BrokerPositionExact(t[Input]);
      ScanPlaced(t[Input]);
    }
  }

  lemma AppliedIff(t: Table, subnet: Option<Token>)
    ensures Applied(t, subnet) <==>
              && Accepts(t) && Anchored(t[Input])
              && RegistrationIngress in t && ReadsAs(t[RegistrationIngress], OwnedChain(subnet))
  {
    hide RuleMatches, ScanAnchors, Led, BrokerPosition, Owned, HasForeignReference, InOrder, BehindBroker;
    AcceptsIff(t);
    if Input in t {
      ScanPlaced(t[Input]);
    }
  }

  // ----- The guard's own rules

  lemma PortAnchorIs(k: nat)
    requires k < 3
    ensures PortAnchors()[k].control == JumpTo(Opt(DashJ), ChainTarget(RegistrationIngress))
    ensures PortAnchors()[k].extras == [] && PlainValues(PortAnchors()[k].clauses)
    ensures forall c | c in PortAnchors()[k].clauses :: c.value != Lit(BrokerComment)
    ensures RuleMatches(PortAnchors()[k], PortAnchors()[k]) && Mentions(PortAnchors()[k], RegistrationComment)
  {
    var protocol, port := if k == 1 then Udp else Tcp, 47110 + k;
    assert PortAnchors()[k] == PortAnchor(protocol, port, RegistrationComment, RegistrationIngress);
    PortAnchorPlain(protocol, port);
    PortAnchorFacts(protocol, port, RegistrationComment, RegistrationIngress);
  }

  lemma PortAnchorPlain(protocol: Word, port: nat)
    requires protocol == Tcp || protocol == Udp
    ensures var r := PortAnchor(protocol, port, RegistrationComment, RegistrationIngress);
            && PlainValues(r.clauses) && forall c | c in r.clauses :: c.value != Lit(BrokerComment)
  {
  }

  lemma PortOf(protocol: Word, port: nat, comment: Word, chain: Chain, pair: (Key, Token))
    requires Reads(PortAnchor(protocol, port, comment, chain).clauses)
    requires pair.0 == DestinationPort
    ensures pair in Bag(PortAnchor(protocol, port, comment, chain).clauses) <==> pair.1 == Number(port)
  {
    var clauses := PortAnchor(protocol, port, comment, chain).clauses;
    assert ClausePair(clauses[2]) == (DestinationPort, Number(port));
    PairListed(clauses, 2);
    if pair in Bag(clauses) {
      var i := PairSource(clauses, pair);
      assert i == 2;
    }
  }

  lemma PortsTellApart(protocolA: Word, portA: nat, commentA: Word, chainA: Chain,
                       protocolB: Word, portB: nat, commentB: Word, chainB: Chain)
    requires portA != portB
    ensures !RuleMatches(PortAnchor(protocolA, portA, commentA, chainA), PortAnchor(protocolB, portB, commentB, chainB))
  {
    var a, b := PortAnchor(protocolA, portA, commentA, chainA), PortAnchor(protocolB, portB, commentB, chainB);
    if RuleMatches(a, b) {
      RuleMatchesParts(a, b);
      var port := (DestinationPort, Number(portA));
      PortOf(protocolA, portA, commentA, chainA, port);
      PortOf(protocolB, portB, commentB, chainB, port);
    }
  }

  lemma {:induction false} PairListed(clauses: seq<Clause>, i: nat)
    requires Reads(clauses) && i < |clauses|
    ensures ClausePair(clauses[i]) in Bag(clauses)
  {
    if i > 0 {
      PairListed(clauses[1..], i - 1);
    }
  }

  lemma {:induction false} PairSource(clauses: seq<Clause>, pair: (Key, Token)) returns (i: nat)
    requires Reads(clauses) && pair in Bag(clauses)
    ensures i < |clauses| && ClausePair(clauses[i]) == pair
  {
    if ClausePair(clauses[0]) == pair {
      i := 0;
    } else {
      i := PairSource(clauses[1..], pair);
      i := i + 1;
    }
  }

  function PortProtocol(k: nat): Word {
    if k == 1 then Udp else Tcp
  }

  lemma PortAnchorForm(k: nat)
    requires k < 3
    ensures PortAnchors()[k] == PortAnchor(PortProtocol(k), 47110 + k, RegistrationComment, RegistrationIngress)
  {
  }

  lemma AnchorsTellApart(j: nat, k: nat)
    requires j < 3 && k < 3 && j != k
    ensures !RuleMatches(PortAnchors()[k], PortAnchors()[j])
  {
    PortAnchorForm(j);
    PortAnchorForm(k);
    PortsTellApart(PortProtocol(k), 47110 + k, RegistrationComment, RegistrationIngress,
                   PortProtocol(j), 47110 + j, RegistrationComment, RegistrationIngress);
  }

  lemma NotTheBrokerAnchor(k: nat)
    requires k < 3
    ensures !RuleMatches(PortAnchors()[k], BrokerGuard.InputAnchor())
  {
    PortAnchorForm(k);
    PortsTellApart(PortProtocol(k), 47110 + k, RegistrationComment, RegistrationIngress,
                   Tcp, BrokerGuard.BROKER_TLS_PORT, BrokerComment, BrokerIngress);
  }

  lemma AnchorCounts(k: nat)
    requires k < 3
    ensures MatchCount(PortAnchors()[k], PortAnchors()) == 1
  {
    PortAnchorIs(k);
    if k != 0 {
      AnchorsTellApart(0, k);
    }
    if k != 1 {
      AnchorsTellApart(1, k);
    }
    if k != 2 {
      AnchorsTellApart(2, k);
    }
    CountThree(PortAnchors()[k], PortAnchors());
  }

  lemma CountThree(r: Rule, a: seq<Rule>)
    requires |a| == 3
    ensures MatchCount(r, a) ==
              (if RuleMatches(r, a[0]) then 1 else 0) + (if RuleMatches(r, a[1]) then 1 else 0)
              + (if RuleMatches(r, a[2]) then 1 else 0)
  {
    assert a[1..][0] == a[1] && a[1..][1..] == a[2..] && a[2..][0] == a[2] && a[2..][1..] == [];
    assert MatchCount(r, a[2..]) == (if RuleMatches(r, a[2]) then 1 else 0) + MatchCount(r, []);
    assert MatchCount(r, a[1..]) == (if RuleMatches(r, a[1]) then 1 else 0) + MatchCount(r, a[2..]);
  }

  lemma OwnedChainPlain(subnet: Option<Subnet>, r: Rule, chain: Chain)
    requires r in OwnedChain(subnet)
    ensures RuleMatches(r, r) && !Refers(r, chain, false) && !Refers(r, chain, true)
  {
    DropRuleFacts(RegistrationComment, chain);
    if subnet.Some? {
      AllowRuleFacts(Eth0, subnet.value, RegistrationComment, chain);
    }
  }

  lemma OwnedChainOwned(subnet: Option<Subnet>)
    ensures ReadsAs(OwnedChain(subnet), OwnedChain(subnet)) && Owned(OwnedChain(subnet))
  {
    forall i | 0 <= i < |OwnedChain(subnet)|
      ensures RuleMatches(OwnedChain(subnet)[i], OwnedChain(subnet)[i])
    {
      OwnedChainPlain(subnet, OwnedChain(subnet)[i], Input);
    }
    OwnedIff(OwnedChain(subnet));
  }

  // ----- What an apply does

  function WithAnchors(rules: seq<Rule>, n: nat): seq<Rule>
    requires n <= 3 && rules != []
  {
    rules[..1] + PortAnchors()[..n] + rules[1..]
  }

  function InputAfter(rules: seq<Rule>, n: nat): seq<Rule>
    requires n <= 3 && rules != []
  {
    if Anchored(rules) then rules else WithAnchors(rules, n)
  }

  /** The table after the first `n` of the four changes an apply makes: the restore, then
      the anchors one by one. */
  function Stage(t: Table, subnet: Option<Subnet>, n: nat): Table
    requires n <= 4 && (n > 0 ==> Input in t && t[Input] != [])
  {
    if n == 0 then t
    else t[RegistrationIngress := OwnedChain(subnet)][Input := InputAfter(t[Input], n - 1)]
  }

  lemma OwnAnchor(k: nat)
    requires k < 3
    ensures IsAnchor(PortAnchors()[k], RegistrationComment, PortAnchors())
    ensures !RuleMatches(PortAnchors()[k], BrokerGuard.InputAnchor())
    ensures RuleMatches(PortAnchors()[k], PortAnchors()[k])
  {
    PortAnchorIs(k);
    AnchorCounts(k);
    NotTheBrokerAnchor(k);
  }

  lemma InsertedAt(rules: seq<Rule>, anchors: seq<Rule>, n: nat, after: seq<Rule>)
    requires rules != [] && n <= |anchors| && after == rules[..1] + anchors[..n] + rules[1..]
    ensures |after| == |rules| + n && after[0] == rules[0]
    ensures forall i | 1 <= i < 1 + n :: after[i] == anchors[i - 1]
    ensures forall i | 1 + n <= i < |after| :: after[i] == rules[i - n]
  {
  }

  lemma AnchorsInserted(rules: seq<Rule>, n: nat)
    requires BehindBroker(rules) && Unanchored(rules) && n <= 3
    ensures Led(WithAnchors(rules, n), 1, n, RegistrationComment, PortAnchors())
    ensures BehindBroker(WithAnchors(rules, n))
    ensures n == 3 ==> InOrder(WithAnchors(rules, n))
  {
    InsertedAnchors(rules, PortAnchors(), n, WithAnchors(rules, n));
  }

  lemma InsertedAnchors(rules: seq<Rule>, anchors: seq<Rule>, n: nat, after: seq<Rule>)
    requires BehindBroker(rules) && Unanchored(rules) && n <= 3 && anchors == PortAnchors()
    requires after == rules[..1] + anchors[..n] + rules[1..]
    ensures Led(after, 1, n, RegistrationComment, anchors)
    ensures BehindBroker(after)
    ensures n == 3 ==> InOrder(after)
  {
    hide RuleMatches, IsAnchor, Mentions;
    InsertedAt(rules, anchors, n, after);
    forall k: nat | k < 3
      ensures IsAnchor(anchors[k], RegistrationComment, anchors)
      ensures !RuleMatches(anchors[k], BrokerGuard.InputAnchor()) && RuleMatches(anchors[k], anchors[k])
    {
      OwnAnchor(k);
    }
  }

  lemma StageForeign(t: Table, subnet: Option<Subnet>, n: nat)
    requires Accepts(t) && n <= 4
    ensures Input in t && t[Input] != [] && !HasForeignReference(Stage(t, subnet, n))
  {
    hide Accepts, Led, RuleMatches, Refers, InOrder;
    AcceptsIff(t);
    var s := Stage(t, subnet, n);
    forall chain: Chain, r: Rule | chain in s && r in s[chain]
      ensures !ForeignReference(chain, r)
    {
      if chain in t && r in t[chain] {
      } else if chain == RegistrationIngress {
        OwnedChainPlain(subnet, r, RegistrationIngress);
      } else {
        assert chain == Input && r in PortAnchors();
        var k :| 0 <= k < 3 && r == PortAnchors()[k];
        PortAnchorIs(k);
      }
    }
  }

  lemma NotBoth(rules: seq<Rule>)
    ensures !(Anchored(rules) && Unanchored(rules))
  {
    if Anchored(rules) {
      assert IsAnchor(rules[1], RegistrationComment, PortAnchors());
    }
  }

  lemma StageInput(t: Table, subnet: Option<Subnet>, n: nat)
    requires Accepts(t) && n <= 4
    ensures Input in t && t[Input] != [] && BehindBroker(Stage(t, subnet, n)[Input])
    ensures Anchored(t[Input]) ==> Stage(t, subnet, n)[Input] == t[Input] && InOrder(t[Input])
    ensures !Anchored(t[Input]) && n > 0 ==>
              Led(Stage(t, subnet, n)[Input], 1, n - 1, RegistrationComment, PortAnchors())
    ensures !Anchored(t[Input]) && n == 4 ==> InOrder(Stage(t, subnet, n)[Input])
  {
    hide Accepts, OwnsChain, HasForeignReference, PortAnchors, RuleMatches, WithAnchors, InOrder, Led;
    AcceptsIff(t);
    NotBoth(t[Input]);
    if !Anchored(t[Input]) && n > 0 {
      AnchorsInserted(t[Input], n - 1);
    }
  }

  lemma PositionsBehind(n: nat)
    requires n <= 3
    ensures Consecutive(1, n) == if n == 0 then [] else if n == 1 then [2] else if n == 2 then [2, 3] else [2, 3, 4]
  {
  }

  lemma StagePositions(t: Table, subnet: Option<Subnet>, n: nat)
    requires Accepts(t) && 1 <= n <= 4
    ensures Input in t && t[Input] != []
    ensures !Anchored(t[Input]) ==>
              ScanAnchors(Stage(t, subnet, n)[Input], RegistrationComment, PortAnchors()) ==
                Anchors(if n == 1 then [] else if n == 2 then [2] else if n == 3 then [2, 3] else [2, 3, 4], [])
  {
    StageInput(t, subnet, n);
    if !Anchored(t[Input]) {
      ScanExact(Stage(t, subnet, n)[Input], 1, n - 1, RegistrationComment, PortAnchors());
      PositionsBehind(n - 1);
    }
  }

  /** A run cut off between the anchor inserts leaves a table that the next run rejects
      before it changes anything. */
  lemma CutOffRejected(t: Table, subnet: Option<Subnet>, n: nat)
    requires Accepts(t) && 2 <= n <= 3
    ensures Input in t && t[Input] != []
    ensures !Anchored(t[Input]) ==>
              ValidatePrestate(InventoryOf(Stage(t, subnet, n))) == Some(AnchorsNotExact234)
  {
    hide Accepts, Led, ScanAnchors, ValidatePrestate, HasForeignReference, WithAnchors, PortAnchors, RuleMatches;
    StagePositions(t, subnet, n);
    StageInput(t, subnet, n);
    StageForeign(t, subnet, n);
    OwnedChainOwned(subnet);
    if !Anchored(t[Input]) {
      PartialRejected(Stage(t, subnet, n), if n == 2 then [2] else [2, 3]);
    }
  }

  lemma PartialRejected(t: Table, positions: seq<nat>)
    requires Input in t && BehindBroker(t[Input]) && OwnsChain(t) && !HasForeignReference(t)
    requires ScanAnchors(t[Input], RegistrationComment, PortAnchors()) == Anchors(positions, [])
    requires 1 <= |positions| <= 2
    ensures ValidatePrestate(InventoryOf(t)) == Some(AnchorsNotExact234)
  {
    BrokerPositionExact(t[Input]);
  }

  /** The restore alone and the complete apply leave tables the guard accepts. */
  lemma StageAccepted(t: Table, subnet: Option<Subnet>, n: nat)
    requires Accepts(t) && n <= 4
    ensures Input in t && t[Input] != []
    ensures Anchored(t[Input]) || n <= 1 || n == 4 ==> Accepts(Stage(t, subnet, n))
    ensures n == 4 ==> Anchored(Stage(t, subnet, n)[Input])
  {
    AcceptsIff(t);
    if n > 0 {
      StageInput(t, subnet, n);
      StageForeign(t, subnet, n);
      OwnedChainOwned(subnet);
      AcceptsIff(Stage(t, subnet, n));
    }
  }

  /** Exactly which interruptions need repair by hand. */
  lemma StageAcceptedIff(t: Table, subnet: Option<Subnet>, n: nat)
    requires Accepts(t) && n <= 4
    ensures Input in t && t[Input] != []
    ensures Accepts(Stage(t, subnet, n)) <==> Anchored(t[Input]) || n <= 1 || n == 4
  {
    StageAccepted(t, subnet, n);
    if n == 2 || n == 3 {
      CutOffRejected(t, subnet, n);
    }
  }

  lemma Converges(t: Table, subnet: Option<Subnet>)
    requires Accepts(t)
    ensures Input in t && t[Input] != [] && Applied(Stage(t, subnet, 4), subnet)
  {
    StageAccepted(t, subnet, 4);
    OwnedChainOwned(subnet);
    AppliedIff(Stage(t, subnet, 4), subnet);
  }

  /** On an anchored table every stage after the restore is already the finished one. */
  lemma Refreshed(t: Table, subnet: Option<Subnet>, n: nat)
    requires Accepts(t) && 1 <= n <= 4 && Input in t && Anchored(t[Input])
    ensures t[Input] != [] && Applied(Stage(t, subnet, n), subnet)
  {
    StageAccepted(t, subnet, n);
    OwnedChainOwned(subnet);
    AppliedIff(Stage(t, subnet, n), subnet);
  }

  /** A second apply with the same decision changes nothing at any of its stages. */
  lemma Idempotent(t: Table, subnet: Option<Subnet>, n: nat)
    requires Accepts(t) && n <= 4
    ensures Input in t && t[Input] != []
    ensures var t' := Stage(t, subnet, 4);
            Input in t' && t'[Input] != [] && Stage(t', subnet, n) == t'
  {
    StageAccepted(t, subnet, 4);
    StageInput(t, subnet, 4);
    StageLeaves(t, subnet);
    NothingToDo(Stage(t, subnet, 4), subnet, n);
  }

  lemma StageLeaves(t: Table, subnet: Option<Subnet>)
    requires Input in t && t[Input] != []
    ensures var t' := Stage(t, subnet, 4);
            Input in t' && RegistrationIngress in t' && t'[RegistrationIngress] == OwnedChain(subnet)
  {
  }

  lemma NothingToDo(t: Table, subnet: Option<Subnet>, n: nat)
    requires Input in t && t[Input] != [] && Anchored(t[Input]) && n <= 4
    requires RegistrationIngress in t && t[RegistrationIngress] == OwnedChain(subnet)
    ensures Stage(t, subnet, n) == t
  {
  }

  // ----- The apply itself

  method ReadInventory(kernel: FilterTable) returns (inventory: Option<Inventory>)
    modifies kernel`budget
    ensures old(kernel.budget) == 0 ==> inventory == None && kernel.budget == 0
    ensures old(kernel.budget) > 0 ==>
              inventory == Some(InventoryOf(kernel.rules)) && kernel.budget == old(kernel.budget) - 1
  {
    var snapshot := kernel.Save();
    if snapshot.None? {
      return None;
    }
    var parsed := ParseFirewallInventory(snapshot.value);
    return Some(parsed);
  }

  lemma NextAnchor(t: Table, rules: seq<Rule>, n: nat)
    requires rules != [] && n < 3 && Input in t && t[Input] == WithAnchors(rules, n)
    ensures n + 1 <= |t[Input]|
    ensures Inserted(t, Input, n + 1, PortAnchors()[n]) == t[Input := WithAnchors(rules, n + 1)]
  {
    var a := PortAnchors();
    assert t[Input][..n + 1] == rules[..1] + a[..n];
    assert t[Input][n + 1..] == rules[1..];
    assert a[..n + 1] == a[..n] + [a[n]];
    assert rules[..1] + a[..n] + [a[n]] + rules[1..] == WithAnchors(rules, n + 1);
  }

  /** Insert the three anchors at INPUT positions 2, 3 and 4, stopping at a failure. */
  method InsertAnchors(kernel: FilterTable) returns (ok: bool, ghost n: nat)
    requires Input in kernel.rules && kernel.rules[Input] != [] && RegistrationIngress in kernel.rules
    modifies kernel
    ensures n <= 3 && (ok ==> n == 3)
    ensures kernel.rules == old(kernel.rules)[Input := WithAnchors(old(kernel.rules)[Input], n)]
    ensures old(kernel.budget) >= 3 ==> ok && kernel.budget == old(kernel.budget) - 3
  {
    ghost var rules := kernel.rules[Input];
    assert WithAnchors(rules, 0) == rules;
    n := 0;
    for k := 0 to 3
      invariant n == k && Input in kernel.rules && RegistrationIngress in kernel.rules
      invariant kernel.rules == old(kernel.rules)[Input := WithAnchors(rules, k)]
      invariant old(kernel.budget) >= 3 ==> kernel.budget == old(kernel.budget) - k
    {
      NextAnchor(kernel.rules, rules, k);
      ok := kernel.Insert(Input, k + 2, PortAnchors()[k]);
      if !ok {
        return;
      }
      n := k + 1;
    }
    ok := true;
  }

  lemma FirstStage(t: Table, subnet: Option<Subnet>)
    requires Accepts(t)
    ensures Input in t && t[Input] != []
    ensures Stage(t, subnet, 1) == t[RegistrationIngress := OwnedChain(subnet)]
    ensures Accepts(Stage(t, subnet, 1))
    ensures InventoryOf(Stage(t, subnet, 1)).anchors.positions == [] <==> !Anchored(t[Input])
    ensures Anchored(t[Input]) ==> Stage(t, subnet, 1) == Stage(t, subnet, 4)
  {
    AcceptsIff(t);
    FirstStageTable(t, subnet);
    StageAccepted(t, subnet, 1);
    ScanPlaced(t[Input]);
  }

  lemma FirstStageTable(t: Table, subnet: Option<Subnet>)
    requires Input in t && t[Input] != []
    ensures Stage(t, subnet, 1) == t[RegistrationIngress := OwnedChain(subnet)]
    ensures Anchored(t[Input]) ==> Stage(t, subnet, 1) == Stage(t, subnet, 4)
  {
    assert PortAnchors()[..0] == [];
    assert WithAnchors(t[Input], 0) == t[Input];
  }

  lemma LaterStage(t: Table, subnet: Option<Subnet>, n: nat)
    requires Accepts(t) && n <= 3
    ensures Input in t && t[Input] != []
    ensures !Anchored(t[Input]) ==>
              Stage(t, subnet, n + 1) == Stage(t, subnet, 1)[Input := WithAnchors(Stage(t, subnet, 1)[Input], n)]
  {
    FirstStage(t, subnet);
  }

  /** Insert the anchors unless they are there. */
  method EnsureAnchors(kernel: FilterTable, inventory: Inventory, ghost start: Table, ghost subnet: Option<Subnet>)
    returns (ok: bool, ghost stage: nat)
    requires Accepts(start) && Input in start && start[Input] != []
    requires kernel.rules == Stage(start, subnet, 1) && inventory == InventoryOf(kernel.rules)
    modifies kernel
    ensures stage <= 4 && kernel.rules == Stage(start, subnet, stage)
    ensures ok ==> stage == 4
    ensures old(kernel.budget) >= 3 ==> ok && kernel.budget + 3 >= old(kernel.budget)
  {
    FirstStage(start, subnet);
    if inventory.anchors.positions != [] {
      return true, 4;
    }
    ghost var n;
    ok, n := InsertAnchors(kernel);
    LaterStage(start, subnet, n);
    stage := n + 1;
  }

  /** The guard's apply.  A table it does not accept is left alone; otherwise the table
      ends in one of the stages, and unless a command fails in the last one. */
  method ApplyGuard(kernel: FilterTable, subnet: Option<Subnet>)
    returns (error: Option<GuardError>, ghost stage: nat)
    modifies kernel
    ensures !Accepts(old(kernel.rules)) ==> stage == 0 && error.Some? && kernel.rules == old(kernel.rules)
    ensures !Accepts(old(kernel.rules)) && old(kernel.budget) > 0 ==>
              error == ValidatePrestate(InventoryOf(old(kernel.rules)))
    ensures Accepts(old(kernel.rules)) ==>
              && Input in old(kernel.rules) && old(kernel.rules)[Input] != []
              && stage <= 4 && kernel.rules == Stage(old(kernel.rules), subnet, stage)
    ensures Accepts(old(kernel.rules)) && error.Some? ==> error == Some(CommandFailed)
    ensures error.None? ==> stage == 4
    ensures Accepts(old(kernel.rules)) && old(kernel.budget) >= 7 ==> error.None?
  {
    stage := 0;
    ghost var start := kernel.rules;
    var inventory := ReadInventory(kernel);
    if inventory.None? {
      StartStage(start, subnet);
      return Some(CommandFailed), stage;
    }
    error := ValidatePrestate(inventory.value);
    if error.Some? {
      return;
    }
    FirstStage(start, subnet);
    Converges(start, subnet);
    var ok := kernel.RestoreChain(RegistrationIngress, OwnedChain(subnet), inventory.value.customChain.None?);
    if !ok {
      return Some(CommandFailed), stage;
    }
    stage := 1;
    var postChain := ReadInventory(kernel);
    if postChain.None? {
      return Some(CommandFailed), stage;
    }
    error := ValidatePrestate(postChain.value);
    if error.Some? {
      return;
    }
    ok, stage := EnsureAnchors(kernel, postChain.value, start, subnet);
    if !ok {
      return Some(CommandFailed), stage;
    }
    var final := ReadInventory(kernel);
    if final.None? {
      return Some(CommandFailed), stage;
    }
    error := ValidateAppliedState(final.value, subnet);
  }

  lemma StartStage(t: Table, subnet: Option<Subnet>)
    ensures Accepts(t) ==> Input in t && t[Input] != []
    ensures Stage(t, subnet, 0) == t
  {
    AcceptsIff(t);
  }
}
