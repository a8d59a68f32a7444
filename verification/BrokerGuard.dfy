/** The broker ingress guard: it owns one chain, one anchor in DOCKER-USER and one in
    INPUT, proves that it owns what it finds, rewrites its chain in one restore and
    inserts missing anchors at the front. */
module BrokerGuard {
  import opened Results
  import opened Netfilter
  import opened IngressKernel

  const BROKER_TLS_PORT: nat := 8883

  function LoopbackRule(): Rule {
    AllowRule(Lo, LOOPBACK_NETWORK, BrokerComment)
  }

  function TrustedRule(subnet: Token): Rule {
    AllowRule(Eth0, subnet, BrokerComment)
  }

  function OwnedDrop(): Rule {
    DropRule(BrokerComment)
  }

  function InputAnchor(): Rule {
    PortAnchor(Tcp, BROKER_TLS_PORT, BrokerComment, BrokerIngress)
  }

  function DockerAnchor(): Rule {
    RawRule([Known(DashP, Lit(Tcp)), Known(DashM, Lit(Conntrack)), Known(CtDir2, Lit(Original)),
             Known(CtOrigDstPort2, Number(BROKER_TLS_PORT))] + Commented(BrokerComment),
            JumpTo(Opt(DashJ), ChainTarget(BrokerIngress)), [])
  }

  /** The current layout: loopback, the trusted subnet if there is one, then drop. */
  function R5Chain(subnet: Option<Token>): seq<Rule> {
    match subnet
    case None => [LoopbackRule(), OwnedDrop()]
    case Some(s) => [LoopbackRule(), TrustedRule(s), OwnedDrop()]
  }

  // ----- Ownership of the chain body

  predicate OwnedR4(rules: seq<Rule>) {
    if |rules| == 1 then RuleMatches(rules[0], OwnedDrop())
    else if |rules| != 2 then false
    else
      && AllowSource(rules[0]).Some?
      && RuleMatches(rules[0], TrustedRule(AllowSource(rules[0]).value))
      && RuleMatches(rules[1], OwnedDrop())
  }

  predicate OwnedR5(rules: seq<Rule>) {
    if |rules| == 2 then RuleMatches(rules[0], LoopbackRule()) && RuleMatches(rules[1], OwnedDrop())
    else if |rules| != 3 then false
    else
      && RuleMatches(rules[0], LoopbackRule())
      && AllowSource(rules[1]).Some?
      && RuleMatches(rules[1], TrustedRule(AllowSource(rules[1]).value))
      && RuleMatches(rules[2], OwnedDrop())
  }

  // ----- Inventory

  datatype Inventory = Inventory(
    dockerUserPresent: bool, inputPresent: bool, customChain: Option<seq<Rule>>,
    docker: Anchors, input: Anchors, foreignReference: bool)

  function RulesOf(t: Table, chain: Chain): seq<Rule> {
    if chain in t then t[chain] else []
  }

  predicate IsExactAnchorOf(chain: Chain, r: Rule) {
    || (chain == DockerUser && RuleMatches(r, DockerAnchor()))
    || (chain == Input && RuleMatches(r, InputAnchor()))
  }

  /** A reference to the chain from anything but an exact anchor.  The scan looks at
      jump flags only. */
  predicate ForeignReference(chain: Chain, r: Rule) {
    Refers(r, BrokerIngress, false) && !IsExactAnchorOf(chain, r)
  }

  predicate HasForeignReference(t: Table) {
    exists chain | chain in t :: exists r | r in t[chain] :: ForeignReference(chain, r)
  }

  function InventoryOf(t: Table): Inventory {
    Inventory(
      DockerUser in t, Input in t, if BrokerIngress in t then Some(t[BrokerIngress]) else None,
      ScanAnchors(RulesOf(t, DockerUser), BrokerComment, [DockerAnchor()]),
      ScanAnchors(RulesOf(t, Input), BrokerComment, [InputAnchor()]),
      HasForeignReference(t))
  }

  method ParseFirewallInventory(t: Table) returns (inventory: Inventory)
    ensures inventory == InventoryOf(t)
  {
    var docker := ReadAnchors(RulesOf(t, DockerUser), BrokerComment, [DockerAnchor()]);
    var input := ReadAnchors(RulesOf(t, Input), BrokerComment, [InputAnchor()]);
    var foreign := FindReference(t, ForeignReference);
    inventory := Inventory(DockerUser in t, Input in t,
                           if BrokerIngress in t then Some(t[BrokerIngress]) else None,
                           docker, input, foreign);
  }

  // ----- Checks

  datatype GuardError =
    | DockerUserChainMissing | InputChainMissing | CustomChainOwnershipUnproven
    | OwnedAnchorSemanticsAmbiguous | OwnedInputAnchorSemanticsAmbiguous
    | OwnedAnchorNotUniqueFirst | OwnedInputAnchorNotUniqueFirst | CustomChainForeignReference
    | CustomChainMissing | CustomChainRuleCountInvalid | CustomChainRuleSemanticsInvalid
    | CustomChainR5Required | AnchorInsertVerificationFailed | InputAnchorInsertVerificationFailed
    | CommandFailed

  function ValidatePrestate(inv: Inventory): Option<GuardError> {
    if !inv.dockerUserPresent then Some(DockerUserChainMissing)
    else if !inv.inputPresent then Some(InputChainMissing)
    else if inv.customChain.Some? && !(OwnedR4(inv.customChain.value) || OwnedR5(inv.customChain.value))
    then Some(CustomChainOwnershipUnproven)
    else if inv.docker.ambiguous != [] then Some(OwnedAnchorSemanticsAmbiguous)
    else if inv.input.ambiguous != [] then Some(OwnedInputAnchorSemanticsAmbiguous)
    else if inv.docker.positions != [] && inv.docker.positions != [1] then Some(OwnedAnchorNotUniqueFirst)
    else if inv.input.positions != [] && inv.input.positions != [1] then Some(OwnedInputAnchorNotUniqueFirst)
    else if inv.foreignReference then Some(CustomChainForeignReference)
    else None
  }

  function ValidateAppliedState(inv: Inventory, subnet: Option<Token>): Option<GuardError> {
    if inv.docker.positions != [1] then Some(OwnedAnchorNotUniqueFirst)
    else if inv.input.positions != [1] then Some(OwnedInputAnchorNotUniqueFirst)
    else if inv.customChain.None? then Some(CustomChainMissing)
    else if |inv.customChain.value| != |R5Chain(subnet)| then Some(CustomChainRuleCountInvalid)
    else if !ReadsAs(inv.customChain.value, R5Chain(subnet)) then Some(CustomChainRuleSemanticsInvalid)
    else None
  }

  predicate Accepts(t: Table) {
    ValidatePrestate(InventoryOf(t)).None?
  }

  /** The state in which the guard reports success for a subnet. */
  predicate Applied(t: Table, subnet: Option<Token>) {
    Accepts(t) && ValidateAppliedState(InventoryOf(t), subnet).None?
  }

  // ----- What an accepted table looks like

  predicate Anchored(rules: seq<Rule>, anchor: Rule) {
    Led(rules, 0, 1, BrokerComment, [anchor])
  }

  predicate Unanchored(rules: seq<Rule>, anchor: Rule) {
    Led(rules, 0, 0, BrokerComment, [anchor])
  }

  predicate OwnsChain(t: Table) {
    BrokerIngress in t ==> OwnedR4(t[BrokerIngress]) || OwnedR5(t[BrokerIngress])
  }

  lemma OwnedR4Iff(rules: seq<Rule>)
    ensures OwnedR4(rules) <==>
              || ReadsAs(rules, [OwnedDrop()])
              || exists s: Token | s.Net? :: ReadsAs(rules, [TrustedRule(s), OwnedDrop()])
  {
    hide RuleMatches;
    if OwnedR4(rules) && |rules| == 2 {
      assert ReadsAs(rules, [TrustedRule(AllowSource(rules[0]).value), OwnedDrop()]);
    }
    forall s: Token | s.Net? && ReadsAs(rules, [TrustedRule(s), OwnedDrop()])
      ensures OwnedR4(rules)
    {
      assert RuleMatches(rules[0], [TrustedRule(s), OwnedDrop()][0]);
      AllowRecovered(rules[0], Eth0, s, BrokerComment);
    }
  }

  lemma ReadsR5Trusted(rules: seq<Rule>, s: Token)
    requires s.Net? && ReadsAs(rules, R5Chain(Some(s)))
    ensures OwnedR5(rules)
  {
    assert RuleMatches(rules[1], R5Chain(Some(s))[1]);
    AllowRecovered(rules[1], Eth0, s, BrokerComment);
  }

  lemma OwnedTrustedR5(rules: seq<Rule>)
    requires OwnedR5(rules) && |rules| == 3
    ensures AllowSource(rules[1]).Some? && AllowSource(rules[1]).value.Net?
    ensures ReadsAs(rules, R5Chain(Some(AllowSource(rules[1]).value)))
  {
    hide RuleMatches;
    var expected := R5Chain(Some(AllowSource(rules[1]).value));
    assert |expected| == 3;
  }

  /** Ownership by the current layout means: the rules read like the layout for some
      trusted subnet or for none, in any clause order. */
  lemma OwnedR5Iff(rules: seq<Rule>)
    ensures OwnedR5(rules) <==>
              || ReadsAs(rules, R5Chain(None))
              || exists s: Token | s.Net? :: ReadsAs(rules, R5Chain(Some(s)))
  {
    hide RuleMatches;
    if OwnedR5(rules) && |rules| == 3 {
      OwnedTrustedR5(rules);
    }
    forall s: Token | s.Net? && ReadsAs(rules, R5Chain(Some(s)))
      ensures OwnedR5(rules)
    {
      ReadsR5Trusted(rules, s);
    }
  }

  lemma AcceptsIff(t: Table)
    ensures Accepts(t) <==>
              && DockerUser in t && Input in t && OwnsChain(t)
              && (Anchored(t[DockerUser], DockerAnchor()) || Unanchored(t[DockerUser], DockerAnchor()))
              && (Anchored(t[Input], InputAnchor()) || Unanchored(t[Input], InputAnchor()))
              && !HasForeignReference(t)
  {
    hide RuleMatches, ScanAnchors, Led, OwnedR4, OwnedR5, HasForeignReference;
    if DockerUser in t && Input in t {
      ScanPlaced(t[DockerUser], DockerAnchor());
      ScanPlaced(t[Input], InputAnchor());
    }
  }

  lemma ScanPlaced(rules: seq<Rule>, anchor: Rule)
    ensures Anchored(rules, anchor) <==> ScanAnchors(rules, BrokerComment, [anchor]) == Anchors([1], [])
    ensures Unanchored(rules, anchor) <==> ScanAnchors(rules, BrokerComment, [anchor]) == Anchors([], [])
  {
    ScanExact(rules, 0, 1, BrokerComment, [anchor]);
    ScanExact(rules, 0, 0, BrokerComment, [anchor]);
    assert Consecutive(0, 1) == [1];
  }

  // ----- What an apply does

  function Rewritten(t: Table, subnet: Option<Subnet>): Table {
    t[BrokerIngress := R5Chain(subnet)]
  }

  function WithAnchor(t: Table, chain: Chain, anchor: Rule): Table {
    if chain !in t || Anchored(t[chain], anchor) then t else Inserted(t, chain, 0, anchor)
  }

  /** The table after the first `n` of the three changes an apply makes. */
  function Stage(t: Table, subnet: Option<Subnet>, n: nat): Table
    requires n <= 3
  {
    if n == 0 then t
    else if n == 1 then Rewritten(t, subnet)
    else if n == 2 then WithAnchor(Rewritten(t, subnet), DockerUser, DockerAnchor())
    else WithAnchor(WithAnchor(Rewritten(t, subnet), DockerUser, DockerAnchor()), Input, InputAnchor())
  }

  function Converged(t: Table, subnet: Option<Subnet>): Table {
    Stage(t, subnet, 3)
  }

  lemma R5Plain(subnet: Option<Subnet>, r: Rule)
    requires r in R5Chain(subnet)
    ensures RuleMatches(r, r) && !Refers(r, BrokerIngress, false)
  {
    AllowRuleFacts(Lo, LOOPBACK_NETWORK, BrokerComment, BrokerIngress);
    DropRuleFacts(BrokerComment, BrokerIngress);
    if subnet.Some? {
      AllowRuleFacts(Eth0, subnet.value, BrokerComment, BrokerIngress);
    }
  }

  lemma R5Owned(subnet: Option<Subnet>)
    ensures ReadsAs(R5Chain(subnet), R5Chain(subnet)) && OwnedR5(R5Chain(subnet))
  {
    forall i | 0 <= i < |R5Chain(subnet)|
      ensures RuleMatches(R5Chain(subnet)[i], R5Chain(subnet)[i])
    {
      R5Plain(subnet, R5Chain(subnet)[i]);
    }
    OwnedR5Iff(R5Chain(subnet));
  }

  predicate IsOwnAnchor(chain: Chain, anchor: Rule) {
    (chain == DockerUser && anchor == DockerAnchor()) || (chain == Input && anchor == InputAnchor())
  }

  lemma AnchorFacts(chain: Chain, anchor: Rule)
    requires IsOwnAnchor(chain, anchor)
    ensures RuleMatches(anchor, anchor) && IsAnchor(anchor, BrokerComment, [anchor])
  {
    PortAnchorFacts(Tcp, BROKER_TLS_PORT, BrokerComment, BrokerIngress);
    DockerAnchorFacts();
    assert [anchor][1..] == [];
    assert MatchCount(anchor, [anchor]) == 1 + MatchCount(anchor, []);
  }

  lemma DockerAnchorFacts()
    ensures RuleMatches(DockerAnchor(), DockerAnchor()) && Mentions(DockerAnchor(), BrokerComment)
  {
    var r := DockerAnchor();
    PlainRuleReads(r);
    var front := [Known(DashP, Lit(Tcp)), Known(DashM, Lit(Conntrack)), Known(CtDir2, Lit(Original)),
                  Known(CtOrigDstPort2, Number(BROKER_TLS_PORT))];
    CommentClause(front, BrokerComment);
    CommentMentioned(r, BrokerComment);
  }

  /** Placing a missing anchor in front is all it takes to anchor a chain. */
  lemma AnchorPlaced(rules: seq<Rule>, chain: Chain, anchor: Rule)
    requires IsOwnAnchor(chain, anchor) && Unanchored(rules, anchor)
    ensures Anchored([anchor] + rules, anchor)
  {
    AnchorFacts(chain, anchor);
  }

  lemma RewriteAccepted(t: Table, subnet: Option<Subnet>)
    requires Accepts(t)
    ensures Accepts(Rewritten(t, subnet))
  {
    var t' := Rewritten(t, subnet);
    AcceptsIff(t);
    AcceptsIff(t');
    R5Owned(subnet);
    forall chain, r | chain in t' && r in t'[chain]
      ensures !ForeignReference(chain, r)
    {
      if chain == BrokerIngress {
        R5Plain(subnet, r);
      }
    }
  }

  lemma AnchorAccepted(t: Table, chain: Chain, anchor: Rule)
    requires Accepts(t) && IsOwnAnchor(chain, anchor)
    ensures var t' := WithAnchor(t, chain, anchor); Accepts(t') && Anchored(t'[chain], anchor)
  {
    hide Accepts, RuleMatches, Led, HasForeignReference, ForeignReference, OwnedR4, OwnedR5;
    AcceptsIff(t);
    if !Anchored(t[chain], anchor) {
      var t' := WithAnchor(t, chain, anchor);
      assert t'[chain] == [anchor] + t[chain];
      AnchorPlaced(t[chain], chain, anchor);
      AnchorNoReference(chain, anchor);
      AnchorKeepsReferences(t, t', chain, anchor);
      if chain == Input {
        AnchoredAccepted(t, t', DockerUser, DockerAnchor(), chain, anchor);
      } else {
        AnchoredAccepted(t, t', Input, InputAnchor(), chain, anchor);
      }
    }
  }

  lemma AnchoredAccepted(t: Table, t': Table, other: Chain, otherAnchor: Rule, chain: Chain, anchor: Rule)
    requires IsOwnAnchor(chain, anchor) && IsOwnAnchor(other, otherAnchor) && chain != other
    requires chain in t && other in t && t' == Inserted(t, chain, 0, anchor)
    requires OwnsChain(t) && !HasForeignReference(t') && Anchored(t'[chain], anchor)
    requires Anchored(t[other], otherAnchor) || Unanchored(t[other], otherAnchor)
    ensures Accepts(t')
  {
    AcceptsIff(t');
    assert t'[other] == t[other];
    assert BrokerIngress in t' <==> BrokerIngress in t;
    assert BrokerIngress in t ==> t'[BrokerIngress] == t[BrokerIngress];
  }

  lemma AnchorNoReference(chain: Chain, anchor: Rule)
    requires IsOwnAnchor(chain, anchor)
    ensures !ForeignReference(chain, anchor)
  {
    AnchorFacts(chain, anchor);
  }

  lemma AnchorKeepsReferences(t: Table, t': Table, chain: Chain, anchor: Rule)
    requires chain in t && t' == Inserted(t, chain, 0, anchor)
    requires !HasForeignReference(t) && !ForeignReference(chain, anchor)
    ensures !HasForeignReference(t')
  {
    forall c, r | c in t' && r in t'[c]
      ensures !ForeignReference(c, r)
    {
      assert (c == chain && r == anchor) || r in t[c];
    }
  }

  /** Every stage of an apply is a table the guard accepts, so an interrupted apply can
      always be run again. */
  lemma StageAccepted(t: Table, subnet: Option<Subnet>, n: nat)
    requires Accepts(t) && n <= 3
    ensures Accepts(Stage(t, subnet, n))
    ensures n >= 1 ==> BrokerIngress in Stage(t, subnet, n) && Stage(t, subnet, n)[BrokerIngress] == R5Chain(subnet)
    ensures n >= 2 ==> Anchored(RulesOf(Stage(t, subnet, n), DockerUser), DockerAnchor())
    ensures n >= 3 ==> Anchored(RulesOf(Stage(t, subnet, n), Input), InputAnchor())
  {
    if n >= 1 {
      RewriteAccepted(t, subnet);
    }
    if n >= 2 {
      AnchorAccepted(Rewritten(t, subnet), DockerUser, DockerAnchor());
      AcceptsIff(Stage(t, subnet, 2));
    }
    if n >= 3 {
      AnchorAccepted(Stage(t, subnet, 2), Input, InputAnchor());
      AcceptsIff(Stage(t, subnet, 3));
    }
  }

  /** Convergence: from any accepted table the last stage passes the applied-state
      check for the new subnet. */
  lemma Converges(t: Table, subnet: Option<Subnet>)
    requires Accepts(t)
    ensures Applied(Converged(t, subnet), subnet)
  {
    StageAccepted(t, subnet, 3);
    var t' := Converged(t, subnet);
    AcceptsIff(t');
    ScanPlaced(t'[DockerUser], DockerAnchor());
    ScanPlaced(t'[Input], InputAnchor());
    R5Owned(subnet);
  }

  /** Idempotence: a second apply with the same decision leaves the table unchanged. */
  lemma Idempotent(t: Table, subnet: Option<Subnet>, n: nat)
    requires Accepts(t) && n <= 3
    ensures Stage(Converged(t, subnet), subnet, n) == Converged(t, subnet)
  {
    AcceptsIff(t);
    StageLookup(t, subnet, 3);
    AnchoredTwice(t[DockerUser], DockerUser, DockerAnchor());
    AnchoredTwice(t[Input], Input, InputAnchor());
    StageLookup(Converged(t, subnet), subnet, n);
    SameTable(Stage(Converged(t, subnet), subnet, n), Converged(t, subnet));
  }

  function AnchoredRules(rules: seq<Rule>, anchor: Rule): seq<Rule> {
    if Anchored(rules, anchor) then rules else [anchor] + rules
  }

  lemma AnchorLookup(t: Table, chain: Chain, anchor: Rule)
    requires chain in t
    ensures WithAnchor(t, chain, anchor) == t[chain := AnchoredRules(t[chain], anchor)]
  {
    assert t[chain][..0] + [anchor] + t[chain][0..] == [anchor] + t[chain];
  }

  /** What each stage holds, chain by chain. */
  lemma StageLookup(t: Table, subnet: Option<Subnet>, n: nat)
    requires DockerUser in t && Input in t && n <= 3
    ensures var s := Stage(t, subnet, n);
            && s.Keys == t.Keys + (if n >= 1 then {BrokerIngress} else {})
            && (n >= 1 ==> s[BrokerIngress] == R5Chain(subnet))
            && s[DockerUser] == (if n >= 2 then AnchoredRules(t[DockerUser], DockerAnchor()) else t[DockerUser])
            && s[Input] == (if n >= 3 then AnchoredRules(t[Input], InputAnchor()) else t[Input])
            && forall c | c in t && c != DockerUser && c != Input && c != BrokerIngress :: s[c] == t[c]
  {
    if n >= 2 {
      AnchorLookup(Rewritten(t, subnet), DockerUser, DockerAnchor());
    }
    if n >= 3 {
      AnchorLookup(Stage(t, subnet, 2), Input, InputAnchor());
    }
  }

  lemma AnchoredTwice(rules: seq<Rule>, chain: Chain, anchor: Rule)
    requires IsOwnAnchor(chain, anchor) && (Anchored(rules, anchor) || Unanchored(rules, anchor))
    ensures AnchoredRules(AnchoredRules(rules, anchor), anchor) == AnchoredRules(rules, anchor)
  {
    if !Anchored(rules, anchor) {
      AnchorPlaced(rules, chain, anchor);
    }
  }

  /** Crash safety: whatever stage an apply stopped at, a later complete apply gives the
      same table as if the interrupted one had never run. */
  lemma RerunConverges(t: Table, first: Option<Subnet>, n: nat, second: Option<Subnet>)
    requires Accepts(t) && n <= 3
    ensures Converged(Stage(t, first, n), second) == Converged(t, second)
  {
    var s := Stage(t, first, n);
    AcceptsIff(t);
    StageLookup(t, first, n);
    AnchoredTwice(t[DockerUser], DockerUser, DockerAnchor());
    AnchoredTwice(t[Input], Input, InputAnchor());
    StageLookup(s, second, 3);
    StageLookup(t, second, 3);
    SameTable(Converged(s, second), Converged(t, second));
  }

  lemma SameTable(a: Table, b: Table)
    requires a.Keys == b.Keys && forall c | c in a :: a[c] == b[c]
    ensures a == b
  {
  }

  // ----- The apply itself

  function PositionsIn(inv: Inventory, chain: Chain): seq<nat> {
    if chain == DockerUser then inv.docker.positions else inv.input.positions
  }

  lemma PositionsTell(t: Table, chain: Chain, anchor: Rule)
    requires Accepts(t) && IsOwnAnchor(chain, anchor)
    ensures chain in t
    ensures PositionsIn(InventoryOf(t), chain) == if Anchored(t[chain], anchor) then [1] else []
  {
    AcceptsIff(t);
    ScanPlaced(t[chain], anchor);
  }

  method ReadInventory(kernel: FilterTable) returns (inventory: Option<Inventory>)
    modifies kernel`budget
    ensures old(kernel.budget) == 0 ==> inventory == None && kernel.budget == 0
    ensures old(kernel.budget) > 0 ==>
              inventory == Some(InventoryOf(kernel.rules)) && kernel.budget == old(kernel.budget) - 1
  {
    var snapshot := kernel.Save();
    if snapshot.None? {
      return None;
    }
    var parsed := ParseFirewallInventory(snapshot.value);
    return Some(parsed);
  }

  /** Insert the chain's anchor in front unless it is there, and check the result. */
  method EnsureSingleFirstAnchor(kernel: FilterTable, chain: Chain, anchor: Rule)
    returns (error: Option<GuardError>, ghost inserted: bool)
    requires IsOwnAnchor(chain, anchor)
    requires Accepts(kernel.rules) && BrokerIngress in kernel.rules
    modifies kernel
    ensures kernel.rules == if inserted then WithAnchor(old(kernel.rules), chain, anchor) else old(kernel.rules)
    ensures error.None? ==> inserted
    ensures error.Some? ==> error == Some(CommandFailed)
    ensures old(kernel.budget) >= 3 ==> error.None? && kernel.budget + 3 >= old(kernel.budget)
  {
    inserted := false;
    PositionsTell(kernel.rules, chain, anchor);
    AnchorAccepted(kernel.rules, chain, anchor);
    PositionsTell(WithAnchor(kernel.rules, chain, anchor), chain, anchor);
    var before := ReadInventory(kernel);
    if before.None? {
      return Some(CommandFailed), inserted;
    }
    error := ValidatePrestate(before.value);
    if error.Some? {
      return;
    }
    if PositionsIn(before.value, chain) == [1] {
      return None, true;
    }
    if PositionsIn(before.value, chain) != [] {
      return Some(if chain == DockerUser then OwnedAnchorNotUniqueFirst else OwnedInputAnchorNotUniqueFirst), inserted;
    }
    var ok := kernel.Insert(chain, 1, anchor);
    if !ok {
      return Some(CommandFailed), inserted;
    }
    inserted := true;
    var after := ReadInventory(kernel);
    if after.None? {
      return Some(CommandFailed), inserted;
    }
    error := ValidatePrestate(after.value);
    if error.Some? {
      return;
    }
    if PositionsIn(after.value, chain) != [1] {
      error := Some(
        if chain == DockerUser then AnchorInsertVerificationFailed else InputAnchorInsertVerificationFailed);
    }
  }

  /** The guard's apply.  A table it does not accept is left alone; an accepted table
      ends in one of the stages, and unless a command fails in the last one. */
  method ApplyGuard(kernel: FilterTable, subnet: Option<Subnet>)
    returns (error: Option<GuardError>, ghost stage: nat)
    modifies kernel
    ensures stage <= 3 && kernel.rules == Stage(old(kernel.rules), subnet, stage)
    ensures !Accepts(old(kernel.rules)) ==> stage == 0 && error.Some?
    ensures !Accepts(old(kernel.rules)) && old(kernel.budget) > 0 ==>
              error == ValidatePrestate(InventoryOf(old(kernel.rules)))
    ensures Accepts(old(kernel.rules)) && error.Some? ==> error == Some(CommandFailed)
    ensures error.None? ==> stage == 3
    ensures Accepts(old(kernel.rules)) && old(kernel.budget) >= 10 ==> error.None?
  {
    stage := 0;
    ghost var start := kernel.rules;
    var inventory := ReadInventory(kernel);
    if inventory.None? {
      return Some(CommandFailed), stage;
    }
    error := ValidatePrestate(inventory.value);
    if error.Some? {
      return;
    }
    forall n: nat | n <= 3
      ensures Accepts(Stage(start, subnet, n))
    {
      StageAccepted(start, subnet, n);
    }
    StageAccepted(start, subnet, 1);
    Converges(start, subnet);
    R5Owned(subnet);

    var ok := kernel.RestoreChain(BrokerIngress, R5Chain(subnet), inventory.value.customChain.None?);
    if !ok {
      return Some(CommandFailed), stage;
    }
    stage := 1;
    var postChain := ReadInventory(kernel);
    if postChain.None? {
      return Some(CommandFailed), stage;
    }
    error := ValidatePrestate(postChain.value);
    if error.Some? {
      return;
    }
    if postChain.value.customChain.None? || !OwnedR5(postChain.value.customChain.value) {
      return Some(CustomChainR5Required), stage;
    }

    ghost var inserted;
    error, inserted := EnsureSingleFirstAnchor(kernel, DockerUser, DockerAnchor());
    stage := if inserted then 2 else 1;
    if error.Some? {
      return;
    }
    assert kernel.rules == Stage(start, subnet, 2);
    StageAccepted(start, subnet, 2);
    error, inserted := EnsureSingleFirstAnchor(kernel, Input, InputAnchor());
    stage := if inserted then 3 else 2;
    if error.Some? {
      return;
    }

    var final := ReadInventory(kernel);
    if final.None? {
      return Some(CommandFailed), stage;
    }
    error := ValidatePrestate(final.value);
    if error.Some? {
      return;
    }
    error := ValidateAppliedState(final.value, subnet);
  }
}
