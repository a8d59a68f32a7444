/** What the broker guard's applied state means for packets. */
module BrokerPolicy {
  import opened Results
  import opened Netfilter
  import opened IngressKernel
  import opened BrokerGuard

  /** Packets the INPUT anchor selects. */
  predicate AtInput(p: Packet) {
    p.protocol == Tcp && p.destinationPort == BROKER_TLS_PORT
  }

  /** Packets the DOCKER-USER anchor selects. */
  predicate AtDocker(p: Packet) {
    p.protocol == Tcp && p.ctDir == Original && p.ctOrigDstPort == BROKER_TLS_PORT
  }

  predicate Selected(chain: Chain, p: Packet) {
    (chain == Input && AtInput(p)) || (chain == DockerUser && AtDocker(p))
  }

  predicate Trusted(p: Packet, subnet: Option<Token>)
    requires subnet.Some? ==> subnet.value.Net?
  {
    || (p.inInterface == Lo && InNetwork(LOOPBACK_NETWORK, p.source))
    || (subnet.Some? && p.inInterface == Eth0 && InNetwork(subnet.value, p.source))
  }

  // ----- Which packets the guard's own rules select

  lemma HoldsOne(env: Env, r: Rule, i: nat, p: Packet)
    requires RuleHolds(env, r, p) && i < |r.clauses|
    ensures ClauseHolds(env, r.clauses[i], p)
  {
    assert r.clauses[i] in r.clauses;
  }

  lemma AllowHolds(env: Env, iface: Word, source: Token, comment: Word, p: Packet)
    requires source.Net? && !iface.OtherWord?
    ensures RuleHolds(env, AllowRule(iface, source, comment), p) <==>
              p.inInterface == iface && InNetwork(source, p.source)
  {
    hide InNetwork;
    var r := AllowRule(iface, source, comment);
    assert r.clauses[0] == Known(DashI, Lit(iface)) && r.clauses[1] == Known(DashS, source);
    if RuleHolds(env, r, p) {
      HoldsOne(env, r, 0, p);
      HoldsOne(env, r, 1, p);
    }
  }

  lemma DropHolds(env: Env, comment: Word, p: Packet)
    ensures RuleHolds(env, DropRule(comment), p)
  {
  }

  lemma PortAnchorHolds(env: Env, protocol: Word, port: nat, comment: Word, chain: Chain, p: Packet)
    ensures RuleHolds(env, PortAnchor(protocol, port, comment, chain), p) <==>
              p.protocol == protocol && p.destinationPort == port
  {
    var r := PortAnchor(protocol, port, comment, chain);
    assert r.clauses[0] == Known(DashP, Lit(protocol)) && r.clauses[2] == Known(Dport2, Number(port));
    if RuleHolds(env, r, p) {
      HoldsOne(env, r, 0, p);
      HoldsOne(env, r, 2, p);
    }
  }

  lemma DockerAnchorHolds(env: Env, p: Packet)
    ensures RuleHolds(env, DockerAnchor(), p) <==> AtDocker(p)
  {
    hide RuleHolds;
    var r := DockerAnchor();
    assert r.clauses[0] == Known(DashP, Lit(Tcp)) && r.clauses[2] == Known(CtDir2, Lit(Original));
    assert r.clauses[3] == Known(CtOrigDstPort2, Number(BROKER_TLS_PORT));
    if RuleHolds(env, r, p) {
      HoldsOne(env, r, 0, p);
      HoldsOne(env, r, 2, p);
      HoldsOne(env, r, 3, p);
    }
    if AtDocker(p) {
      AtDockerHolds(env, p);
    }
  }

  lemma AtDockerHolds(env: Env, p: Packet)
    requires AtDocker(p)
    ensures RuleHolds(env, DockerAnchor(), p)
  {
  }

  // ----- Walking the owned chain

  lemma WalkAllow(env: Env, t: Table, rules: seq<Rule>, iface: Word, source: Token, comment: Word, p: Packet,
                  depth: nat)
    requires rules != [] && source.Net? && !iface.OtherWord?
    requires RuleMatches(rules[0], AllowRule(iface, source, comment))
    ensures Walk(env, t, rules, p, depth) ==
              if p.inInterface == iface && InNetwork(source, p.source) then Fallthrough
              else Walk(env, t, rules[1..], p, depth)
  {
    RuleMatchesSound(env, rules[0], AllowRule(iface, source, comment), p);
    AllowHolds(env, iface, source, comment, p);
  }

  lemma WalkDrop(env: Env, t: Table, rules: seq<Rule>, comment: Word, p: Packet, depth: nat)
    requires rules != [] && RuleMatches(rules[0], DropRule(comment))
    ensures Walk(env, t, rules, p, depth) == Drop
  {
    RuleMatchesSound(env, rules[0], DropRule(comment), p);
    DropHolds(env, comment, p);
  }

  /** The owned chain returns trusted packets to the caller and drops the others. */
  lemma ChainVerdict(env: Env, t: Table, rules: seq<Rule>, subnet: Option<Token>, p: Packet, depth: nat)
    requires subnet.Some? ==> subnet.value.Net?
    requires ReadsAs(rules, R5Chain(subnet))
    ensures Walk(env, t, rules, p, depth) == if Trusted(p, subnet) then Fallthrough else Drop
  {
    assert RuleMatches(rules[0], R5Chain(subnet)[0]);
    assert RuleMatches(rules[1], R5Chain(subnet)[1]);
    WalkAllow(env, t, rules, Lo, LOOPBACK_NETWORK, BrokerComment, p, depth);
    if subnet.Some? {
      assert RuleMatches(rules[2], R5Chain(subnet)[2]);
      WalkAllow(env, t, rules[1..], Eth0, subnet.value, BrokerComment, p, depth);
      WalkDrop(env, t, rules[2..], BrokerComment, p, depth);
      assert rules[1..][1..] == rules[2..];
    } else {
      WalkDrop(env, t, rules[1..], BrokerComment, p, depth);
    }
  }

  lemma WalkAnchor(env: Env, t: Table, rules: seq<Rule>, chain: Chain, anchor: Rule, p: Packet, depth: nat)
    requires IsOwnAnchor(chain, anchor) && rules != [] && RuleMatches(rules[0], anchor)
    requires BrokerIngress in t
    ensures Walk(env, t, rules, p, depth) ==
              if !Selected(chain, p) then Walk(env, t, rules[1..], p, depth)
              else if depth == 0 then Overrun
              else
                var v := Walk(env, t, t[BrokerIngress], p, depth - 1);
                if v == Fallthrough then Walk(env, t, rules[1..], p, depth) else v
  {
    RuleMatchesSound(env, rules[0], anchor, p);
    if chain == Input {
      PortAnchorHolds(env, Tcp, BROKER_TLS_PORT, BrokerComment, BrokerIngress, p);
    } else {
      DockerAnchorHolds(env, p);
    }
  }

  // ----- The applied state

  function AnchorOf(chain: Chain): Rule {
    if chain == DockerUser then DockerAnchor() else InputAnchor()
  }

  lemma AppliedMeans(t: Table, subnet: Option<Token>)
    requires Applied(t, subnet)
    ensures DockerUser in t && Anchored(t[DockerUser], DockerAnchor())
    ensures Input in t && Anchored(t[Input], InputAnchor())
    ensures BrokerIngress in t && ReadsAs(t[BrokerIngress], R5Chain(subnet))
  {
    AcceptsIff(t);
    ScanPlaced(t[DockerUser], DockerAnchor());
    ScanPlaced(t[Input], InputAnchor());
  }

  lemma AnchoredHead(rules: seq<Rule>, anchor: Rule)
    requires Anchored(rules, anchor)
    ensures rules != [] && RuleMatches(rules[0], anchor)
  {
    assert IsAnchor(rules[0], BrokerComment, [anchor]);
    assert [anchor][1..] == [];
    assert MatchCount(rules[0], []) == 0;
  }

  /** After a successful apply, a packet to the broker port that reaches INPUT or
      DOCKER-USER is dropped unless it is trusted; a trusted one, and any packet the
      anchor does not select, goes on to the rules behind the anchor. */
  lemma PolicyEnforced(env: Env, t: Table, subnet: Option<Token>, chain: Chain, p: Packet, depth: nat)
    requires Applied(t, subnet) && (subnet.Some? ==> subnet.value.Net?)
    requires chain == Input || chain == DockerUser
    requires depth >= 1
    ensures chain in t && t[chain] != []
    ensures Walk(env, t, t[chain], p, depth) ==
              if Selected(chain, p) && !Trusted(p, subnet) then Drop
              else Walk(env, t, t[chain][1..], p, depth)
  {
    AppliedMeans(t, subnet);
    AnchoredHead(t[chain], AnchorOf(chain));
    WalkAnchor(env, t, t[chain], chain, AnchorOf(chain), p, depth);
    ChainVerdict(env, t, t[BrokerIngress], subnet, p, depth - 1);
  }

  /** With no trusted subnet only loopback traffic passes. */
  lemma FailClosed(env: Env, t: Table, chain: Chain, p: Packet, depth: nat)
    requires Applied(t, None) && (chain == Input || chain == DockerUser) && depth >= 1
    requires Selected(chain, p) && !(p.inInterface == Lo && InNetwork(LOOPBACK_NETWORK, p.source))
    ensures chain in t && Walk(env, t, t[chain], p, depth) == Drop
  {
    PolicyEnforced(env, t, None, chain, p, depth);
  }

  // ----- Everybody else's rules

  /** The table without the guard: its chain removed, its anchors taken out. */
  function Bare(t: Table): Table {
    map chain | chain in t && chain != BrokerIngress :: BareRules(chain, t[chain])
  }

  function BareRules(chain: Chain, rules: seq<Rule>): seq<Rule> {
    if (chain == DockerUser || chain == Input) && Anchored(rules, AnchorOf(chain)) then rules[1..] else rules
  }

  predicate Avoids(rules: seq<Rule>) {
    forall r | r in rules :: r.control.NoTarget? || r.control.target != ChainTarget(BrokerIngress)
  }

  /** No rule reaches the owned chain by a goto.  The guard's scan does not look. */
  predicate NoGoto(t: Table) {
    forall chain | chain in t :: forall r | r in t[chain] ::
      r.control.GotoTo? ==> r.control.target != ChainTarget(BrokerIngress)
  }

  lemma {:induction false} PairPrinted(clauses: seq<Clause>, pair: (Key, Token))
    requires Reads(clauses) && pair in Bag(clauses) && pair.0 != Source
    ensures pair.1 in ClauseTokens(clauses)
  {
    if pair == ClausePair(clauses[0]) {
      assert clauses[0] in clauses;
      assert ClauseTokens(clauses)[1] == pair.1;
    } else {
      PairPrinted(clauses[1..], pair);
    }
  }

  lemma ExactAnchorMentions(r: Rule, chain: Chain)
    requires IsExactAnchorOf(chain, r)
    ensures Mentions(r, BrokerComment)
  {
    RuleMatchesParts(r, AnchorOf(chain));
    AnchorComment(chain);
    PairPrinted(r.clauses, (Comment, Lit(BrokerComment)));
  }

  lemma AnchorComment(chain: Chain)
    ensures var clauses := AnchorOf(chain).clauses;
            Reads(clauses) && (Comment, Lit(BrokerComment)) in Bag(clauses)
  {
    if chain == DockerUser {
      CommentInBag([Known(DashP, Lit(Tcp)), Known(DashM, Lit(Conntrack)), Known(CtDir2, Lit(Original)),
                    Known(CtOrigDstPort2, Number(BROKER_TLS_PORT))], BrokerComment);
    } else {
      CommentInBag([Known(DashP, Lit(Tcp)), Known(DashM, Lit(Tcp)), Known(Dport2, Number(BROKER_TLS_PORT))],
                   BrokerComment);
    }
  }

  lemma CommentInBag(front: seq<Clause>, comment: Word)
    requires Reads(front)
    ensures Reads(front + Commented(comment)) && (Comment, Lit(comment)) in Bag(front + Commented(comment))
  {
    CommentPair(comment);
    BagSplit(front, Commented(comment));
  }

  lemma CommentPair(comment: Word)
    ensures Reads(Commented(comment)) && (Comment, Lit(comment)) in Bag(Commented(comment))
  {
    ClauseInBag(Commented(comment), Commented(comment)[1]);
  }

  lemma {:induction false} ClauseInBag(clauses: seq<Clause>, c: Clause)
    requires Reads(clauses) && c in clauses
    ensures ClausePair(c) in Bag(clauses)
  {
    if c != clauses[0] {
      ClauseInBag(clauses[1..], c);
    }
  }

  /** In an accepted table only the anchors pass control to the owned chain, gotos aside. */
  lemma BareAvoids(t: Table, chain: Chain)
    requires Accepts(t) && NoGoto(t) && chain in Bare(t)
    ensures Avoids(Bare(t)[chain])
  {
    AcceptsIff(t);
    var rules := Bare(t)[chain];
    forall r | r in rules
      ensures r.control.NoTarget? || r.control.target != ChainTarget(BrokerIngress)
    {
      var i :| 0 <= i < |rules| && rules[i] == r;
      assert r in t[chain];
      if !r.control.NoTarget? && r.control.target == ChainTarget(BrokerIngress) {
        ControlIsSeen(r, BrokerIngress);
        assert !ForeignReference(chain, r);
        ExactAnchorMentions(r, chain);
        assert false;
      }
    }
  }

  lemma BareChain(t: Table, chain: Chain)
    requires chain in Bare(t)
    ensures chain in t && chain != BrokerIngress
    ensures t[chain] == Bare(t)[chain] ||
            ((chain == DockerUser || chain == Input) && t[chain] != []
             && RuleMatches(t[chain][0], AnchorOf(chain)) && Bare(t)[chain] == t[chain][1..])
  {
    if (chain == DockerUser || chain == Input) && Anchored(t[chain], AnchorOf(chain)) {
      AnchoredHead(t[chain], AnchorOf(chain));
    }
  }

  predicate Outside(p: Packet) {
    !AtInput(p) && !AtDocker(p)
  }

  /** In the chains of the scope no anchor selects the packet. */
  predicate Unselected(scope: set<Chain>, p: Packet) {
    forall c | c in scope :: !Selected(c, p)
  }

  /** These rules call, among the chains of `u`, only chains of the scope. */
  predicate Inside(rules: seq<Rule>, u: Table, scope: set<Chain>) {
    forall r | r in rules :: !r.control.NoTarget? && r.control.target.ChainTarget? && r.control.target.chain in u ==>
      r.control.target.chain in scope
  }

  /** Walking a chain of the scope never leaves the scope. */
  predicate Closed(u: Table, scope: set<Chain>) {
    forall c | c in scope && c in u :: Inside(u[c], u, scope)
  }

  lemma AllChainsClosed(u: Table)
    ensures Closed(u, u.Keys)
  {
  }

  /** No rule calls the chain, as the kernel guarantees for a built-in chain. */
  predicate Uncalled(u: Table, chain: Chain) {
    forall c | c in u :: forall r | r in u[c] :: r.control.NoTarget? || r.control.target != ChainTarget(chain)
  }

  lemma UncalledClosed(u: Table, chain: Chain)
    requires Uncalled(u, chain)
    ensures Closed(u, u.Keys - {chain})
  {
  }

  /** Walking a chain of `u` in `t` gives the same verdict; with one extra call allowed
      in `t`, unless the walk in `u` already runs out of depth. */
  predicate Agrees(env: Env, t: Table, u: Table, chain: Chain, p: Packet, depth: nat, extra: nat)
    requires chain in t && chain in u
  {
    (extra > 0 ==> Walk(env, u, u[chain], p, depth) != Overrun) ==>
      Walk(env, t, t[chain], p, depth + extra) == Walk(env, u, u[chain], p, depth)
  }

  lemma {:induction false} RulesAgree(
      env: Env, t: Table, u: Table, scope: set<Chain>, rules: seq<Rule>, p: Packet, depth: nat, extra: nat)
    requires Avoids(rules) && Inside(rules, u, scope) && extra <= 1
    requires t.Keys - {BrokerIngress} == u.Keys
    requires forall chain, d: nat | chain in u && chain in scope && d < depth :: Agrees(env, t, u, chain, p, d, extra)
    ensures (extra > 0 ==> Walk(env, u, rules, p, depth) != Overrun) ==>
              Walk(env, t, rules, p, depth + extra) == Walk(env, u, rules, p, depth)
    decreases |rules|
  {
    if rules != [] {
      var control := rules[0].control;
      assert rules[0] in rules;
      assert forall r | r in rules[1..] :: r in rules;
      RulesAgree(env, t, u, scope, rules[1..], p, depth, extra);
      if !control.NoTarget? && control.target.ChainTarget? {
        assert control.target.chain in t <==> control.target.chain in u;
        if control.target.chain in u && depth > 0 {
          assert Agrees(env, t, u, control.target.chain, p, depth - 1, extra);
        }
      }
    }
  }

  lemma BareKeys(t: Table)
    ensures t.Keys - {BrokerIngress} == Bare(t).Keys
  {
  }

  /** Walking a chain of `t` comes down to walking the rules that `u` has for it. */
  predicate HeadIdle(env: Env, t: Table, u: Table, chain: Chain, p: Packet, depth: nat) {
    chain in t && chain in u && Walk(env, t, t[chain], p, depth) == Walk(env, t, u[chain], p, depth)
  }

  /** If walking a chain of the scope in `t` comes down to walking its counterpart in `u`,
      and `u` has no rule into the owned chain, the two tables agree on the scope. */
  lemma {:induction false} TablesAgree(
      env: Env, t: Table, u: Table, scope: set<Chain>, chain: Chain, p: Packet, depth: nat, extra: nat)
    requires t.Keys - {BrokerIngress} == u.Keys && extra <= 1 && chain in u && chain in scope
    requires Closed(u, scope) && forall c | c in u :: Avoids(u[c])
    requires forall c, d: nat | c in u && c in scope && d >= extra :: HeadIdle(env, t, u, c, p, d)
    ensures Agrees(env, t, u, chain, p, depth, extra)
    decreases depth
  {
    forall c, d: nat | c in u && c in scope && d < depth
      ensures Agrees(env, t, u, c, p, d, extra)
    {
      TablesAgree(env, t, u, scope, c, p, d, extra);
    }
    assert HeadIdle(env, t, u, chain, p, depth + extra);
    RulesAgree(env, t, u, scope, u[chain], p, depth, extra);
  }

  lemma SkipAnchor(env: Env, t: Table, chain: Chain, p: Packet, depth: nat)
    requires chain in t && (chain == DockerUser || chain == Input) && !Selected(chain, p)
    requires t[chain] != [] && RuleMatches(t[chain][0], AnchorOf(chain))
    ensures Walk(env, t, t[chain], p, depth) == Walk(env, t, t[chain][1..], p, depth)
  {
    RuleMatchesSound(env, t[chain][0], AnchorOf(chain), p);
    PortAnchorHolds(env, Tcp, BROKER_TLS_PORT, BrokerComment, BrokerIngress, p);
    DockerAnchorHolds(env, p);
  }

  lemma OutsideHead(env: Env, t: Table, chain: Chain, p: Packet, depth: nat)
    requires !Selected(chain, p) && chain in Bare(t)
    ensures HeadIdle(env, t, Bare(t), chain, p, depth)
  {
    BareChain(t, chain);
    if t[chain] != Bare(t)[chain] {
      SkipAnchor(env, t, chain, p, depth);
    }
  }

  lemma TrustedHead(env: Env, t: Table, subnet: Option<Token>, chain: Chain, p: Packet, depth: nat)
    requires Applied(t, subnet) && chain in Bare(t)
    requires (subnet.Some? ==> subnet.value.Net?) && Trusted(p, subnet)
    requires depth >= 1
    ensures HeadIdle(env, t, Bare(t), chain, p, depth)
  {
    BareShape(t, chain);
    if t[chain] != Bare(t)[chain] {
      TrustedAnchor(env, t, subnet, chain, p, depth);
    }
  }

  lemma TrustedAnchor(env: Env, t: Table, subnet: Option<Token>, chain: Chain, p: Packet, depth: nat)
    requires Applied(t, subnet) && (chain == Input || chain == DockerUser)
    requires (subnet.Some? ==> subnet.value.Net?) && Trusted(p, subnet)
    requires depth >= 1
    ensures chain in t && t[chain] != []
    ensures Walk(env, t, t[chain], p, depth) == Walk(env, t, t[chain][1..], p, depth)
  {
    PolicyEnforced(env, t, subnet, chain, p, depth);
  }

  lemma BareShape(t: Table, chain: Chain)
    requires chain in Bare(t)
    ensures chain in t
    ensures t[chain] == Bare(t)[chain] ||
            ((chain == DockerUser || chain == Input) && t[chain] != [] && Bare(t)[chain] == t[chain][1..])
  {
    BareChain(t, chain);
  }

  /** From a chain of a closed scope in which no anchor selects it, a packet gets the verdict
      that the table without the guard gives it. */
  lemma OutsideVerdict(env: Env, t: Table, scope: set<Chain>, chain: Chain, p: Packet, depth: nat)
    requires Accepts(t) && NoGoto(t) && Closed(Bare(t), scope) && Unselected(scope, p)
    requires chain in Bare(t) && chain in scope
    ensures chain in t && Walk(env, t, t[chain], p, depth) == Walk(env, Bare(t), Bare(t)[chain], p, depth)
  {
    BareKeys(t);
    forall c | c in Bare(t)
      ensures Avoids(Bare(t)[c])
    {
      BareAvoids(t, c);
    }
    forall c, d: nat | c in Bare(t) && c in scope && d >= 0
      ensures HeadIdle(env, t, Bare(t), c, p, d)
    {
      OutsideHead(env, t, c, p, d);
    }
    TablesAgree(env, t, Bare(t), scope, chain, p, depth, 0);
  }

  /** Trusted packets too get the verdict of the table without the guard: the only
      difference is the one extra call into the owned chain. */
  lemma TrustedVerdict(env: Env, t: Table, subnet: Option<Token>, chain: Chain, p: Packet, depth: nat)
    requires Applied(t, subnet) && NoGoto(t) && chain in Bare(t)
    requires (subnet.Some? ==> subnet.value.Net?) && Trusted(p, subnet)
    requires Walk(env, Bare(t), Bare(t)[chain], p, depth) != Overrun
    ensures chain in t && Walk(env, t, t[chain], p, depth + 1) == Walk(env, Bare(t), Bare(t)[chain], p, depth)
  {
    BareKeys(t);
    forall c | c in Bare(t)
      ensures Avoids(Bare(t)[c])
    {
      BareAvoids(t, c);
    }
    forall c, d: nat | c in Bare(t) && d >= 1
      ensures HeadIdle(env, t, Bare(t), c, p, d)
    {
      TrustedHead(env, t, subnet, c, p, d);
    }
    AllChainsClosed(Bare(t));
    TablesAgree(env, t, Bare(t), Bare(t).Keys, chain, p, depth, 1);
  }

  // ----- Before and after

  /** An apply touches nobody else's rules: without the guard, every stage is the table
      that was there before. */
  lemma StagesKeepOthers(t: Table, subnet: Option<Subnet>, n: nat)
    requires Accepts(t) && n <= 3
    ensures Bare(Stage(t, subnet, n)) == Bare(t)
  {
    AcceptsIff(t);
    StageLookup(t, subnet, n);
    var u := Stage(t, subnet, n);
    BareAnchored(t[DockerUser], DockerUser);
    BareAnchored(t[Input], Input);
    assert BareRules(DockerUser, u[DockerUser]) == BareRules(DockerUser, t[DockerUser]);
    assert BareRules(Input, u[Input]) == BareRules(Input, t[Input]);
    BareSame(t, u);
  }

  lemma BareSame(t: Table, u: Table)
    requires t.Keys - {BrokerIngress} == u.Keys - {BrokerIngress}
    requires forall c | c in t && c in u && c != BrokerIngress :: BareRules(c, t[c]) == BareRules(c, u[c])
    ensures Bare(u) == Bare(t)
  {
    BareKeys(t);
    BareKeys(u);
    forall c | c in Bare(u)
      ensures Bare(u)[c] == Bare(t)[c]
    {
      assert c in t.Keys - {BrokerIngress} && c in u;
    }
    SameTable(Bare(u), Bare(t));
  }

  lemma BareAnchored(rules: seq<Rule>, chain: Chain)
    requires chain == DockerUser || chain == Input
    requires Anchored(rules, AnchorOf(chain)) || Unanchored(rules, AnchorOf(chain))
    ensures BareRules(chain, AnchoredRules(rules, AnchorOf(chain))) == BareRules(chain, rules)
  {
    if !Anchored(rules, AnchorOf(chain)) {
      AnchorPlaced(rules, chain, AnchorOf(chain));
    }
  }

  lemma StageRule(t: Table, subnet: Option<Subnet>, n: nat, chain: Chain, r: Rule)
    requires Accepts(t) && n <= 3 && chain in Stage(t, subnet, n) && r in Stage(t, subnet, n)[chain]
    ensures r in R5Chain(subnet) || r == DockerAnchor() || r == InputAnchor() || (chain in t && r in t[chain])
  {
    AcceptsIff(t);
    StageLookup(t, subnet, n);
  }

  lemma StagesKeepNoGoto(t: Table, subnet: Option<Subnet>, n: nat)
    requires Accepts(t) && NoGoto(t) && n <= 3
    ensures NoGoto(Stage(t, subnet, n))
  {
    var s := Stage(t, subnet, n);
    forall chain: Chain, r: Rule | chain in s && r in s[chain]
      ensures r.control.GotoTo? ==> r.control.target != ChainTarget(BrokerIngress)
    {
      StageRule(t, subnet, n, chain, r);
    }
  }

  /** Non-interference: at every stage of an apply, a packet gets from a chain exactly the
      verdict it got before, if walking the chain stays where no anchor selects it. */
  lemma NonInterference(env: Env, t: Table, subnet: Option<Subnet>, n: nat, scope: set<Chain>, chain: Chain,
                        p: Packet, depth: nat)
    requires Accepts(t) && NoGoto(t) && n <= 3
    requires Closed(Bare(t), scope) && Unselected(scope, p) && chain in Bare(t) && chain in scope
    ensures chain in t && chain in Stage(t, subnet, n)
    ensures Walk(env, Stage(t, subnet, n), Stage(t, subnet, n)[chain], p, depth) == Walk(env, t, t[chain], p, depth)
  {
    var s := Stage(t, subnet, n);
    StageAccepted(t, subnet, n);
    StagesKeepOthers(t, subnet, n);
    StagesKeepNoGoto(t, subnet, n);
    BareKeys(t);
    BareKeys(s);
    OutsideVerdict(env, t, scope, chain, p, depth);
    OutsideVerdict(env, s, scope, chain, p, depth);
  }

  /** So a packet that misses both selectors keeps its verdict from every chain. */
  lemma OutsideUndisturbed(env: Env, t: Table, subnet: Option<Subnet>, n: nat, chain: Chain, p: Packet, depth: nat)
    requires Accepts(t) && NoGoto(t) && n <= 3 && Outside(p) && chain in Bare(t)
    ensures chain in t && chain in Stage(t, subnet, n)
    ensures Walk(env, Stage(t, subnet, n), Stage(t, subnet, n)[chain], p, depth) == Walk(env, t, t[chain], p, depth)
  {
    AllChainsClosed(Bare(t));
    NonInterference(env, t, subnet, n, Bare(t).Keys, chain, p, depth);
  }

  /** A packet that misses the selector of DOCKER-USER keeps its verdict from every chain but
      INPUT, which is built in and so cannot be called, whatever its destination port. */
  lemma ForwardUndisturbed(env: Env, t: Table, subnet: Option<Subnet>, n: nat, chain: Chain, p: Packet, depth: nat)
    requires Accepts(t) && NoGoto(t) && n <= 3 && !AtDocker(p) && Uncalled(Bare(t), Input)
    requires chain in Bare(t) && chain != Input
    ensures chain in t && chain in Stage(t, subnet, n)
    ensures Walk(env, Stage(t, subnet, n), Stage(t, subnet, n)[chain], p, depth) == Walk(env, t, t[chain], p, depth)
  {
    UncalledClosed(Bare(t), Input);
    NonInterference(env, t, subnet, n, Bare(t).Keys - {Input}, chain, p, depth);
  }

  /** A completed apply gives trusted packets the verdict of everybody else's rules as
      they were before. */
  lemma TrustedUndisturbed(env: Env, t: Table, subnet: Option<Subnet>, chain: Chain, p: Packet, depth: nat)
    requires Accepts(t) && NoGoto(t) && chain in Bare(t)
    requires Trusted(p, subnet) && Walk(env, Bare(t), Bare(t)[chain], p, depth) != Overrun
    ensures chain in Converged(t, subnet)
    ensures Walk(env, Converged(t, subnet), Converged(t, subnet)[chain], p, depth + 1) ==
              Walk(env, Bare(t), Bare(t)[chain], p, depth)
  {
    Converges(t, subnet);
    StagesKeepOthers(t, subnet, 3);
    StagesKeepNoGoto(t, subnet, 3);
    BareKeys(Converged(t, subnet));
    TrustedVerdict(env, Converged(t, subnet), subnet, chain, p, depth);
  }

  /** While a guarded table is being refreshed there is no open moment: each stage is
      fully applied, for the old subnet before the restore and for the new one after. */
  lemma NoOpenWindow(t: Table, before: Option<Token>, subnet: Option<Subnet>, n: nat)
    requires Applied(t, before) && n <= 3
    ensures Applied(Stage(t, subnet, n), if n == 0 then before else subnet)
  {
    AppliedMeans(t, before);
    StageLookup(t, subnet, n);
    if n > 0 {
      StageLookup(t, subnet, 3);
      SameTable(Stage(t, subnet, n), Converged(t, subnet));
      Converges(t, subnet);
    }
  }

  // ----- The scan's blind spot

  /** Walking these rules gets to a goto into the owned chain. */
  predicate Arrives(env: Env, t: Table, rules: seq<Rule>, p: Packet, depth: nat)
    decreases |rules|
  {
    if rules == [] then false
    else if !RuleHolds(env, rules[0], p) then Arrives(env, t, rules[1..], p, depth)
    else
      var control := rules[0].control;
      if control.NoTarget? then Arrives(env, t, rules[1..], p, depth)
      else if control.target.ChainTarget? && control.target.chain in t then
        && depth > 0
        && if control.GotoTo? then control.target.chain == BrokerIngress
           else
             && Walk(env, t, t[control.target.chain], p, depth - 1) == Fallthrough
             && Arrives(env, t, rules[1..], p, depth)
      else if control.target.AcceptTarget? || control.target.DropTarget? || control.target.ReturnTarget? then false
      else env.target(control.target, rules[0].extras, p) == None && Arrives(env, t, rules[1..], p, depth)
  }

  /** The owned chain's verdict, which does not depend on the depth: it calls no chain. */
  lemma OwnedVerdict(env: Env, t: Table, rules: seq<Rule>, p: Packet, depth: nat)
    requires OwnedR4(rules) || OwnedR5(rules)
    ensures Walk(env, t, rules, p, depth) == Walk(env, t, rules, p, 0)
  {
    OwnedR4Iff(rules);
    OwnedR5Iff(rules);
    if ReadsAs(rules, R5Chain(None)) {
      ChainVerdict(env, t, rules, None, p, depth);
      ChainVerdict(env, t, rules, None, p, 0);
    } else if s: Token :| s.Net? && ReadsAs(rules, R5Chain(Some(s))) {
      ChainVerdict(env, t, rules, Some(s), p, depth);
      ChainVerdict(env, t, rules, Some(s), p, 0);
    } else {
      OlderVerdict(env, t, rules, p, depth);
      OlderVerdict(env, t, rules, p, 0);
    }
  }

  lemma OlderVerdict(env: Env, t: Table, rules: seq<Rule>, p: Packet, depth: nat)
    requires OwnedR4(rules)
    ensures Walk(env, t, rules, p, depth) ==
              if |rules| == 2 && AllowSource(rules[0]).value.Net? && p.inInterface == Eth0
                 && InNetwork(AllowSource(rules[0]).value, p.source)
              then Fallthrough else Drop
  {
    if |rules| == 2 {
      WalkAllow(env, t, rules, Eth0, AllowSource(rules[0]).value, BrokerComment, p, depth);
      WalkDrop(env, t, rules[1..], BrokerComment, p, depth);
    } else {
      WalkDrop(env, t, rules, BrokerComment, p, depth);
    }
  }

  lemma BareJumpsAvoid(t: Table, chain: Chain, r: Rule)
    requires Accepts(t) && chain in Bare(t) && r in Bare(t)[chain] && r.control.JumpTo?
    ensures r.control.target != ChainTarget(BrokerIngress)
  {
    AcceptsIff(t);
    var rules := Bare(t)[chain];
    var i :| 0 <= i < |rules| && rules[i] == r;
    assert r in t[chain];
    if r.control.target == ChainTarget(BrokerIngress) {
      ControlIsSeen(r, BrokerIngress);
      assert !ForeignReference(chain, r);
      ExactAnchorMentions(r, chain);
      assert false;
    }
  }

  /** These rules call chains of the scope, or go to the owned chain. */
  predicate InsideOrGoto(rules: seq<Rule>, t: Table, scope: set<Chain>) {
    forall r | r in rules :: !r.control.NoTarget? && r.control.target.ChainTarget? && r.control.target.chain in t ==>
      r.control.target.chain in scope || (r.control.GotoTo? && r.control.target.chain == BrokerIngress)
  }

  /** The two tables give the packet the same verdict from every chain of the scope, for
      walks of less than this depth. */
  predicate SameBelow(env: Env, t: Table, s: Table, scope: set<Chain>, p: Packet, depth: nat)
    requires t.Keys == s.Keys
  {
    forall c, d: nat | c in scope && c in t && d < depth :: Walk(env, s, s[c], p, d) == Walk(env, t, t[c], p, d)
  }

  ghost predicate OwnedGives(env: Env, t: Table, p: Packet, v: Verdict)
    requires BrokerIngress in t
  {
    forall d: nat :: Walk(env, t, t[BrokerIngress], p, d) == v
  }

  /** A walk that gets to a goto takes the owned chain's verdict; any other does not notice
      that this has changed. */
  lemma {:induction false} RulesSame(env: Env, t: Table, s: Table, scope: set<Chain>, rules: seq<Rule>, p: Packet,
                                     depth: nat, was: Verdict, now: Verdict)
    requires t.Keys == s.Keys && BrokerIngress in t && BrokerIngress !in scope
    requires InsideOrGoto(rules, t, scope) && SameBelow(env, t, s, scope, p, depth)
    requires OwnedGives(env, t, p, was) && OwnedGives(env, s, p, now)
    ensures Arrives(env, t, rules, p, depth) ==>
              Walk(env, t, rules, p, depth) == was && Walk(env, s, rules, p, depth) == now
    ensures !Arrives(env, t, rules, p, depth) ==> Walk(env, s, rules, p, depth) == Walk(env, t, rules, p, depth)
    decreases |rules|
  {
    if rules != [] {
      var control := rules[0].control;
      assert rules[0] in rules;
      assert forall r | r in rules[1..] :: r in rules;
      RulesSame(env, t, s, scope, rules[1..], p, depth, was, now);
      if !control.NoTarget? && control.target.ChainTarget? && control.target.chain in t && depth > 0 {
        if control.target.chain in scope {
          assert Walk(env, s, s[control.target.chain], p, depth - 1) ==
              Walk(env, t, t[control.target.chain], p, depth - 1);
        }
      }
    }
  }

  ghost predicate NeverArrives(env: Env, t: Table, scope: set<Chain>, p: Packet) {
    forall c, d: nat | c in Bare(t) && c in scope :: !Arrives(env, t, Bare(t)[c], p, d)
  }

  ghost predicate Unchanged(env: Env, t: Table, s: Table, scope: set<Chain>, p: Packet) {
    forall c, d: nat | c in Bare(t) && c in scope ::
      c in t && c in s && Walk(env, s, s[c], p, d) == Walk(env, t, t[c], p, d)
  }

  /** The verdict that the chain written for the subnet gives. */
  function NewVerdict(subnet: Option<Subnet>, p: Packet): Verdict {
    if Trusted(p, subnet) then Fallthrough else Drop
  }

  lemma OthersInside(t: Table, scope: set<Chain>, c: Chain)
    requires Accepts(t) && Closed(Bare(t), scope) && c in Bare(t) && c in scope
    ensures InsideOrGoto(Bare(t)[c], t, scope)
  {
    BareKeys(t);
    forall r | r in Bare(t)[c] && !r.control.NoTarget? && r.control.target.ChainTarget? && r.control.target.chain in t
      ensures r.control.target.chain in scope || (r.control.GotoTo? && r.control.target.chain == BrokerIngress)
    {
      if r.control.target.chain == BrokerIngress {
        if r.control.JumpTo? {
          BareJumpsAvoid(t, c, r);
        }
      } else {
        assert r.control.target.chain in Bare(t);
      }
    }
  }

  /** What a stage after the restore has in common with the table before it. */
  lemma StageShape(env: Env, t: Table, subnet: Option<Subnet>, n: nat, p: Packet)
    requires Accepts(t) && BrokerIngress in t && 1 <= n <= 3
    ensures var s := Stage(t, subnet, n);
            && s.Keys == t.Keys && Bare(s) == Bare(t)
            && OwnedGives(env, t, p, Walk(env, t, t[BrokerIngress], p, 0))
            && OwnedGives(env, s, p, NewVerdict(subnet, p))
  {
    hide Accepts, Walk, ReadsAs, R5Chain, OwnedR4, OwnedR5, Stage, Bare, HasForeignReference;
    AcceptsIff(t);
    StageLookup(t, subnet, n);
    StagesKeepOthers(t, subnet, n);
    R5Owned(subnet);
    var s := Stage(t, subnet, n);
    forall d: nat
      ensures Walk(env, t, t[BrokerIngress], p, d) == Walk(env, t, t[BrokerIngress], p, 0)
      ensures Walk(env, s, s[BrokerIngress], p, d) == NewVerdict(subnet, p)
    {
      OwnedVerdict(env, t, t[BrokerIngress], p, d);
      ChainVerdict(env, s, s[BrokerIngress], subnet, p, d);
    }
  }

  /** One chain of the scope at one depth, when all of them agree at smaller depths. */
  lemma ChainStep(env: Env, t: Table, s: Table, scope: set<Chain>, c: Chain, p: Packet, depth: nat,
                  was: Verdict, now: Verdict)
    requires Accepts(t) && BrokerIngress in t && BrokerIngress !in scope
    requires s.Keys == t.Keys && Bare(s) == Bare(t)
    requires OwnedGives(env, t, p, was) && OwnedGives(env, s, p, now)
    requires Closed(Bare(t), scope) && Unselected(scope, p) && c in Bare(t) && c in scope
    requires SameBelow(env, t, s, scope, p, depth)
    ensures c in t && c in s
    ensures Arrives(env, t, Bare(t)[c], p, depth) ==>
              Walk(env, t, t[c], p, depth) == was && Walk(env, s, s[c], p, depth) == now
    ensures !Arrives(env, t, Bare(t)[c], p, depth) ==> Walk(env, s, s[c], p, depth) == Walk(env, t, t[c], p, depth)
  {
    BareKeys(t);
    OutsideHead(env, t, c, p, depth);
    OutsideHead(env, s, c, p, depth);
    OthersInside(t, scope, c);
    RulesSame(env, t, s, scope, Bare(t)[c], p, depth, was, now);
  }

  lemma {:induction false} SameEverywhere(env: Env, t: Table, s: Table, scope: set<Chain>, p: Packet, depth: nat,
                                          was: Verdict, now: Verdict)
    requires Accepts(t) && BrokerIngress in t && BrokerIngress !in scope
    requires s.Keys == t.Keys && Bare(s) == Bare(t)
    requires OwnedGives(env, t, p, was) && OwnedGives(env, s, p, now)
    requires Closed(Bare(t), scope) && Unselected(scope, p)
    requires was == now || NeverArrives(env, t, scope, p)
    ensures SameBelow(env, t, s, scope, p, depth)
  {
    if depth > 0 {
      SameEverywhere(env, t, s, scope, p, depth - 1, was, now);
      BareKeys(t);
      forall c, d: nat | c in scope && c in t && d < depth
        ensures Walk(env, s, s[c], p, d) == Walk(env, t, t[c], p, d)
      {
        if d == depth - 1 {
          ChainStep(env, t, s, scope, c, p, d, was, now);
        }
      }
    }
  }

  /** Exactly when an apply leaves a packet alone in a scope where no anchor selects it: when
      the owned chain gave the new verdict already, or no walk gets to a goto into it. */
  lemma InterferenceIff(env: Env, t: Table, subnet: Option<Subnet>, n: nat, scope: set<Chain>, p: Packet)
    requires Accepts(t) && BrokerIngress in t && BrokerIngress !in scope && 1 <= n <= 3
    requires Closed(Bare(t), scope) && Unselected(scope, p)
    ensures Unchanged(env, t, Stage(t, subnet, n), scope, p) <==>
              || Walk(env, t, t[BrokerIngress], p, 0) == NewVerdict(subnet, p)
              || NeverArrives(env, t, scope, p)
  {
    var s, was, now := Stage(t, subnet, n), Walk(env, t, t[BrokerIngress], p, 0), NewVerdict(subnet, p);
    StageShape(env, t, subnet, n, p);
    BareKeys(t);
    if was == now || NeverArrives(env, t, scope, p) {
      forall c, d: nat | c in Bare(t) && c in scope
        ensures c in t && c in s && Walk(env, s, s[c], p, d) == Walk(env, t, t[c], p, d)
      {
        SameEverywhere(env, t, s, scope, p, d + 1, was, now);
      }
    } else if Unchanged(env, t, s, scope, p) {
      ChangeShows(env, t, s, scope, p, was, now);
    }
  }

  lemma ChangeShows(env: Env, t: Table, s: Table, scope: set<Chain>, p: Packet, was: Verdict, now: Verdict)
    requires Accepts(t) && BrokerIngress in t && BrokerIngress !in scope
    requires s.Keys == t.Keys && Bare(s) == Bare(t)
    requires OwnedGives(env, t, p, was) && OwnedGives(env, s, p, now) && was != now
    requires Closed(Bare(t), scope) && Unselected(scope, p) && !NeverArrives(env, t, scope, p)
    ensures !Unchanged(env, t, s, scope, p)
  {
    BareKeys(t);
    var c, d: nat :| c in Bare(t) && c in scope && Arrives(env, t, Bare(t)[c], p, d);
    if Unchanged(env, t, s, scope, p) {
      forall b, e: nat | b in scope && b in t && e < d
        ensures Walk(env, s, s[b], p, e) == Walk(env, t, t[b], p, e)
      {
        assert b in Bare(t);
      }
      ChainStep(env, t, s, scope, c, p, d, was, now);
    }
  }

  /** A goto into the owned chain that is reached in some chain decides there: afterwards the
      verdict is the new chain's, and it has changed exactly when the old chain gave another. */
  lemma ReachedGoto(env: Env, t: Table, subnet: Option<Subnet>, n: nat, chain: Chain, pre: seq<Rule>, rest: seq<Rule>,
                    p: Packet, depth: nat)
    requires Accepts(t) && BrokerIngress in t && 1 <= n <= 3 && depth >= 1
    requires chain in t && chain.OtherChain? && t[chain] == pre + rest
    requires forall r | r in pre :: !RuleHolds(env, r, p)
    requires rest != [] && RuleHolds(env, rest[0], p)
    requires rest[0].control.GotoTo? && rest[0].control.target == ChainTarget(BrokerIngress)
    ensures chain in Stage(t, subnet, n)
    ensures Walk(env, Stage(t, subnet, n), Stage(t, subnet, n)[chain], p, depth) == NewVerdict(subnet, p)
    ensures Walk(env, t, t[chain], p, depth) == Walk(env, t, t[BrokerIngress], p, 0)
    ensures Walk(env, Stage(t, subnet, n), Stage(t, subnet, n)[chain], p, depth) ==
            Walk(env, t, t[chain], p, depth) <==>
              Walk(env, t, t[BrokerIngress], p, 0) == NewVerdict(subnet, p)
  {
    var s := Stage(t, subnet, n);
    AcceptsIff(t);
    StageLookup(t, subnet, n);
    StageShape(env, t, subnet, n, p);
    GotoTaken(env, t, pre, rest, p, depth);
    GotoTaken(env, s, pre, rest, p, depth);
  }

  lemma {:induction false} GotoTaken(env: Env, t: Table, pre: seq<Rule>, rest: seq<Rule>, p: Packet, depth: nat)
    requires BrokerIngress in t && depth >= 1
    requires forall r | r in pre :: !RuleHolds(env, r, p)
    requires rest != [] && RuleHolds(env, rest[0], p)
    requires rest[0].control.GotoTo? && rest[0].control.target == ChainTarget(BrokerIngress)
    ensures Walk(env, t, pre + rest, p, depth) == Walk(env, t, t[BrokerIngress], p, depth - 1)
  {
    if pre == [] {
      assert pre + rest == rest;
    } else {
      assert pre[0] in pre && (pre + rest)[0] == pre[0] && (pre + rest)[1..] == pre[1..] + rest;
      assert forall r | r in pre[1..] :: r in pre;
      GotoTaken(env, t, pre[1..], rest, p, depth);
    }
  }

  function GotoRule(): Rule {
    RawRule([], GotoTo(Opt(DashG), ChainTarget(BrokerIngress)), [])
  }

  /** A table with the older layout, no trusted subnet, and a goto into the chain. */
  function GotoTable(forward: Chain): Table {
    map[DockerUser := [], Input := [], BrokerIngress := [TrustedRule(Net(0, 32)), OwnedDrop()], forward := [GotoRule()]]
  }

  const ESCAPING: Packet := Packet(Udp, Eth0, 0, 53, Original, 53)

  /** The no-goto hypothesis is needed: the guard accepts a table in which another chain
      reaches its own by a goto, and then an apply changes what happens to a packet that
      neither anchor selects. */
  lemma GotoEscapes(env: Env, forward: Chain)
    requires forward.OtherChain?
    ensures var t := GotoTable(forward);
            && Accepts(t) && !NoGoto(t) && Outside(ESCAPING) && forward in Converged(t, None)
            && Walk(env, t, t[forward], ESCAPING, 1) == Fallthrough
            && Walk(env, Converged(t, None), Converged(t, None)[forward], ESCAPING, 1) == Drop
  {
    var t := GotoTable(forward);
    GotoAccepted(forward);
    assert GotoRule() in t[forward];
    GotoBefore(env, forward);
    GotoAfter(env, forward);
  }

  lemma GotoBefore(env: Env, forward: Chain)
    requires forward.OtherChain?
    ensures var t := GotoTable(forward); Walk(env, t, t[forward], ESCAPING, 1) == Fallthrough
  {
    var t := GotoTable(forward);
    GotoWalk(env, t, forward, ESCAPING);
    var s: Subnet := Net(0, 32);
    R5Plain(Some(s), TrustedRule(s));
    WalkAllow(env, t, t[BrokerIngress], Eth0, s, BrokerComment, ESCAPING, 0);
  }

  lemma GotoAfter(env: Env, forward: Chain)
    requires forward.OtherChain?
    ensures var t' := Converged(GotoTable(forward), None);
            forward in t' && Walk(env, t', t'[forward], ESCAPING, 1) == Drop
  {
    StageLookup(GotoTable(forward), None, 3);
    var t' := Converged(GotoTable(forward), None);
    GotoWalk(env, t', forward, ESCAPING);
    R5Owned(None);
    ChainVerdict(env, t', t'[BrokerIngress], None, ESCAPING, 0);
  }

  lemma GotoWalk(env: Env, t: Table, chain: Chain, p: Packet)
    requires chain in t && t[chain] == [GotoRule()] && BrokerIngress in t
    ensures Walk(env, t, t[chain], p, 1) == Walk(env, t, t[BrokerIngress], p, 0)
  {
    assert RuleHolds(env, GotoRule(), p);
  }

  lemma GotoOwned(rules: seq<Rule>, s: Subnet)
    requires rules == [TrustedRule(s), OwnedDrop()]
    ensures OwnedR4(rules)
  {
    R5Plain(Some(s), TrustedRule(s));
    R5Plain(Some(s), OwnedDrop());
    assert ReadsAs(rules, [TrustedRule(s), OwnedDrop()]);
    OwnedR4Iff(rules);
  }

  lemma GotoAccepted(forward: Chain)
    requires forward.OtherChain?
    ensures Accepts(GotoTable(forward))
  {
    hide Accepts, ReadsAs, RuleMatches, Refers, OwnedR4, OwnedR5;
    var t := GotoTable(forward);
    GotoOwned(t[BrokerIngress], Net(0, 32));
    forall chain: Chain, r: Rule | chain in t && r in t[chain]
      ensures !ForeignReference(chain, r)
    {
      GotoUnseen(forward, chain, r);
    }
    AcceptsIff(t);
  }

  lemma GotoUnseen(forward: Chain, chain: Chain, r: Rule)
    requires forward.OtherChain? && chain in GotoTable(forward) && r in GotoTable(forward)[chain]
    ensures !Refers(r, BrokerIngress, false)
  {
    hide Refers, TrustedRule, OwnedDrop, GotoRule;
    GotoRulesUnseen();
  }

  lemma GotoRulesUnseen()
    ensures !Refers(TrustedRule(Net(0, 32)), BrokerIngress, false)
    ensures !Refers(OwnedDrop(), BrokerIngress, false)
    ensures !Refers(GotoRule(), BrokerIngress, false)
  {
    AllowRuleFacts(Eth0, Net(0, 32), BrokerComment, BrokerIngress);
    DropRuleFacts(BrokerComment, BrokerIngress);
    assert Tokens(GotoRule()) == [Opt(DashG), To(ChainTarget(BrokerIngress))];
  }
}
