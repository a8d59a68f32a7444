/** The two guards over runs: each one's applied state survives whatever the other does,
    and together they decide what reaches the rest of INPUT. */
module IngressRuns {
  import opened Results
  import opened Netfilter
  import opened IngressKernel
  import opened BrokerPolicy
  import B = BrokerGuard
  import R = RegistrationGuard

  /** One apply of a guard and the number of its changes that took effect: all of them
      for an apply that completes, fewer for one that is cut off. */
  datatype Event = Broker(subnet: Option<Subnet>, stage: nat) | Registration(subnet: Option<Subnet>, stage: nat)

  predicate ValidEvent(e: Event) {
    if e.Broker? then e.stage <= 3 else e.stage <= 4
  }

  function Step(t: Table, e: Event): Table
    requires ValidEvent(e)
  {
    match e
    case Broker(subnet, stage) => if B.Accepts(t) then B.Stage(t, subnet, stage) else t
    case Registration(subnet, stage) =>
      R.StartStage(t, subnet);
      if R.Accepts(t) then R.Stage(t, subnet, stage) else t
  }

  predicate ValidRun(run: seq<Event>) {
    forall e | e in run :: ValidEvent(e)
  }

  function After(t: Table, run: seq<Event>): Table
    requires ValidRun(run)
    decreases |run|
  {
    if run == [] then t else After(Step(t, run[0]), run[1..])
  }

  /** The subnet of the last broker apply in the run whose restore took effect. */
  function LatestBroker(run: seq<Event>, start: Option<Token>): Option<Token> {
    if run == [] then start
    else LatestBroker(run[1..], if run[0].Broker? && run[0].stage > 0 then run[0].subnet else start)
  }

  function LatestRegistration(run: seq<Event>, start: Option<Token>): Option<Token> {
    if run == [] then start
    else LatestRegistration(run[1..], if run[0].Registration? && run[0].stage > 0 then run[0].subnet else start)
  }

  // ----- One step

  /** The registration guard changes nothing unless the broker's anchor is INPUT rule 1. */
  lemma RegistrationNeedsBroker(t: Table, e: Event)
    requires ValidEvent(e) && e.Registration? && Step(t, e) != t
    ensures Input in t && R.BehindBroker(t[Input])
  {
    R.AcceptsIff(t);
  }

  lemma SilentAnchors(k: nat)
    requires k < 3
    ensures !Mentions(R.PortAnchors()[k], BrokerComment)
    ensures !Refers(R.PortAnchors()[k], BrokerIngress, false)
  {
    R.PortAnchorIs(k);
    PlainRuleSilent(R.PortAnchors()[k], BrokerComment);
    PlainRuleRefers(R.PortAnchors()[k], BrokerIngress);
  }

  lemma InputStaysAnchored(rules: seq<Rule>, n: nat)
    requires B.Anchored(rules, B.InputAnchor()) && n <= 3
    ensures rules != [] && B.Anchored(R.InputAfter(rules, n), B.InputAnchor())
  {
    AnchoredHead(rules, B.InputAnchor());
    var after := R.InputAfter(rules, n);
    if after != rules {
      InsertedLookup(rules, n);
      forall i | 1 <= i < |after|
        ensures !Mentions(after[i], BrokerComment)
      {
        if i < 1 + n {
          SilentAnchors(i - 1);
        }
      }
    }
  }

  lemma InsertedLookup(rules: seq<Rule>, n: nat)
    requires rules != [] && n <= 3
    ensures var after := R.WithAnchors(rules, n);
            && |after| == |rules| + n && after[0] == rules[0]
            && (forall i | 1 <= i < 1 + n :: after[i] == R.PortAnchors()[i - 1])
            && (forall i | 1 + n <= i < |after| :: after[i] == rules[i - n])
  {
  }

  lemma NoNewBrokerReference(t: Table, subnet: Option<Subnet>, n: nat)
    requires R.Accepts(t) && n <= 4 && !B.HasForeignReference(t)
    ensures Input in t && t[Input] != [] && !B.HasForeignReference(R.Stage(t, subnet, n))
  {
    hide R.Accepts, Led, RuleMatches, Refers, R.InOrder;
    R.AcceptsIff(t);
    var s := R.Stage(t, subnet, n);
    forall chain: Chain, r: Rule | chain in s && r in s[chain]
      ensures !B.ForeignReference(chain, r)
    {
      if chain in t && r in t[chain] {
      } else if chain == RegistrationIngress {
        R.OwnedChainPlain(subnet, r, BrokerIngress);
      } else {
        assert chain == Input && r in R.PortAnchors();
        var k :| 0 <= k < 3 && r == R.PortAnchors()[k];
        SilentAnchors(k);
      }
    }
  }

  /** Whatever the registration guard does, and wherever it is cut off, the broker guard's
      applied state stays. */
  lemma RegistrationKeepsBroker(t: Table, broker: Option<Token>, e: Event)
    requires ValidEvent(e) && e.Registration? && B.Applied(t, broker)
    ensures B.Applied(Step(t, e), broker)
  {
    if R.Accepts(t) && e.stage > 0 {
      AppliedMeans(t, broker);
      B.AcceptsIff(t);
      RegistrationStage(t, e.subnet, e.stage);
      BrokerAppliedFrom(R.Stage(t, e.subnet, e.stage), broker);
    }
  }

  lemma RegistrationStage(t: Table, subnet: Option<Subnet>, n: nat)
    requires R.Accepts(t) && 1 <= n <= 4 && !B.HasForeignReference(t)
    requires Input in t && B.Anchored(t[Input], B.InputAnchor())
    requires DockerUser in t && BrokerIngress in t
    ensures t[Input] != []
    ensures var s := R.Stage(t, subnet, n);
            && !B.HasForeignReference(s)
            && Input in s && B.Anchored(s[Input], B.InputAnchor())
            && DockerUser in s && s[DockerUser] == t[DockerUser]
            && BrokerIngress in s && s[BrokerIngress] == t[BrokerIngress]
  {
    NoNewBrokerReference(t, subnet, n);
    InputStaysAnchored(t[Input], n - 1);
  }

  lemma BrokerAppliedFrom(t: Table, broker: Option<Token>)
    requires DockerUser in t && B.Anchored(t[DockerUser], B.DockerAnchor())
    requires Input in t && B.Anchored(t[Input], B.InputAnchor())
    requires BrokerIngress in t && B.OwnsChain(t) && ReadsAs(t[BrokerIngress], B.R5Chain(broker))
    requires !B.HasForeignReference(t)
    ensures B.Applied(t, broker)
  {
    B.AcceptsIff(t);
    B.ScanPlaced(t[DockerUser], B.DockerAnchor());
    B.ScanPlaced(t[Input], B.InputAnchor());
  }

  lemma OwnAnchorRefers(chain: Chain, anchor: Rule)
    requires B.IsOwnAnchor(chain, anchor)
    ensures !Refers(anchor, RegistrationIngress, true)
  {
    PlainRuleRefers(anchor, RegistrationIngress);
  }

  lemma R5Refers(subnet: Option<Subnet>, r: Rule)
    requires r in B.R5Chain(subnet)
    ensures !Refers(r, RegistrationIngress, true)
  {
    AllowRuleFacts(Lo, LOOPBACK_NETWORK, BrokerComment, RegistrationIngress);
    DropRuleFacts(BrokerComment, RegistrationIngress);
    if subnet.Some? {
      AllowRuleFacts(Eth0, subnet.value, BrokerComment, RegistrationIngress);
    }
  }

  /** Behind an exact broker anchor, a table the broker guard accepts is already anchored. */
  lemma BehindMeansAnchored(t: Table)
    requires B.Accepts(t) && Input in t && R.BehindBroker(t[Input])
    ensures B.Anchored(t[Input], B.InputAnchor())
  {
    B.AcceptsIff(t);
    ExactAnchorMentions(t[Input][0], Input);
  }

  lemma NoNewRegistrationReference(t: Table, subnet: Option<Subnet>, n: nat)
    requires B.Accepts(t) && n <= 3 && !R.HasForeignReference(t)
    requires Input in t && B.Anchored(t[Input], B.InputAnchor())
    ensures !R.HasForeignReference(B.Stage(t, subnet, n))
  {
    B.AcceptsIff(t);
    B.StageLookup(t, subnet, n);
    var s := B.Stage(t, subnet, n);
    forall chain: Chain, r: Rule | chain in s && r in s[chain]
      ensures !R.ForeignReference(chain, r)
    {
      if chain in t && r in t[chain] {
      } else if chain == BrokerIngress {
        R5Refers(subnet, r);
      } else {
        assert r == B.DockerAnchor();
        OwnAnchorRefers(DockerUser, r);
      }
    }
  }

  /** Whatever the broker guard does, the registration guard's applied state stays. */
  lemma BrokerKeepsRegistration(t: Table, registration: Option<Token>, e: Event)
    requires ValidEvent(e) && e.Broker? && R.Applied(t, registration)
    ensures R.Applied(Step(t, e), registration)
  {
    if B.Accepts(t) && e.stage > 0 {
      R.AppliedIff(t, registration);
      R.AcceptsIff(t);
      BehindMeansAnchored(t);
      B.AcceptsIff(t);
      B.StageLookup(t, e.subnet, e.stage);
      NoNewRegistrationReference(t, e.subnet, e.stage);
      RegistrationAppliedFrom(t, B.Stage(t, e.subnet, e.stage), registration);
    }
  }

  lemma RegistrationAppliedFrom(t: Table, s: Table, registration: Option<Token>)
    requires R.Applied(t, registration) && !R.HasForeignReference(s)
    requires Input in t && Input in s && s[Input] == t[Input]
    requires RegistrationIngress in t ==> RegistrationIngress in s && s[RegistrationIngress] == t[RegistrationIngress]
    ensures R.Applied(s, registration)
  {
    R.AppliedIff(t, registration);
    R.AcceptsIff(t);
    R.AcceptsIff(s);
    R.AppliedIff(s, registration);
  }

  lemma RegistrationRefreshed(t: Table, before: Option<Token>, e: Event)
    requires ValidEvent(e) && e.Registration? && R.Applied(t, before)
    ensures R.Applied(Step(t, e), if e.stage > 0 then e.subnet else before)
  {
    if e.stage > 0 {
      R.AppliedIff(t, before);
      R.Refreshed(t, e.subnet, e.stage);
    }
  }

  // ----- After an interrupted registration

  /** How many rules carry the registration guard's comment. */
  function Marks(rules: seq<Rule>): nat {
    if rules == [] then 0 else (if Mentions(rules[0], RegistrationComment) then 1 else 0) + Marks(rules[1..])
  }

  lemma {:induction false} MarksNone(rules: seq<Rule>)
    requires forall r | r in rules :: !Mentions(r, RegistrationComment)
    ensures Marks(rules) == 0
  {
    if rules != [] {
      assert rules[0] in rules && forall r | r in rules[1..] :: r in rules;
      MarksNone(rules[1..]);
    }
  }

  lemma {:induction false} MarksLed(rules: seq<Rule>, from: nat, n: nat)
    requires Led(rules, from, n, RegistrationComment, R.PortAnchors())
    ensures Marks(rules) == n
    decreases |rules|
  {
    if rules == [] {
    } else if n == 0 {
      assert forall r | r in rules :: !Mentions(r, RegistrationComment);
      MarksNone(rules);
    } else {
      LedRest(rules, from, n);
      MarksLed(rules[1..], if from == 0 then 0 else from - 1, if from == 0 then n - 1 else n);
    }
  }

  lemma LedRest(rules: seq<Rule>, from: nat, n: nat)
    requires rules != [] && n > 0 && Led(rules, from, n, RegistrationComment, R.PortAnchors())
    ensures Led(rules[1..], if from == 0 then 0 else from - 1, if from == 0 then n - 1 else n,
                RegistrationComment, R.PortAnchors())
    ensures Mentions(rules[0], RegistrationComment) <==> from == 0
  {
    assert from == 0 ==> IsAnchor(rules[0], RegistrationComment, R.PortAnchors());
    assert forall i | 0 <= i < |rules| - 1 :: rules[1..][i] == rules[i + 1];
  }

  /** Some of the three anchors are there, but not all. */
  predicate Partial(t: Table) {
    Input in t && 1 <= Marks(t[Input]) <= 2
  }

  lemma PartialRejected(t: Table)
    requires Partial(t)
    ensures !R.Accepts(t)
  {
    R.AcceptsIff(t);
    if R.Anchored(t[Input]) {
      MarksLed(t[Input], 1, 3);
    }
    if R.Unanchored(t[Input]) {
      MarksLed(t[Input], 0, 0);
    }
  }

  lemma BrokerKeepsMarks(t: Table, subnet: Option<Subnet>, n: nat)
    requires B.Accepts(t) && n <= 3
    ensures Input in t && Input in B.Stage(t, subnet, n)
    ensures Marks(B.Stage(t, subnet, n)[Input]) == Marks(t[Input])
  {
    B.AcceptsIff(t);
    B.StageLookup(t, subnet, n);
    InputAnchorSilent();
    var rules := t[Input];
    assert ([B.InputAnchor()] + rules)[1..] == rules;
  }

  lemma {:induction false} PartialForGood(t: Table, run: seq<Event>)
    requires Partial(t) && ValidRun(run)
    ensures Partial(After(t, run))
    decreases |run|
  {
    if run != [] {
      var e := run[0];
      assert e in run;
      PartialRejected(t);
      if e.Broker? && B.Accepts(t) {
        BrokerKeepsMarks(t, e.subnet, e.stage);
      }
      PartialForGood(Step(t, e), run[1..]);
    }
  }

  /** Once an apply of the registration guard has been cut off after one or two of its three
      inserts, no later run of the two guards gets it to change anything: whatever has been
      run, it rejects the table. */
  lemma CutOffForGood(t: Table, subnet: Option<Subnet>, n: nat, run: seq<Event>)
    requires R.Accepts(t) && Input in t && !R.Anchored(t[Input]) && 2 <= n <= 3 && ValidRun(run)
    ensures t[Input] != [] && !R.Accepts(After(R.Stage(t, subnet, n), run))
  {
    var s := R.Stage(t, subnet, n);
    R.StageInput(t, subnet, n);
    MarksLed(s[Input], 1, n - 1);
    PartialForGood(s, run);
    PartialRejected(After(s, run));
  }

  // ----- The first applies

  /** The registration guard has left nothing in the table, and nobody refers to its chain. */
  predicate NoTrace(t: Table)
    requires Input in t
  {
    && RegistrationIngress !in t && !R.HasForeignReference(t)
    && forall r | r in t[Input] :: !Mentions(r, RegistrationComment)
  }

  lemma ConvergedReferences(t: Table, subnet: Option<Subnet>)
    requires B.Accepts(t) && !R.HasForeignReference(t)
    ensures !R.HasForeignReference(B.Converged(t, subnet))
  {
    B.AcceptsIff(t);
    B.StageLookup(t, subnet, 3);
    var s := B.Converged(t, subnet);
    forall chain: Chain, r: Rule | chain in s && r in s[chain]
      ensures !R.ForeignReference(chain, r)
    {
      if chain in t && r in t[chain] {
      } else if chain == BrokerIngress {
        R5Refers(subnet, r);
      } else {
        assert B.IsOwnAnchor(chain, r);
        OwnAnchorRefers(chain, r);
      }
    }
  }

  lemma OnlyTheHead(rules: seq<Rule>)
    requires B.Anchored(rules, B.InputAnchor())
    ensures R.BehindBroker(rules)
  {
    AnchoredHead(rules, B.InputAnchor());
    forall i | 1 <= i < |rules|
      ensures !RuleMatches(rules[i], B.InputAnchor())
    {
      if RuleMatches(rules[i], B.InputAnchor()) {
        ExactAnchorMentions(rules[i], Input);
      }
    }
  }

  lemma InputAnchorSilent()
    ensures !Mentions(B.InputAnchor(), RegistrationComment)
  {
    PlainRuleSilent(B.InputAnchor(), RegistrationComment);
  }

  lemma SilentMeansUnanchored(rules: seq<Rule>)
    requires forall r | r in rules :: !Mentions(r, RegistrationComment)
    ensures R.Unanchored(rules)
  {
  }

  lemma ConvergedSilent(t: Table, subnet: Option<Subnet>)
    requires B.Accepts(t) && Input in t && forall r | r in t[Input] :: !Mentions(r, RegistrationComment)
    ensures Input in B.Converged(t, subnet) && R.Unanchored(B.Converged(t, subnet)[Input])
  {
    B.AcceptsIff(t);
    B.StageLookup(t, subnet, 3);
    InputAnchorSilent();
    SilentMeansUnanchored(B.AnchoredRules(t[Input], B.InputAnchor()));
  }

  lemma RegistrationWelcome(t: Table, subnet: Option<Subnet>)
    requires B.Accepts(t) && Input in t && NoTrace(t)
    ensures R.Accepts(B.Converged(t, subnet))
  {
    var t' := B.Converged(t, subnet);
    B.AcceptsIff(t);
    B.Converges(t, subnet);
    AppliedMeans(t', subnet);
    OnlyTheHead(t'[Input]);
    ConvergedReferences(t, subnet);
    ConvergedSilent(t, subnet);
    B.StageLookup(t, subnet, 3);
    R.AcceptsIff(t');
  }

  /** From a table the broker guard accepts and the registration guard has never touched,
      applying one and then the other succeeds, and both policies are in force. */
  lemma FirstApplies(t: Table, broker: Option<Subnet>, registration: Option<Subnet>)
    requires B.Accepts(t) && Input in t && NoTrace(t)
    ensures var t1 := Step(t, Broker(broker, 3));
            var t2 := Step(t1, Registration(registration, 4));
            B.Applied(t2, broker) && R.Applied(t2, registration)
  {
    var t1 := B.Converged(t, broker);
    B.Converges(t, broker);
    RegistrationWelcome(t, broker);
    RegistrationKeepsBroker(t1, broker, Registration(registration, 4));
    R.Converges(t1, registration);
  }

  /** A table whose INPUT and DOCKER-USER are still empty is such a table. */
  lemma EmptyTableWelcome()
    ensures var t: Table := map[Input := [], DockerUser := []];
            B.Accepts(t) && NoTrace(t)
  {
    B.AcceptsIff(map[Input := [], DockerUser := []]);
  }

  // ----- Runs

  /** Once the broker guard has succeeded, its applied state for its latest subnet holds
      after any run of both guards, interrupted applies included. */
  lemma {:induction false} BrokerPersists(t: Table, run: seq<Event>, broker: Option<Token>)
    requires ValidRun(run) && B.Applied(t, broker)
    ensures B.Applied(After(t, run), LatestBroker(run, broker))
    decreases |run|
  {
    if run != [] {
      var e := run[0];
      assert e in run;
      if e.Broker? {
        NoOpenWindow(t, broker, e.subnet, e.stage);
      } else {
        RegistrationKeepsBroker(t, broker, e);
      }
      BrokerPersists(Step(t, e), run[1..], if e.Broker? && e.stage > 0 then e.subnet else broker);
    }
  }

  /** The same for the registration guard. */
  lemma {:induction false} RegistrationPersists(t: Table, run: seq<Event>, registration: Option<Token>)
    requires ValidRun(run) && R.Applied(t, registration)
    ensures R.Applied(After(t, run), LatestRegistration(run, registration))
    decreases |run|
  {
    if run != [] {
      var e := run[0];
      assert e in run;
      if e.Broker? {
        BrokerKeepsRegistration(t, registration, e);
      } else {
        RegistrationRefreshed(t, registration, e);
      }
      RegistrationPersists(Step(t, e), run[1..], if e.Registration? && e.stage > 0 then e.subnet else registration);
    }
  }

  /** Once both guards have succeeded, INPUT starts with the broker's anchor and then the
      three registration anchors in order, after any run. */
  lemma InputOrderKept(t: Table, run: seq<Event>, broker: Option<Token>, registration: Option<Token>)
    requires ValidRun(run) && B.Applied(t, broker) && R.Applied(t, registration)
    ensures var s := After(t, run);
            && Input in s && |s[Input]| >= 4 && RuleMatches(s[Input][0], B.InputAnchor())
            && forall k | 0 <= k < 3 :: RuleMatches(s[Input][k + 1], R.PortAnchors()[k])
  {
    BrokerPersists(t, run, broker);
    RegistrationPersists(t, run, registration);
    var s := After(t, run);
    R.AppliedIff(s, LatestRegistration(run, registration));
    R.AcceptsIff(s);
  }

  // ----- Both guards' meaning for packets

  predicate AtPort(p: Packet, k: nat) {
    && k < 3
    && p.protocol == (if k == 1 then Udp else Tcp)
    && p.destinationPort == 47110 + k
  }

  /** Packets for the registration ports. */
  predicate AtRegistration(p: Packet) {
    AtPortFrom(p, 0)
  }

  predicate AtPortFrom(p: Packet, k: nat) {
    exists j | k <= j < 3 :: AtPort(p, j)
  }

  predicate OnTrustedLan(p: Packet, subnet: Option<Token>)
    requires subnet.Some? ==> subnet.value.Net?
  {
    subnet.Some? && p.inInterface == Eth0 && InNetwork(subnet.value, p.source)
  }

  lemma RegistrationChainVerdict(env: Env, t: Table, rules: seq<Rule>, subnet: Option<Token>, p: Packet, depth: nat)
    requires (subnet.Some? ==> subnet.value.Net?) && ReadsAs(rules, R.OwnedChain(subnet))
    ensures Walk(env, t, rules, p, depth) == if OnTrustedLan(p, subnet) then Fallthrough else Drop
  {
    assert RuleMatches(rules[0], R.OwnedChain(subnet)[0]);
    if subnet.Some? {
      assert RuleMatches(rules[1], R.OwnedChain(subnet)[1]);
      WalkAllow(env, t, rules, Eth0, subnet.value, RegistrationComment, p, depth);
      WalkDrop(env, t, rules[1..], RegistrationComment, p, depth);
    } else {
      WalkDrop(env, t, rules, RegistrationComment, p, depth);
    }
  }

  lemma WalkJump(env: Env, t: Table, rules: seq<Rule>, expected: Rule, chain: Chain, p: Packet, depth: nat)
    requires rules != [] && RuleMatches(rules[0], expected)
    requires expected.control.JumpTo? && expected.control.target == ChainTarget(chain)
    requires chain in t && depth >= 1
    ensures Walk(env, t, rules, p, depth) ==
              if !RuleHolds(env, expected, p) then Walk(env, t, rules[1..], p, depth)
              else
                var v := Walk(env, t, t[chain], p, depth - 1);
                if v == Fallthrough then Walk(env, t, rules[1..], p, depth) else v
  {
    RuleMatchesSound(env, rules[0], expected, p);
  }

  lemma WalkGuarded(env: Env, t: Table, rules: seq<Rule>, expected: Rule, chain: Chain, trusted: bool, p: Packet,
                    depth: nat)
    requires rules != [] && RuleMatches(rules[0], expected)
    requires expected.control.JumpTo? && expected.control.target == ChainTarget(chain)
    requires chain in t && depth >= 1
    requires Walk(env, t, t[chain], p, depth - 1) == if trusted then Fallthrough else Drop
    ensures Walk(env, t, rules, p, depth) ==
              if RuleHolds(env, expected, p) && !trusted then Drop else Walk(env, t, rules[1..], p, depth)
  {
    WalkJump(env, t, rules, expected, chain, p, depth);
  }

  /** One anchor and the chain behind it. */
  lemma WalkPort(env: Env, t: Table, rules: seq<Rule>, trusted: bool, k: nat, p: Packet, depth: nat)
    requires k < 3 && rules != [] && RuleMatches(rules[0], R.PortAnchors()[k]) && depth >= 1
    requires RegistrationIngress in t
    requires Walk(env, t, t[RegistrationIngress], p, depth - 1) == if trusted then Fallthrough else Drop
    ensures Walk(env, t, rules, p, depth) ==
              if AtPort(p, k) && !trusted then Drop else Walk(env, t, rules[1..], p, depth)
  {
    var anchor := R.PortAnchors()[k];
    PortAnchorSelects(env, k, p);
    WalkGuarded(env, t, rules, anchor, RegistrationIngress, trusted, p, depth);
  }

  lemma PortAnchorSelects(env: Env, k: nat, p: Packet)
    requires k < 3
    ensures RuleHolds(env, R.PortAnchors()[k], p) <==> AtPort(p, k)
    ensures R.PortAnchors()[k].control == JumpTo(Opt(DashJ), ChainTarget(RegistrationIngress))
  {
    var protocol, port := if k == 1 then Udp else Tcp, 47110 + k;
    assert R.PortAnchors()[k] == PortAnchor(protocol, port, RegistrationComment, RegistrationIngress);
    PortAnchorHolds(env, protocol, port, RegistrationComment, RegistrationIngress, p);
  }

  /** The three anchors together: one of them decides a registration packet, and the
      others let it pass. */
  lemma {:induction false} WalkAnchors(env: Env, t: Table, rules: seq<Rule>, trusted: bool, k: nat, p: Packet,
                                       depth: nat)
    requires R.InOrder(rules) && k <= 3 && depth >= 1
    requires RegistrationIngress in t
    requires Walk(env, t, t[RegistrationIngress], p, depth - 1) == if trusted then Fallthrough else Drop
    ensures Walk(env, t, rules[k + 1..], p, depth) ==
              if AtPortFrom(p, k) && !trusted then Drop else Walk(env, t, rules[4..], p, depth)
    decreases 3 - k
  {
    if k < 3 {
      var rest := rules[k + 1..];
      assert rest[0] == rules[k + 1] && rest[1..] == rules[k + 2..];
      WalkPort(env, t, rest, trusted, k, p, depth);
      WalkAnchors(env, t, rules, trusted, k + 1, p, depth);
      AtPortSplit(p, k);
    }
  }

  lemma AtPortSplit(p: Packet, k: nat)
    requires k < 3
    ensures AtPortFrom(p, k) <==> AtPort(p, k) || AtPortFrom(p, k + 1)
  {
  }

  /** Both guards applied: INPUT drops broker traffic that is neither local nor from the
      broker's subnet, drops registration traffic that is not from the registration
      subnet, and hands everything else to the rules behind the four anchors. */
  lemma BothPoliciesEnforced(env: Env, t: Table, broker: Option<Token>, registration: Option<Token>, p: Packet,
                             depth: nat)
    requires B.Applied(t, broker) && (broker.Some? ==> broker.value.Net?)
    requires R.Applied(t, registration) && (registration.Some? ==> registration.value.Net?)
    requires depth >= 1
    ensures Input in t && |t[Input]| >= 4
    ensures Walk(env, t, t[Input], p, depth) ==
              if AtInput(p) && !Trusted(p, broker) then Drop
              else if AtRegistration(p) && !OnTrustedLan(p, registration) then Drop
              else Walk(env, t, t[Input][4..], p, depth)
  {
    PolicyEnforced(env, t, broker, Input, p, depth);
    RegistrationEnforced(env, t, registration, p, depth);
  }

  lemma RegistrationEnforced(env: Env, t: Table, registration: Option<Token>, p: Packet, depth: nat)
    requires R.Applied(t, registration) && (registration.Some? ==> registration.value.Net?)
    requires depth >= 1
    ensures Input in t && |t[Input]| >= 4
    ensures Walk(env, t, t[Input][1..], p, depth) ==
              if AtRegistration(p) && !OnTrustedLan(p, registration) then Drop
              else Walk(env, t, t[Input][4..], p, depth)
  {
    RegistrationApplied(t, registration);
    RegistrationChainVerdict(env, t, t[RegistrationIngress], registration, p, depth - 1);
    WalkAnchors(env, t, t[Input], OnTrustedLan(p, registration), 0, p, depth);
  }

  lemma RegistrationApplied(t: Table, registration: Option<Token>)
    requires R.Applied(t, registration)
    ensures Input in t && R.InOrder(t[Input])
    ensures RegistrationIngress in t && ReadsAs(t[RegistrationIngress], R.OwnedChain(registration))
  {
    R.AppliedIff(t, registration);
    R.AcceptsIff(t);
    AnchoredInOrder(t);
  }

  lemma AnchoredInOrder(t: Table)
    requires R.Accepts(t) && Input in t && R.Anchored(t[Input])
    ensures R.InOrder(t[Input])
  {
    R.AcceptsIff(t);
    assert IsAnchor(t[Input][1], RegistrationComment, R.PortAnchors());
  }
}
