/** The filter table as the ingress guards see it, and what it does to packets.

    A rule is kept in the structure the kernel gives it (clauses, a control part
    and target options); `Tokens` is the argument list that the rule dump prints
    for it.  The guards only ever look at those arguments; packets only ever see
    the structure.  `RuleMatchesSound` ties the two together. */
module Netfilter {
  import opened Results

  /** Option flags by spelling.  `OtherFlag` is any argument the guards' reader has
      no entry for, `!` included. */
  datatype Flag =
    | DashP | Protocol2 | DashM | Match2 | CtDir2 | CtOrigDstPort2
    | Dport2 | DestinationPort2 | DashI | InInterface2 | DashS | Source2
    | Comment2 | DashJ | Jump2 | DashG | Goto2 | OtherFlag(text: string)

  /** Literal words; the guards' own vocabulary is named. */
  datatype Word =
    | Lo | Eth0 | Tcp | Udp | Conntrack | CommentModule | Original
    | BrokerComment | RegistrationComment | OtherWord(text: string)

  datatype Chain = Input | DockerUser | BrokerIngress | RegistrationIngress | OtherChain(name: string)

  datatype Target = AcceptTarget | DropTarget | ReturnTarget | ChainTarget(chain: Chain) | ExtensionTarget(name: string)

  /** One printed argument.  `Net` is a word that reads as an IPv4 network. */
  datatype Token =
    | Opt(flag: Flag) | Lit(word: Word) | Number(n: nat)
    | Net(address: nat, prefix: nat) | To(target: Target)

  datatype Key =
    | Protocol | Match | CtDir | CtOrigDstPort | DestinationPort
    | InInterface | Source | Comment | Jump

  /** The reader's table of flag spellings. */
  function Alias(token: Token): Option<Key> {
    if !token.Opt? then None
    else
      match token.flag
      case DashP => Some(Protocol)
      case Protocol2 => Some(Protocol)
      case DashM => Some(Match)
      case Match2 => Some(Match)
      case CtDir2 => Some(CtDir)
      case CtOrigDstPort2 => Some(CtOrigDstPort)
      case Dport2 => Some(DestinationPort)
      case DestinationPort2 => Some(DestinationPort)
      case DashI => Some(InInterface)
      case InInterface2 => Some(InInterface)
      case DashS => Some(Source)
      case Source2 => Some(Source)
      case Comment2 => Some(Comment)
      case DashJ => Some(Jump)
      case Jump2 => Some(Jump)
      case _ => None
  }

  predicate IsJumpFlag(token: Token) {
    token == Opt(DashJ) || token == Opt(Jump2)
  }

  predicate IsGotoFlag(token: Token) {
    token == Opt(DashG) || token == Opt(Goto2)
  }

  predicate IsSourceFlag(token: Token) {
    token == Opt(DashS) || token == Opt(Source2)
  }

  /** A match clause: a flag this model reads, or other words (negations, flags of
      match extensions) whose first word is not one of the flags read here. */
  datatype Clause = Known(flag: Flag, value: Token) | Foreign(words: seq<Token>)

  datatype Control = NoTarget | JumpTo(flag: Token, target: Target) | GotoTo(flag: Token, target: Target)

  datatype RawRule = RawRule(clauses: seq<Clause>, control: Control, extras: seq<Token>)

  predicate WellFormedClause(c: Clause) {
    match c
    case Known(flag, value) => Alias(Opt(flag)).Some? && Alias(Opt(flag)) != Some(Jump)
    case Foreign(words) => words != [] && Alias(words[0]).None?
  }

  predicate WellFormed(r: RawRule) {
    && (forall c | c in r.clauses :: WellFormedClause(c))
    && (r.control.JumpTo? ==> IsJumpFlag(r.control.flag))
    && (r.control.GotoTo? ==> IsGotoFlag(r.control.flag))
    && (r.extras == [] || Alias(r.extras[0]).None?)
  }

  type Rule = r: RawRule | WellFormed(r) witness RawRule([], NoTarget, [])

  type Table = map<Chain, seq<Rule>>

  // ----- What the rule dump prints

  function ClauseTokens(clauses: seq<Clause>): seq<Token> {
    if clauses == [] then []
    else
      (match clauses[0]
       case Known(flag, value) => [Opt(flag), value]
       case Foreign(words) => words) + ClauseTokens(clauses[1..])
  }

  function ControlTokens(control: Control): seq<Token> {
    match control
    case NoTarget => []
    case JumpTo(flag, target) => [flag, To(target)]
    case GotoTo(flag, target) => [flag, To(target)]
  }

  function Tokens(r: RawRule): seq<Token> {
    ClauseTokens(r.clauses) + (ControlTokens(r.control) + r.extras)
  }

  // ----- How a guard reads a printed rule

  /** An address with its `bits` low bits cleared. */
  function Clear(address: nat, bits: nat): nat {
    if bits == 0 then address else 2 * Clear(address / 2, bits - 1)
  }

  lemma {:induction false} ClearTwice(address: nat, bits: nat)
    ensures Clear(Clear(address, bits), bits) == Clear(address, bits)
  {
    if bits > 0 {
      ClearTwice(address / 2, bits - 1);
      assert 2 * Clear(address / 2, bits - 1) / 2 == Clear(address / 2, bits - 1);
    }
  }

  function HostBits(prefix: nat): nat {
    if prefix <= 32 then 32 - prefix else 0
  }

  /** Host bits cleared, as the non-strict network constructor does. */
  function NetworkOf(net: Token): (r: Token)
    requires net.Net?
    ensures r.Net? && r.prefix == net.prefix
  {
    Net(Clear(net.address, HostBits(net.prefix)), net.prefix)
  }

  type Semantics = multiset<(Key, Token)>

  function ReadPair(key: Key, value: Token): Option<(Key, Token)> {
    if key != Source then Some((key, value))
    else if value.Net? then Some((key, NetworkOf(value)))
    else None
  }

  /** The meaning a guard gives to an argument list: the bag of its (flag, value)
      pairs, or nothing when any argument is not understood. */
  function ReadTokens(tokens: seq<Token>): Option<Semantics> {
    if tokens == [] then Some(multiset{})
    else if |tokens| == 1 || Alias(tokens[0]).None? then None
    else
      match ReadPair(Alias(tokens[0]).value, tokens[1])
      case None => None
      case Some(pair) =>
        match ReadTokens(tokens[2..])
        case None => None
        case Some(rest) => Some(multiset{pair} + rest)
  }

  /** The reader itself: it walks the arguments two at a time and gives up at the
      first one it does not understand. */
  method ParseRuleSemantics(tokens: seq<Token>) returns (semantics: Option<Semantics>)
    ensures semantics == ReadTokens(tokens)
  {
    var bag: Semantics := multiset{};
    var index := 0;
    assert tokens[0..] == tokens;
    assert ReadTokens(tokens).Some? ==> bag + ReadTokens(tokens).value == ReadTokens(tokens).value;
    while index < |tokens|
      invariant 0 <= index <= |tokens|
      invariant ReadTokens(tokens[index..]).None? ==> ReadTokens(tokens).None?
      invariant ReadTokens(tokens[index..]).Some? ==>
                  ReadTokens(tokens) == Some(bag + ReadTokens(tokens[index..]).value)
      decreases |tokens| - index
    {
      var key := Alias(tokens[index]);
      if key.None? || index + 1 >= |tokens| {
        return None;
      }
      var pair := ReadPair(key.value, tokens[index + 1]);
      if pair.None? {
        return None;
      }
      assert tokens[index..][2..] == tokens[index + 2..];
      ghost var rest := ReadTokens(tokens[index + 2..]);
      if rest.Some? {
        assert bag + (multiset{pair.value} + rest.value) == bag + multiset{pair.value} + rest.value;
      }
      bag := bag + multiset{pair.value};
      index := index + 2;
    }
    assert tokens[index..] == [];
    assert bag + multiset{} == bag;
    return Some(bag);
  }

  predicate RuleMatches(r: RawRule, expected: RawRule) {
    && ReadTokens(Tokens(r)).Some?
    && ReadTokens(Tokens(r)) == ReadTokens(Tokens(expected))
  }

  // ----- What packets see

  datatype Packet = Packet(
    protocol: Word, inInterface: Word, source: nat, destinationPort: nat,
    ctDir: Word, ctOrigDstPort: nat)

  /** A clause whose effect on packets is not spelled out here. */
  datatype Unread = Pair(key: Key, value: Token) | Words(words: seq<Token>)

  datatype Verdict = Accept | Drop | Extension(name: string) | Fallthrough | Overrun

  /** The parts of the kernel this model leaves open: extension matches, and
      extension targets, which may end the walk or let it continue. */
  datatype Env = Env(holds: (Unread, Packet) -> bool,
                     target: (Target, seq<Token>, Packet) -> Option<Verdict>)

  predicate InNetwork(net: Token, address: nat)
    requires net.Net?
  {
    NetworkOf(net) == NetworkOf(Net(address, net.prefix))
  }

  /** Which packets a pair selects.  Values of other shapes (numeric protocols,
      port ranges, interface patterns) are left to the environment. */
  predicate PairHolds(env: Env, key: Key, value: Token, p: Packet) {
    if key == Match || key == Comment || key == Jump then true
    else if key == Protocol && value.Lit? then value.word == p.protocol
    else if key == CtDir && value.Lit? then value.word == p.ctDir
    else if key == CtOrigDstPort && value.Number? then value.n == p.ctOrigDstPort
    else if key == DestinationPort && value.Number? then value.n == p.destinationPort
    else if key == InInterface && value.Lit? && !value.word.OtherWord? then value.word == p.inInterface
    else if key == Source && value.Net? then InNetwork(value, p.source)
    else env.holds(Pair(key, value), p)
  }

  predicate ClauseHolds(env: Env, c: Clause, p: Packet) {
    match c
    case Known(flag, value) =>
      if Alias(Opt(flag)).Some? then PairHolds(env, Alias(Opt(flag)).value, value, p)
      else env.holds(Words([Opt(flag), value]), p)
    case Foreign(words) => env.holds(Words(words), p)
  }

  predicate RuleHolds(env: Env, r: RawRule, p: Packet) {
    forall c | c in r.clauses :: ClauseHolds(env, c, p)
  }

  /** Walk the rules of one chain.  `Fallthrough` means control goes back to the
      calling chain (to the policy, for a built-in chain); `depth` bounds the
      chain of calls and running out of it is reported as `Overrun`. */
  function Walk(env: Env, t: Table, rules: seq<Rule>, p: Packet, depth: nat): Verdict
    decreases depth, |rules|
  {
    if rules == [] then Fallthrough
    else if !RuleHolds(env, rules[0], p) then Walk(env, t, rules[1..], p, depth)
    else
      var control := rules[0].control;
      if control.NoTarget? then Walk(env, t, rules[1..], p, depth)
      else if control.target.ChainTarget? && control.target.chain in t then
        if depth == 0 then Overrun
        else
          var v := Walk(env, t, t[control.target.chain], p, depth - 1);
          if v == Fallthrough && control.JumpTo? then Walk(env, t, rules[1..], p, depth) else v
      else if control.target.AcceptTarget? then Accept
      else if control.target.DropTarget? then Drop
      else if control.target.ReturnTarget? then Fallthrough
      else
        match env.target(control.target, rules[0].extras, p)
        case Some(v) => v
        case None => Walk(env, t, rules[1..], p, depth)
  }

  // ----- The reader is sound for packets

  predicate ReadsClause(c: Clause) {
    c.Known? && Alias(Opt(c.flag)).Some? && ReadPair(Alias(Opt(c.flag)).value, c.value).Some?
  }

  predicate Reads(clauses: seq<Clause>) {
    forall c | c in clauses :: ReadsClause(c)
  }

  function ClausePair(c: Clause): (Key, Token)
    requires ReadsClause(c)
  {
    ReadPair(Alias(Opt(c.flag)).value, c.value).value
  }

  function Bag(clauses: seq<Clause>): Semantics
    requires Reads(clauses)
  {
    if clauses == [] then multiset{}
    else multiset{ClausePair(clauses[0])} + Bag(clauses[1..])
  }

  lemma ReadOne(flag: Token, value: Token, rest: seq<Token>)
    requires Alias(flag).Some?
    ensures ReadTokens([flag, value] + rest) ==
              match ReadPair(Alias(flag).value, value)
              case None => None
              case Some(pair) =>
                if ReadTokens(rest).None? then None else Some(multiset{pair} + ReadTokens(rest).value)
  {
    var all := [flag, value] + rest;
    assert all[0] == flag && all[1] == value && all[2..] == rest;
  }

  lemma ReadStuck(words: seq<Token>, rest: seq<Token>)
    requires words != [] && Alias(words[0]).None?
    ensures ReadTokens(words + rest).None?
  {
    assert (words + rest)[0] == words[0];
  }

  /** Reading an argument list that starts with printed clauses succeeds only when
      every clause is one the reader knows, and then adds exactly their pairs. */
  lemma {:induction false} ReadClauses(clauses: seq<Clause>, rest: seq<Token>)
    requires forall c | c in clauses :: WellFormedClause(c)
    ensures ReadTokens(ClauseTokens(clauses) + rest).Some? <==> Reads(clauses) && ReadTokens(rest).Some?
    ensures Reads(clauses) && ReadTokens(rest).Some? ==>
              ReadTokens(ClauseTokens(clauses) + rest) == Some(Bag(clauses) + ReadTokens(rest).value)
  {
    if clauses == [] {
      assert ClauseTokens(clauses) + rest == rest;
      assert Bag(clauses) == multiset{};
      if ReadTokens(rest).Some? {
        assert multiset{} + ReadTokens(rest).value == ReadTokens(rest).value;
      }
    } else {
      ReadsSplit(clauses);
      ReadClauses(clauses[1..], rest);
      assert WellFormedClause(clauses[0]);
      ReadFirstClause(clauses, rest);
      if Reads(clauses) && ReadTokens(rest).Some? {
        var first, more, tail := multiset{ClausePair(clauses[0])}, Bag(clauses[1..]), ReadTokens(rest).value;
        assert first + (more + tail) == first + more + tail;
      }
    }
  }

  lemma ReadFirstClause(clauses: seq<Clause>, rest: seq<Token>)
    requires clauses != [] && WellFormedClause(clauses[0])
    ensures !ReadsClause(clauses[0]) ==> ReadTokens(ClauseTokens(clauses) + rest).None?
    ensures ReadsClause(clauses[0]) ==>
              var more := ReadTokens(ClauseTokens(clauses[1..]) + rest);
              ReadTokens(ClauseTokens(clauses) + rest) ==
                if more.None? then None else Some(multiset{ClausePair(clauses[0])} + more.value)
  {
    var c, more := clauses[0], ClauseTokens(clauses[1..]) + rest;
    if c.Known? {
      assert ClauseTokens(clauses) + rest == [Opt(c.flag), c.value] + more;
      ReadOne(Opt(c.flag), c.value, more);
    } else {
      assert ClauseTokens(clauses) + rest == c.words + more;
      ReadStuck(c.words, more);
    }
  }

  lemma ReadsSplit(clauses: seq<Clause>)
    requires clauses != []
    ensures Reads(clauses) <==> ReadsClause(clauses[0]) && Reads(clauses[1..])
  {
    assert clauses[0] in clauses;
    assert forall c | c in clauses :: c == clauses[0] || c in clauses[1..];
  }

  function ControlPairs(control: Control): Semantics {
    if control.JumpTo? then multiset{(Jump, To(control.target))} else multiset{}
  }

  /** What a successfully read rule looks like. */
  lemma ReadRule(r: Rule)
    ensures ReadTokens(Tokens(r)).Some? <==> Reads(r.clauses) && !r.control.GotoTo? && r.extras == []
    ensures ReadTokens(Tokens(r)).Some? ==>
              ReadTokens(Tokens(r)).value == Bag(r.clauses) + ControlPairs(r.control)
  {
    ReadClauses(r.clauses, ControlTokens(r.control) + r.extras);
    ReadControl(r);
  }

  lemma ReadControl(r: Rule)
    ensures var rest := ControlTokens(r.control) + r.extras;
            && (ReadTokens(rest).Some? <==> !r.control.GotoTo? && r.extras == [])
            && (ReadTokens(rest).Some? ==> ReadTokens(rest).value == ControlPairs(r.control))
  {
    var rest := ControlTokens(r.control) + r.extras;
    if r.extras != [] {
      assert r.extras + [] == r.extras;
      ReadStuck(r.extras, []);
    }
    match r.control
    case NoTarget =>
      assert rest == r.extras;
    case JumpTo(flag, target) =>
      ReadOne(flag, To(target), r.extras);
    case GotoTo(flag, target) =>
      ReadStuck([flag, To(target)], r.extras);
  }

  lemma NormalisedSource(env: Env, key: Key, value: Token, p: Packet)
    requires ReadPair(key, value).Some?
    ensures var pair := ReadPair(key, value).value;
            PairHolds(env, key, value, p) == PairHolds(env, pair.0, pair.1, p)
  {
    if key == Source {
      ClearTwice(value.address, HostBits(value.prefix));
    }
  }

  lemma {:induction false} BagHolds(env: Env, clauses: seq<Clause>, p: Packet)
    requires Reads(clauses)
    ensures (forall c | c in clauses :: ClauseHolds(env, c, p)) <==>
              (forall pair | pair in Bag(clauses) :: PairHolds(env, pair.0, pair.1, p))
  {
    if clauses != [] {
      var c, more := clauses[0], clauses[1..];
      assert c in clauses && forall d | d in clauses :: d == c || d in more;
      BagHolds(env, more, p);
      NormalisedSource(env, Alias(Opt(c.flag)).value, c.value, p);
      assert ClausePair(c) in Bag(clauses);
      assert forall pair | pair in Bag(clauses) :: pair == ClausePair(c) || pair in Bag(more);
    }
  }

  lemma {:induction false} BagHasNoJump(clauses: seq<Clause>, value: Token)
    requires Reads(clauses) && forall c | c in clauses :: WellFormedClause(c)
    ensures (Jump, value) !in Bag(clauses)
  {
    if clauses != [] {
      assert WellFormedClause(clauses[0]);
      BagHasNoJump(clauses[1..], value);
    }
  }

  /** Two rules with the same reading have the same clause pairs and pass control
      to the same target. */
  lemma RuleMatchesParts(r: Rule, expected: Rule)
    requires RuleMatches(r, expected) && expected.control.JumpTo?
    ensures Reads(r.clauses) && Reads(expected.clauses) && Bag(r.clauses) == Bag(expected.clauses)
    ensures r.control.JumpTo? && r.control.target == expected.control.target
  {
    ReadRule(r);
    ReadRule(expected);
    var target := (Jump, To(expected.control.target));
    BagHasNoJump(r.clauses, target.1);
    BagHasNoJump(expected.clauses, target.1);
    assert target in Bag(expected.clauses) + ControlPairs(expected.control);
    assert target in ControlPairs(r.control);
    assert Bag(r.clauses) == Bag(r.clauses) + ControlPairs(r.control) - multiset{target};
    assert Bag(expected.clauses) == Bag(expected.clauses) + ControlPairs(expected.control) - multiset{target};
  }

  /** Textual ownership checks decide packet behaviour: a rule that reads like the
      expected one selects the same packets and has the same target. */
  lemma RuleMatchesSound(env: Env, r: Rule, expected: Rule, p: Packet)
    requires RuleMatches(r, expected) && expected.control.JumpTo?
    ensures RuleHolds(env, r, p) == RuleHolds(env, expected, p)
    ensures r.control.JumpTo? && r.control.target == expected.control.target
  {
    RuleMatchesParts(r, expected);
    BagHolds(env, r.clauses, p);
    BagHolds(env, expected.clauses, p);
  }

  lemma {:induction false} BagSplit(a: seq<Clause>, b: seq<Clause>)
    requires Reads(a) && Reads(b)
    ensures Reads(a + b) && Bag(a + b) == Bag(a) + Bag(b)
  {
    if a == [] {
      assert a + b == b;
    } else {
      assert (a + b)[1..] == a[1..] + b;
      BagSplit(a[1..], b);
    }
  }

  /** A guard's reading does not depend on the order in which clauses are printed. */
  lemma {:induction false} ReadingIgnoresOrder(a: seq<Clause>, b: seq<Clause>)
    requires multiset(a) == multiset(b) && Reads(a)
    ensures Reads(b) && Bag(a) == Bag(b)
  {
    ReadsTransfer(a, b);
    if a == [] {
      assert |multiset(b)| == 0;
    } else {
      assert a[0] in multiset(a);
      var i := Find(b, a[0]);
      var front, back := b[..i], b[i + 1..];
      assert b == front + ([a[0]] + back);
      RemoveOne(a, front, back);
      ReadsSplit(a);
      ReadingIgnoresOrder(a[1..], front + back);
      BagMove(front, a[0], back);
    }
  }

  lemma BagMove(front: seq<Clause>, c: Clause, back: seq<Clause>)
    requires Reads(front + back) && Reads(front + ([c] + back))
    ensures ReadsClause(c) && Bag(front + ([c] + back)) == multiset{ClausePair(c)} + Bag(front + back)
  {
    var all := front + ([c] + back);
    assert all[|front|] == c;
    forall d | d in front || d in back
      ensures ReadsClause(d)
    {
      assert d in front + back;
    }
    BagSplit(front, back);
    assert Reads([c] + back);
    BagSplit(front, [c] + back);
    assert ([c] + back)[1..] == back;
  }

  lemma ReadsTransfer(a: seq<Clause>, b: seq<Clause>)
    requires multiset(a) == multiset(b) && Reads(a)
    ensures Reads(b)
  {
    forall c | c in b
      ensures ReadsClause(c)
    {
      assert c in multiset(b);
      assert c in multiset(a);
    }
  }

  lemma Find(b: seq<Clause>, c: Clause) returns (i: nat)
    requires c in multiset(b)
    ensures i < |b| && b[i] == c
  {
    i :| 0 <= i < |b| && b[i] == c;
  }

  lemma RemoveOne(a: seq<Clause>, front: seq<Clause>, back: seq<Clause>)
    requires a != [] && multiset(a) == multiset(front + ([a[0]] + back))
    ensures multiset(a[1..]) == multiset(front + back)
  {
    assert a == [a[0]] + a[1..];
    assert multiset(a) == multiset{a[0]} + multiset(a[1..]);
    assert multiset(front + ([a[0]] + back)) == multiset{a[0]} + multiset(front + back);
    assert multiset(a[1..]) == multiset(a) - multiset{a[0]};
    assert multiset(front + back) == multiset(front + ([a[0]] + back)) - multiset{a[0]};
  }
}
