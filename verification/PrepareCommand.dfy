/** The PREPARE command line: six space-separated fields whose last one is a digest over
    material built from two of the others. */
module PrepareCommand {
  import opened Results

  const MAX_LINE: nat := 384

  /** The schema names of the two commands that are rendered. */
  function Schemas(): set<string> {
    {"GH2D9_PREPARE_V1", "GH2D9_VERIFY_V1"}
  }

  /** The digest functions, kept abstract: of material and of the unlock token's bytes. */
  datatype Hashes = Hashes(material: string -> string, token: string -> string)

  predicate IsHex(c: char) {
    '0' <= c <= '9' || 'a' <= c <= 'f'
  }

  predicate IsHex64(s: string) {
    |s| == 64 && forall c | c in s :: IsHex(c)
  }

  predicate IsSuffixChar(c: char) {
    'a' <= c <= 'z' || '0' <= c <= '9'
  }

  predicate IsSuffix(s: string) {
    8 <= |s| <= 24 && forall c | c in s :: IsSuffixChar(c)
  }

  /** What a digest function of the right kind returns. */
  ghost predicate Digests(h: Hashes) {
    forall s: string :: IsHex64(h.material(s))
  }

  datatype Command = Command(
    schema: string, suffix: string, unlock: string, key: string, authorization: string, digest: string)

  datatype CommandError =
    | TooLong | EmbeddedLineEnding | ShapeInvalid | SuffixInvalid | UnlockInvalid | KeyInvalid
    | AuthorizationInvalid | DigestInvalid | ZeroSecret | UnlockDigestInvalid | UnlockMismatch | CandidateMismatch
    | SchemaInvalid

  // ----- Candidate material

  const CLIENT: string :=
    "\nstage2d9.invalid\n8883\nstage2d9.invalid\nstage2d9-test-ca\nstage2d9-test\ngh-test-client-gh-test-run-"

  /** The persisted fields, one a line.  Only three lines and the last one depend on the
      arguments; the lines between are constant text. */
  function Material(suffix: string, authorization: string): string {
    "gh.pair.credentials/1\ngh-test-system-" + suffix
    + ("\ngh-test-node-" + suffix)
    + (CLIENT + suffix)
    + ("\n1\n" + authorization)
  }

  function CandidateDigest(h: Hashes, suffix: string, authorization: string): string {
    h.material(Material(suffix, authorization))
  }

  lemma TailsEqual(a: string, b: string, x: string, y: string)
    requires a + x == b + y && |x| == |y|
    ensures a == b && x == y
  {
    assert |a| == |b|;
    assert a == (a + x)[..|a|] && b == (b + y)[..|b|];
    assert x == (a + x)[|a|..] && y == (b + y)[|b|..];
  }

  /** The material determines the suffix and the authorization digest. */
  lemma MaterialInjective(suffix: string, authorization: string, suffix': string, authorization': string)
    requires |authorization| == |authorization'| == 64
    requires Material(suffix, authorization) == Material(suffix', authorization')
    ensures suffix == suffix' && authorization == authorization'
  {
    var head := "gh.pair.credentials/1\ngh-test-system-";
    var client := CLIENT;
    var a, b := "\n1\n" + authorization, "\n1\n" + authorization';
    var c, d := client + suffix, client + suffix';
    var e, f := "\ngh-test-node-" + suffix, "\ngh-test-node-" + suffix';
    assert |Material(suffix, authorization)| == |head| + 3 * |suffix| + |client| + 14 + |a|;
    assert |Material(suffix', authorization')| == |head| + 3 * |suffix'| + |client| + 14 + |b|;
    TailsEqual(head + suffix + e + c, head + suffix' + f + d, a, b);
    TailsEqual("\n1\n", "\n1\n", authorization, authorization');
    TailsEqual(head + suffix + e, head + suffix' + f, c, d);
    TailsEqual(client, client, suffix, suffix');
  }

  // ----- Rendering and parsing

  function Join(parts: seq<string>): string
    requires parts != []
  {
    if |parts| == 1 then parts[0] else parts[0] + " " + Join(parts[1..])
  }

  function WordLength(s: string): (n: nat)
    ensures n <= |s| && (n < |s| ==> s[n] == ' ') && ' ' !in s[..n]
  {
    if s == "" || s[0] == ' ' then 0
    else
      var n := WordLength(s[1..]);
      assert s[..n + 1] == [s[0]] + s[1..][..n];
      n + 1
  }

  /** Split at every space; there is always at least one part. */
  function Split(s: string): (parts: seq<string>)
    ensures parts != []
    decreases |s|
  {
    var n := WordLength(s);
    if n == |s| then [s] else [s[..n]] + Split(s[n + 1..])
  }

  function StripLineEnding(s: string): string {
    if s != "" && (s[|s| - 1] == '\r' || s[|s| - 1] == '\n') then StripLineEnding(s[..|s| - 1]) else s
  }

  function Render(h: Hashes, schema: string, suffix: string, unlock: string, key: string, authorization: string)
    : Result<string, CommandError>
  {
    if schema !in Schemas() then Failure(SchemaInvalid)
    else if !IsSuffix(suffix) then Failure(SuffixInvalid)
    else if !IsHex64(authorization) then Failure(AuthorizationInvalid)
    else Success(Join([schema, suffix, unlock, key, authorization, CandidateDigest(h, suffix, authorization)]))
  }

  predicate IsZero(s: string) {
    forall c | c in s :: c == '0'
  }

  function Parse(h: Hashes, line: string, expectedUnlock: string, expectedSchema: string)
    : Result<Command, CommandError>
  {
    if |line| > MAX_LINE then Failure(TooLong)
    else
      var body := StripLineEnding(line);
      var parts := Split(body);
      if '\r' in body || '\n' in body then Failure(EmbeddedLineEnding)
      else if |parts| != 6 || parts[0] != expectedSchema || "" in parts then Failure(ShapeInvalid)
      else
        var c := Command(parts[0], parts[1], parts[2], parts[3], parts[4], parts[5]);
        if !IsSuffix(c.suffix) then Failure(SuffixInvalid)
        else if !IsHex64(c.unlock) then Failure(UnlockInvalid)
        else if !IsHex64(c.key) then Failure(KeyInvalid)
        else if !IsHex64(c.authorization) then Failure(AuthorizationInvalid)
        else if !IsHex64(c.digest) then Failure(DigestInvalid)
        else if IsZero(c.unlock) || IsZero(c.key) || IsZero(c.authorization) then Failure(ZeroSecret)
        else if !IsHex64(expectedUnlock) then Failure(UnlockDigestInvalid)
        else if h.token(c.unlock) != expectedUnlock then Failure(UnlockMismatch)
        else if c.digest != CandidateDigest(h, c.suffix, c.authorization) then Failure(CandidateMismatch)
        else Success(c)
  }

  // ----- Splitting and joining

  predicate Wordlike(parts: seq<string>) {
    forall p | p in parts :: ' ' !in p
  }

  lemma WordEnds(word: string, rest: string)
    requires ' ' !in word
    ensures WordLength(word + " " + rest) == |word|
  {
    if word != "" {
      var s := word + " " + rest;
      assert s[0] == word[0] && s[1..] == word[1..] + " " + rest;
      WordEnds(word[1..], rest);
    }
  }

  lemma WholeWord(word: string)
    requires ' ' !in word
    ensures WordLength(word) == |word|
  {
  }

  lemma {:induction false} SplitJoin(parts: seq<string>)
    requires parts != [] && Wordlike(parts)
    ensures Split(Join(parts)) == parts
  {
    assert parts[0] in parts;
    if |parts| == 1 {
      WholeWord(parts[0]);
    } else {
      var rest := Join(parts[1..]);
      assert forall p | p in parts[1..] :: p in parts;
      SplitJoin(parts[1..]);
      WordEnds(parts[0], rest);
      SplitOnce(parts[0] + " " + rest, |parts[0]|);
      CutAtSpace(parts[0], rest);
    }
  }

  lemma CutAtSpace(word: string, rest: string)
    ensures var s := word + " " + rest; s[..|word|] == word && s[|word| + 1..] == rest
  {
  }

  lemma {:induction false} JoinSplit(s: string)
    ensures Join(Split(s)) == s
    decreases |s|
  {
    var n := WordLength(s);
    if n < |s| {
      JoinSplit(s[n + 1..]);
      SplitOnce(s, n);
      JoinOnce(s[..n], Split(s[n + 1..]));
      AroundSpace(s, n);
    }
  }

  lemma AroundSpace(s: string, n: nat)
    requires n < |s| && s[n] == ' '
    ensures s[..n] + " " + s[n + 1..] == s
  {
  }

  lemma SplitOnce(s: string, n: nat)
    requires n == WordLength(s) < |s|
    ensures Split(s) == [s[..n]] + Split(s[n + 1..])
  {
  }

  lemma JoinOnce(word: string, rest: seq<string>)
    requires rest != []
    ensures Join([word] + rest) == word + " " + Join(rest)
  {
    assert ([word] + rest)[1..] == rest;
  }

  lemma {:induction false} StripAppended(s: string, ending: string)
    requires forall c | c in ending :: c == '\r' || c == '\n'
    requires s != "" ==> s[|s| - 1] != '\r' && s[|s| - 1] != '\n'
    ensures StripLineEnding(s + ending) == s
  {
    var t := s + ending;
    if ending == "" {
      assert t == s;
    } else {
      var front := ending[..|ending| - 1];
      assert ending[|ending| - 1] in ending;
      assert forall c | c in front :: c in ending;
      assert t[..|t| - 1] == s + front;
      StripAppended(s, front);
    }
  }

  /** A character that may appear in a field. */
  predicate IsFieldChar(c: char) {
    c != ' ' && c != '\r' && c != '\n'
  }

  predicate IsField(s: string) {
    s != "" && forall c | c in s :: IsFieldChar(c)
  }

  lemma JoinChars(parts: seq<string>)
    requires parts != [] && forall p | p in parts :: IsField(p)
    ensures Join(parts) != "" && '\r' !in Join(parts) && '\n' !in Join(parts)
  {
    assert parts[0] in parts;
    if |parts| > 1 {
      assert forall p | p in parts[1..] :: p in parts;
      JoinChars(parts[1..]);
    }
  }

  // ----- The round trips

  /** Any line ending sequence that still fits is tolerated: parsing a rendered command with
      the matching schema and unlock digest, and nonzero secrets, gives the fields back. */
  lemma RenderThenParse(h: Hashes, schema: string, suffix: string, unlock: string, key: string, authorization: string,
                        expectedUnlock: string, ending: string)
    requires Digests(h) && schema in Schemas()
    requires IsSuffix(suffix) && IsHex64(unlock) && IsHex64(key) && IsHex64(authorization)
    requires !IsZero(unlock) && !IsZero(key) && !IsZero(authorization)
    requires IsHex64(expectedUnlock) && h.token(unlock) == expectedUnlock
    requires |ending| <= MAX_LINE - 301 && forall c | c in ending :: c == '\r' || c == '\n'
    ensures var digest := CandidateDigest(h, suffix, authorization);
            var rendered := Render(h, schema, suffix, unlock, key, authorization);
            && rendered.Success? && |rendered.value| <= 301
            && Parse(h, rendered.value + ending, expectedUnlock, schema) ==
                 Success(Command(schema, suffix, unlock, key, authorization, digest))
  {
    var digest := CandidateDigest(h, suffix, authorization);
    var parts := [schema, suffix, unlock, key, authorization, digest];
    SchemaIsField(schema);
    FieldsAreFields(parts);
    var line := Join(parts);
    JoinLength(parts);
    JoinChars(parts);
    SplitJoin(parts);
    assert line[|line| - 1] in line;
    StripAppended(line, ending);
  }

  lemma SchemaIsField(schema: string)
    requires schema in Schemas()
    ensures IsField(schema) && |schema| <= 16
  {
  }

  lemma FieldsAreFields(parts: seq<string>)
    requires |parts| == 6 && IsField(parts[0]) && IsSuffix(parts[1])
    requires forall i | 2 <= i < 6 :: IsHex64(parts[i])
    ensures (forall p | p in parts :: IsField(p)) && Wordlike(parts) && "" !in parts
  {
    forall p | p in parts
      ensures IsField(p)
    {
      var i :| 0 <= i < 6 && parts[i] == p;
    }
    forall p | p in parts
      ensures ' ' !in p
    {
      assert IsField(p);
    }
  }

  lemma JoinLength(parts: seq<string>)
    requires |parts| == 6
    ensures |Join(parts)| == |parts[0]| + |parts[1]| + |parts[2]| + |parts[3]| + |parts[4]| + |parts[5]| + 5
  {
    assert |Join(parts[5..])| == |parts[5]|;
    assert parts[4..][1..] == parts[5..] && parts[3..][1..] == parts[4..];
    assert parts[2..][1..] == parts[3..] && parts[1..][1..] == parts[2..];
    assert |Join(parts[4..])| == |parts[4]| + 1 + |Join(parts[5..])|;
    assert |Join(parts[3..])| == |parts[3]| + 1 + |Join(parts[4..])|;
    assert |Join(parts[2..])| == |parts[2]| + 1 + |Join(parts[3..])|;
    assert |Join(parts[1..])| == |parts[1]| + 1 + |Join(parts[2..])|;
  }

  /** Every accepted line is, without its line ending, exactly the rendering of the fields it
      parses to, and its digest is the one the fields call for. */
  lemma ParseThenRender(h: Hashes, line: string, expectedUnlock: string, schema: string)
    requires schema in Schemas() && Parse(h, line, expectedUnlock, schema).Success?
    ensures var c := Parse(h, line, expectedUnlock, schema).value;
            && c.schema == schema
            && Render(h, c.schema, c.suffix, c.unlock, c.key, c.authorization) == Success(StripLineEnding(line))
  {
    ParsedParts(h, line, expectedUnlock, schema);
    JoinSplit(StripLineEnding(line));
  }

  lemma ParsedParts(h: Hashes, line: string, expectedUnlock: string, schema: string)
    requires Parse(h, line, expectedUnlock, schema).Success?
    ensures var c := Parse(h, line, expectedUnlock, schema).value;
            && Split(StripLineEnding(line)) == [c.schema, c.suffix, c.unlock, c.key, c.authorization, c.digest]
            && c.schema == schema && IsSuffix(c.suffix) && IsHex64(c.authorization)
            && c.digest == CandidateDigest(h, c.suffix, c.authorization)
  {
    hide Split, StripLineEnding, IsSuffix, IsHex64, IsZero, CandidateDigest;
    SixParts(Split(StripLineEnding(line)));
  }

  lemma SixParts(parts: seq<string>)
    requires |parts| == 6
    ensures parts == [parts[0], parts[1], parts[2], parts[3], parts[4], parts[5]]
  {
  }
}
