/** The depth-bounded search for key files: a worklist over directory trees. */
module KeyFileSearch {
  import opened Results

  const MAX_FILE_BYTES: nat := 65_536

  /** A directory entry as the scan reports it.  `Unreadable` is an entry whose type or
      size cannot be asked for; a directory may refuse to be listed. */
  datatype Entry =
    | Symlink(name: string)
    | Regular(name: string, size: nat)
    | Special(name: string)
    | Unreadable(name: string)
    | Directory(name: string, listable: bool, entries: Entries)

  datatype Entries = Nil | Cons(head: Entry, tail: Entries)

  type Path = seq<string>

  /** A file found: the index of its root, and its path below that root. */
  datatype Found = Found(root: nat, path: Path)

  // ----- What the search is to return

  /** The files below a directory, which stands at `depth` with path `at`. */
  function FilesIn(entries: Entries, root: nat, at: Path, depth: int, maxDepth: int): multiset<Found>
    decreases entries, 1
  {
    if depth > maxDepth then multiset{} else FilesAmong(entries, root, at, depth, maxDepth)
  }

  function FilesAmong(entries: Entries, root: nat, at: Path, depth: int, maxDepth: int): multiset<Found>
    decreases entries, 0
  {
    match entries
    case Nil => multiset{}
    case Cons(Regular(name, size), tail) =>
      (if size <= MAX_FILE_BYTES then multiset{Found(root, at + [name])} else multiset{})
      + FilesAmong(tail, root, at, depth, maxDepth)
    case Cons(Directory(name, listable, inner), tail) =>
      (if listable then FilesIn(inner, root, at + [name], depth + 1, maxDepth) else multiset{})
      + FilesAmong(tail, root, at, depth, maxDepth)
    case Cons(_, tail) => FilesAmong(tail, root, at, depth, maxDepth)
  }

  /** Regular files within the depth that are too large to look at. */
  function LargeIn(entries: Entries, depth: int, maxDepth: int): nat
    decreases entries, 1
  {
    if depth > maxDepth then 0 else LargeAmong(entries, depth, maxDepth)
  }

  function LargeAmong(entries: Entries, depth: int, maxDepth: int): nat
    decreases entries, 0
  {
    match entries
    case Nil => 0
    case Cons(Regular(_, size), tail) => (if size > MAX_FILE_BYTES then 1 else 0) + LargeAmong(tail, depth, maxDepth)
    case Cons(Directory(_, listable, inner), tail) =>
      (if listable then LargeIn(inner, depth + 1, maxDepth) else 0) + LargeAmong(tail, depth, maxDepth)
    case Cons(_, tail) => LargeAmong(tail, depth, maxDepth)
  }

  /** A root: a directory that may refuse to be listed. */
  datatype Root = Root(listable: bool, entries: Entries)

  function FilesOfRoots(roots: seq<Root>, from: nat, maxDepth: int): multiset<Found> {
    if roots == [] then multiset{}
    else
      (if roots[0].listable then FilesIn(roots[0].entries, from, [], 0, maxDepth) else multiset{})
      + FilesOfRoots(roots[1..], from + 1, maxDepth)
  }

  function LargeOfRoots(roots: seq<Root>, maxDepth: int): nat {
    if roots == [] then 0
    else (if roots[0].listable then LargeIn(roots[0].entries, 0, maxDepth) else 0) + LargeOfRoots(roots[1..], maxDepth)
  }

  // ----- The worklist

  datatype Item = Item(at: Path, depth: nat, listable: bool, entries: Entries)

  function FilesOfItem(i: Item, root: nat, maxDepth: int): multiset<Found> {
    if i.listable then FilesIn(i.entries, root, i.at, i.depth, maxDepth) else multiset{}
  }

  function LargeOfItem(i: Item, maxDepth: int): nat {
    if i.listable then LargeIn(i.entries, i.depth, maxDepth) else 0
  }

  function FilesOfStack(stack: seq<Item>, root: nat, maxDepth: int): multiset<Found> {
    if stack == [] then multiset{}
    else FilesOfStack(stack[..|stack| - 1], root, maxDepth) + FilesOfItem(stack[|stack| - 1], root, maxDepth)
  }

  function LargeOfStack(stack: seq<Item>, maxDepth: int): nat {
    if stack == [] then 0 else LargeOfStack(stack[..|stack| - 1], maxDepth) + LargeOfItem(stack[|stack| - 1], maxDepth)
  }

  /** Number of entries, for termination. */
  function Size(entries: Entries): nat {
    match entries
    case Nil => 0
    case Cons(Directory(_, _, inner), tail) => 1 + Size(inner) + Size(tail)
    case Cons(_, tail) => 1 + Size(tail)
  }

  function StackSize(stack: seq<Item>): nat {
    if stack == [] then 0 else StackSize(stack[..|stack| - 1]) + Size(stack[|stack| - 1].entries) + 1
  }

  lemma PushSums(stack: seq<Item>, i: Item, root: nat, maxDepth: int)
    ensures FilesOfStack(stack + [i], root, maxDepth) ==
              FilesOfStack(stack, root, maxDepth) + FilesOfItem(i, root, maxDepth)
    ensures LargeOfStack(stack + [i], maxDepth) == LargeOfStack(stack, maxDepth) + LargeOfItem(i, maxDepth)
    ensures StackSize(stack + [i]) == StackSize(stack) + Size(i.entries) + 1
  {
    assert (stack + [i])[..|stack|] == stack;
  }

  predicate WithinLimit(files: seq<Found>, maxFiles: int) {
    files == [] || |files| <= maxFiles
  }

  /** What is still to come: the rest of the directory being scanned, then the stack. */
  function Pending(rest: Entries, item: Item, stack: seq<Item>, root: nat, maxDepth: int): multiset<Found> {
    FilesAmong(rest, root, item.at, item.depth, maxDepth) + FilesOfStack(stack, root, maxDepth)
  }

  function PendingLarge(rest: Entries, item: Item, stack: seq<Item>, maxDepth: int): nat {
    LargeAmong(rest, item.depth, maxDepth) + LargeOfStack(stack, maxDepth)
  }

  function Inner(item: Item, entry: Entry): Item
    requires entry.Directory?
  {
    Item(item.at + [entry.name], item.depth + 1, entry.listable, entry.entries)
  }

  lemma DirectoryStep(rest: Entries, item: Item, stack: seq<Item>, root: nat, maxDepth: int)
    requires rest.Cons? && rest.head.Directory?
    ensures var stack' := if item.depth < maxDepth then stack + [Inner(item, rest.head)] else stack;
            && Pending(rest, item, stack, root, maxDepth) == Pending(rest.tail, item, stack', root, maxDepth)
            && PendingLarge(rest, item, stack, maxDepth) == PendingLarge(rest.tail, item, stack', maxDepth)
            && StackSize(stack') + Size(rest.tail) <= StackSize(stack) + Size(rest)
  {
    hide FilesOfStack, LargeOfStack;
    PushSums(stack, Inner(item, rest.head), root, maxDepth);
    var inner := FilesOfItem(Inner(item, rest.head), root, maxDepth);
    var tail, below := FilesAmong(rest.tail, root, item.at, item.depth, maxDepth), FilesOfStack(stack, root, maxDepth);
    if item.depth >= maxDepth {
      assert inner == multiset{};
    }
    assert inner + tail + below == tail + (below + inner);
  }

  lemma FileStep(rest: Entries, item: Item, stack: seq<Item>, root: nat, maxDepth: int, files: seq<Found>)
    requires rest.Cons? && rest.head.Regular? && rest.head.size <= MAX_FILE_BYTES
    ensures multiset(files) + Pending(rest, item, stack, root, maxDepth) ==
              multiset(files + [Found(root, item.at + [rest.head.name])])
                  + Pending(rest.tail, item, stack, root, maxDepth)
    ensures PendingLarge(rest, item, stack, maxDepth) == PendingLarge(rest.tail, item, stack, maxDepth)
  {
    var one := multiset{Found(root, item.at + [rest.head.name])};
    var tail, below := FilesAmong(rest.tail, root, item.at, item.depth, maxDepth), FilesOfStack(stack, root, maxDepth);
    assert multiset(files) + (one + tail + below) == multiset(files) + one + (tail + below);
  }

  /** Scan one directory: list its files, count the large ones, push its directories. */
  method ScanDirectory(item: Item, root: nat, stack: seq<Item>, files: seq<Found>, skipped: nat,
                       maxFiles: int, maxDepth: int, ghost total: multiset<Found>, ghost large: nat)
    returns (exceeded: bool, stack': seq<Item>, files': seq<Found>, skipped': nat)
    requires WithinLimit(files, maxFiles)
    requires multiset(files) + Pending(item.entries, item, stack, root, maxDepth) == total
    requires skipped + PendingLarge(item.entries, item, stack, maxDepth) == large
    ensures exceeded ==> |files'| > maxFiles && files' != [] && multiset(files') <= total
    ensures !exceeded ==>
              && WithinLimit(files', maxFiles)
              && multiset(files') + FilesOfStack(stack', root, maxDepth) == total
              && skipped' + LargeOfStack(stack', maxDepth) == large
              && StackSize(stack') <= StackSize(stack) + Size(item.entries)
  {
    hide FilesOfStack, LargeOfStack;
    stack', files', skipped' := stack, files, skipped;
    var rest := item.entries;
    while rest.Cons?
      invariant WithinLimit(files', maxFiles)
      invariant multiset(files') + Pending(rest, item, stack', root, maxDepth) == total
      invariant skipped' + PendingLarge(rest, item, stack', maxDepth) == large
      invariant StackSize(stack') + Size(rest) <= StackSize(stack) + Size(item.entries)
      decreases rest
    {
      var entry := rest.head;
      if entry.Directory? {
        DirectoryStep(rest, item, stack', root, maxDepth);
        if item.depth < maxDepth {
          stack' := stack' + [Inner(item, entry)];
        }
      } else if entry.Regular? {
        if entry.size > MAX_FILE_BYTES {
          skipped' := skipped' + 1;
        } else {
          FileStep(rest, item, stack', root, maxDepth, files');
          files' := files' + [Found(root, item.at + [entry.name])];
          if |files'| > maxFiles {
            exceeded := true;
            return;
          }
        }
      }
      rest := rest.tail;
    }
    exceeded := false;
  }

  /** A popped directory: skipped when it is too deep or cannot be listed. */
  method Visit(item: Item, root: nat, stack: seq<Item>, files: seq<Found>, skipped: nat,
               maxFiles: int, maxDepth: int, ghost total: multiset<Found>, ghost large: nat)
    returns (exceeded: bool, stack': seq<Item>, files': seq<Found>, skipped': nat)
    requires WithinLimit(files, maxFiles)
    requires multiset(files) + (FilesOfStack(stack, root, maxDepth) + FilesOfItem(item, root, maxDepth)) == total
    requires skipped + (LargeOfStack(stack, maxDepth) + LargeOfItem(item, maxDepth)) == large
    ensures exceeded ==> |files'| > maxFiles && files' != [] && multiset(files') <= total
    ensures !exceeded ==>
              && WithinLimit(files', maxFiles)
              && multiset(files') + FilesOfStack(stack', root, maxDepth) == total
              && skipped' + LargeOfStack(stack', maxDepth) == large
              && StackSize(stack') <= StackSize(stack) + Size(item.entries)
  {
    if item.depth > maxDepth || !item.listable {
      assert FilesOfItem(item, root, maxDepth) == multiset{};
      return false, stack, files, skipped;
    }
    ghost var below := FilesOfStack(stack, root, maxDepth);
    ghost var here := FilesAmong(item.entries, root, item.at, item.depth, maxDepth);
    assert below + here == here + below;
    exceeded, stack', files', skipped' :=
      ScanDirectory(item, root, stack, files, skipped, maxFiles, maxDepth, total, large);
  }

  /** Empty the stack, last in first out. */
  method WalkStack(start: seq<Item>, root: nat, files: seq<Found>, skipped: nat, maxFiles: int, maxDepth: int)
    returns (exceeded: bool, files': seq<Found>, skipped': nat)
    requires WithinLimit(files, maxFiles)
    ensures exceeded ==>
              |files'| > maxFiles && files' != []
                  && multiset(files') <= multiset(files) + FilesOfStack(start, root, maxDepth)
    ensures !exceeded ==>
              && WithinLimit(files', maxFiles)
              && multiset(files') == multiset(files) + FilesOfStack(start, root, maxDepth)
              && skipped' == skipped + LargeOfStack(start, maxDepth)
  {
    var stack := start;
    files', skipped' := files, skipped;
    ghost var total := multiset(files) + FilesOfStack(start, root, maxDepth);
    ghost var large := skipped + LargeOfStack(start, maxDepth);
    while stack != []
      invariant WithinLimit(files', maxFiles)
      invariant multiset(files') + FilesOfStack(stack, root, maxDepth) == total
      invariant skipped' + LargeOfStack(stack, maxDepth) == large
      decreases StackSize(stack)
    {
      var item, rest := stack[|stack| - 1], stack[..|stack| - 1];
      exceeded, stack, files', skipped' := Visit(item, root, rest, files', skipped', maxFiles, maxDepth, total, large);
      if exceeded {
        return;
      }
    }
    exceeded := false;
  }

  /** One root's worklist starts with the root itself. */
  method WalkRoot(root: Root, index: nat, files: seq<Found>, skipped: nat, maxFiles: int, maxDepth: int)
    returns (exceeded: bool, files': seq<Found>, skipped': nat)
    requires WithinLimit(files, maxFiles)
    ensures var mine := if root.listable then FilesIn(root.entries, index, [], 0, maxDepth) else multiset{};
            && (exceeded ==> |files'| > maxFiles && files' != [] && multiset(files') <= multiset(files) + mine)
            && (!exceeded ==> WithinLimit(files', maxFiles) && multiset(files') == multiset(files) + mine)
    ensures !exceeded ==> skipped' == skipped + if root.listable then LargeIn(root.entries, 0, maxDepth) else 0
  {
    var start := Item([], 0, root.listable, root.entries);
    PushSums([], start, index, maxDepth);
    assert [] + [start] == [start];
    exceeded, files', skipped' := WalkStack([start], index, files, skipped, maxFiles, maxDepth);
  }

  /** The search returns every regular file of at most the size limit within the depth, each
      once with its root, and counts the large ones; it fails exactly when there are more
      files than the limit (a limit below zero still lets an empty result through). */
  method WalkFiles(roots: seq<Root>, maxFiles: int, maxDepth: int) returns (r: Option<(seq<Found>, nat)>)
    ensures r.Some? <==>
              FilesOfRoots(roots, 0, maxDepth) == multiset{} || |FilesOfRoots(roots, 0, maxDepth)| <= maxFiles
    ensures r.Some? ==> multiset(r.value.0) == FilesOfRoots(roots, 0, maxDepth)
    ensures r.Some? ==> r.value.1 == LargeOfRoots(roots, maxDepth)
  {
    var files: seq<Found>, skipped: nat := [], 0;
    ghost var total := FilesOfRoots(roots, 0, maxDepth);
    assert roots[0..] == roots;
    for i := 0 to |roots|
      invariant WithinLimit(files, maxFiles)
      invariant multiset(files) + FilesOfRoots(roots[i..], i, maxDepth) == total
      invariant skipped + LargeOfRoots(roots[i..], maxDepth) == LargeOfRoots(roots, maxDepth)
    {
      assert roots[i..][1..] == roots[i + 1..];
      ghost var before, later := multiset(files), FilesOfRoots(roots[i + 1..], i + 1, maxDepth);
      ghost var mine := if roots[i].listable then FilesIn(roots[i].entries, i, [], 0, maxDepth) else multiset{};
      assert before + (mine + later) == before + mine + later;
      var exceeded;
      exceeded, files, skipped := WalkRoot(roots[i], i, files, skipped, maxFiles, maxDepth);
      if exceeded {
        assert multiset(files) <= total;
        LargerPart(multiset(files), total);
        return None;
      }
    }
    assert roots[|roots|..] == [];
    return Some((files, skipped));
  }

  lemma LargerPart(part: multiset<Found>, whole: multiset<Found>)
    requires part <= whole
    ensures |part| <= |whole|
  {
    assert whole == part + (whole - part);
  }

  // ----- The same result, said path by path

  function Names(entries: Entries): set<string> {
    match entries
    case Nil => {}
    case Cons(head, tail) => {head.name} + Names(tail)
  }

  /** No directory has two entries of the same name. */
  predicate UniqueNames(entries: Entries) {
    match entries
    case Nil => true
    case Cons(head, tail) =>
      head.name !in Names(tail) && UniqueNames(tail) && (head.Directory? ==> UniqueNames(head.entries))
  }

  /** The path leads, through listable directories, to a regular file that is not too large.
      Its directory is `|path| - 1` levels down. */
  predicate IsSearchable(entries: Entries, path: Path)
    decreases entries
  {
    match entries
    case Nil => false
    case Cons(head, tail) =>
      if path == [] then false
      else if head.name != path[0] then IsSearchable(tail, path)
      else if |path| == 1 then head.Regular? && head.size <= MAX_FILE_BYTES
      else head.Directory? && head.listable && IsSearchable(head.entries, path[1..])
  }

  lemma {:induction false} UnknownName(entries: Entries, path: Path)
    requires path != [] ==> path[0] !in Names(entries)
    ensures !IsSearchable(entries, path)
  {
    if entries.Cons? {
      UnknownName(entries.tail, path);
    }
  }

  /** The file `x` is below `at`, in a directory that is within the depth. */
  predicate IsBelow(x: Found, root: nat, at: Path, depth: int, maxDepth: int) {
    x.root == root && at < x.path && depth + |x.path| - |at| - 1 <= maxDepth
  }

  function OneIf(b: bool): nat {
    if b then 1 else 0
  }

  lemma PathSplit(path: Path, at: Path, name: string)
    ensures at + [name] <= path <==> at < path && path[|at|] == name
    ensures at + [name] < path <==> at < path && path[|at|] == name && |path| > |at| + 1
    ensures at + [name] == path <==> at < path && path[|at|] == name && |path| == |at| + 1
  {
    if at < path && path[|at|] == name {
      assert path[..|at| + 1] == at + [name];
    }
    if at + [name] <= path {
      assert path[..|at|] == (at + [name])[..|at|] == at;
      assert path[|at|] == (at + [name])[|at|];
    }
  }

  /** Whether the first entry is, or leads to, the file at the rest of the path. */
  predicate HeadSearchable(head: Entry, path: Path) {
    path != [] && head.name == path[0] &&
    if |path| == 1 then head.Regular? && head.size <= MAX_FILE_BYTES
    else head.Directory? && head.listable && IsSearchable(head.entries, path[1..])
  }

  lemma HeadListed(head: Entry, root: nat, at: Path, depth: int, maxDepth: int, x: Found)
    requires depth <= maxDepth
    requires head.Directory? && head.listable && depth + 1 <= maxDepth ==>
               FilesAmong(head.entries, root, at + [head.name], depth + 1, maxDepth)[x] ==
                 OneIf(IsBelow(x, root, at + [head.name], depth + 1, maxDepth)
                       && IsSearchable(head.entries, x.path[|at| + 1..]))
    ensures HeadFiles(head, root, at, depth, maxDepth)[x] ==
              OneIf(IsBelow(x, root, at, depth, maxDepth) && HeadSearchable(head, x.path[|at|..]))
  {
    PathSplit(x.path, at, head.name);
    if IsBelow(x, root, at, depth, maxDepth) {
      assert x.path[|at|..][0] == x.path[|at|];
      assert x.path[|at|..][1..] == x.path[|at| + 1..];
    }
  }

  /** The listing holds each searchable file within the depth once, and nothing else. */
  lemma {:induction false} ListedExactly(entries: Entries, root: nat, at: Path, depth: int, maxDepth: int, x: Found)
    requires UniqueNames(entries) && depth <= maxDepth
    ensures FilesAmong(entries, root, at, depth, maxDepth)[x] ==
              OneIf(IsBelow(x, root, at, depth, maxDepth) && IsSearchable(entries, x.path[|at|..]))
    decreases entries
  {
    if entries.Cons? {
      var head, tail := entries.head, entries.tail;
      ListedExactly(tail, root, at, depth, maxDepth, x);
      if head.Directory? && head.listable && depth + 1 <= maxDepth {
        ListedExactly(head.entries, root, at + [head.name], depth + 1, maxDepth, x);
      }
      HeadExactly(entries, root, at, depth, maxDepth, x);
      HeadListed(head, root, at, depth, maxDepth, x);
      if IsBelow(x, root, at, depth, maxDepth) && x.path[|at|] == head.name {
        UnknownName(tail, x.path[|at|..]);
      }
    }
  }

  /** What the first entry alone contributes. */
  function HeadFiles(head: Entry, root: nat, at: Path, depth: int, maxDepth: int): multiset<Found> {
    match head
    case Regular(name, size) => if size <= MAX_FILE_BYTES then multiset{Found(root, at + [name])} else multiset{}
    case Directory(name, listable, inner) =>
      if listable then FilesIn(inner, root, at + [name], depth + 1, maxDepth) else multiset{}
    case _ => multiset{}
  }

  lemma HeadExactly(entries: Entries, root: nat, at: Path, depth: int, maxDepth: int, x: Found)
    requires entries.Cons?
    ensures FilesAmong(entries, root, at, depth, maxDepth) ==
              HeadFiles(entries.head, root, at, depth, maxDepth) + FilesAmong(entries.tail, root, at, depth, maxDepth)
  {
  }

  /** The file of root `x.root` at path `x.path`. */
  predicate IsResult(roots: seq<Root>, from: nat, maxDepth: int, x: Found) {
    && from <= x.root < from + |roots| && roots[x.root - from].listable
    && x.path != [] && |x.path| - 1 <= maxDepth
    && IsSearchable(roots[x.root - from].entries, x.path)
  }

  /** The result of the search: for each root, every regular non-link file that is not too
      large, reached through listable directories no deeper than the limit, exactly once. */
  lemma {:induction false} RootsListedExactly(roots: seq<Root>, from: nat, maxDepth: int, x: Found)
    requires forall r | r in roots :: UniqueNames(r.entries)
    ensures FilesOfRoots(roots, from, maxDepth)[x] == OneIf(IsResult(roots, from, maxDepth, x))
    decreases |roots|
  {
    if roots != [] {
      var first := roots[0];
      assert first in roots;
      RootsListedExactly(roots[1..], from + 1, maxDepth, x);
      FirstRootListed(first, from, maxDepth, x);
    }
  }

  lemma FirstRootListed(first: Root, from: nat, maxDepth: int, x: Found)
    requires UniqueNames(first.entries)
    ensures (if first.listable then FilesIn(first.entries, from, [], 0, maxDepth) else multiset{})[x] ==
              OneIf(first.listable && x.root == from && x.path != [] && |x.path| - 1 <= maxDepth
                    && IsSearchable(first.entries, x.path))
  {
    if 0 <= maxDepth {
      ListedExactly(first.entries, from, [], 0, maxDepth, x);
      assert x.path[0..] == x.path;
      assert [] < x.path <==> x.path != [];
    }
  }
}
