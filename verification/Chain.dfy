/** Rebuilding the main chain of a conversation from history entries: the walk along parent links from the
    newest leaf, and what later entries do to it. */
module Chain {
  import opened Wrappers
  import opened Sequences

  datatype Kind = User | Assistant | AgentMetadata(agentType: string, description: string) | Other

  // The text of a tool result is its string content, or its text parts joined by newlines.
  datatype Block =
    | TextBlock(text: string)
    | Thinking(text: string)
    | ToolUse(id: string, name: string, input: string)
    | ToolResult(toolUseId: string, text: string)
    | OtherBlock

  datatype Content = Plain(text: string) | Blocks(blocks: seq<Block>)

  // What a user entry says of the tool calls it answers; "" is no agent.
  datatype Outcome = Outcome(agentId: string, agentType: string, summary: string, totalTokens: Option<nat>,
                             questions: seq<string>, answers: map<string, string>)

  datatype Entry = Entry(kind: Kind, uuid: string, parentUuid: Option<string>, isSidechain: bool, isMeta: bool,
                         isCompactSummary: bool, teamName: string, agentId: string, content: Content,
                         outcome: Option<Outcome>)

  // An absent or empty parentUuid is no parent.
  function Parent(e: Entry): Option<string> {
    if e.parentUuid == Some("") then None else e.parentUuid
  }

  predicate IsEligible(e: Entry) { !e.isSidechain && e.teamName == "" && !e.isMeta }

  function Eligible(entries: seq<Entry>): seq<Entry> { Filter(entries, IsEligible) }

  // The Map by uuid and the Set of referenced uuids, as the loop fills them.
  function ByUuid(es: seq<Entry>): map<string, Entry> {
    if es == [] then map[] else ByUuid(es[..|es| - 1])[es[|es| - 1].uuid := es[|es| - 1]]
  }

  function Referenced(es: seq<Entry>): set<string> {
    set e | e in es && Parent(e).Some? :: Parent(e).value
  }

  predicate IsLeaf(es: seq<Entry>, e: Entry) { e.uuid !in Referenced(es) }

  function Leaves(es: seq<Entry>): seq<Entry> { Filter(es, e => IsLeaf(es, e)) }

  /* ---- parent paths ---- */

  predicate UniqueUuids(es: seq<Entry>) {
    forall i, j :: 0 <= i < j < |es| ==> es[i].uuid != es[j].uuid
  }

  predicate ChildOf(child: Entry, parent: Entry) { Parent(child) == Some(parent.uuid) }

  // Oldest first: each entry is the parent of the next.
  predicate Linked(path: seq<Entry>) {
    forall i :: 0 <= i < |path| - 1 ==> ChildOf(path[i + 1], path[i])
  }

  predicate Within(path: seq<Entry>, es: seq<Entry>) { forall e <- path :: e in es }

  predicate Cycle(es: seq<Entry>, path: seq<Entry>) {
    path != [] && Within(path, es) && Linked(path) && ChildOf(path[0], path[|path| - 1])
  }

  ghost predicate Acyclic(es: seq<Entry>) { forall path :: !Cycle(es, path) }

  predicate IsRoot(es: seq<Entry>, e: Entry) {
    Parent(e).None? || forall p <- es :: !ChildOf(e, p)
  }

  // The full ancestor path of an entry, the entry included.
  predicate AncestorPath(es: seq<Entry>, path: seq<Entry>, e: Entry) {
    path != [] && Within(path, es) && Linked(path) && path[|path| - 1] == e && IsRoot(es, path[0])
  }

  predicate Distinct(path: seq<Entry>) {
    forall i, j :: 0 <= i < j < |path| ==> path[i] != path[j]
  }

  lemma LinkedPathIsDistinct(es: seq<Entry>, path: seq<Entry>)
    requires Acyclic(es) && Within(path, es) && Linked(path)
    ensures Distinct(path)
  {
    forall i, j | 0 <= i < j < |path| ensures path[i] != path[j] {
      if path[i] == path[j] {
        var loop := path[i..j];
        assert Within(loop, es) by {
          forall e | e in loop ensures e in es { assert e in path; }
        }
        assert ChildOf(path[j], path[j - 1]);
        assert loop[0] == path[j] && loop[|loop| - 1] == path[j - 1];
        assert Cycle(es, loop);
      }
    }
  }

  function ToSet(path: seq<Entry>): set<Entry> { set e | e in path }

  lemma {:induction false} DistinctCount(path: seq<Entry>, es: seq<Entry>)
    requires Distinct(path) && Within(path, es)
    ensures |path| == |ToSet(path)| <= |ToSet(es)|
  {
    SubsetSize(ToSet(path), ToSet(es));
    if path != [] {
      var init, e := path[..|path| - 1], path[|path| - 1];
      assert Within(init, es) by {
        forall x | x in init ensures x in es { assert x in path; }
      }
      DistinctCount(init, es);
      assert ToSet(path) == ToSet(init) + {e};
      assert e !in init;
    }
  }

  lemma {:induction false} SubsetSize(a: set<Entry>, b: set<Entry>)
    requires a <= b
    ensures |a| <= |b|
    decreases a
  {
    if a != {} {
      var x :| x in a;
      SubsetSize(a - {x}, b - {x});
    }
  }

  // An ancestor path is determined by its entry.
  lemma {:induction false} AncestorPathUnique(es: seq<Entry>, p: seq<Entry>, q: seq<Entry>, e: Entry)
    requires UniqueUuids(es) && AncestorPath(es, p, e) && AncestorPath(es, q, e)
    ensures p == q
    decreases |p|
  {
    var m, n := |p|, |q|;
    assert m > 1 ==> ChildOf(e, p[m - 2]) && p[m - 2] in p;
    assert n > 1 ==> ChildOf(e, q[n - 2]) && q[n - 2] in q;
    if m > 1 && n > 1 {
      var p', q' := p[..m - 1], q[..n - 1];
      AncestorPathUnique(es, p', q', p[m - 2]);
      assert p == p' + [e] && q == q' + [e];
    }
  }

  /* ---- the walk ---- */

  lemma {:induction false} ByUuidFinds(es: seq<Entry>)
    ensures forall e <- es :: e.uuid in ByUuid(es)
    ensures forall u <- ByUuid(es) :: ByUuid(es)[u] in es && ByUuid(es)[u].uuid == u
  {
    if es != [] {
      var init, last := es[..|es| - 1], es[|es| - 1];
      ByUuidFinds(init);
      forall e | e in es ensures e.uuid in ByUuid(es) {
        assert e in init || e == last;
      }
    }
  }

  function Up(byUuid: map<string, Entry>, e: Entry): Option<Entry> {
    if Parent(e).Some? && Parent(e).value in byUuid then Some(byUuid[Parent(e).value]) else None
  }

  // Where the walk from e is after n steps; None once it has ended.
  function At(byUuid: map<string, Entry>, e: Entry, n: nat): Option<Entry> {
    if n == 0 then Some(e)
    else
      var before := At(byUuid, e, n - 1);
      if before.None? then None else Up(byUuid, before.value)
  }

  ghost predicate Ends(byUuid: map<string, Entry>, e: Entry) {
    exists n: nat :: At(byUuid, e, n).None?
  }

  // All entries of a walk that ended, oldest first.
  predicate IsWalk(byUuid: map<string, Entry>, e: Entry, chain: seq<Entry>) {
    && At(byUuid, e, |chain|).None?
    && forall k :: 0 <= k < |chain| ==> At(byUuid, e, k) == Some(chain[|chain| - 1 - k])
  }

  lemma {:induction false} EndedStays(byUuid: map<string, Entry>, e: Entry, m: nat, n: nat)
    requires m <= n && At(byUuid, e, m).None?
    ensures At(byUuid, e, n).None?
  {
    if m < n { EndedStays(byUuid, e, m, n - 1); }
  }

  lemma {:induction false} SameWalk(byUuid: map<string, Entry>, e: Entry, i: nat, j: nat, d: nat)
    requires At(byUuid, e, i) == At(byUuid, e, j)
    ensures At(byUuid, e, i + d) == At(byUuid, e, j + d)
  {
    if d > 0 { SameWalk(byUuid, e, i, j, d - 1); }
  }

  // A walk that comes back to an entry goes on for ever.
  lemma {:induction false} ReturningNeverEnds(byUuid: map<string, Entry>, e: Entry, i: nat, j: nat, n: nat)
    requires i < j && At(byUuid, e, i) == At(byUuid, e, j) && At(byUuid, e, j).Some?
    ensures At(byUuid, e, n).Some?
  {
    if n < j {
      if At(byUuid, e, n).None? { EndedStays(byUuid, e, n, j); }
    } else {
      SameWalk(byUuid, e, i, j, n - j);
      ReturningNeverEnds(byUuid, e, i, j, n - (j - i));
    }
  }

  lemma {:induction false} WalkStaysWithin(es: seq<Entry>, e: Entry, n: nat)
    requires e in es && At(ByUuid(es), e, n).Some?
    ensures At(ByUuid(es), e, n).value in es
  {
    ByUuidFinds(es);
    if n > 0 { WalkStaysWithin(es, e, n - 1); }
  }

  lemma {:induction false} ToSetSize(es: seq<Entry>)
    ensures |ToSet(es)| <= |es|
  {
    if es != [] {
      var init := es[..|es| - 1];
      ToSetSize(init);
      assert ToSet(es) == ToSet(init) + {es[|es| - 1]};
    }
  }

  // A walk that has not ended after as many steps as there are entries has come back to one.
  lemma LongWalkReturns(es: seq<Entry>, e: Entry) returns (i: nat, j: nat)
    requires e in es && At(ByUuid(es), e, |es|).Some?
    ensures i < j <= |es| && At(ByUuid(es), e, i) == At(ByUuid(es), e, j) && At(ByUuid(es), e, j).Some?
  {
    var m := ByUuid(es);
    forall k: nat | k <= |es| ensures At(m, e, k).Some? && At(m, e, k).value in es {
      if At(m, e, k).None? { EndedStays(m, e, k, |es|); }
      WalkStaysWithin(es, e, k);
    }
    var steps := seq(|es| + 1, k requires 0 <= k <= |es| => At(m, e, k).value);
    ToSetSize(es);
    if Distinct(steps) { DistinctCount(steps, es); }
    i, j :| 0 <= i < j < |steps| && steps[i] == steps[j];
  }

  // Main result, for all entries: the walk ends if and only if it never comes back to an entry, and then
  // within as many steps as there are entries.
  lemma WalkEndsExactly(es: seq<Entry>, e: Entry)
    requires e in es
    ensures Ends(ByUuid(es), e) <==> At(ByUuid(es), e, |es|).None?
    ensures Ends(ByUuid(es), e) <==>
              forall i: nat, j: nat :: i < j && At(ByUuid(es), e, j).Some? ==>
                At(ByUuid(es), e, i) != At(ByUuid(es), e, j)
  {
    var m := ByUuid(es);
    if Ends(m, e) {
      var n: nat :| At(m, e, n).None?;
      forall i: nat, j: nat | i < j && At(m, e, j).Some? ensures At(m, e, i) != At(m, e, j) {
        if At(m, e, i) == At(m, e, j) { ReturningNeverEnds(m, e, i, j, n); }
      }
    }
    if At(m, e, |es|).Some? {
      var i, j := LongWalkReturns(es, e);
      EndsNot(m, e, i, j);
    }
  }

  lemma EndsNot(byUuid: map<string, Entry>, e: Entry, i: nat, j: nat)
    requires i < j && At(byUuid, e, i) == At(byUuid, e, j) && At(byUuid, e, j).Some?
    ensures !Ends(byUuid, e)
  {
    forall n: nat ensures At(byUuid, e, n).Some? { ReturningNeverEnds(byUuid, e, i, j, n); }
  }

  lemma WalkUnique(byUuid: map<string, Entry>, e: Entry, c: seq<Entry>, d: seq<Entry>)
    requires IsWalk(byUuid, e, c) && IsWalk(byUuid, e, d)
    ensures c == d
  {
    forall i | 0 <= i < |c| ensures c[i] == d[i] {
      assert At(byUuid, e, |c| - 1 - i) == Some(c[|c| - 1 - (|c| - 1 - i)]);
      assert At(byUuid, e, |d| - 1 - i) == Some(d[|d| - 1 - (|d| - 1 - i)]);
    }
  }

  lemma WalkExists(byUuid: map<string, Entry>, e: Entry) returns (chain: seq<Entry>)
    requires Ends(byUuid, e)
    ensures IsWalk(byUuid, e, chain)
  {
    var end: nat :| At(byUuid, e, end).None?;
    var n := 0;
    while At(byUuid, e, n).Some?
      invariant n <= end && forall k: nat :: k < n ==> At(byUuid, e, k).Some?
      decreases end - n
    {
      if n == end { assert false; }
      n := n + 1;
    }
    chain := seq(n, i requires 0 <= i < n => At(byUuid, e, n - 1 - i).value);
  }

  // A walk is a full ancestor path and passes no entry twice.
  lemma WalkIsAncestorPath(es: seq<Entry>, e: Entry, chain: seq<Entry>)
    requires e in es && IsWalk(ByUuid(es), e, chain)
    ensures AncestorPath(es, chain, e) && Distinct(chain)
  {
    var m, n := ByUuid(es), |chain|;
    ByUuidFinds(es);
    assert At(m, e, 0) == Some(chain[n - 1]);
    forall x | x in chain ensures x in es {
      var i :| 0 <= i < n && chain[i] == x;
      assert At(m, e, n - 1 - i) == Some(chain[n - 1 - (n - 1 - i)]);
      WalkStaysWithin(es, e, n - 1 - i);
    }
    forall i | 0 <= i < n - 1 ensures ChildOf(chain[i + 1], chain[i]) {
      assert At(m, e, n - 2 - i) == Some(chain[n - 1 - (n - 2 - i)]);
      assert At(m, e, n - 1 - i) == Some(chain[n - 1 - (n - 1 - i)]);
    }
    assert At(m, e, n - 1) == Some(chain[0]);
    WalkIsDistinct(m, e, chain);
  }

  lemma WalkIsDistinct(byUuid: map<string, Entry>, e: Entry, chain: seq<Entry>)
    requires IsWalk(byUuid, e, chain)
    ensures Distinct(chain)
  {
    var n := |chain|;
    forall i, j | 0 <= i < j < n ensures chain[i] != chain[j] {
      assert At(byUuid, e, n - 1 - i) == Some(chain[n - 1 - (n - 1 - i)]);
      assert At(byUuid, e, n - 1 - j) == Some(chain[n - 1 - (n - 1 - j)]);
      if chain[i] == chain[j] { ReturningNeverEnds(byUuid, e, n - 1 - j, n - 1 - i, n); }
    }
  }

  // With unique uuids an ancestor path is the walk.
  lemma AncestorPathIsWalk(es: seq<Entry>, path: seq<Entry>, e: Entry)
    requires UniqueUuids(es) && AncestorPath(es, path, e)
    ensures IsWalk(ByUuid(es), e, path)
  {
    var m, n := ByUuid(es), |path|;
    forall k | 0 <= k < n ensures At(m, e, k) == Some(path[n - 1 - k]) { WalksAlong(es, path, e, k); }
    ByUuidFinds(es);
    assert At(m, e, n - 1) == Some(path[0]);
    if Parent(path[0]).Some? && Parent(path[0]).value in m { assert ChildOf(path[0], m[Parent(path[0]).value]); }
  }

  lemma {:induction false} WalksAlong(es: seq<Entry>, path: seq<Entry>, e: Entry, k: nat)
    requires UniqueUuids(es) && AncestorPath(es, path, e) && k < |path|
    ensures At(ByUuid(es), e, k) == Some(path[|path| - 1 - k])
  {
    if k > 0 {
      WalksAlong(es, path, e, k - 1);
      ByUuidFinds(es);
      var child, parent := path[|path| - k], path[|path| - 1 - k];
      assert ChildOf(path[|path| - 1 - k + 1], path[|path| - 1 - k]) && parent in path;
    }
  }

  // With unique uuids an entry has a full ancestor path exactly when the walk from it ends.
  lemma AncestorPathExistsExactly(es: seq<Entry>, e: Entry)
    requires UniqueUuids(es) && e in es
    ensures (exists path :: AncestorPath(es, path, e)) <==> Ends(ByUuid(es), e)
  {
    if path :| AncestorPath(es, path, e) { AncestorPathIsWalk(es, path, e); }
    if Ends(ByUuid(es), e) {
      var path := WalkExists(ByUuid(es), e);
      WalkIsAncestorPath(es, e, path);
    }
  }

  // Without cycles among the parent links every walk ends.
  lemma AcyclicWalkEnds(es: seq<Entry>, e: Entry)
    requires Acyclic(es) && e in es
    ensures Ends(ByUuid(es), e)
  {
    if !Ends(ByUuid(es), e) {
      assert At(ByUuid(es), e, |es|).Some?;
      var i, j := LongWalkReturns(es, e);
      ReturnIsCycle(es, e, i, j);
    }
  }

  // Step k of the walk from e goes from an entry to its parent.
  predicate IsStep(es: seq<Entry>, e: Entry, k: nat) {
    var from, to := At(ByUuid(es), e, k), At(ByUuid(es), e, k + 1);
    from.Some? && to.Some? && from.value in es && ChildOf(from.value, to.value)
  }

  lemma StepIsChild(es: seq<Entry>, e: Entry, k: nat)
    requires e in es && At(ByUuid(es), e, k + 1).Some?
    ensures IsStep(es, e, k)
  {
    WalkStaysWithin(es, e, k);
    ByUuidFinds(es);
  }

  // The entries that a walk passes between two of its steps, oldest first.
  lemma {:induction false} Passed(es: seq<Entry>, e: Entry, i: nat, j: nat) returns (path: seq<Entry>)
    requires e in es && i < j && At(ByUuid(es), e, j).Some?
    ensures path != [] && Within(path, es) && Linked(path)
    ensures At(ByUuid(es), e, i) == Some(path[|path| - 1]) && At(ByUuid(es), e, j - 1) == Some(path[0])
  {
    StepIsChild(es, e, j - 1);
    var last := At(ByUuid(es), e, j - 1).value;
    if i == j - 1 {
      path := [last];
    } else {
      var before := Passed(es, e, i, j - 1);
      StepIsChild(es, e, j - 2);
      path := [last] + before;
    }
  }

  lemma ReturnIsCycle(es: seq<Entry>, e: Entry, i: nat, j: nat)
    requires e in es && i < j && At(ByUuid(es), e, j).Some? && At(ByUuid(es), e, i) == At(ByUuid(es), e, j)
    ensures !Acyclic(es)
  {
    var loop := Passed(es, e, i, j);
    StepIsChild(es, e, j - 1);
    assert Cycle(es, loop);
  }

  /* ---- a leaf exists ---- */

  lemma LeafExists(es: seq<Entry>)
    requires es != [] && Acyclic(es)
    ensures Leaves(es) != []
  {
    var leaf := DescendToLeaf(es, [es[0]]);
    assert leaf in Leaves(es);
  }

  // Going from child to child ends at a leaf, for a linked path cannot be longer than the entries.
  lemma {:induction false} DescendToLeaf(es: seq<Entry>, path: seq<Entry>) returns (leaf: Entry)
    requires path != [] && Acyclic(es) && Within(path, es) && Linked(path)
    ensures leaf in es && IsLeaf(es, leaf)
    decreases |ToSet(es)| - |path|
  {
    LinkedPathIsDistinct(es, path);
    DistinctCount(path, es);
    leaf := path[|path| - 1];
    assert leaf in es;
    if !IsLeaf(es, leaf) {
      var child :| child in es && Parent(child) == Some(leaf.uuid);
      var longer := path + [child];
      LinkedPathIsDistinct(es, longer);
      DistinctCount(longer, es);
      leaf := DescendToLeaf(es, longer);
    }
  }

  /* ---- buildMainChain ---- */

  // What buildMainChain returns for these entries: the walk from the last leaf, or all eligible entries when
  // every one of them is somebody's parent.
  predicate IsMainWalk(entries: seq<Entry>, chain: seq<Entry>) {
    var es := Eligible(entries);
    var leaves := Leaves(es);
    if leaves == [] then chain == es else IsWalk(ByUuid(es), leaves[|leaves| - 1], chain)
  }

  // The same without the Map: the full ancestor path of the last leaf.
  predicate IsMainChain(entries: seq<Entry>, chain: seq<Entry>) {
    var es := Eligible(entries);
    var leaves := Leaves(es);
    if leaves == [] then chain == es else AncestorPath(es, chain, leaves[|leaves| - 1])
  }

  // What the walk demands of its input; without it the loop of the source does not end.
  ghost predicate WalkEnds(entries: seq<Entry>) {
    var es := Eligible(entries);
    var leaves := Leaves(es);
    leaves != [] ==> Ends(ByUuid(es), leaves[|leaves| - 1])
  }

  lemma MainWalkUnique(entries: seq<Entry>, c: seq<Entry>, d: seq<Entry>)
    requires IsMainWalk(entries, c) && IsMainWalk(entries, d)
    ensures c == d
  {
    var es := Eligible(entries);
    var leaves := Leaves(es);
    if leaves != [] { WalkUnique(ByUuid(es), leaves[|leaves| - 1], c, d); }
  }

  // The main walk is a main chain, and with unique uuids the only one.
  lemma MainWalkIsMainChain(entries: seq<Entry>, chain: seq<Entry>)
    ensures IsMainWalk(entries, chain) ==> IsMainChain(entries, chain)
    ensures UniqueUuids(Eligible(entries)) ==> (IsMainWalk(entries, chain) <==> IsMainChain(entries, chain))
  {
    var es := Eligible(entries);
    var leaves := Leaves(es);
    if leaves != [] {
      var leaf := leaves[|leaves| - 1];
      if IsWalk(ByUuid(es), leaf, chain) { WalkIsAncestorPath(es, leaf, chain); }
      if UniqueUuids(es) && AncestorPath(es, chain, leaf) { AncestorPathIsWalk(es, chain, leaf); }
    }
  }

  // There is a main walk exactly when the walk from the last leaf ends; with unique uuids, the same goes for
  // the main chain.
  lemma MainChainExistsExactly(entries: seq<Entry>)
    ensures (exists chain :: IsMainWalk(entries, chain)) <==> WalkEnds(entries)
    ensures UniqueUuids(Eligible(entries)) ==> ((exists chain :: IsMainChain(entries, chain)) <==> WalkEnds(entries))
  {
    var es := Eligible(entries);
    var leaves := Leaves(es);
    if leaves == [] {
      assert IsMainWalk(entries, es) && IsMainChain(entries, es);
    } else {
      var m, leaf := ByUuid(es), leaves[|leaves| - 1];
      if Ends(m, leaf) {
        var chain := WalkExists(m, leaf);
        WalkIsAncestorPath(es, leaf, chain);
        assert IsMainWalk(entries, chain) && IsMainChain(entries, chain);
      }
      if chain :| IsMainWalk(entries, chain) { assert At(m, leaf, |chain|).None?; }
      if UniqueUuids(es) { AncestorPathExistsExactly(es, leaf); }
      if chain :| IsMainChain(entries, chain) { assert AncestorPath(es, chain, leaf); }
    }
  }

  // Acyclic parent links always give a leaf and a walk that ends.
  lemma AcyclicHasMainChain(entries: seq<Entry>)
    requires Acyclic(Eligible(entries))
    ensures WalkEnds(entries) && (Eligible(entries) != [] ==> Leaves(Eligible(entries)) != [])
  {
    var es := Eligible(entries);
    if es != [] {
      LeafExists(es);
      AcyclicWalkEnds(es, Leaves(es)[|Leaves(es)| - 1]);
    }
  }

  /* ---- the result in terms of the entries' fields alone ---- */

  // Only entries outside sidechains and teams that are not meta stand in it.
  lemma MainWalkIsPlain(entries: seq<Entry>, chain: seq<Entry>)
    requires IsMainWalk(entries, chain)
    ensures forall e <- chain :: e in entries && !e.isSidechain && e.teamName == "" && !e.isMeta
  {
    var es := Eligible(entries);
    if Leaves(es) != [] {
      WalkIsAncestorPath(es, Leaves(es)[|Leaves(es)| - 1], chain);
    }
    forall e | e in chain ensures e in entries && !e.isSidechain && e.teamName == "" && !e.isMeta {
      assert e in es;
    }
  }

  // One of the eligible entries names another as its parent.
  predicate Names(child: Entry, parent: Entry) {
    child.parentUuid == Some(parent.uuid) && parent.uuid != "" && IsEligible(child)
  }

  predicate Unnamed(entries: seq<Entry>, e: Entry) { forall x <- entries :: !Names(x, e) }

  predicate IsEnd(entries: seq<Entry>, e: Entry) { IsEligible(e) && Unnamed(entries, e) }

  function EndTest(entries: seq<Entry>): Entry -> bool { e => IsEnd(entries, e) }

  lemma LeavesAreEnds(entries: seq<Entry>)
    ensures Leaves(Eligible(entries)) == Filter(entries, EndTest(entries))
  {
    var es := Eligible(entries);
    forall e ensures IsLeaf(es, e) == Unnamed(entries, e) { }
    FilterTwice(entries, IsEligible, e => IsLeaf(es, e), EndTest(entries));
  }

  // The result ends in the last entry that none names; each of its entries is named by the next; and its first
  // names none that is there.
  lemma MainWalkInFull(entries: seq<Entry>, chain: seq<Entry>) returns (last: nat)
    requires IsMainWalk(entries, chain) && exists e :: e in entries && IsEnd(entries, e)
    ensures last < |entries| && chain != [] && entries[last] == chain[|chain| - 1] && IsEnd(entries, entries[last])
    ensures forall j :: last < j < |entries| ==> !IsEnd(entries, entries[j])
    ensures forall i :: 0 <= i < |chain| - 1 ==> Names(chain[i + 1], chain[i])
    ensures forall x <- entries :: IsEligible(x) ==> !Names(chain[0], x)
  {
    var e :| e in entries && IsEnd(entries, e);
    last := LastEnd(entries);
    AncestorsAreNamed(entries, chain, entries[last]);
  }

  lemma LastEnd(entries: seq<Entry>) returns (last: nat)
    requires Filter(entries, EndTest(entries)) != []
    ensures last < |entries| && IsEnd(entries, entries[last])
    ensures forall j :: last < j < |entries| ==> !IsEnd(entries, entries[j])
    ensures var ends := Filter(entries, EndTest(entries)); ends[|ends| - 1] == entries[last]
  {
    var test := EndTest(entries);
    last := FilterLast(entries, test);
    assert test(entries[last]);
    forall j | last < j < |entries| ensures !IsEnd(entries, entries[j]) { assert !test(entries[j]); }
  }

  lemma AncestorsAreNamed(entries: seq<Entry>, chain: seq<Entry>, e: Entry)
    requires IsMainWalk(entries, chain) && Filter(entries, EndTest(entries)) != []
    requires e == Filter(entries, EndTest(entries))[|Filter(entries, EndTest(entries))| - 1]
    ensures chain != [] && chain[|chain| - 1] == e
    ensures forall i :: 0 <= i < |chain| - 1 ==> Names(chain[i + 1], chain[i])
    ensures forall x <- entries :: IsEligible(x) ==> !Names(chain[0], x)
  {
    LeavesAreEnds(entries);
    WalkIsAncestorPath(Eligible(entries), e, chain);
    forall i | 0 <= i < |chain| - 1 ensures Names(chain[i + 1], chain[i]) {
      assert ChildOf(chain[i + 1], chain[i]) && chain[i + 1] in chain;
    }
    forall x | x in entries && IsEligible(x) ensures !Names(chain[0], x) {
      assert x in Eligible(entries);
    }
  }

  // If every eligible entry is named by one, the result is all of them in their order.
  lemma MainWalkWithoutEnd(entries: seq<Entry>, chain: seq<Entry>)
    requires IsMainWalk(entries, chain) && forall e <- entries :: !IsEnd(entries, e)
    ensures chain == Filter(entries, IsEligible)
  {
    LeavesAreEnds(entries);
    if Leaves(Eligible(entries)) != [] { var _ := FilterLast(entries, EndTest(entries)); }
  }

  /* ---- the condition is needed ---- */

  function UserEntry(uuid: string, parent: string): Entry {
    Entry(User, uuid, Some(parent), false, false, false, "", "", Plain(""), None)
  }

  // "a" is its own parent; the leaf "c" hangs below it.
  const TRAP := [UserEntry("a", "a"), UserEntry("c", "a")]

  lemma TrapIsEligible()
    ensures Eligible(TRAP) == TRAP && UniqueUuids(TRAP)
  {
    FilterPush([], TRAP[0], IsEligible);
    FilterPush([TRAP[0]], TRAP[1], IsEligible);
    assert [] + [TRAP[0]] == [TRAP[0]] && [TRAP[0]] + [TRAP[1]] == TRAP;
  }

  // From the leaf of these entries the walk goes on after every number of steps, and nothing is their main chain.
  lemma WalkMayNotEnd(n: nat, chain: seq<Entry>)
    ensures Leaves(Eligible(TRAP)) != [] && At(ByUuid(Eligible(TRAP)), TRAP[1], n).Some?
    ensures Leaves(Eligible(TRAP))[|Leaves(Eligible(TRAP))| - 1] == TRAP[1]
    ensures !IsMainWalk(TRAP, chain) && !IsMainChain(TRAP, chain)
  {
    TrapIsEligible();
    ReturningNeverEnds(ByUuid(TRAP), TRAP[1], 1, 2, n);
    EndsNot(ByUuid(TRAP), TRAP[1], 1, 2);
    MainChainExistsExactly(TRAP);
  }

  lemma ReferencedPush(es: seq<Entry>, e: Entry)
    ensures Referenced(es + [e]) == Referenced(es) + if Parent(e).Some? then {Parent(e).value} else {}
  {
    forall u | u in Referenced(es + [e])
      ensures u in Referenced(es) || (Parent(e).Some? && u == Parent(e).value)
    {
      var x :| x in es + [e] && Parent(x) == Some(u);
      assert x in es || x == e;
    }
    forall u | u in Referenced(es) ensures u in Referenced(es + [e]) {
      var x :| x in es && Parent(x) == Some(u);
      assert x in es + [e];
    }
    assert e in es + [e];
  }

  // The loop that fills the Map by uuid and the Set of referenced uuids.
  method IndexEntries(es: seq<Entry>) returns (byUuid: map<string, Entry>, referenced: set<string>)
    ensures byUuid == ByUuid(es) && referenced == Referenced(es)
  {
    byUuid, referenced := map[], {};
    for i := 0 to |es|
      invariant byUuid == ByUuid(es[..i]) && referenced == Referenced(es[..i])
    {
      assert es[..i + 1] == es[..i] + [es[i]] && es[..i + 1][..i] == es[..i];
      ReferencedPush(es[..i], es[i]);
      byUuid := byUuid[es[i].uuid := es[i]];
      if Parent(es[i]).Some? { referenced := referenced + {Parent(es[i]).value}; }
    }
    assert es[..|es|] == es;
  }

  method BuildMainChain(entries: seq<Entry>) returns (chain: seq<Entry>)
    requires WalkEnds(entries)
    ensures IsMainWalk(entries, chain) && IsMainChain(entries, chain)
    ensures Leaves(Eligible(entries)) != [] ==> Distinct(chain)
    ensures forall e <- chain :: e in entries && !e.isSidechain && e.teamName == "" && !e.isMeta
  {
    if |entries| == 0 { return []; }
    var es := Filter(entries, IsEligible);
    if |es| == 0 { return []; }
    var byUuid, referenced := IndexEntries(es);
    var leaves := FindLeaves(es, referenced);
    if leaves == [] { return es; }
    chain := Walk(byUuid, leaves[|leaves| - 1]);
    WalkIsAncestorPath(es, leaves[|leaves| - 1], chain);
    MainWalkIsPlain(entries, chain);
  }

  function Unreferenced(es: seq<Entry>, referenced: set<string>): seq<Entry> {
    Filter(es, (e: Entry) => e.uuid !in referenced)
  }

  lemma LeavesAreUnreferenced(es: seq<Entry>)
    ensures Leaves(es) == Unreferenced(es, Referenced(es))
  {
    var referenced := Referenced(es);
    FilterSame(es, (e: Entry) => e.uuid !in referenced, e => IsLeaf(es, e));
  }

  method FindLeaves(es: seq<Entry>, referenced: set<string>) returns (leaves: seq<Entry>)
    requires referenced == Referenced(es)
    ensures leaves == Leaves(es)
  {
    LeavesAreUnreferenced(es);
    leaves := Unreferenced(es, referenced);
  }

  // The loop from a leaf to its root; the source pushes and then reverses.
  method Walk(byUuid: map<string, Entry>, leaf: Entry) returns (chain: seq<Entry>)
    requires Ends(byUuid, leaf)
    ensures IsWalk(byUuid, leaf, chain)
  {
    ghost var end: nat :| At(byUuid, leaf, end).None?;
    chain := [];
    var curr := Some(leaf);
    while curr.Some?
      invariant curr == At(byUuid, leaf, |chain|) && |chain| <= end
      invariant forall k :: 0 <= k < |chain| ==> At(byUuid, leaf, k) == Some(chain[|chain| - 1 - k])
      decreases end - |chain|, curr.Some?
    {
      chain := [curr.value] + chain;
      var p := Parent(curr.value);
      curr := if p.Some? && p.value in byUuid then Some(byUuid[p.value]) else None;
      if curr.Some? && |chain| == end { assert false; }
    }
  }

  /* ---- what later entries do to the chain ---- */

  lemma MainChainUnique(entries: seq<Entry>, c: seq<Entry>, d: seq<Entry>)
    requires UniqueUuids(Eligible(entries)) && IsMainChain(entries, c) && IsMainChain(entries, d)
    ensures c == d
  {
    var es := Eligible(entries);
    var leaves := Leaves(es);
    if leaves != [] { AncestorPathUnique(es, c, d, leaves[|leaves| - 1]); }
  }

  // Sidechain, team and meta entries, inserted anywhere, change nothing.
  lemma {:induction false} InsertIneligible(a: seq<Entry>, x: Entry, b: seq<Entry>, chain: seq<Entry>)
    requires x.isSidechain || x.teamName != "" || x.isMeta
    ensures IsMainWalk(a + [x] + b, chain) <==> IsMainWalk(a + b, chain)
    ensures IsMainChain(a + [x] + b, chain) <==> IsMainChain(a + b, chain)
    ensures WalkEnds(a + [x] + b) <==> WalkEnds(a + b)
  {
    EligibleInsert(a, x, b);
  }

  lemma {:induction false} EligibleInsert(a: seq<Entry>, x: Entry, b: seq<Entry>)
    requires !IsEligible(x)
    ensures Eligible(a + [x] + b) == Eligible(a + b)
  {
    if b == [] {
      assert a + [x] + b == a + [x] && a + b == a;
      FilterPush(a, x, IsEligible);
    } else {
      var init, y := b[..|b| - 1], b[|b| - 1];
      EligibleInsert(a, x, init);
      assert a + [x] + b == (a + [x] + init) + [y] && a + b == (a + init) + [y];
      FilterPush(a + [x] + init, y, IsEligible);
      FilterPush(a + init, y, IsEligible);
    }
  }

  // A new entry: eligible, its uuid used and referenced by nobody.
  predicate Fresh(es: seq<Entry>, e: Entry) {
    IsEligible(e) && !ChildOf(e, e) && forall x <- es :: x.uuid != e.uuid && !ChildOf(x, e)
  }

  lemma AppendedIsLastLeaf(es: seq<Entry>, e: Entry)
    requires Fresh(es, e)
    ensures var leaves := Leaves(es + [e]); leaves != [] && leaves[|leaves| - 1] == e
  {
    var all := es + [e];
    assert all[..|es|] == es && all[|es|] == e;
    FilterPush(es, e, x => IsLeaf(all, x));
    assert IsLeaf(all, e);
  }

  lemma HasChildOnPath(path: seq<Entry>, e: Entry)
    requires Linked(path) && e in path && (e != path[|path| - 1] || ChildOf(path[0], e))
    ensures exists x :: x in path && ChildOf(x, e)
  {
    var i :| 0 <= i < |path| && path[i] == e;
    assert ChildOf(if i < |path| - 1 then path[i + 1] else path[0], e);
  }

  lemma AppendKeepsAcyclic(es: seq<Entry>, e: Entry)
    requires Acyclic(es) && Fresh(es, e)
    ensures Acyclic(es + [e])
  {
    forall path ensures !Cycle(es + [e], path) {
      if Cycle(es + [e], path) {
        assert !Cycle(es, path);
        assert forall x <- path :: x in es || x == e;
        if e in path { HasChildOnPath(path, e); }
      }
    }
  }

  // A walk is its first entry and the walk from where that leads.
  lemma {:induction false} AtAfterUp(byUuid: map<string, Entry>, e: Entry, n: nat)
    ensures At(byUuid, e, n + 1) == if Up(byUuid, e).None? then None else At(byUuid, Up(byUuid, e).value, n)
  {
    if n > 0 { AtAfterUp(byUuid, e, n - 1); }
  }

  lemma WalkFromUp(byUuid: map<string, Entry>, e: Entry, before: seq<Entry>)
    ensures IsWalk(byUuid, e, before + [e]) <==>
            if Up(byUuid, e).None? then before == [] else IsWalk(byUuid, Up(byUuid, e).value, before)
  {
    AtAfterUp(byUuid, e, |before|);
    if IsWalk(byUuid, e, before + [e]) { WalkTail(byUuid, e, before); }
    if Up(byUuid, e).Some? && IsWalk(byUuid, Up(byUuid, e).value, before) {
      var chain, n := before + [e], |before|;
      forall k | 0 <= k < n + 1 ensures At(byUuid, e, k) == Some(chain[n - k]) {
        if k > 0 {
          AtAfterUp(byUuid, e, k - 1);
          assert At(byUuid, Up(byUuid, e).value, k - 1) == Some(before[n - 1 - (k - 1)]);
        }
      }
    }
  }

  lemma WalkTail(byUuid: map<string, Entry>, e: Entry, before: seq<Entry>)
    requires IsWalk(byUuid, e, before + [e])
    ensures if Up(byUuid, e).None? then before == [] else IsWalk(byUuid, Up(byUuid, e).value, before)
  {
    var chain, n := before + [e], |before|;
    AtAfterUp(byUuid, e, 0);
    forall k | 0 <= k < n
      ensures At(byUuid, e, k + 1).Some?
      ensures Up(byUuid, e).Some? ==> At(byUuid, Up(byUuid, e).value, k) == Some(before[n - 1 - k])
    {
      AtAfterUp(byUuid, e, k);
      assert At(byUuid, e, k + 1) == Some(chain[n - (k + 1)]);
    }
    AtAfterUp(byUuid, e, n);
    assert n > 0 ==> At(byUuid, e, 0 + 1).Some?;
  }

  // A fresh entry leads where it would lead among the old ones, and no old walk comes by it.
  lemma {:induction false} OldWalksStay(es: seq<Entry>, e: Entry, x: Entry, n: nat)
    requires Fresh(es, e) && x in es
    ensures Up(ByUuid(es + [e]), e) == Up(ByUuid(es), e)
    ensures At(ByUuid(es + [e]), x, n) == At(ByUuid(es), x, n)
  {
    assert (es + [e])[..|es|] == es;
    if n > 0 {
      OldWalksStay(es, e, x, n - 1);
      if At(ByUuid(es), x, n - 1).Some? { WalkStaysWithin(es, x, n - 1); }
    }
  }

  // Main result, for all entries: after a fresh entry the source returns the walk from where that leads, if it
  // leads anywhere, and then the entry.
  lemma {:induction false} AppendExactly(entries: seq<Entry>, e: Entry, before: seq<Entry>)
    requires Fresh(Eligible(entries), e)
    ensures var m := ByUuid(Eligible(entries));
            IsMainWalk(entries + [e], before + [e]) <==>
            if Up(m, e).None? then before == [] else IsWalk(m, Up(m, e).value, before)
  {
    var es := Eligible(entries);
    FilterPush(entries, e, IsEligible);
    AppendedIsLastLeaf(es, e);
    var m, m' := ByUuid(es), ByUuid(es + [e]);
    assert (es + [e])[..|es|] == es;
    WalkFromUp(m', e, before);
    ByUuidFinds(es);
    assert Up(m', e) == Up(m, e);
    if Up(m, e).Some? { SameOldWalk(es, e, Up(m, e).value, before); }
  }

  lemma SameOldWalk(es: seq<Entry>, e: Entry, x: Entry, chain: seq<Entry>)
    requires Fresh(es, e) && x in es
    ensures IsWalk(ByUuid(es + [e]), x, chain) <==> IsWalk(ByUuid(es), x, chain)
  {
    forall n: nat ensures At(ByUuid(es + [e]), x, n) == At(ByUuid(es), x, n) { OldWalksStay(es, e, x, n); }
  }

  // And it returns nothing that does not end in the entry.
  lemma AppendedEndsChain(entries: seq<Entry>, e: Entry, chain: seq<Entry>)
    requires Fresh(Eligible(entries), e) && IsMainWalk(entries + [e], chain)
    ensures chain != [] && chain == chain[..|chain| - 1] + [e]
  {
    FilterPush(entries, e, IsEligible);
    AppendedIsLastLeaf(Eligible(entries), e);
    var m := ByUuid(Eligible(entries) + [e]);
    assert At(m, e, 0) == Some(e);
    assert chain != [];
    assert At(m, e, 0) == Some(chain[|chain| - 1 - 0]);
  }

  // The last leaf is the Map's entry for its uuid: a later one of that uuid would be a later leaf.
  lemma {:induction false} LastUnreferenced(es: seq<Entry>, referenced: set<string>)
    ensures var leaves := Unreferenced(es, referenced);
            leaves != [] ==>
              var leaf := leaves[|leaves| - 1];
              leaf.uuid !in referenced && leaf.uuid in ByUuid(es) && ByUuid(es)[leaf.uuid] == leaf
  {
    if es != [] {
      var init, last := es[..|es| - 1], es[|es| - 1];
      LastUnreferenced(init, referenced);
      assert es == init + [last];
      FilterPush(init, last, (e: Entry) => e.uuid !in referenced);
    }
  }

  lemma LastLeafIsIndexed(es: seq<Entry>)
    requires Leaves(es) != []
    ensures var leaf := Leaves(es)[|Leaves(es)| - 1];
            leaf.uuid in ByUuid(es) && ByUuid(es)[leaf.uuid] == leaf
  {
    LastUnreferenced(es, Referenced(es));
    LeavesAreUnreferenced(es);
  }

  // Plain continuation, for all entries: a fresh child of the last leaf extends what the source returns by one,
  // and the new result comes from nothing else.
  lemma {:induction false} ContinuationExactly(entries: seq<Entry>, e: Entry, chain: seq<Entry>)
    requires Fresh(Eligible(entries), e) && Leaves(Eligible(entries)) != []
    requires ChildOf(e, Leaves(Eligible(entries))[|Leaves(Eligible(entries))| - 1])
    ensures IsMainWalk(entries + [e], chain + [e]) <==> IsMainWalk(entries, chain)
  {
    LastLeafIsIndexed(Eligible(entries));
    AppendExactly(entries, e, chain);
  }

  lemma PathInit(es: seq<Entry>, p: seq<Entry>)
    requires |p| >= 2 && AncestorPath(es, p, p[|p| - 1])
    ensures AncestorPath(es, p[..|p| - 1], p[|p| - 2])
  {
    var init := p[..|p| - 1];
    forall e | e in init ensures e in es { assert e in p; }
  }

  // In terms of ancestor paths: after a fresh entry the chain is one of a parent of the entry, if there is
  // any, and then the entry.
  lemma {:induction false} AppendExtends(entries: seq<Entry>, e: Entry, chain: seq<Entry>)
    requires Fresh(Eligible(entries), e) && IsMainChain(entries + [e], chain)
    ensures chain != [] && chain[|chain| - 1] == e
    ensures var es, before := Eligible(entries), chain[..|chain| - 1];
            if exists p :: p in es && ChildOf(e, p)
            then exists p :: p in es && ChildOf(e, p) && AncestorPath(es, before, p)
            else before == []
  {
    var es := Eligible(entries);
    FilterPush(entries, e, IsEligible);
    AppendedIsLastLeaf(es, e);
    var n := |chain|;
    assert AncestorPath(es + [e], chain, e);
    if n == 1 {
      assert forall p <- es :: p in es + [e];
    } else {
      assert ChildOf(chain[n - 1], chain[n - 2]);
      PathInit(es + [e], chain);
      BeforeIsOld(es, e, chain[..n - 1]);
      assert chain[n - 2] in chain[..n - 1];
    }
  }

  // A path of the extended history that ends before e does not touch e.
  lemma BeforeIsOld(es: seq<Entry>, e: Entry, path: seq<Entry>)
    requires Fresh(es, e) && path != [] && AncestorPath(es + [e], path, path[|path| - 1])
    requires path[|path| - 1] != e
    ensures AncestorPath(es, path, path[|path| - 1])
  {
    assert forall x <- path :: x in es || x == e;
    if e in path { HasChildOnPath(path, e); }
  }

  // Conversely, any ancestor path whose end is the parent of the fresh entry makes, with it, the new chain.
  lemma {:induction false} AppendGives(entries: seq<Entry>, e: Entry, path: seq<Entry>, parent: Entry)
    requires Fresh(Eligible(entries), e) && AncestorPath(Eligible(entries), path, parent) && ChildOf(e, parent)
    ensures IsMainChain(entries + [e], path + [e])
  {
    FilterPush(entries, e, IsEligible);
    AppendedIsLastLeaf(Eligible(entries), e);
  }

  // Plain continuation: an entry whose parent ends the chain extends the chain by one.
  lemma {:induction false} ContinuationExtends(entries: seq<Entry>, e: Entry, chain: seq<Entry>)
    requires Fresh(Eligible(entries), e) && IsMainChain(entries, chain) && Leaves(Eligible(entries)) != []
    requires ChildOf(e, chain[|chain| - 1])
    ensures IsMainChain(entries + [e], chain + [e])
    ensures UniqueUuids(Eligible(entries)) ==>
              forall longer :: IsMainChain(entries + [e], longer) ==> longer == chain + [e]
  {
    AppendGives(entries, e, chain, chain[|chain| - 1]);
    if UniqueUuids(Eligible(entries)) {
      FilterPush(entries, e, IsEligible);
      FreshKeepsUnique(Eligible(entries), e);
      forall longer | IsMainChain(entries + [e], longer) ensures longer == chain + [e] {
        MainChainUnique(entries + [e], longer, chain + [e]);
      }
    }
  }

  lemma FreshKeepsUnique(es: seq<Entry>, e: Entry)
    requires UniqueUuids(es) && Fresh(es, e)
    ensures UniqueUuids(es + [e])
  {
  }

  // A plain entry is kept: with no parent, a uuid of its own and nobody to name it, it is the whole result.
  lemma {:induction false} NewRootIsResult(entries: seq<Entry>, e: Entry, chain: seq<Entry>)
    requires !e.isSidechain && e.teamName == "" && !e.isMeta && e.parentUuid in {None, Some("")}
    requires forall x <- entries :: x.uuid != e.uuid && x.parentUuid != Some(e.uuid)
    ensures IsMainWalk(entries + [e], chain) <==> chain == [e]
  {
    AppendExactly(entries, e, []);
    assert [] + [e] == [e];
    if IsMainWalk(entries + [e], chain) { MainWalkUnique(entries + [e], chain, [e]); }
  }
}
