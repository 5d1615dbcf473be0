/** The bounded first pass over a context tree, and why it selects what a full listing selects. */
module Collector {
  import opened Common
  import opened Lists
  import opened Order
  import opened Selection
  import opened WalkPrune

  datatype Node = File | Link | Special | Dir(children: seq<Child>)

  datatype Child = Child(name: string, node: Node)

  datatype Limits = Limits(maxEntries: nat, maxWalked: nat, maxDepth: nat, maxPathBytes: nat)

  datatype CollectError =
    | WalkCount
    | EntryCount
    | PathLength
    | Depth
    | InvalidPath(path: string)
    | Duplicate(path: string)
    | Dockerfile(e: SelectError)

  function KindOf(node: Node): Kind {
    match node
    case File => RegularFile
    case Link => Symlink
    case Special => Other
    case Dir(_) => Directory
  }

  function Under(dir: string, name: string): string {
    if dir == "" then name else dir + "/" + name
  }

  /** Every entry beneath a directory: the listing an unpruned walk would make. */
  function Listing(dir: string, children: seq<Child>): seq<Entry>
    decreases children
  {
    if children == [] then []
    else
      var path := Under(dir, children[0].name);
      [Entry(path, KindOf(children[0].node))] + (Beneath(path, children[0].node) + Listing(dir, children[1..]))
  }

  function Beneath(path: string, node: Node): seq<Entry>
    decreases node
  {
    match node
    case Dir(children) => Listing(path, children)
    case _ => []
  }

  /** The entries a pruned walk comes to: nothing beneath a pruned directory. */
  ghost function Visible(policy: Policy, dir: string, children: seq<Child>): seq<Entry>
    decreases children
  {
    if children == [] then []
    else
      var path := Under(dir, children[0].name);
      [Entry(path, KindOf(children[0].node))] +
      (VisibleBeneath(policy, path, children[0].node) + Visible(policy, dir, children[1..]))
  }

  ghost function VisibleBeneath(policy: Policy, path: string, node: Node): seq<Entry>
    decreases node
  {
    match node
    case Dir(children) => if PruneAnswer(policy, path) == Ok(true) then [] else Visible(policy, path, children)
    case _ => []
  }

  // ----------------------------------------------- the paths of a directory tree

  /** What any directory tree is like: real names, and no two alike in one directory. */
  ghost predicate WellNamed(children: seq<Child>)
    decreases children
  {
    children == [] ||
    (&& Normal(children[0].name) && '/' !in children[0].name
     && (forall c :: c in children[1..] ==> c.name != children[0].name)
     && (children[0].node.Dir? ==> WellNamed(children[0].node.children))
     && WellNamed(children[1..]))
  }

  ghost function Parts(dir: string): seq<string> {
    if dir == "" then [] else Split(dir)
  }

  lemma {:induction false} PartsUnder(dir: string, name: string)
    requires name != "" && '/' !in name
    ensures Parts(Under(dir, name)) == Split(Under(dir, name)) == Parts(dir) + [name]
  {
    SplitAtom(name);
    if dir != "" {
      JoinSplit(dir);
      JoinConcat(Split(dir), [name]);
      SplitJoin(Split(dir) + [name]);
    }
  }

  /** Where a listed path leads: through one of the children, by real names. */
  ghost predicate Through(d: seq<string>, children: seq<Child>, path: string) {
    && PathParts(Split(path))
    && exists c :: c in children && d + [c.name] <= Split(path)
  }

  lemma {:induction false} ListingPaths(dir: string, children: seq<Child>)
    requires WellNamed(children) && PathParts(Parts(dir))
    ensures forall e :: e in Listing(dir, children) ==> Through(Parts(dir), children, e.path)
    decreases children
  {
    if children != [] {
      var child, rest := children[0], children[1..];
      var path := Under(dir, child.name);
      PartsUnder(dir, child.name);
      ListingPaths(dir, rest);
      assert child in children;
      if child.node.Dir? {
        ListingPaths(path, child.node.children);
      }
      assert forall c :: c in rest ==> c in children;
      forall e | e in Listing(dir, children) ensures Through(Parts(dir), children, e.path) {
        if e !in Listing(dir, rest) && e != Entry(path, KindOf(child.node)) {
          assert e in Beneath(path, child.node);
          assert Parts(dir) + [child.name] <= Split(e.path);
        }
      }
    }
  }

  lemma {:induction false} DistinctConcat(a: seq<Entry>, b: seq<Entry>)
    requires DistinctPaths(a) && DistinctPaths(b)
    requires forall x, y :: x in a && y in b ==> x.path != y.path
    ensures DistinctPaths(a + b)
  {
    var c := a + b;
    forall i, j | 0 <= i < j < |c| ensures c[i].path != c[j].path {
      if i < |a| <= j {
        assert a[i] in a && b[j - |a|] in b;
      }
    }
  }

  lemma {:induction false} ListingDistinct(dir: string, children: seq<Child>)
    requires WellNamed(children) && PathParts(Parts(dir))
    ensures DistinctPaths(Listing(dir, children))
    decreases children
  {
    if children != [] {
      var child, rest := children[0], children[1..];
      var path := Under(dir, child.name);
      PartsUnder(dir, child.name);
      ListingDistinct(dir, rest);
      ListingPaths(dir, rest);
      if child.node.Dir? {
        ListingDistinct(path, child.node.children);
        ListingPaths(path, child.node.children);
      }
      var below, others := Beneath(path, child.node), Listing(dir, rest);
      forall x, y | x in below && y in others ensures x.path != y.path {
        assert Parts(dir) + [child.name] <= Split(x.path);
        ApartPaths(dir, child, rest, x.path, y.path);
      }
      DistinctConcat(below, others);
      forall y | y in below + others ensures y.path != path {
        if y in others {
          ApartPaths(dir, child, rest, path, y.path);
        } else {
          assert |Split(y.path)| > |Split(path)|;
        }
      }
      DistinctConcat([Entry(path, KindOf(child.node))], below + others);
    }
  }

  lemma {:induction false} ApartPaths(dir: string, child: Child, rest: seq<Child>, x: string, y: string)
    requires forall c :: c in rest ==> c.name != child.name
    requires Parts(dir) + [child.name] <= Split(x) && Through(Parts(dir), rest, y)
    ensures x != y
  {
    var c :| c in rest && Parts(dir) + [c.name] <= Split(y);
    var k := |Parts(dir)|;
    assert Split(x)[k] == (Parts(dir) + [child.name])[k];
    assert Split(y)[k] == (Parts(dir) + [c.name])[k];
  }

  /** Everything listed beneath a directory has the directory as a proper path prefix. */
  lemma {:induction false} ListingBeneath(dir: string, children: seq<Child>)
    requires dir != ""
    ensures forall e :: e in Listing(dir, children) ==> dir + "/" <= e.path
    decreases children
  {
    if children != [] {
      var path := Under(dir, children[0].name);
      ListingBeneath(dir, children[1..]);
      if children[0].node.Dir? {
        ListingBeneath(path, children[0].node.children);
        assert forall e :: e in Listing(path, children[0].node.children) ==> path <= e.path;
      }
      assert dir + "/" <= path;
    }
  }

  // --------------------------------------------- what the pruned walk does not see

  lemma {:induction false} VisibleListed(policy: Policy, dir: string, children: seq<Child>)
    ensures multiset(Visible(policy, dir, children)) <= multiset(Listing(dir, children))
    decreases children
  {
    if children != [] {
      var path := Under(dir, children[0].name);
      VisibleListed(policy, dir, children[1..]);
      if children[0].node.Dir? {
        VisibleListed(policy, path, children[0].node.children);
      }
    }
  }

  /** The tree and policy the theorem speaks of: any directory tree, and patterns pruning is right for. */
  ghost predicate Accepted(policy: Policy, root: seq<Child>) {
    WellNamed(root) && PrunablePolicy(policy)
  }

  /** An entry is visible or dead. */
  lemma {:induction false} VisibleOrDead(policy: Policy, dir: string, children: seq<Child>)
    requires Accepted(policy, children) && PathParts(Parts(dir)) && AllRelative(Visible(policy, dir, children))
    ensures forall e :: e in Listing(dir, children) && e !in Visible(policy, dir, children) ==> Dead(policy, e.path)
    decreases children
  {
    if children != [] {
      var child, rest := children[0], children[1..];
      var path := Under(dir, child.name);
      var here := Entry(path, KindOf(child.node));
      var seen, later := VisibleBeneath(policy, path, child.node), Visible(policy, dir, rest);
      assert Visible(policy, dir, children) == [here] + (seen + later);
      assert forall e :: e in later || e in seen || e == here ==> e in [here] + (seen + later);
      PartsUnder(dir, child.name);
      VisibleOrDead(policy, dir, rest);
      if child.node.Dir? {
        var inner := child.node.children;
        if PruneAnswer(policy, path) == Ok(true) {
          SkippedIsDead(policy, path, inner);
        } else {
          VisibleOrDead(policy, path, inner);
        }
      }
    }
  }

  lemma {:induction false} SkippedIsDead(policy: Policy, path: string, children: seq<Child>)
    requires Accepted(policy, children) && PruneAnswer(policy, path) == Ok(true) && Relative(path)
    requires path != "" && PathParts(Split(path))
    ensures forall e :: e in Listing(path, children) ==> Dead(policy, e.path)
  {
    ListingBeneath(path, children);
    ListingPaths(path, children);
    forall e | e in Listing(path, children) ensures Dead(policy, e.path) {
      PrunedBeneath(policy, path, e.path);
    }
  }

  // ------------------------------------------------------ what the walk keeps

  /** `kept` holds every chosen walked entry and one witness for every source seen. */
  ghost predicate Faithful(policy: Policy, walked: seq<Entry>, kept: seq<Entry>, seen: seq<bool>) {
    && |seen| == |policy.sources|
    && (forall e :: e in kept ==> e in walked)
    && (forall e :: e in walked && WalkSelects(policy, e.path) ==> e in kept)
    && (forall i :: 0 <= i < |seen| && seen[i] ==> SourceSeenIn(policy.sources[i], kept))
    && (forall i :: 0 <= i < |seen| && SourceSeenIn(policy.sources[i], walked) ==> seen[i])
  }

  lemma {:induction false} SameMembers(a: seq<Entry>, b: seq<Entry>)
    requires multiset(a) == multiset(b)
    ensures forall e :: e in a <==> e in b
  {
    forall e ensures e in a <==> e in b {
      assert e in a <==> e in multiset(a);
      assert e in b <==> e in multiset(b);
    }
  }

  /** When nothing is waiting, the kept entries have the outcome of the whole tree. */
  lemma {:induction false} KeptSelectsSame(policy: Policy, root: seq<Child>, walked: seq<Entry>, kept: seq<Entry>, seen: seq<bool>)
    requires Accepted(policy, root) && DistinctPaths(kept) && AllRelative(walked)
    requires multiset(walked) == multiset(Visible(policy, "", root)) && Faithful(policy, walked, kept, seen)
    ensures Outcome(policy, kept) == Outcome(policy, Listing("", root))
  {
    var full := Listing("", root);
    SameMembers(walked, Visible(policy, "", root));
    VisibleOrDead(policy, "", root);
    ListingDistinct("", root);
    InListing(policy, root);
    forall e | e in full && Chosen(policy, e.path) ensures e in kept {
      WalkSelectsExact(policy, e.path);
    }
    if HasDockerfile(policy, full) {
      forall i | 0 <= i < |policy.sources| && SourceSeenIn(policy.sources[i], full)
        ensures SourceSeenIn(policy.sources[i], kept)
      {
        WitnessKept(policy, full, walked, kept, seen, i);
      }
    }
    SameOutcome(policy, full, kept);
  }

  lemma {:induction false} InListing(policy: Policy, root: seq<Child>)
    ensures forall e :: e in Visible(policy, "", root) ==> e in Listing("", root)
  {
    VisibleListed(policy, "", root);
    forall e | e in Visible(policy, "", root) ensures e in Listing("", root) {
      assert e in multiset(Visible(policy, "", root));
    }
  }

  lemma {:induction false} WitnessKept(
    policy: Policy, full: seq<Entry>, walked: seq<Entry>, kept: seq<Entry>, seen: seq<bool>, i: nat)
    requires forall e :: e in full && e !in walked ==> Dead(policy, e.path)
    requires Faithful(policy, walked, kept, seen) && HasDockerfile(policy, full)
    requires forall e :: e in full && Chosen(policy, e.path) ==> e in kept
    requires i < |policy.sources| && SourceSeenIn(policy.sources[i], full)
    ensures SourceSeenIn(policy.sources[i], kept)
  {
    var source := policy.sources[i];
    if SourceParts(source) == [] {
      var e :| e in full && e.path == policy.dockerfile && !e.kind.Directory? && !e.kind.Symlink?;
      assert Chosen(policy, e.path);
      assert SourceHits(source, Split(e.path));
    } else {
      var e :| e in full && SourceHits(source, Split(e.path));
      assert SourceSeenIn(source, walked);
    }
  }

  // ------------------------------------------------------ what the walk counts

  ghost function Counts(policy: Policy): Entry -> bool {
    (e: Entry) => WalkSelects(policy, e.path)
  }

  ghost function Counted(policy: Policy, entries: seq<Entry>): seq<Entry> {
    Filter(entries, Counts(policy))
  }

  lemma {:induction false} CountedStep(policy: Policy, walked: seq<Entry>, e: Entry)
    ensures |Counted(policy, walked + [e])| == |Counted(policy, walked)| + (if WalkSelects(policy, e.path) then 1 else 0)
  {
    FilterConcat(walked, [e], Counts(policy));
    assert Filter([e], Counts(policy)) == if WalkSelects(policy, e.path) then [e] else [];
  }

  lemma {:induction false} Members<T>(a: seq<T>)
    requires NoDup(a)
    ensures |a| == |set x | x in a|
  {
    if a == [] {
      assert (set x | x in a) == {};
    } else {
      var rest := a[1..];
      assert a == [a[0]] + rest;
      assert NoDup(rest);
      Members(rest);
      assert a[0] !in rest;
      assert (set x | x in a) == {a[0]} + (set x | x in rest);
    }
  }

  /** A file in this tree that bears the built-in rules' name although the selector does not choose it. */
  ghost predicate Miscounted(policy: Policy, full: seq<Entry>) {
    exists e :: e in full && BearsBuiltInName(policy, e.path) && !Chosen(policy, e.path)
  }

  /**
   * The limit on entries is held against the whole tree's selection, except that a file with the
   * built-in rules' name counts although it is not selected: with one, the refusal comes one entry early.
   */
  lemma {:induction false} EntryCountExact(policy: Policy, root: seq<Child>)
    requires Accepted(policy, root) && AllRelative(Visible(policy, "", root))
    ensures |Counted(policy, Visible(policy, "", root))| ==
            |ChosenOf(policy, Listing("", root))| + (if Miscounted(policy, Listing("", root)) then 1 else 0)
  {
    var full, visible := Listing("", root), Visible(policy, "", root);
    var counted, chosen := Counted(policy, visible), ChosenOf(policy, full);
    ListingDistinct("", root);
    VisibleListed(policy, "", root);
    DistinctPart(visible, full);
    CountedNoDup(policy, visible);
    ChosenNoDup(policy, full);
    CountedMembers(policy, root);
    if Miscounted(policy, full) {
      var extra :| extra in full && BearsBuiltInName(policy, extra.path) && !Chosen(policy, extra.path);
      OnlyExtra(policy, full, extra);
      OneMore(chosen, counted, extra);
    } else {
      SameLength(chosen, counted);
    }
  }

  lemma {:induction false} OneMore<T>(a: seq<T>, b: seq<T>, extra: T)
    requires NoDup(a) && NoDup(b) && extra !in a && forall x :: x in b <==> x in a || x == extra
    ensures |b| == |a| + 1
  {
    Members(a);
    Members(b);
    assert (set x | x in b) == (set x | x in a) + {extra};
  }

  lemma {:induction false} SameLength<T>(a: seq<T>, b: seq<T>)
    requires NoDup(a) && NoDup(b) && forall x :: x in b <==> x in a
    ensures |b| == |a|
  {
    Members(a);
    Members(b);
    assert (set x | x in b) == (set x | x in a);
  }

  lemma {:induction false} OnlyExtra(policy: Policy, full: seq<Entry>, extra: Entry)
    requires DistinctPaths(full) && extra in full && BearsBuiltInName(policy, extra.path)
    ensures forall e :: e in full && BearsBuiltInName(policy, e.path) ==> e == extra
  {
    forall e | e in full && BearsBuiltInName(policy, e.path) ensures e == extra {
      var i :| 0 <= i < |full| && full[i] == e;
      var j :| 0 <= j < |full| && full[j] == extra;
    }
  }

  /** What is counted, entry by entry. */
  lemma {:induction false} CountedMembers(policy: Policy, root: seq<Child>)
    requires Accepted(policy, root) && AllRelative(Visible(policy, "", root))
    ensures forall e :: e in Counted(policy, Visible(policy, "", root)) <==>
                          e in Listing("", root) && (Chosen(policy, e.path) || BearsBuiltInName(policy, e.path))
    ensures forall e :: e in ChosenOf(policy, Listing("", root)) <==> e in Listing("", root) && Chosen(policy, e.path)
  {
    var full, visible := Listing("", root), Visible(policy, "", root);
    FilterMembers(visible, Counts(policy));
    ChosenMembers(policy, full);
    VisibleOrDead(policy, "", root);
    InListing(policy, root);
    forall e | e in full ensures WalkSelects(policy, e.path) <==> Chosen(policy, e.path) || BearsBuiltInName(policy, e.path) {
      WalkSelectsExact(policy, e.path);
    }
  }

  lemma {:induction false} DistinctPart(part: seq<Entry>, full: seq<Entry>)
    requires DistinctPaths(full) && multiset(part) <= multiset(full)
    ensures DistinctPaths(part)
  {
    DistinctMultiset(full);
    forall x | x in part ensures multiset(part)[x] == 1 {
      assert x in multiset(part) && multiset(part)[x] <= multiset(full)[x];
    }
    NoDupFromMultiset(part);
    forall i, j | 0 <= i < j < |part| ensures part[i].path != part[j].path {
      var x, y := part[i], part[j];
      assert x in multiset(part) && y in multiset(part);
      assert x in multiset(full) && y in multiset(full);
      var k :| 0 <= k < |full| && full[k] == x;
      var l :| 0 <= l < |full| && full[l] == y;
      assert k != l;
    }
  }

  lemma {:induction false} CountedNoDup(policy: Policy, entries: seq<Entry>)
    requires DistinctPaths(entries)
    ensures NoDup(Counted(policy, entries))
  {
    if entries != [] {
      var rest := entries[1..];
      assert DistinctPaths(rest);
      CountedNoDup(policy, rest);
      FilterMembers(rest, Counts(policy));
      forall e | e in rest ensures e != entries[0] {
        var k :| 0 <= k < |rest| && rest[k] == e;
        assert entries[k + 1] == e;
      }
    }
  }

  lemma {:induction false} ChosenNoDup(policy: Policy, entries: seq<Entry>)
    requires DistinctPaths(entries)
    ensures NoDup(ChosenOf(policy, entries))
  {
    ChosenMembers(policy, entries);
  }

  // -------------------------------------------------- limits and what they mean

  ghost predicate Labelled(limits: Limits, e: Entry) {
    Relative(e.path) && Utf8Size(e.path) <= limits.maxPathBytes
  }

  /** A directory the walk goes into is not too deep. */
  ghost predicate Shallow(policy: Policy, limits: Limits, e: Entry) {
    e.kind.Directory? && PruneAnswer(policy, e.path) != Ok(true) ==> |Split(e.path)| <= limits.maxDepth
  }

  /** The entries the walk comes to respect every limit. */
  ghost predicate Within(policy: Policy, limits: Limits, visible: seq<Entry>) {
    && |visible| <= limits.maxWalked
    && |Counted(policy, visible)| <= limits.maxEntries
    && forall e :: e in visible ==> Labelled(limits, e) && Shallow(policy, limits, e)
  }

  /** The matcher is refused on this path; for prunable patterns, only by its limits on the path. */
  ghost predicate RefusedOn(policy: Policy, path: string) {
    !Quiet(policy, path) || (!PrunablePolicy(policy) && PruneAnswer(policy, path).Err?)
  }

  /** Why the walk stopped, read off entries it came to. */
  ghost predicate Reason(policy: Policy, limits: Limits, error: CollectError, evidence: seq<Entry>) {
    match error
    case WalkCount => |evidence| > limits.maxWalked
    case EntryCount => |Counted(policy, evidence)| > limits.maxEntries
    case PathLength => exists x :: x in evidence && Utf8Size(x.path) > limits.maxPathBytes
    case Depth => exists x :: x in evidence && !Shallow(policy, limits, x)
    case InvalidPath(path) => exists x :: x in evidence && x.path == path && !Relative(path)
    case Duplicate(path) => !DistinctPaths(evidence)
    case Dockerfile(d) => d.Matcher? && exists x :: x in evidence && RefusedOn(policy, x.path)
  }

  /** Every refusal points at the tree: entries the walk comes to, or what the whole tree lacks. */
  ghost predicate Justified(policy: Policy, root: seq<Child>, limits: Limits, error: CollectError, evidence: seq<Entry>) {
    if error.Dockerfile? && !error.e.Matcher? then
      Accepted(policy, root) ==> Outcome(policy, Listing("", root)) == Err(error.e)
    else
      multiset(evidence) <= multiset(Visible(policy, "", root)) && Reason(policy, limits, error, evidence)
  }

  lemma {:induction false} PartOf(part: seq<Entry>, whole: seq<Entry>)
    requires multiset(part) <= multiset(whole)
    ensures |part| <= |whole| && forall e :: e in part ==> e in whole
  {
    assert |multiset(part)| <= |multiset(whole)| by {
      assert multiset(whole) == multiset(part) + (multiset(whole) - multiset(part));
    }
    forall e | e in part ensures e in whole {
      assert e in multiset(part) && e in multiset(whole);
    }
  }

  lemma {:induction false} CountedPart(policy: Policy, part: seq<Entry>, whole: seq<Entry>)
    requires multiset(part) <= multiset(whole)
    ensures |Counted(policy, part)| <= |Counted(policy, whole)|
  {
    FilterPart(part, whole, Counts(policy));
  }

  /** A tree within every limit gives no reason to stop. */
  lemma {:induction false} NoReason(policy: Policy, root: seq<Child>, limits: Limits, error: CollectError, evidence: seq<Entry>)
    requires Accepted(policy, root) && Justified(policy, root, limits, error, evidence)
    requires Within(policy, limits, Visible(policy, "", root)) && QuietAll(policy, Visible(policy, "", root))
    ensures error.Dockerfile? && !error.e.Matcher?
  {
    if !error.Dockerfile? || error.e.Matcher? {
      var visible := Visible(policy, "", root);
      PartOf(evidence, visible);
      CountedPart(policy, evidence, visible);
      VisibleListed(policy, "", root);
      ListingDistinct("", root);
      DistinctPart(evidence, Listing("", root));
      Reasonless(policy, limits, error, evidence);
    }
  }

  lemma {:induction false} Reasonless(policy: Policy, limits: Limits, error: CollectError, evidence: seq<Entry>)
    requires |evidence| <= limits.maxWalked && |Counted(policy, evidence)| <= limits.maxEntries
    requires forall e :: e in evidence ==> Labelled(limits, e) && Shallow(policy, limits, e)
    requires QuietAll(policy, evidence) && PrunablePolicy(policy) && DistinctPaths(evidence)
    ensures !Reason(policy, limits, error, evidence)
  {
  }

  // ------------------------------------------------------------ the walk itself

  /** Classify one entry and file it: `kept` stands for the ordered map of retained nodes. */
  method Visit(policy: Policy, e: Entry, kept: seq<Entry>, seen: array<bool>, selectedCount: nat, limits: Limits,
               ghost walked: seq<Entry>)
    returns (r: Result<(seq<Entry>, nat), CollectError>)
    requires seen.Length == |policy.sources| && Relative(e.path)
    requires Faithful(policy, walked, kept, seen[..]) && DistinctPaths(kept)
    requires selectedCount == |Counted(policy, walked)| <= limits.maxEntries
    modifies seen
    ensures r.Ok? ==>
              && Faithful(policy, walked + [e], r.value.0, seen[..]) && DistinctPaths(r.value.0)
              && r.value.1 == |Counted(policy, walked + [e])| <= limits.maxEntries
    ensures r.Err? ==> Reason(policy, limits, r.error, walked + [e])
  {
    ghost var before := seen[..];
    CountedStep(policy, walked, e);
    assert (walked + [e])[|walked|] == e;
    var verdict := Classify(policy, e.path, seen);
    if verdict.Err? {
      return Err(Dockerfile(Matcher(verdict.error)));
    }
    var (selected, retain) := verdict.value;
    var count := selectedCount;
    if selected {
      if selectedCount >= limits.maxEntries {
        return Err(EntryCount);
      }
      count := count + 1;
    }
    var next := kept;
    if retain {
      if exists k :: k in kept && k.path == e.path {
        SamePath(walked, kept, e);
        return Err(Duplicate(e.path));
      }
      next := Insert(e, kept, PathLe);
      InsertKeeps(e, kept);
    }
    FaithfulStep(policy, walked, kept, before, e, next, seen[..]);
    r := Ok((next, count));
  }

  lemma {:induction false} SamePath(walked: seq<Entry>, kept: seq<Entry>, e: Entry)
    requires (forall k :: k in kept ==> k in walked) && exists k :: k in kept && k.path == e.path
    ensures !DistinctPaths(walked + [e])
  {
    var k :| k in kept && k.path == e.path;
    var i :| 0 <= i < |walked| && walked[i] == k;
    assert (walked + [e])[i] == k && (walked + [e])[|walked|] == e;
  }

  lemma {:induction false} InsertKeeps(e: Entry, kept: seq<Entry>)
    ensures forall k :: k in Insert(e, kept, PathLe) <==> k == e || k in kept
    ensures DistinctPaths(kept) && (forall k :: k in kept ==> k.path != e.path) ==> DistinctPaths(Insert(e, kept, PathLe))
  {
    if kept != [] && !PathLe(e, kept[0]) {
      var rest := kept[1..];
      assert kept == [kept[0]] + rest;
      InsertKeeps(e, rest);
      if DistinctPaths(kept) && forall k :: k in kept ==> k.path != e.path {
        var tail := Insert(e, rest, PathLe);
        assert DistinctPaths(rest);
        forall j | 0 <= j < |tail| ensures tail[j].path != kept[0].path {
          assert tail[j] == e || tail[j] in rest;
          assert forall k :: 0 <= k < |rest| ==> rest[k] == kept[k + 1];
        }
      }
    } else if DistinctPaths(kept) && forall k :: k in kept ==> k.path != e.path {
      forall j | 0 <= j < |kept| ensures kept[j].path != e.path {
        assert kept[j] in kept;
      }
    }
  }

  lemma {:induction false} FaithfulStep(
    policy: Policy, walked: seq<Entry>, kept: seq<Entry>, seen: seq<bool>, e: Entry, kept': seq<Entry>, seen': seq<bool>)
    requires Faithful(policy, walked, kept, seen)
    requires |seen'| == |seen|
    requires forall i :: 0 <= i < |seen| ==> seen'[i] == (seen[i] || SourceHits(policy.sources[i], Split(e.path)))
    requires forall k :: k in kept' ==> k == e || k in kept
    requires forall k :: k in kept ==> k in kept'
    requires WalkSelects(policy, e.path) ==> e in kept'
    requires forall i :: 0 <= i < |seen| && !seen[i] && seen'[i] ==> e in kept'
    requires kept' != kept ==> e in kept'
    ensures Faithful(policy, walked + [e], kept', seen')
  {
    var after := walked + [e];
    assert forall k :: k in after <==> k in walked || k == e;
    forall i | 0 <= i < |seen'| && seen'[i] ensures SourceSeenIn(policy.sources[i], kept') {
      if seen[i] {
        var w :| w in kept && SourceHits(policy.sources[i], Split(w.path));
        assert w in kept';
      }
    }
    forall i | 0 <= i < |seen'| && SourceSeenIn(policy.sources[i], after) ensures seen'[i] {
      var w :| w in after && SourceHits(policy.sources[i], Split(w.path));
      assert w in walked ==> SourceSeenIn(policy.sources[i], walked);
    }
  }

  /** The walk's bookkeeping: the visible tree is split into what is walked and what is waiting. */
  ghost predicate WalkState(
    policy: Policy, limits: Limits, named: bool, visible: multiset<Entry>, walked: seq<Entry>, waiting: multiset<Entry>,
    kept: seq<Entry>, seen: seq<bool>, selectedCount: nat)
  {
    && multiset(walked) + waiting == visible
    && |walked| <= limits.maxWalked
    && selectedCount == |Counted(policy, walked)| <= limits.maxEntries
    && (forall e :: e in walked ==> Labelled(limits, e) && (named ==> Shallow(policy, limits, e)))
    && DistinctPaths(kept) && Faithful(policy, walked, kept, seen)
  }

  /** Filing `e` moves it from waiting to walked. */
  lemma {:induction false} StateAfterVisit(
    policy: Policy, limits: Limits, named: bool, visible: multiset<Entry>, walked: seq<Entry>, waiting: multiset<Entry>,
    kept: seq<Entry>, seen: seq<bool>, count: nat, e: Entry, kept': seq<Entry>, seen': seq<bool>, count': nat)
    requires WalkState(policy, limits, named, visible, walked, multiset{e} + waiting, kept, seen, count)
    requires Labelled(limits, e) && (named ==> Shallow(policy, limits, e)) && |walked| < limits.maxWalked
    requires Faithful(policy, walked + [e], kept', seen') && DistinctPaths(kept')
    requires count' == |Counted(policy, walked + [e])| <= limits.maxEntries
    ensures WalkState(policy, limits, named, visible, walked + [e], waiting, kept', seen', count')
  {
    assert multiset(walked + [e]) == multiset(walked) + multiset{e};
    assert multiset(walked + [e]) + waiting == multiset(walked) + (multiset{e} + waiting);
  }

  /** The checks on a name before it is classified. */
  method CheckEntry(policy: Policy, limits: Limits, e: Entry, walkedCount: nat, ghost walked: seq<Entry>)
    returns (refusal: Option<CollectError>)
    requires walkedCount == |walked|
    ensures refusal.None? ==> Labelled(limits, e) && e.path != "" && |walked| < limits.maxWalked
    ensures refusal.Some? ==> Reason(policy, limits, refusal.value, walked + [e])
  {
    assert (walked + [e])[|walked|] == e;
    if walkedCount + 1 > limits.maxWalked {
      return Some(WalkCount);
    }
    if !Relative(e.path) {
      return Some(InvalidPath(e.path));
    }
    RelativeNonEmpty(e.path);
    if Utf8Size(e.path) > limits.maxPathBytes {
      return Some(PathLength);
    }
    return None;
  }

  lemma {:induction false} RelativeNonEmpty(path: string)
    requires Relative(path)
    ensures path != ""
  {
    SplitAtom("");
    assert "" in Split("");
  }

  /** How deep a directory is recorded to be: never more than it is, and exactly that for real names. */
  ghost predicate DepthOf(dir: string, depth: nat, named: bool) {
    depth <= |Parts(dir)| && (named ==> depth == |Parts(dir)|)
  }

  lemma {:induction false} DeeperPath(dir: string, name: string, depth: nat, named: bool)
    requires DepthOf(dir, depth, named) && Under(dir, name) != ""
    requires named ==> Normal(name) && '/' !in name
    ensures DepthOf(Under(dir, name), depth + 1, named) && Parts(Under(dir, name)) == Split(Under(dir, name))
  {
    if named {
      PartsUnder(dir, name);
    } else if dir != "" {
      PartsBeneath(dir, dir + "/" + name);
    }
  }

  datatype Visited = Visited(kept: seq<Entry>, selectedCount: nat, descend: bool)

  /** Whether to go into an entry: a directory that is not pruned and not too deep. */
  method Descends(policy: Policy, limits: Limits, e: Entry, depth: nat, ghost named: bool, ghost walked: seq<Entry>)
    returns (r: Result<bool, CollectError>)
    requires Relative(e.path) && DepthOf(e.path, depth + 1, named) && e.path != ""
    ensures r.Ok? && r.value ==> e.kind.Directory? && PruneAnswer(policy, e.path) != Ok(true)
    ensures r.Ok? && !r.value ==> !e.kind.Directory? || PruneAnswer(policy, e.path) == Ok(true)
    ensures r.Ok? && named ==> Shallow(policy, limits, e)
    ensures r.Err? ==> Reason(policy, limits, r.error, walked + [e])
  {
    assert (walked + [e])[|walked|] == e;
    if !e.kind.Directory? {
      return Ok(false);
    }
    var pruned := Prunes(policy, e.path);
    if pruned.Err? {
      if PrunablePolicy(policy) && Quiet(policy, e.path) {
        PruneAnswered(policy, e.path);
      }
      return Err(Dockerfile(Matcher(pruned.error)));
    }
    if pruned.value {
      return Ok(false);
    }
    if depth + 1 > limits.maxDepth {
      assert e in walked + [e] && !Shallow(policy, limits, e);
      return Err(Depth);
    }
    r := Ok(true);
  }

  /** One turn of the inner loop: check, classify, file, and decide whether to descend. */
  method WalkEntry(
    policy: Policy, limits: Limits, dir: string, child: Child, depth: nat,
    kept: seq<Entry>, seen: array<bool>, selectedCount: nat, walkedCount: nat,
    ghost named: bool, ghost visible: multiset<Entry>, ghost walked: seq<Entry>, ghost waiting: multiset<Entry>)
    returns (r: Result<Visited, CollectError>)
    requires seen.Length == |policy.sources|
    requires WalkState(policy, limits, named, visible, walked,
                       multiset{Entry(Under(dir, child.name), KindOf(child.node))} + waiting, kept, seen[..], selectedCount)
    requires walkedCount == |walked| && DepthOf(dir, depth, named)
    requires named ==> Normal(child.name) && '/' !in child.name
    modifies seen
    ensures r.Ok? ==>
              && WalkState(policy, limits, named, visible, walked + [Entry(Under(dir, child.name), KindOf(child.node))], waiting,
                           r.value.kept, seen[..], r.value.selectedCount)
              && Under(dir, child.name) != ""
              && (r.value.descend ==> child.node.Dir?)
              && VisibleBeneath(policy, Under(dir, child.name), child.node) ==
                 if r.value.descend then Visible(policy, Under(dir, child.name), child.node.children) else []
    ensures r.Err? ==> Reason(policy, limits, r.error, walked + [Entry(Under(dir, child.name), KindOf(child.node))])
  {
    var path := Under(dir, child.name);
    var e := Entry(path, KindOf(child.node));
    var refusal := CheckEntry(policy, limits, e, walkedCount, walked);
    if refusal.Some? {
      return Err(refusal.value);
    }
    ghost var before := seen[..];
    var filed := Visit(policy, e, kept, seen, selectedCount, limits, walked);
    if filed.Err? {
      return Err(filed.error);
    }
    DeeperPath(dir, child.name, depth, named);
    var descend := Descends(policy, limits, e, depth, named, walked);
    if descend.Err? {
      return Err(descend.error);
    }
    StateAfterVisit(policy, limits, named, visible, walked, waiting, kept, before, selectedCount,
                    e, filed.value.0, seen[..], filed.value.1);
    r := Ok(Visited(filed.value.0, filed.value.1, descend.value));
  }

  // ------------------------------------------------------ the stack of directories

  /** A directory still to be read, and how many directories it is below the root. */
  datatype Frame = Frame(dir: string, children: seq<Child>, depth: nat)

  ghost function Waiting(policy: Policy, pending: seq<Frame>): multiset<Entry> {
    if pending == [] then multiset{}
    else
      var last := pending[|pending| - 1];
      Waiting(policy, pending[..|pending| - 1]) + multiset(Visible(policy, last.dir, last.children))
  }

  ghost function Size(children: seq<Child>): nat
    decreases children
  {
    if children == [] then 0 else NodeSize(children[0].node) + Size(children[1..])
  }

  ghost function NodeSize(node: Node): nat
    decreases node
  {
    match node
    case Dir(children) => 1 + Size(children)
    case _ => 1
  }

  ghost function Load(pending: seq<Frame>): nat {
    if pending == [] then 0
    else Load(pending[..|pending| - 1]) + 1 + Size(pending[|pending| - 1].children)
  }

  lemma {:induction false} WaitingPush(policy: Policy, pending: seq<Frame>, f: Frame)
    ensures Waiting(policy, pending + [f]) == Waiting(policy, pending) + multiset(Visible(policy, f.dir, f.children))
    ensures Load(pending + [f]) == Load(pending) + 1 + Size(f.children)
  {
    assert (pending + [f])[..|pending|] == pending;
  }

  ghost predicate Recorded(f: Frame, named: bool) {
    DepthOf(f.dir, f.depth, named) && (named ==> WellNamed(f.children))
  }

  ghost predicate AllRecorded(pending: seq<Frame>, named: bool) {
    forall f :: f in pending ==> Recorded(f, named)
  }

  lemma {:induction false} PendingPushed(pending: seq<Frame>, next: Frame, named: bool)
    requires AllRecorded(pending, named) && Recorded(next, named)
    ensures AllRecorded(pending + [next], named)
  {
  }

  datatype Progress = Progress(pending: seq<Frame>, kept: seq<Entry>, selectedCount: nat, walkedCount: nat)

  /** What is still to come inside the directory being read. */
  ghost function Rest(policy: Policy, frame: Frame, i: nat): multiset<Entry>
    requires i <= |frame.children|
  {
    multiset(Visible(policy, frame.dir, frame.children[i..]))
  }

  lemma {:induction false} RestStep(policy: Policy, frame: Frame, i: nat)
    requires i < |frame.children|
    ensures var child := frame.children[i];
            var path := Under(frame.dir, child.name);
            Rest(policy, frame, i) ==
            multiset{Entry(path, KindOf(child.node))} +
            (multiset(VisibleBeneath(policy, path, child.node)) + Rest(policy, frame, i + 1))
    ensures Size(frame.children[i..]) == NodeSize(frame.children[i].node) + Size(frame.children[i + 1..])
  {
    assert frame.children[i..][1..] == frame.children[i + 1..];
  }

  lemma {:induction false} NamedChild(children: seq<Child>, i: nat)
    requires WellNamed(children) && i < |children|
    ensures Normal(children[i].name) && '/' !in children[i].name
    ensures children[i].node.Dir? ==> WellNamed(children[i].node.children)
  {
    if i > 0 {
      NamedChild(children[1..], i - 1);
    }
  }

  lemma {:induction false} Regroup(a: multiset<Entry>, e: multiset<Entry>, b: multiset<Entry>, c: multiset<Entry>)
    ensures a + (e + (b + c)) == e + (a + b + c)
  {
  }

  /** One turn of the inner loop with the push of a directory to descend into. */
  method WalkChild(
    policy: Policy, limits: Limits, frame: Frame, i: nat, at: Progress, seen: array<bool>,
    ghost named: bool, ghost visible: multiset<Entry>, ghost walked: seq<Entry>)
    returns (r: Result<Progress, CollectError>)
    requires i < |frame.children|
    requires seen.Length == |policy.sources| && at.walkedCount == |walked|
    requires AllRecorded(at.pending, named) && Recorded(frame, named)
    requires WalkState(policy, limits, named, visible, walked, Waiting(policy, at.pending) + Rest(policy, frame, i),
                       at.kept, seen[..], at.selectedCount)
    modifies seen
    ensures r.Ok? ==>
              && WalkState(policy, limits, named, visible,
                           walked + [Entry(Under(frame.dir, frame.children[i].name), KindOf(frame.children[i].node))],
                           Waiting(policy, r.value.pending) + Rest(policy, frame, i + 1),
                           r.value.kept, seen[..], r.value.selectedCount)
              && r.value.walkedCount == |walked| + 1 && AllRecorded(r.value.pending, named)
              && Load(r.value.pending) + Size(frame.children[i + 1..]) <= Load(at.pending) + Size(frame.children[i..])
    ensures r.Err? ==> Reason(policy, limits, r.error,
                              walked + [Entry(Under(frame.dir, frame.children[i].name), KindOf(frame.children[i].node))])
  {
    var child := frame.children[i];
    var path := Under(frame.dir, child.name);
    ghost var e := multiset{Entry(path, KindOf(child.node))};
    ghost var below, rest := multiset(VisibleBeneath(policy, path, child.node)), Rest(policy, frame, i + 1);
    ghost var waiting := Waiting(policy, at.pending) + below + rest;
    RestStep(policy, frame, i);
    Regroup(Waiting(policy, at.pending), e, below, rest);
    if named {
      NamedChild(frame.children, i);
    }
    var turn := WalkEntry(policy, limits, frame.dir, child, frame.depth, at.kept, seen, at.selectedCount, at.walkedCount,
                          named, visible, walked, waiting);
    if turn.Err? {
      return Err(turn.error);
    }
    var pending := at.pending;
    if turn.value.descend {
      var next := Frame(path, child.node.children, frame.depth + 1);
      DeeperPath(frame.dir, child.name, frame.depth, named);
      WaitingPush(policy, pending, next);
      PendingPushed(pending, next, named);
      pending := pending + [next];
    } else {
      assert Waiting(policy, pending) + multiset([]) == Waiting(policy, pending);
    }
    assert Waiting(policy, pending) + rest == waiting;
    r := Ok(Progress(pending, turn.value.kept, turn.value.selectedCount, at.walkedCount + 1));
  }

  /** The inner loop: read one directory, pushing the directories to descend into. */
  method WalkDirectory(
    policy: Policy, limits: Limits, frame: Frame, start: Progress, seen: array<bool>,
    ghost named: bool, ghost visible: multiset<Entry>, ghost walked: seq<Entry>)
    returns (r: Result<Progress, CollectError>, ghost walked': seq<Entry>)
    requires seen.Length == |policy.sources| && start.walkedCount == |walked|
    requires AllRecorded(start.pending, named) && Recorded(frame, named)
    requires WalkState(policy, limits, named, visible, walked, Waiting(policy, start.pending) + Rest(policy, frame, 0),
                       start.kept, seen[..], start.selectedCount)
    modifies seen
    ensures r.Ok? ==>
              && WalkState(policy, limits, named, visible, walked', Waiting(policy, r.value.pending), r.value.kept, seen[..],
                           r.value.selectedCount)
              && r.value.walkedCount == |walked'| && AllRecorded(r.value.pending, named)
              && Load(r.value.pending) <= Load(start.pending) + Size(frame.children)
    ensures r.Err? ==> multiset(walked') <= visible && Reason(policy, limits, r.error, walked')
  {
    var at := start;
    walked' := walked;
    assert frame.children[0..] == frame.children;
    for i := 0 to |frame.children|
      invariant WalkState(policy, limits, named, visible, walked', Waiting(policy, at.pending) + Rest(policy, frame, i),
                          at.kept, seen[..], at.selectedCount)
      invariant at.walkedCount == |walked'| && AllRecorded(at.pending, named)
      invariant Load(at.pending) + Size(frame.children[i..]) <= Load(start.pending) + Size(frame.children)
    {
      ghost var e := Entry(Under(frame.dir, frame.children[i].name), KindOf(frame.children[i].node));
      RestStep(policy, frame, i);
      assert multiset(walked' + [e]) == multiset(walked') + multiset{e};
      var turn := WalkChild(policy, limits, frame, i, at, seen, named, visible, walked');
      walked' := walked' + [e];
      if turn.Err? {
        return Err(turn.error), walked';
      }
      at := turn.value;
    }
    assert Rest(policy, frame, |frame.children|) == multiset{};
    r := Ok(at);
  }

  lemma {:induction false} StartState(policy: Policy, limits: Limits, named: bool, root: seq<Child>, seen: seq<bool>)
    requires |seen| == |policy.sources| && forall i :: 0 <= i < |seen| ==> !seen[i]
    ensures WalkState(policy, limits, named, multiset(Visible(policy, "", root)), [], Waiting(policy, [Frame("", root, 0)]),
                      [], seen, 0)
  {
    WaitingPush(policy, [], Frame("", root, 0));
    assert [] + [Frame("", root, 0)] == [Frame("", root, 0)];
    NothingWalked(policy, limits, named, Waiting(policy, [Frame("", root, 0)]), seen);
  }

  lemma {:induction false} NothingWalked(policy: Policy, limits: Limits, named: bool, visible: multiset<Entry>, seen: seq<bool>)
    requires |seen| == |policy.sources| && forall i :: 0 <= i < |seen| ==> !seen[i]
    ensures WalkState(policy, limits, named, visible, [], visible, [], seen, 0)
  {
    assert multiset([]) + visible == visible;
    assert Counted(policy, []) == [];
  }

  lemma {:induction false} PopFrame(policy: Policy, pending: seq<Frame>)
    requires pending != []
    ensures var last := |pending| - 1;
            && Waiting(policy, pending) == Waiting(policy, pending[..last]) + Rest(policy, pending[last], 0)
            && Load(pending) == Load(pending[..last]) + 1 + Size(pending[last].children)
            && (forall f :: f in pending[..last] ==> f in pending) && pending[last] in pending
  {
    var last := |pending| - 1;
    assert pending[last].children[0..] == pending[last].children;
  }

  /** The outer loop: the stack of directories, until nothing is waiting. */
  method WalkTree(policy: Policy, root: seq<Child>, limits: Limits, seen: array<bool>)
    returns (r: Result<seq<Entry>, CollectError>, ghost walked: seq<Entry>)
    requires seen.Length == |policy.sources| && (forall i :: 0 <= i < seen.Length ==> !seen[i])
    modifies seen
    ensures r.Ok? ==>
              && DistinctPaths(r.value) && Faithful(policy, walked, r.value, seen[..])
              && multiset(walked) == multiset(Visible(policy, "", root)) && AllRelative(walked)
              && (WellNamed(root) ==> Within(policy, limits, walked))
    ensures r.Err? ==> multiset(walked) <= multiset(Visible(policy, "", root)) && Reason(policy, limits, r.error, walked)
  {
    ghost var visible, named := multiset(Visible(policy, "", root)), WellNamed(root);
    walked := [];
    var at := Progress([Frame("", root, 0)], [], 0, 0);
    StartState(policy, limits, named, root, seen[..]);
    while at.pending != []
      invariant WalkState(policy, limits, named, visible, walked, Waiting(policy, at.pending), at.kept, seen[..], at.selectedCount)
      invariant at.walkedCount == |walked| && AllRecorded(at.pending, named)
      decreases Load(at.pending)
    {
      var last := |at.pending| - 1;
      var frame := at.pending[last];
      PopFrame(policy, at.pending);
      at := at.(pending := at.pending[..last]);
      var next;
      next, walked := WalkDirectory(policy, limits, frame, at, seen, named, visible, walked);
      if next.Err? {
        return Err(next.error), walked;
      }
      at := next.value;
    }
    r := Ok(at.kept);
  }

  /**
   * The first pass: a stack of directories, pruning and keeping as it goes, then the plain selector
   * on what was kept. On success the result is the selection of the whole tree, which respects every
   * limit; a refusal points at the entries or at the lack it reports; and a visible tree within the
   * collector's and the matcher's limits is answered exactly as the whole tree would be.
   */
  method Collect(policy: Policy, root: seq<Child>, limits: Limits)
    returns (r: Result<seq<Entry>, CollectError>, ghost evidence: seq<Entry>)
    ensures r.Ok? ==> forall e :: e in r.value ==> e in Visible(policy, "", root)
    ensures Accepted(policy, root) && r.Ok? ==>
              Outcome(policy, Listing("", root)) == Ok(r.value) && Within(policy, limits, Visible(policy, "", root))
    ensures r.Err? ==> Justified(policy, root, limits, r.error, evidence)
    ensures Accepted(policy, root) && Within(policy, limits, Visible(policy, "", root)) &&
            QuietAll(policy, Visible(policy, "", root)) ==>
              r == match Outcome(policy, Listing("", root)) { case Ok(selected) => Ok(selected) case Err(d) => Err(Dockerfile(d)) }
  {
    ghost var visible := Visible(policy, "", root);
    var seen := new bool[|policy.sources|](_ => false);
    var kept;
    kept, evidence := WalkTree(policy, root, limits, seen);
    if kept.Err? {
      Unanswered(policy, root, limits, kept.error, evidence);
      return Err(kept.error), evidence;
    }
    var answer := SelectContext(policy, kept.value);
    SameMembers(evidence, visible);
    SelectMeaning(policy, kept.value);
    if Accepted(policy, root) {
      KeptSelectsSame(policy, root, evidence, kept.value, seen[..]);
      WithinSame(policy, limits, evidence, visible);
    }
    match answer {
      case Ok(selected) =>
        OutcomeMembers(policy, kept.value);
        r := Ok(selected);
      case Err(d) =>
        r := Err(Dockerfile(d));
        Unanswered(policy, root, limits, r.error, evidence);
    }
  }

  /** A refusal with a reason is not one a tree within the limits gets. */
  lemma {:induction false} Unanswered(policy: Policy, root: seq<Child>, limits: Limits, error: CollectError, evidence: seq<Entry>)
    requires Justified(policy, root, limits, error, evidence)
    ensures Accepted(policy, root) && Within(policy, limits, Visible(policy, "", root)) &&
            QuietAll(policy, Visible(policy, "", root)) ==>
              error.Dockerfile? && Outcome(policy, Listing("", root)) == Err(error.e)
  {
    if Accepted(policy, root) && Within(policy, limits, Visible(policy, "", root)) && QuietAll(policy, Visible(policy, "", root)) {
      NoReason(policy, root, limits, error, evidence);
    }
  }

  lemma {:induction false} OutcomeMembers(policy: Policy, entries: seq<Entry>)
    ensures Outcome(policy, entries).Ok? ==> forall e :: e in Outcome(policy, entries).value ==> e in entries
  {
    if Outcome(policy, entries).Ok? {
      ChosenMembers(policy, entries);
      SortMembers(ChosenOf(policy, entries), PathLe);
    }
  }

  lemma {:induction false} WithinSame(policy: Policy, limits: Limits, a: seq<Entry>, b: seq<Entry>)
    requires multiset(a) == multiset(b) && Within(policy, limits, a)
    ensures Within(policy, limits, b)
  {
    SameMembers(a, b);
    FilterReorder(a, b, Counts(policy));
    assert |multiset(a)| == |a| && |multiset(b)| == |b|;
  }

  /** What a context calls its Dockerfile must be a file: a link or a directory of that name does not do. */
  lemma {:induction false} DockerfileKinds(policy: Policy, node: Node)
    requires policy.dockerfile != ""
    ensures Outcome(policy, Listing("", [Child(policy.dockerfile, node)])) == Err(MissingDockerfile(policy.dockerfile)) <==>
            node.Link? || node.Dir?
  {
    var children := [Child(policy.dockerfile, node)];
    var here, below := Entry(policy.dockerfile, KindOf(node)), Beneath(policy.dockerfile, node);
    assert children[1..] == [] && below + [] == below;
    assert Listing("", children) == [here] + below;
    if node.Dir? {
      ListingBeneath(policy.dockerfile, node.children);
    }
    assert here in [here] + below;
  }

  // ------------------------------------------------ two trees the walk is wrong about

  /**
   * A context that holds a file with the built-in rules' name: at a limit the whole tree's selection
   * meets exactly, the walk is over it.
   */
  lemma {:induction false} RefusedEarly(policy: Policy, name: string, root: seq<Child>, limits: Limits)
    requires policy == RUST_POLICY && name == DEFAULT_IGNORE_NAME
    requires root == [Child(policy.dockerfile, File), Child(name, File)]
    requires |ChosenOf(policy, Listing("", root))| == limits.maxEntries
    ensures Accepted(policy, root) && !Within(policy, limits, Visible(policy, "", root))
  {
    BuiltInNameCounted(policy, name);
    BuiltInNameShape(name);
    PlainSourceAligned(policy);
    DockerfileShape(policy.dockerfile);
    OverWithTwo(policy, policy.dockerfile, name, root, limits);
  }

  lemma {:induction false} DockerfileShape(name: string)
    requires name == "Dockerfile"
    ensures Normal(name) && '/' !in name && Relative(name)
  {
    assert '\\' !in name && ':' !in name;
    OnePartRelative(name);
  }

  lemma {:induction false} OverWithTwo(policy: Policy, a: string, name: string, root: seq<Child>, limits: Limits)
    requires PrunablePolicy(policy) && root == [Child(a, File), Child(name, File)] && a != name
    requires Normal(a) && '/' !in a && Relative(a) && Normal(name) && '/' !in name && Relative(name)
    requires WalkSelects(policy, name) && !Chosen(policy, name)
    requires |ChosenOf(policy, Listing("", root))| == limits.maxEntries
    ensures Accepted(policy, root) && !Within(policy, limits, Visible(policy, "", root))
  {
    TwoFiles(policy, a, name, root);
    AllRelativePair(Entry(a, RegularFile), Entry(name, RegularFile));
    OverByOne(policy, root, limits, Entry(name, RegularFile));
  }

  lemma {:induction false} AllRelativePair(x: Entry, y: Entry)
    requires Relative(x.path) && Relative(y.path)
    ensures AllRelative([x, y]) && y in [x, y]
  {
  }

  lemma {:induction false} OverByOne(policy: Policy, root: seq<Child>, limits: Limits, extra: Entry)
    requires Accepted(policy, root) && AllRelative(Visible(policy, "", root))
    requires extra in Listing("", root) && WalkSelects(policy, extra.path) && !Chosen(policy, extra.path)
    requires |ChosenOf(policy, Listing("", root))| == limits.maxEntries
    ensures !Within(policy, limits, Visible(policy, "", root))
  {
    WalkSelectsExact(policy, extra.path);
    EntryCountExact(policy, root);
  }

  lemma {:induction false} TwoFiles(policy: Policy, a: string, b: string, root: seq<Child>)
    requires root == [Child(a, File), Child(b, File)] && a != b
    requires Normal(a) && '/' !in a && Normal(b) && '/' !in b
    ensures WellNamed(root)
    ensures Visible(policy, "", root) == Listing("", root) == [Entry(a, RegularFile), Entry(b, RegularFile)]
  {
    TwoNames(a, b, root);
    FirstFile(policy, "", b, []);
    FirstFile(policy, "", a, [Child(b, File)]);
    assert [Child(b, File)] + [] == [Child(b, File)];
    assert [Child(a, File)] + [Child(b, File)] == root;
  }

  lemma {:induction false} TwoNames(a: string, b: string, root: seq<Child>)
    requires root == [Child(a, File), Child(b, File)] && a != b
    requires Normal(a) && '/' !in a && Normal(b) && '/' !in b
    ensures WellNamed(root)
  {
    assert root[1..] == [Child(b, File)] && root[1..][1..] == [];
    assert WellNamed(root[1..]);
  }

  lemma {:induction false} FirstFile(policy: Policy, dir: string, name: string, rest: seq<Child>)
    ensures Listing(dir, [Child(name, File)] + rest) == [Entry(Under(dir, name), RegularFile)] + Listing(dir, rest)
    ensures Visible(policy, dir, [Child(name, File)] + rest) ==
            [Entry(Under(dir, name), RegularFile)] + Visible(policy, dir, rest)
  {
    var children := [Child(name, File)] + rest;
    assert children[0] == Child(name, File) && children[1..] == rest;
    assert [] + Listing(dir, rest) == Listing(dir, rest);
    assert [] + Visible(policy, dir, rest) == Visible(policy, dir, rest);
  }

  lemma {:induction false} OnlyDirectory(policy: Policy, name: string, inner: seq<Child>)
    requires PruneAnswer(policy, name) == Ok(true)
    ensures Listing("", [Child(name, Dir(inner))]) == [Entry(name, Directory)] + Listing(name, inner)
    ensures Visible(policy, "", [Child(name, Dir(inner))]) == [Entry(name, Directory)]
  {
    var children := [Child(name, Dir(inner))];
    assert children[1..] == [];
    assert Listing(name, inner) + [] == Listing(name, inner);
  }

  /** A context whose directory `a..` holds the one file `b`. */
  function EscapingTree(a: string, b: string): seq<Child> {
    [Child("Dockerfile", File), Child(".dockerignore", File), Child(a + "..", Dir([Child(b, File)]))]
  }

  /**
   * The selection of the whole tree holds this entry, the walk never comes to it, and whatever the
   * walk keeps selects something else.
   */
  ghost predicate Loses(policy: Policy, root: seq<Child>, lost: Entry) {
    var full := Outcome(policy, Listing("", root));
    && full.Ok? && lost in full.value
    && lost !in Visible(policy, "", root)
    && forall kept :: (forall e :: e in kept ==> e in Visible(policy, "", root)) ==> Outcome(policy, kept) != full
  }

  /** What the escaping rule costs. */
  lemma {:induction false} EscapingTreeLoses(a: string, b: string)
    requires PlainName(a) && PlainName(b) && b != a + ".." && |a| < 400 && |b| < 400
    ensures Loses(EscapingPolicy(a, b), EscapingTree(a, b), Entry(a + "../" + b, RegularFile))
  {
    var policy, lost := EscapingPolicy(a, b), Entry(a + "../" + b, RegularFile);
    var visible := [Entry("Dockerfile", RegularFile), Entry(".dockerignore", RegularFile), Entry(a + "..", Directory)];
    ShortNamesEscape(a, b);
    EscapingRuleLosesEntry(a, b);
    EscapingListing(policy, a, b);
    EscapingUnseen(a, b);
    EscapingOutcome(policy, visible, lost);
    LosesFrom(policy, EscapingTree(a, b), visible + [lost], visible, lost);
  }

  lemma {:induction false} EscapingUnseen(a: string, b: string)
    requires '/' !in a
    ensures Entry(a + "../" + b, RegularFile) !in
            [Entry("Dockerfile", RegularFile), Entry(".dockerignore", RegularFile), Entry(a + "..", Directory)]
  {
    assert (a + "../" + b)[|a| + 2] == '/';
    assert '/' !in "Dockerfile" && '/' !in ".dockerignore";
  }

  lemma {:induction false} LosesFrom(policy: Policy, root: seq<Child>, full: seq<Entry>, visible: seq<Entry>, lost: Entry)
    requires full == Listing("", root) && visible == Visible(policy, "", root)
    requires Outcome(policy, full).Ok? && lost in Outcome(policy, full).value && lost !in visible
    ensures Loses(policy, root, lost)
  {
    forall kept | forall e :: e in kept ==> e in visible ensures Outcome(policy, kept) != Outcome(policy, full) {
      OutcomeMembers(policy, kept);
    }
  }

  lemma {:induction false} EscapingListing(policy: Policy, a: string, b: string)
    requires PruneAnswer(policy, a + "..") == Ok(true)
    ensures var here := [Entry("Dockerfile", RegularFile), Entry(".dockerignore", RegularFile), Entry(a + "..", Directory)];
            && Visible(policy, "", EscapingTree(a, b)) == here
            && Listing("", EscapingTree(a, b)) == here + [Entry(a + "../" + b, RegularFile)]
  {
    var dir := a + "..";
    var inner := [Child(b, File)];
    var last := [Child(dir, Dir(inner))];
    assert Under(dir, b) == a + "../" + b;
    assert inner + [] == inner;
    FirstFile(policy, dir, b, []);
    OnlyDirectory(policy, dir, inner);
    FirstFile(policy, "", ".dockerignore", last);
    FirstFile(policy, "", "Dockerfile", [Child(".dockerignore", File)] + last);
    assert [Child("Dockerfile", File)] + ([Child(".dockerignore", File)] + last) == EscapingTree(a, b);
  }

  lemma {:induction false} EscapingOutcome(policy: Policy, visible: seq<Entry>, lost: Entry)
    requires policy.sources == ["."] && HasDockerfile(policy, visible) && Chosen(policy, lost.path)
    ensures Outcome(policy, visible + [lost]).Ok? && lost in Outcome(policy, visible + [lost]).value
  {
    var full := visible + [lost];
    assert full[|visible|] == lost;
    assert HasDockerfile(policy, full) by {
      var e :| e in visible && e.path == policy.dockerfile && !e.kind.Directory? && !e.kind.Symlink?;
      assert e in full;
    }
    RootSource();
    assert SourceHits(".", Split(lost.path));
    assert policy.sources[1..] == [];
    assert FirstMissing([], full) == None;
    ChosenMembers(policy, full);
    SortMembers(ChosenOf(policy, full), PathLe);
  }

  /** One such context: the directory `x..` with the file `y`. */
  lemma {:induction false} EscapingExample(a: string, b: string)
    requires a == "x" && b == "y"
    ensures Loses(EscapingPolicy(a, b), EscapingTree(a, b), Entry(a + "../" + b, RegularFile))
  {
    ExampleNames(a, b);
    EscapingTreeLoses(a, b);
  }

  lemma {:induction false} ExampleNames(a: string, b: string)
    requires a == "x" && b == "y"
    ensures PlainName(a) && PlainName(b) && b != a + ".."
  {
  }
}
