/** Merging single-version custom resource definitions into one with several versions. */
module Crds {
  import opened Common

  datatype CrdVersion = CrdVersion(name: string, served: bool, storage: bool, schema: string)

  datatype Crd = Crd(group: string, kind: string, scope: string, versions: seq<CrdVersion>)

  datatype Property = Group | Kind | Scope

  datatype MergeError =
    | MissingCrds
    | MissingVersions
    | MultiVersionCrd
    | MissingRootVersion(name: string)
    | PropertyMismatch(property: Property)

  predicate SingleVersion(c: Crd) {
    |c.versions| == 1
  }

  ghost predicate AllSingle(crds: seq<Crd>) {
    forall i | 0 <= i < |crds| :: SingleVersion(crds[i])
  }

  /** The single version of the definition has the given name. */
  predicate Gives(c: Crd, name: string) {
    SingleVersion(c) && c.versions[0].name == name
  }

  predicate SameResource(a: Crd, b: Crd) {
    a.group == b.group && a.kind == b.kind && a.scope == b.scope
  }

  /** A version as it was given, without its storage flag. */
  function Plain(v: CrdVersion): CrdVersion {
    v.(storage := false)
  }

  function PlainVersions(vs: seq<CrdVersion>): seq<CrdVersion> {
    seq(|vs|, i requires 0 <= i < |vs| => Plain(vs[i]))
  }

  /** All versions of all definitions, each as often as it is given, storage flags aside. */
  function AllVersions(crds: seq<Crd>): multiset<CrdVersion> {
    if crds == [] then multiset{}
    else AllVersions(crds[..|crds| - 1]) + multiset(PlainVersions(crds[|crds| - 1].versions))
  }

  /** When merging succeeds: a caller can check this beforehand. */
  ghost predicate Mergeable(crds: seq<Crd>, stored: string) {
    && crds != []
    && AllSingle(crds)
    && (exists c <- crds :: Gives(c, stored))
    && (forall a, b | a in crds && b in crds :: SameResource(a, b))
  }

  /** The first property, in the order group, kind, scope, in which a definition differs from the root. */
  function Mismatch(c: Crd, root: Crd): Option<Property> {
    if c.group != root.group then Some(Group)
    else if c.kind != root.kind then Some(Kind)
    else if c.scope != root.scope then Some(Scope)
    else None
  }

  ghost predicate FirstUnfit(crds: seq<Crd>, i: nat) {
    i < |crds| && !SingleVersion(crds[i]) && forall j | 0 <= j < i :: SingleVersion(crds[j])
  }

  /** The definition at position i is the first that gives the version `stored`. */
  ghost predicate FirstNamed(crds: seq<Crd>, stored: string, i: nat) {
    && i < |crds|
    && AllSingle(crds)
    && Gives(crds[i], stored)
    && (forall j | 0 <= j < i :: !Gives(crds[j], stored))
  }

  ghost predicate FirstMismatch(crds: seq<Crd>, root: Crd, i: nat) {
    i < |crds| && Mismatch(crds[i], root).Some? && forall j | 0 <= j < i :: Mismatch(crds[j], root).None?
  }

  /** When merging fails with the given error: the earliest check that fails, at the earliest definition. */
  ghost predicate FailsWith(crds: seq<Crd>, stored: string, e: MergeError) {
    match e
    case MissingCrds => crds == []
    case MissingVersions => exists i: nat :: FirstUnfit(crds, i) && crds[i].versions == []
    case MultiVersionCrd => exists i: nat :: FirstUnfit(crds, i) && crds[i].versions != []
    case MissingRootVersion(name) =>
      && crds != [] && name == stored
      && AllSingle(crds) && (forall c <- crds :: !Gives(c, stored))
    case PropertyMismatch(p) =>
      exists r: nat, i: nat ::
        FirstNamed(crds, stored, r) && FirstMismatch(crds, crds[r], i) && Mismatch(crds[i], crds[r]) == Some(p)
  }

  /** The definition a merge promises: root versions first and alone in storage, nothing lost, added or repeated. */
  ghost predicate IsMerged(merged: Crd, crds: seq<Crd>, stored: string) {
    && merged.versions != [] && merged.versions[0].name == stored
    && (forall i | 0 <= i < |merged.versions| :: merged.versions[i].storage <==> i == 0)
    && multiset(PlainVersions(merged.versions)) == AllVersions(crds)
    && (forall c <- crds :: SameResource(c, merged))
  }

  /** Versions in the order the merge pops them: from the end, with the storage flag cleared. */
  function Popped(vs: seq<CrdVersion>): seq<CrdVersion> {
    if vs == [] then [] else [Plain(vs[|vs| - 1])] + Popped(vs[..|vs| - 1])
  }

  function PoppedAll(crds: seq<Crd>): seq<CrdVersion> {
    if crds == [] then [] else Popped(crds[|crds| - 1].versions) + PoppedAll(crds[..|crds| - 1])
  }

  lemma {:induction false} PoppedSame(vs: seq<CrdVersion>)
    ensures multiset(Popped(vs)) == multiset(PlainVersions(vs))
    ensures forall v <- Popped(vs) :: !v.storage
  {
    if vs != [] {
      var n := |vs| - 1;
      PoppedSame(vs[..n]);
      assert PlainVersions(vs) == PlainVersions(vs[..n]) + [Plain(vs[n])];
    }
  }

  lemma {:induction false} PoppedAllSame(crds: seq<Crd>)
    ensures multiset(PoppedAll(crds)) == AllVersions(crds)
    ensures forall v <- PoppedAll(crds) :: !v.storage
  {
    if crds != [] {
      PoppedSame(crds[|crds| - 1].versions);
      PoppedAllSame(crds[..|crds| - 1]);
    }
  }

  lemma AllLast(crds: seq<Crd>, c: Crd)
    ensures AllVersions(crds + [c]) == AllVersions(crds) + multiset(PlainVersions(c.versions))
  {
    assert (crds + [c])[..|crds|] == crds;
  }

  lemma {:induction false} AllConcat(a: seq<Crd>, b: seq<Crd>)
    ensures AllVersions(a + b) == AllVersions(a) + AllVersions(b)
  {
    if b == [] {
      assert a + b == a;
    } else {
      var n := |b| - 1;
      AllConcat(a, b[..n]);
      AllLast(a + b[..n], b[n]);
      LastAside(a, b);
    }
  }

  lemma LastAside(a: seq<Crd>, b: seq<Crd>)
    requires b != []
    ensures a + b == a + b[..|b| - 1] + [b[|b| - 1]]
  {
  }

  lemma AllMiddle(a: seq<Crd>, c: Crd, b: seq<Crd>)
    ensures AllVersions(a + [c] + b) == AllVersions(a + b) + multiset(PlainVersions(c.versions))
  {
    AllConcat(a + [c], b);
    AllConcat(a, b);
    AllLast(a, c);
  }

  lemma PlainFlagged(v: CrdVersion, vs: seq<CrdVersion>)
    requires forall w <- vs :: !w.storage
    ensures PlainVersions([v.(storage := true)] + vs) == PlainVersions([v]) + vs
  {
    forall i | 0 <= i < |vs| ensures Plain(vs[i]) == vs[i] {
      assert vs[i] in vs;
    }
  }

  /** Combine the versions of all other definitions into the root, emptying the list from its end. */
  method Combine(root: CrdVersion, others: seq<Crd>) returns (versions: seq<CrdVersion>)
    ensures versions == [root.(storage := true)] + PoppedAll(others)
  {
    versions := [root.(storage := true)];
    ghost var all := versions + PoppedAll(others);
    var crds := others;
    while crds != []
      invariant versions + PoppedAll(crds) == all
      decreases |crds|
    {
      var left := crds[|crds| - 1].versions;
      ghost var rest := PoppedAll(crds[..|crds| - 1]);
      assert versions + (Popped(left) + rest) == versions + Popped(left) + rest;
      crds := crds[..|crds| - 1];
      while left != []
        invariant versions + Popped(left) + rest == all
        decreases |left|
      {
        var v := left[|left| - 1];
        left := left[..|left| - 1];
        assert versions + ([Plain(v)] + Popped(left)) == versions + [Plain(v)] + Popped(left);
        versions := versions + [v.(storage := false)];
      }
      assert versions + Popped(left) == versions;
    }
    assert versions + PoppedAll(crds) == versions;
  }

  /** Every definition must have exactly one version. */
  method CheckVersions(crds: seq<Crd>) returns (e: Option<MergeError>)
    ensures e.None? ==> AllSingle(crds)
    ensures e.Some? ==> !AllSingle(crds)
    ensures e.Some? ==> (e.value.MissingVersions? || e.value.MultiVersionCrd?)
    ensures e.Some? ==> forall stored :: FailsWith(crds, stored, e.value)
  {
    for i := 0 to |crds|
      invariant forall j | 0 <= j < i :: SingleVersion(crds[j])
    {
      if crds[i].versions == [] {
        assert FirstUnfit(crds, i);
        return Some(MissingVersions);
      }
      if |crds[i].versions| != 1 {
        assert FirstUnfit(crds, i);
        return Some(MultiVersionCrd);
      }
    }
    return None;
  }

  /** Position of the first definition that gives the version `stored`. */
  method FindRoot(crds: seq<Crd>, stored: string) returns (found: Option<nat>)
    requires AllSingle(crds)
    ensures found.Some? ==> FirstNamed(crds, stored, found.value)
    ensures found.None? ==> forall c <- crds :: !Gives(c, stored)
  {
    for i := 0 to |crds|
      invariant forall j | 0 <= j < i :: !Gives(crds[j], stored)
    {
      if crds[i].versions[0].name == stored {
        return Some(i);
      }
    }
    return None;
  }

  /** Every definition must agree with the root in group, kind and scope. */
  method CheckProperties(crds: seq<Crd>, root: Crd) returns (e: Option<Property>)
    ensures e.None? ==> forall c <- crds :: SameResource(c, root)
    ensures e.Some? ==> exists i: nat :: FirstMismatch(crds, root, i) && Mismatch(crds[i], root) == e
  {
    for i := 0 to |crds|
      invariant forall j | 0 <= j < i :: Mismatch(crds[j], root).None?
    {
      if crds[i].group != root.group {
        assert FirstMismatch(crds, root, i);
        return Some(Group);
      }
      if crds[i].kind != root.kind {
        assert FirstMismatch(crds, root, i);
        return Some(Kind);
      }
      if crds[i].scope != root.scope {
        assert FirstMismatch(crds, root, i);
        return Some(Scope);
      }
    }
    return None;
  }

  function Without(crds: seq<Crd>, i: nat): seq<Crd>
    requires i < |crds|
  {
    crds[..i] + crds[i + 1..]
  }

  /** The first mismatch among the others is the first among all: the root never differs from itself. */
  lemma MismatchAmongAll(crds: seq<Crd>, r: nat, k: nat)
    requires r < |crds| && FirstMismatch(Without(crds, r), crds[r], k)
    ensures var i := if k < r then k else k + 1; FirstMismatch(crds, crds[r], i) && crds[i] == Without(crds, r)[k]
  {
    var i := if k < r then k else k + 1;
    forall j | 0 <= j < i ensures Mismatch(crds[j], crds[r]).None? {
      if j < r {
        assert Without(crds, r)[j] == crds[j];
      } else if j > r {
        assert Without(crds, r)[j - 1] == crds[j];
      }
    }
  }

  lemma AllAlike(crds: seq<Crd>, r: nat)
    requires r < |crds|
    requires forall c <- Without(crds, r) :: SameResource(c, crds[r])
    ensures forall c <- crds :: SameResource(c, crds[r])
  {
    forall i | 0 <= i < |crds| ensures SameResource(crds[i], crds[r]) {
      if i < r {
        assert Without(crds, r)[i] == crds[i];
      } else if i > r {
        assert Without(crds, r)[i - 1] == crds[i];
      }
    }
  }

  lemma SplitAt(crds: seq<Crd>, r: nat)
    requires r < |crds|
    ensures crds == crds[..r] + [crds[r]] + crds[r + 1..]
  {
  }

  lemma SingleAlone(c: Crd)
    requires SingleVersion(c)
    ensures c.versions == [c.versions[0]]
  {
  }

  /** What the popping loops build from the root and the others is the promised definition. */
  lemma Assembled(crds: seq<Crd>, stored: string, r: nat, merged: Crd)
    requires FirstNamed(crds, stored, r)
    requires forall c <- Without(crds, r) :: SameResource(c, crds[r])
    requires merged == crds[r].(versions := [crds[r].versions[0].(storage := true)] + PoppedAll(Without(crds, r)))
    ensures IsMerged(merged, crds, stored)
  {
    var root, others := crds[r], Without(crds, r);
    AllAlike(crds, r);
    PoppedAllSame(others);
    SplitAt(crds, r);
    AllMiddle(crds[..r], root, crds[r + 1..]);
    PlainFlagged(root.versions[0], PoppedAll(others));
    SingleAlone(root);
    forall i | 0 < i < |merged.versions| ensures !merged.versions[i].storage {
      assert merged.versions[i] in PoppedAll(others);
    }
  }

  /** For single-version definitions, popping lists their versions from the last to the first. */
  lemma {:induction false} PoppedReversed(crds: seq<Crd>)
    requires AllSingle(crds)
    ensures |PoppedAll(crds)| == |crds|
    ensures forall j | 0 <= j < |crds| :: PoppedAll(crds)[j] == Plain(crds[|crds| - 1 - j].versions[0])
  {
    if crds != [] {
      var n := |crds| - 1;
      PoppedOne(crds[n]);
      PoppedReversed(crds[..n]);
      FirstThenRest(crds, PoppedAll(crds[..n]), n);
    }
  }

  lemma FirstThenRest(crds: seq<Crd>, rest: seq<CrdVersion>, n: nat)
    requires AllSingle(crds) && |crds| == n + 1 && |rest| == n
    requires forall j | 0 <= j < n :: rest[j] == Plain(crds[n - 1 - j].versions[0])
    ensures forall j | 0 <= j < |crds| :: ([Plain(crds[n].versions[0])] + rest)[j] == Plain(crds[n - j].versions[0])
  {
  }

  lemma PoppedOne(c: Crd)
    requires SingleVersion(c)
    ensures Popped(c.versions) == [Plain(c.versions[0])]
  {
    assert Popped(c.versions[..0]) == [];
  }

  /** The root with its own version first, in storage, then those of the others from the last to the first. */
  ghost predicate MergedInto(merged: Crd, crds: seq<Crd>, stored: string, i: nat) {
    && FirstNamed(crds, stored, i)
    && merged == crds[i].(versions := merged.versions)
    && |merged.versions| == |crds|
    && merged.versions[0] == crds[i].versions[0].(storage := true)
    && forall j | 0 < j < |crds| :: merged.versions[j] == Plain(Without(crds, i)[|crds| - 1 - j].versions[0])
  }

  lemma AssembledInto(crds: seq<Crd>, stored: string, i: nat, merged: Crd)
    requires FirstNamed(crds, stored, i)
    requires merged == crds[i].(versions := [crds[i].versions[0].(storage := true)] + PoppedAll(Without(crds, i)))
    ensures MergedInto(merged, crds, stored, i)
  {
    PoppedReversed(Without(crds, i));
  }

  /** Merge all definitions into the one that has the stored version. */
  method MergeCrds(given: seq<Crd>, stored: string) returns (r: Result<Crd, MergeError>)
    ensures r.Ok? <==> Mergeable(given, stored)
    ensures r.Ok? ==> IsMerged(r.value, given, stored)
    ensures r.Ok? ==> exists i: nat :: MergedInto(r.value, given, stored, i)
    ensures r.Err? ==> FailsWith(given, stored, r.error)
  {
    if given == [] {
      return Err(MissingCrds);
    }
    var unfit := CheckVersions(given);
    if unfit.Some? {
      return Err(unfit.value);
    }
    var found := FindRoot(given, stored);
    if found.None? {
      return Err(MissingRootVersion(stored));
    }
    var root := given[found.value];
    var others := Without(given, found.value);
    var mismatch := CheckProperties(others, root);
    if mismatch.Some? {
      ghost var k: nat :| FirstMismatch(others, root, k) && Mismatch(others[k], root) == mismatch;
      MismatchAmongAll(given, found.value, k);
      assert root in given && others[k] in given;
      return Err(PropertyMismatch(mismatch.value));
    }
    AllAlike(given, found.value);
    var versions := Combine(root.versions[0], others);
    r := Ok(root.(versions := versions));
    Assembled(given, stored, found.value, r.value);
    AssembledInto(given, stored, found.value, r.value);
  }

  lemma MismatchParts(crds: seq<Crd>, root: Crd, i: nat)
    requires FirstMismatch(crds, root, i)
    ensures !SameResource(crds[i], root)
  {
  }

  /** A list that merges has no explanation for a failure. */
  lemma FailureExcludesMerge(crds: seq<Crd>, stored: string, e: MergeError)
    requires FailsWith(crds, stored, e)
    ensures !Mergeable(crds, stored)
  {
    if e.PropertyMismatch? {
      var r: nat, i: nat :|
        FirstNamed(crds, stored, r) && FirstMismatch(crds, crds[r], i) && Mismatch(crds[i], crds[r]) == Some(e.property);
      MismatchParts(crds, crds[r], i);
      var a, b := crds[i], crds[r];
      assert a in crds && b in crds && !SameResource(a, b);
    }
  }

  lemma FirstUnique(crds: seq<Crd>, stored: string, r: nat, q: nat)
    requires FirstNamed(crds, stored, r) && FirstNamed(crds, stored, q)
    ensures r == q
  {
  }

  lemma MismatchUnique(crds: seq<Crd>, root: Crd, i: nat, j: nat)
    requires FirstMismatch(crds, root, i) && FirstMismatch(crds, root, j)
    ensures i == j
  {
  }

  /** A failure has one explanation only. */
  lemma ErrorUnique(crds: seq<Crd>, stored: string, e: MergeError, f: MergeError)
    requires FailsWith(crds, stored, e) && FailsWith(crds, stored, f)
    ensures e == f
  {
    if e.PropertyMismatch? && f.PropertyMismatch? {
      var r: nat, i: nat :|
        FirstNamed(crds, stored, r) && FirstMismatch(crds, crds[r], i) && Mismatch(crds[i], crds[r]) == Some(e.property);
      var q: nat, j: nat :|
        FirstNamed(crds, stored, q) && FirstMismatch(crds, crds[q], j) && Mismatch(crds[j], crds[q]) == Some(f.property);
      FirstUnique(crds, stored, r, q);
      MismatchUnique(crds, crds[r], i, j);
    }
  }
}
