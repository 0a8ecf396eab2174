/** The two derived orders on versions: by priority, and by generation. */
module VersionOrder {
  import opened Common
  import opened Versions

  datatype Ordering = Less | Equal | Greater
  {
    function Reverse(): Ordering {
      match this
      case Less => Greater
      case Equal => Equal
      case Greater => Less
    }

    /** Lexicographic: the next field decides only between equals. */
    function Then(next: Ordering): Ordering {
      if Equal? then next else this
    }
  }

  function CompareInt(a: int, b: int): Ordering {
    if a < b then Less else if a == b then Equal else Greater
  }

  function CompareString(a: string, b: string): Ordering {
    if a == "" then (if b == "" then Equal else Less)
    else if b == "" then Greater
    else CompareInt(a[0] as int, b[0] as int).Then(CompareString(a[1..], b[1..]))
  }

  function CompareMinor(a: Option<U32>, b: Option<U32>): Ordering {
    match (a, b)
    case (None, None) => Equal
    case (None, Some(_)) => Less
    case (Some(_), None) => Greater
    case (Some(x), Some(y)) => CompareInt(x, y)
  }

  /** `Option<Reverse<String>>`: alphabetically earlier names are greater. */
  function CompareName(a: Option<string>, b: Option<string>): Ordering {
    match (a, b)
    case (None, None) => Equal
    case (None, Some(_)) => Less
    case (Some(_), None) => Greater
    case (Some(x), Some(y)) => CompareString(x, y).Reverse()
  }

  datatype Stability = NonconformantRank | AlphaRank | BetaRank | StableRank

  function Rank(s: Stability): int {
    match s
    case NonconformantRank => 0
    case AlphaRank => 1
    case BetaRank => 2
    case StableRank => 3
  }

  /** The fields both orders compare; they differ in which of the first two goes first. */
  datatype Key = Key(stability: Stability, major: U32, minor: Option<U32>, nonconformant: Option<string>)

  function KeyOf(v: Version): Key {
    match v
    case Stable(major) => Key(StableRank, major, None, None)
    case Beta(major, minor) => Key(BetaRank, major, minor, None)
    case Alpha(major, minor) => Key(AlphaRank, major, minor, None)
    case Nonconformant(text) => Key(NonconformantRank, 0, None, Some(text))
  }

  function ComparePriority(a: Version, b: Version): Ordering {
    var (x, y) := (KeyOf(a), KeyOf(b));
    CompareInt(Rank(x.stability), Rank(y.stability))
    .Then(CompareInt(x.major, y.major))
    .Then(CompareMinor(x.minor, y.minor))
    .Then(CompareName(x.nonconformant, y.nonconformant))
  }

  function CompareGeneration(a: Version, b: Version): Ordering {
    var (x, y) := (KeyOf(a), KeyOf(b));
    CompareInt(x.major, y.major)
    .Then(CompareInt(Rank(x.stability), Rank(y.stability)))
    .Then(CompareMinor(x.minor, y.minor))
    .Then(CompareName(x.nonconformant, y.nonconformant))
  }

  /** A comparison that orders every two values and identifies only equal ones. */
  ghost predicate TotalOrder<T(!new)>(compare: (T, T) -> Ordering) {
    && (forall a, b :: compare(a, b).Equal? <==> a == b)
    && (forall a, b :: compare(b, a) == compare(a, b).Reverse())
    && (forall a, b, c :: compare(a, b).Less? && compare(b, c).Less? ==> compare(a, c).Less?)
  }

  lemma {:induction false} StringsSame(a: string, b: string)
    ensures CompareString(a, b).Equal? <==> a == b
    ensures CompareString(b, a) == CompareString(a, b).Reverse()
  {
    if a != "" && b != "" {
      StringsSame(a[1..], b[1..]);
      assert a == [a[0]] + a[1..] && b == [b[0]] + b[1..];
    }
  }

  lemma {:induction false} StringsTransitive(a: string, b: string, c: string)
    requires CompareString(a, b).Less? && CompareString(b, c).Less?
    ensures CompareString(a, c).Less?
  {
    if a != "" && a[0] == b[0] == c[0] {
      StringsTransitive(a[1..], b[1..], c[1..]);
    }
  }

  lemma NamesOrdered(a: Option<string>, b: Option<string>, c: Option<string>)
    ensures CompareName(a, b).Equal? <==> a == b
    ensures CompareName(b, a) == CompareName(a, b).Reverse()
    ensures CompareName(a, b).Less? && CompareName(b, c).Less? ==> CompareName(a, c).Less?
  {
    if a.Some? && b.Some? {
      StringsSame(a.value, b.value);
      if c.Some? && CompareName(a, b).Less? && CompareName(b, c).Less? {
        StringsSame(b.value, c.value);
        StringsTransitive(c.value, b.value, a.value);
        StringsSame(a.value, c.value);
      }
    }
  }

  /** Main result: priority is a total order on versions. */
  lemma PriorityTotal()
    ensures TotalOrder(ComparePriority)
  {
    forall a: Version, b: Version, c: Version
      ensures ComparePriority(a, b).Equal? <==> a == b
      ensures ComparePriority(b, a) == ComparePriority(a, b).Reverse()
      ensures ComparePriority(a, b).Less? && ComparePriority(b, c).Less? ==> ComparePriority(a, c).Less?
    {
      NamesOrdered(KeyOf(a).nonconformant, KeyOf(b).nonconformant, KeyOf(c).nonconformant);
    }
  }

  /** Main result: generation is a total order on versions. */
  lemma GenerationTotal()
    ensures TotalOrder(CompareGeneration)
  {
    forall a: Version, b: Version, c: Version
      ensures CompareGeneration(a, b).Equal? <==> a == b
      ensures CompareGeneration(b, a) == CompareGeneration(a, b).Reverse()
      ensures CompareGeneration(a, b).Less? && CompareGeneration(b, c).Less? ==> CompareGeneration(a, c).Less?
    {
      NamesOrdered(KeyOf(a).nonconformant, KeyOf(b).nonconformant, KeyOf(c).nonconformant);
    }
  }

  /** Priority ranks stability first; generation ranks every conformant version above every other string. */
  lemma Ranking(a: Version, b: Version)
    ensures Rank(KeyOf(a).stability) > Rank(KeyOf(b).stability) ==> ComparePriority(a, b).Greater?
    ensures !a.Nonconformant? && b.Nonconformant? ==> CompareGeneration(a, b).Greater?
    ensures !a.Nonconformant? && !b.Nonconformant? && a.major > b.major ==> CompareGeneration(a, b).Greater?
  {
  }

  // ------------------------------------------- the orders, told by the versions

  predicate MoreStable(a: Version, b: Version) {
    || (a.Stable? && !b.Stable?)
    || (a.Beta? && (b.Alpha? || b.Nonconformant?))
    || (a.Alpha? && b.Nonconformant?)
  }

  /** A later minor of the same kind of version; a version without one comes before all that have one. */
  predicate LaterMinor(a: Option<U32>, b: Option<U32>) {
    a.Some? && (b.None? || a.value > b.value)
  }

  predicate LaterInKind(a: Version, b: Version) {
    (a.Beta? && b.Beta? && LaterMinor(a.minor, b.minor)) || (a.Alpha? && b.Alpha? && LaterMinor(a.minor, b.minor))
  }

  /** Alphabetically before: a proper prefix, or a smaller character at the first difference. */
  ghost predicate Before(a: string, b: string) {
    exists n | 0 <= n <= |a| && n <= |b| :: FirstDifference(a, b, n)
  }

  predicate FirstDifference(a: string, b: string, n: nat)
    requires n <= |a| && n <= |b|
  {
    a[..n] == b[..n] && n < |b| && (n == |a| || a[n] < b[n])
  }

  ghost predicate HigherPriority(a: Version, b: Version) {
    || MoreStable(a, b)
    || (a.Nonconformant? && b.Nonconformant? && Before(a.text, b.text))
    || (!a.Nonconformant? && !b.Nonconformant? && !MoreStable(b, a) && a.major > b.major)
    || (!a.Nonconformant? && !b.Nonconformant? && a.major == b.major && LaterInKind(a, b))
  }

  ghost predicate LaterGeneration(a: Version, b: Version) {
    || (!a.Nonconformant? && b.Nonconformant?)
    || (a.Nonconformant? && b.Nonconformant? && Before(a.text, b.text))
    || (!a.Nonconformant? && !b.Nonconformant? && a.major > b.major)
    || (!a.Nonconformant? && !b.Nonconformant? && a.major == b.major && (MoreStable(a, b) || LaterInKind(a, b)))
  }

  lemma {:induction false} LessIsBefore(a: string, b: string)
    ensures CompareString(a, b).Less? <==> Before(a, b)
  {
    if a == "" {
      if b != "" {
        assert FirstDifference(a, b, 0);
      }
    } else if b != "" {
      LessIsBefore(a[1..], b[1..]);
      if a[0] == b[0] {
        if n: nat :| n <= |a[1..]| && n <= |b[1..]| && FirstDifference(a[1..], b[1..], n) {
          assert a[..n + 1] == [a[0]] + a[1..][..n] && b[..n + 1] == [b[0]] + b[1..][..n];
          assert FirstDifference(a, b, n + 1);
        }
        if n: nat :| n <= |a| && n <= |b| && FirstDifference(a, b, n) {
          assert a[1..][..n - 1] == a[..n][1..] && b[1..][..n - 1] == b[..n][1..];
          assert FirstDifference(a[1..], b[1..], n - 1);
        }
      } else {
        if a[0] < b[0] {
          assert FirstDifference(a, b, 0);
        }
      }
    }
  }

  /** Main result: which of two versions has priority: the more stable, then the higher major, then the later minor; names alphabetically. */
  lemma PriorityIs(a: Version, b: Version)
    ensures ComparePriority(a, b).Greater? <==> HigherPriority(a, b)
  {
    if a.Nonconformant? && b.Nonconformant? {
      LessIsBefore(a.text, b.text);
    }
  }

  /** Main result: which of two versions is the later generation: the higher major, then the more stable, then the later minor. */
  lemma GenerationIs(a: Version, b: Version)
    ensures CompareGeneration(a, b).Greater? <==> LaterGeneration(a, b)
  {
    if a.Nonconformant? && b.Nonconformant? {
      LessIsBefore(a.text, b.text);
    }
  }
}
