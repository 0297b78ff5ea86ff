/** Strings as the store uses them. A Go string and a []byte are both sequences of bytes, so both
    are written `string` here, one character per byte.

    The module also defines the sort that stands for the library call `sort.Slice`, and proves that
    its result does not depend on the order in which the elements were collected. */
module Text {

  // ----- byte order -----

  predicate Less(a: string, b: string) {
    b != "" && (a == "" || a[0] < b[0] || (a[0] == b[0] && Less(a[1..], b[1..])))
  }

  lemma {:induction false} LessIsStrict(a: string, b: string)
    ensures !Less(a, a)
    ensures Less(a, b) ==> !Less(b, a)
    decreases |a|
  {
    if a != "" {
      LessIsStrict(a[1..], if b == "" then "" else b[1..]);
    }
  }

  lemma {:induction false} LessIsTotal(a: string, b: string)
    ensures a == b || Less(a, b) || Less(b, a)
  {
    if a != "" && b != "" && a[0] == b[0] {
      LessIsTotal(a[1..], b[1..]);
      assert a == [a[0]] + a[1..] && b == [b[0]] + b[1..];
    }
  }

  lemma {:induction false} LessIsTransitive(a: string, b: string, c: string)
    requires Less(a, b) && Less(b, c)
    ensures Less(a, c)
  {
    if a != "" && a[0] == b[0] && b[0] == c[0] {
      LessIsTransitive(a[1..], b[1..], c[1..]);
    }
  }

  // ----- sorting -----

  function Insert<T>(x: T, xs: seq<T>, lt: (T, T) -> bool): seq<T> {
    if xs == [] || lt(x, xs[0]) then [x] + xs else [xs[0]] + Insert(x, xs[1..], lt)
  }

  function Sort<T>(xs: seq<T>, lt: (T, T) -> bool): seq<T> {
    if xs == [] then [] else Insert(xs[0], Sort(xs[1..], lt), lt)
  }

  ghost predicate Ascending<T>(xs: seq<T>, lt: (T, T) -> bool) {
    forall i, j :: 0 <= i < j < |xs| ==> lt(xs[i], xs[j])
  }

  /** `lt` is a strict total order on the elements of `xs`, which are pairwise distinct. */
  ghost predicate Orders<T>(xs: seq<T>, lt: (T, T) -> bool) {
    && (forall i, j :: 0 <= i < j < |xs| ==> xs[i] != xs[j])
    && (forall x :: x in xs ==> !lt(x, x))
    && (forall x, y :: x in xs && y in xs && x != y ==> lt(x, y) || lt(y, x))
    && Transitive(xs, lt)
  }

  ghost predicate Transitive<T>(xs: seq<T>, lt: (T, T) -> bool) {
    forall x, y, z :: x in xs && y in xs && z in xs && lt(x, y) && lt(y, z) ==> lt(x, z)
  }

  lemma {:induction false} InsertKeeps<T>(x: T, xs: seq<T>, lt: (T, T) -> bool)
    ensures multiset(Insert(x, xs, lt)) == multiset{x} + multiset(xs)
    ensures |Insert(x, xs, lt)| == |xs| + 1
  {
    if xs == [] || lt(x, xs[0]) {
    } else {
      InsertKeeps(x, xs[1..], lt);
      assert xs == [xs[0]] + xs[1..];
    }
  }

  lemma {:induction false} SortPermutes<T>(xs: seq<T>, lt: (T, T) -> bool)
    ensures multiset(Sort(xs, lt)) == multiset(xs)
    ensures |Sort(xs, lt)| == |xs|
    ensures forall x :: x in xs <==> x in Sort(xs, lt)
  {
    if xs != [] {
      SortPermutes(xs[1..], lt);
      InsertKeeps(xs[0], Sort(xs[1..], lt), lt);
      assert xs == [xs[0]] + xs[1..];
    }
    forall x
      ensures x in Sort(xs, lt) <==> x in xs
    {
      assert x in Sort(xs, lt) <==> x in multiset(Sort(xs, lt));
    }
  }

  ghost predicate Distinct<T>(xs: seq<T>) {
    forall i, j :: 0 <= i < j < |xs| ==> xs[i] != xs[j]
  }

  lemma {:induction false} DistinctCounts<T>(xs: seq<T>)
    requires Distinct(xs)
    ensures forall x :: multiset(xs)[x] == if x in xs then 1 else 0
  {
    if xs != [] {
      DistinctCounts(xs[1..]);
      assert xs == [xs[0]] + xs[1..];
      assert xs[0] !in xs[1..];
    }
  }

  lemma SameMembers<T>(xs: seq<T>, ys: seq<T>)
    requires Distinct(xs) && Distinct(ys) && forall x :: x in xs <==> x in ys
    ensures multiset(xs) == multiset(ys)
  {
    DistinctCounts(xs);
    DistinctCounts(ys);
  }

  lemma RepeatCounts<T>(xs: seq<T>, i: nat, j: nat)
    requires i < j < |xs| && xs[i] == xs[j]
    ensures multiset(xs)[xs[j]] >= 2
  {
    assert xs == xs[..j] + ([xs[j]] + xs[j + 1..]);
    assert xs[..j][i] == xs[j];
    assert xs[j] in multiset(xs[..j]);
  }

  lemma {:induction false} InsertAscending<T>(x: T, xs: seq<T>, lt: (T, T) -> bool)
    requires Ascending(xs, lt)
    requires forall y :: y in xs ==> lt(x, y) || lt(y, x)
    requires Transitive([x] + xs, lt)
    ensures Ascending(Insert(x, xs, lt), lt)
  {
    if xs == [] {
    } else if lt(x, xs[0]) {
      forall i | 0 <= i < |xs|
        ensures lt(x, xs[i])
      {
        assert x in [x] + xs && xs[0] in [x] + xs && xs[i] in [x] + xs;
      }
    } else {
      assert forall y :: y in [x] + xs[1..] ==> y in [x] + xs;
      InsertAscending(x, xs[1..], lt);
      InsertKeeps(x, xs[1..], lt);
      var rest := Insert(x, xs[1..], lt);
      forall i | 0 <= i < |rest|
        ensures lt(xs[0], rest[i])
      {
        assert rest[i] in multiset(rest);
        assert rest[i] == x || rest[i] in xs[1..];
      }
    }
  }

  lemma NoneAscends<T>(lt: (T, T) -> bool)
    ensures Ascending([], lt)
  {
  }

  lemma TransitiveWithin<T>(xs: seq<T>, ys: seq<T>, lt: (T, T) -> bool)
    requires Transitive(xs, lt) && forall y :: y in ys ==> y in xs
    ensures Transitive(ys, lt)
  {
  }

  lemma {:induction false} SortAscending<T>(xs: seq<T>, lt: (T, T) -> bool)
    requires Orders(xs, lt)
    ensures Ascending(Sort(xs, lt), lt)
  {
    hide Transitive, Ascending, Insert;
    if xs == [] {
      NoneAscends(lt);
    } else {
      var rest := xs[1..];
      assert forall y :: y in rest ==> y in xs && y != xs[0];
      var sorted := Sort(rest, lt);
      SortPermutes(rest, lt);
      TransitiveWithin(xs, rest, lt);
      SortAscending(rest, lt);
      forall y | y in [xs[0]] + sorted
        ensures y in xs
      {
        assert y == xs[0] || y in sorted;
        assert y in multiset(sorted) ==> y in multiset(rest);
      }
      TransitiveWithin(xs, [xs[0]] + sorted, lt);
      InsertAscending(xs[0], sorted, lt);
    }
  }

  lemma TailAscends<T>(xs: seq<T>, lt: (T, T) -> bool)
    requires xs != [] && Ascending(xs, lt)
    ensures Ascending(xs[1..], lt)
  {
  }

  lemma TailMultiset<T>(xs: seq<T>)
    requires xs != []
    ensures multiset(xs[1..]) == multiset(xs) - multiset{xs[0]}
  {
    assert xs == [xs[0]] + xs[1..];
  }

  /** A strictly ascending list is the only one with its elements. */
  lemma {:induction false} AscendingIsUnique<T>(xs: seq<T>, ys: seq<T>, lt: (T, T) -> bool)
    requires Ascending(xs, lt) && Ascending(ys, lt)
    requires multiset(xs) == multiset(ys)
    requires forall x :: x in xs ==> !lt(x, x)
    requires Transitive(xs, lt)
    ensures xs == ys
  {
    hide Transitive, Ascending;
    assert |xs| == |multiset(xs)| == |multiset(ys)| == |ys|;
    if xs != [] {
      SameHead(xs, ys, lt);
      TailMultiset(xs);
      TailMultiset(ys);
      TransitiveWithin(xs, xs[1..], lt);
      TailAscends(xs, lt);
      TailAscends(ys, lt);
      AscendingIsUnique(xs[1..], ys[1..], lt);
      assert xs == [xs[0]] + xs[1..] && ys == [ys[0]] + ys[1..];
    }
  }

  lemma SameHead<T>(xs: seq<T>, ys: seq<T>, lt: (T, T) -> bool)
    requires xs != [] && ys != [] && Ascending(xs, lt) && Ascending(ys, lt)
    requires multiset(xs) == multiset(ys)
    requires forall x :: x in xs ==> !lt(x, x)
    requires Transitive(xs, lt)
    ensures xs[0] == ys[0]
  {
    assert xs[0] in multiset(ys) && ys[0] in multiset(xs);
    var i :| 0 <= i < |ys| && ys[i] == xs[0];
    var j :| 0 <= j < |xs| && xs[j] == ys[0];
    // Otherwise each head would precede the other.
  }

  /** Sorting forgets the order in which the elements were collected. */
  lemma SortIsCanonical<T>(xs: seq<T>, ys: seq<T>, lt: (T, T) -> bool)
    requires Orders(xs, lt) && Orders(ys, lt)
    requires multiset(xs) == multiset(ys)
    ensures Sort(xs, lt) == Sort(ys, lt)
  {
    var a, b := Sort(xs, lt), Sort(ys, lt);
    assert Ascending(a, lt) by { SortAscending(xs, lt); }
    assert Ascending(b, lt) by { SortAscending(ys, lt); }
    assert multiset(a) == multiset(b) && forall x :: x in a <==> x in xs by {
      SortPermutes(xs, lt);
      SortPermutes(ys, lt);
    }
    assert Transitive(a, lt);
    AscendingIsUnique(a, b, lt);
  }

  lemma {:induction false} SortOfAscending<T>(xs: seq<T>, lt: (T, T) -> bool)
    requires Ascending(xs, lt)
    ensures Sort(xs, lt) == xs
  {
    if xs != [] {
      SortOfAscending(xs[1..], lt);
      assert xs == [xs[0]] + xs[1..];
      assert |xs| > 1 ==> lt(xs[0], xs[1..][0]);
    }
  }

  /** The order of `sort.Slice` calls that compare one text of each element. */
  function By<T>(text: T -> string): (T, T) -> bool {
    (a, b) => Less(text(a), text(b))
  }

  ghost predicate DistinctBy<T>(xs: seq<T>, text: T -> string) {
    forall i, j :: 0 <= i < j < |xs| ==> text(xs[i]) != text(xs[j])
  }

  lemma ByOrders<T>(xs: seq<T>, text: T -> string)
    requires DistinctBy(xs, text)
    ensures Orders(xs, By(text))
  {
    forall x | x in xs
      ensures !By(text)(x, x)
    {
      LessIsStrict(text(x), text(x));
    }
    forall x, y | x in xs && y in xs && x != y
      ensures By(text)(x, y) || By(text)(y, x)
    {
      var i :| 0 <= i < |xs| && xs[i] == x;
      var j :| 0 <= j < |xs| && xs[j] == y;
      assert i < j || j < i;
      LessIsTotal(text(x), text(y));
    }
    forall x, y, z | x in xs && y in xs && z in xs && By(text)(x, y) && By(text)(y, z)
      ensures By(text)(x, z)
    {
      LessIsTransitive(text(x), text(y), text(z));
    }
  }

  lemma AscendingDistinct<T>(xs: seq<T>, text: T -> string)
    requires Ascending(xs, By(text))
    ensures DistinctBy(xs, text)
  {
    forall i, j | 0 <= i < j < |xs|
      ensures text(xs[i]) != text(xs[j])
    {
      assert By(text)(xs[i], xs[j]);
      LessIsStrict(text(xs[i]), text(xs[j]));
    }
  }

  /** The names of the elements of a set, in byte order. */
  ghost predicate ListsInOrder(xs: seq<string>, names: set<string>) {
    && Ascending(xs, Less)
    && (forall x :: x in xs <==> x in names)
  }

  /** Any list of distinct names can be put in order. */
  lemma SortListsInOrder(xs: seq<string>)
    requires forall i, j :: 0 <= i < j < |xs| ==> xs[i] != xs[j]
    ensures ListsInOrder(Sort(xs, Less), set x | x in xs)
  {
    forall x, y | x in xs && y in xs && x != y
      ensures Less(x, y) || Less(y, x)
    {
      LessIsTotal(x, y);
    }
    forall x | x in xs
      ensures !Less(x, x)
    {
      LessIsStrict(x, x);
    }
    forall x, y, z | x in xs && y in xs && z in xs && Less(x, y) && Less(y, z)
      ensures Less(x, z)
    {
      LessIsTransitive(x, y, z);
    }
    SortAscending(xs, Less);
    SortPermutes(xs, Less);
  }

  lemma {:induction false} OrderedExists(names: set<string>) returns (xs: seq<string>)
    ensures ListsInOrder(xs, names)
  {
    var ys := Enumerate(names);
    SortListsInOrder(ys);
    xs := Sort(ys, Less);
    assert (set y | y in ys) == names;
  }

  lemma {:induction false} Enumerate(names: set<string>) returns (xs: seq<string>)
    ensures forall i, j :: 0 <= i < j < |xs| ==> xs[i] != xs[j]
    ensures forall x :: x in xs <==> x in names
  {
    if names == {} {
      xs := [];
    } else {
      var x :| x in names;
      var rest := Enumerate(names - {x});
      xs := rest + [x];
    }
  }

  lemma EmptyOrder(xs: seq<string>, names: set<string>)
    requires ListsInOrder(xs, names)
    ensures xs == [] <==> names == {}
  {
    if xs != [] {
      assert xs[0] in names;
    }
    if names != {} {
      var x :| x in names;
      assert x in xs;
    }
  }

  lemma {:induction false} OrderIsUnique(xs: seq<string>, ys: seq<string>, names: set<string>)
    requires ListsInOrder(xs, names) && ListsInOrder(ys, names)
    ensures xs == ys
  {
    EmptyOrder(xs, names);
    EmptyOrder(ys, names);
    if xs != [] {
      assert xs[0] in names && xs[0] in ys;
      assert ys[0] in names && ys[0] in xs;
      LessIsStrict(xs[0], ys[0]);
      assert xs[0] == ys[0];
      TailInOrder(xs, names);
      TailInOrder(ys, names);
      OrderIsUnique(xs[1..], ys[1..], names - {xs[0]});
      assert xs == [xs[0]] + xs[1..] && ys == [ys[0]] + ys[1..];
    }
  }

  lemma TailInOrder(xs: seq<string>, names: set<string>)
    requires ListsInOrder(xs, names) && xs != []
    ensures ListsInOrder(xs[1..], names - {xs[0]})
  {
    LessIsStrict(xs[0], xs[0]);
    assert forall x :: x in xs <==> x == xs[0] || x in xs[1..];
    assert xs[0] !in xs[1..];
  }

  /** The names in byte order, as `sort.Strings` leaves them. */
  ghost function Ordered(names: set<string>): (xs: seq<string>)
    ensures ListsInOrder(xs, names)
  {
    OrderedHasWitness(names);
    var xs :| ListsInOrder(xs, names);
    xs
  }

  lemma OrderedHasWitness(names: set<string>)
    ensures exists xs :: ListsInOrder(xs, names)
  {
    var xs := OrderedExists(names);
  }

  function Min(a: int, b: int): int { if a < b then a else b }

  // ----- splitting -----

  /** `strings.IndexByte`, with |s| for "absent". */
  function IndexOf(s: string, c: char): (i: nat)
    ensures i <= |s|
    ensures i < |s| ==> s[i] == c
    ensures forall k :: 0 <= k < i ==> s[k] != c
  {
    if s == "" || s[0] == c then 0 else 1 + IndexOf(s[1..], c)
  }

  /** `strings.Split` at a single separator byte. */
  function Split(s: string, c: char): seq<string>
    decreases |s|
  {
    var i := IndexOf(s, c);
    if i == |s| then [s] else [s[..i]] + Split(s[i + 1..], c)
  }

  // ----- identifiers and paths -----

  predicate Alphanumeric(c: char) {
    'a' <= c <= 'z' || 'A' <= c <= 'Z' || '0' <= c <= '9'
  }

  /** The regular expression `logicalID`. */
  predicate LogicalId(s: string) {
    && 1 <= |s| <= 128
    && Alphanumeric(s[0])
    && forall i :: 0 <= i < |s| ==> Alphanumeric(s[i]) || s[i] == '_' || s[i] == '-'
  }

  /** The regular expression `nativeOperation`. */
  predicate OperationName(s: string) {
    && 1 <= |s| <= 128
    && 'a' <= s[0] <= 'z'
    && forall i :: 0 <= i < |s| ==> 'a' <= s[i] <= 'z' || '0' <= s[i] <= '9' || s[i] == '_' || s[i] == '.'
  }

  predicate ValidPath(p: string) {
    && 1 <= |p| <= 1024
    && (forall i :: 0 <= i < |p| ==> 32 <= p[i] as int && p[i] as int != 127 && p[i] != '\\' && p[i] != ':')
    && (forall part :: part in Split(p, '/') ==> part != "" && part != "." && part != "..")
  }

  /** Whether `a` names a directory that contains `p`. */
  predicate Ancestor(a: string, p: string) {
    |a| < |p| && p[|a|] == '/' && p[..|a|] == a
  }
}
