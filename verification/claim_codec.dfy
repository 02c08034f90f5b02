/** The cluster claim's value: a comma-separated, sorted list of feature names. */
module ClaimCodec {

  predicate CommaFree(s: string) {
    ',' !in s
  }

  /** The pieces of a string that starts with `c`, given those of its rest. */
  function Prepend(c: char, rest: seq<string>): (pieces: seq<string>)
    requires rest != []
    ensures pieces != []
  {
    if c == ',' then [""] + rest else [[c] + rest[0]] + rest[1..]
  }

  /** `strings.Split(s, ",")`: one piece more than there are commas, so never none. */
  function Split(s: string): (pieces: seq<string>)
    ensures pieces != []
  {
    if s == "" then [""] else Prepend(s[0], Split(s[1..]))
  }

  /** `strings.Join(xs, ",")`. */
  function Join(xs: seq<string>): string {
    if xs == [] then ""
    else if |xs| == 1 then xs[0]
    else xs[0] + "," + Join(xs[1..])
  }

  lemma {:induction false} PiecesAreCommaFree(s: string)
    ensures forall i :: 0 <= i < |Split(s)| ==> CommaFree(Split(s)[i])
  {
    if s != "" {
      PiecesAreCommaFree(s[1..]);
    }
  }

  lemma {:induction false} SplitCommaFree(s: string)
    requires CommaFree(s)
    ensures Split(s) == [s]
  {
    if s != "" {
      SplitCommaFree(s[1..]);
      assert s[0] in s && [s[0]] + s[1..] == s;
    }
  }

  lemma {:induction false} PrependToConcat(c: char, one: seq<string>, two: seq<string>)
    requires one != []
    ensures Prepend(c, one + two) == Prepend(c, one) + two
  {
    assert (one + two)[0] == one[0] && (one + two)[1..] == one[1..] + two;
  }

  lemma {:induction false} SplitAtComma(a: string, b: string)
    ensures Split(a + "," + b) == Split(a) + Split(b)
  {
    var s := a + "," + b;
    if a == "" {
      assert s[0] == ',' && s[1..] == b;
    } else {
      assert s[0] == a[0] && s[1..] == a[1..] + "," + b;
      SplitAtComma(a[1..], b);
      PrependToConcat(a[0], Split(a[1..]), Split(b));
    }
  }

  /** The hub reads back the list that the spoke wrote if and only if there is one and its names are comma-free. */
  lemma {:induction false} RoundTrip(xs: seq<string>)
    ensures Split(Join(xs)) == xs <==> xs != [] && forall i :: 0 <= i < |xs| ==> CommaFree(xs[i])
  {
    if Split(Join(xs)) == xs {
      PiecesAreCommaFree(Join(xs));
    } else if xs != [] && forall i :: 0 <= i < |xs| ==> CommaFree(xs[i]) {
      SplitCommaFree(xs[0]);
      if |xs| > 1 {
        SplitAtComma(xs[0], Join(xs[1..]));
        RoundTrip(xs[1..]);
      }
    }
  }

  /** The features that a claim value stands for. */
  function Decode(value: string): set<string> {
    set piece | piece in Split(value)
  }

  /** Whatever the names, a claim stands for the pieces of everything that was joined into it. */
  lemma {:induction false} JoinDecodes(xs: seq<string>)
    requires xs != []
    ensures forall piece :: piece in Decode(Join(xs)) <==> exists i :: 0 <= i < |xs| && piece in Decode(xs[i])
  {
    if |xs| > 1 {
      SplitAtComma(xs[0], Join(xs[1..]));
      JoinDecodes(xs[1..]);
      assert Decode(Join(xs)) == Decode(xs[0]) + Decode(Join(xs[1..]));
      forall piece
        ensures piece in Decode(Join(xs)) <==> exists i :: 0 <= i < |xs| && piece in Decode(xs[i])
      {
        if i :| 0 <= i < |xs| && piece in Decode(xs[i]) {
          assert i > 0 ==> xs[i] == xs[1..][i - 1];
        }
        if j :| 0 <= j < |xs[1..]| && piece in Decode(xs[1..][j]) {
          assert xs[1..][j] == xs[j + 1];
        }
      }
    }
  }

  // ---------- Sorted lists of names ----------

  /** Go's `<` on strings. */
  predicate Before(a: string, b: string) {
    if b == "" then false
    else if a == "" then true
    else if a[0] != b[0] then a[0] < b[0]
    else Before(a[1..], b[1..])
  }

  lemma {:induction false} BeforeIsTotal(a: string, b: string)
    ensures Before(a, b) || Before(b, a) || a == b
    ensures !(Before(a, b) && Before(b, a)) && !Before(a, a)
  {
    if a != "" {
      BeforeIsTotal(a[1..], a[1..]);
    }
    if a != "" && b != "" && a[0] == b[0] {
      BeforeIsTotal(a[1..], b[1..]);
      assert a == [a[0]] + a[1..] && b == [b[0]] + b[1..];
    }
  }

  lemma {:induction false} BeforeIsTransitive(a: string, b: string, c: string)
    requires Before(a, b) && Before(b, c)
    ensures Before(a, c)
  {
    if a != "" && a[0] == b[0] == c[0] {
      BeforeIsTransitive(a[1..], b[1..], c[1..]);
    }
  }

  /** Both names agree up to character `k`, where the first has the smaller one. */
  predicate SmallerAt(a: string, b: string, k: nat) {
    k < |a| && k < |b| && a[..k] == b[..k] && a[k] < b[k]
  }

  lemma {:induction false} SmallerAtShifts(a: string, b: string, k: nat)
    requires a != "" && b != "" && a[0] == b[0]
    ensures !SmallerAt(a, b, 0) && (SmallerAt(a, b, k + 1) <==> SmallerAt(a[1..], b[1..], k))
  {
    if k + 1 <= |a| && k + 1 <= |b| {
      assert a[..k + 1] == [a[0]] + a[1..][..k] && b[..k + 1] == [b[0]] + b[1..][..k];
      assert a[..k + 1] == b[..k + 1] <==> a[1..][..k] == b[1..][..k] by {
        assert a[..k + 1][1..] == a[1..][..k] && b[..k + 1][1..] == b[1..][..k];
      }
    }
  }

  lemma {:induction false} SmallerOnlyAtFirst(a: string, b: string, k: nat)
    requires a != "" && b != "" && a[0] != b[0]
    ensures SmallerAt(a, b, k) <==> k == 0 && a[0] < b[0]
  {
    if 0 < k < |a| && k < |b| {
      assert a[..k][0] != b[..k][0];
    }
  }

  lemma {:induction false} PrefixShifts(a: string, b: string)
    requires a != "" && b != ""
    ensures a < b <==> a[0] == b[0] && a[1..] < b[1..]
  {
    assert a == [a[0]] + a[1..] && b == [b[0]] + b[1..];
  }

  /** Names are compared character by character, and a beginning comes before what it begins. */
  lemma {:induction false} BeforeMeans(a: string, b: string)
    ensures Before(a, b) <==> a < b || exists k: nat :: SmallerAt(a, b, k)
  {
    if a != "" && b != "" {
      PrefixShifts(a, b);
      if a[0] == b[0] {
        BeforeMeans(a[1..], b[1..]);
        hide SmallerAt;
        forall k: nat
          ensures !SmallerAt(a, b, 0) && (SmallerAt(a, b, k + 1) <==> SmallerAt(a[1..], b[1..], k))
        {
          SmallerAtShifts(a, b, k);
        }
        if k: nat :| SmallerAt(a, b, k) {
          assert k > 0 && SmallerAt(a[1..], b[1..], k - 1);
        }
        if k: nat :| SmallerAt(a[1..], b[1..], k) {
          assert SmallerAt(a, b, k + 1);
        }
      } else {
        SmallerOnlyAtFirst(a, b, 0);
        forall k: nat {
          SmallerOnlyAtFirst(a, b, k);
        }
      }
    }
  }

  ghost predicate StrictlySorted(xs: seq<string>) {
    forall i, j :: 0 <= i < j < |xs| ==> Before(xs[i], xs[j])
  }

  ghost predicate Ascending(xs: seq<string>) {
    forall i, j :: 0 <= i < j < |xs| ==> !Before(xs[j], xs[i])
  }

  function InsertName(x: string, xs: seq<string>): seq<string> {
    if xs == [] || !Before(xs[0], x) then [x] + xs else [xs[0]] + InsertName(x, xs[1..])
  }

  /** `sort.Strings`. */
  function SortNames(xs: seq<string>): seq<string> {
    if xs == [] then [] else InsertName(xs[0], SortNames(xs[1..]))
  }

  lemma {:induction false} InsertNameSorts(x: string, xs: seq<string>)
    requires Ascending(xs)
    ensures Ascending(InsertName(x, xs))
    ensures multiset(InsertName(x, xs)) == multiset(xs) + multiset{x}
  {
    if xs == [] {
    } else if !Before(xs[0], x) {
      forall j | 0 <= j < |xs|
        ensures !Before(xs[j], x)
      {
        if Before(xs[j], x) {
          BeforeIsTotal(xs[0], x);
          BeforeIsTotal(xs[0], xs[j]);
          if xs[0] != xs[j] {
            BeforeIsTransitive(xs[0], xs[j], x);
          }
        }
      }
    } else {
      InsertNameSorts(x, xs[1..]);
      var tail := InsertName(x, xs[1..]);
      assert xs == [xs[0]] + xs[1..];
      forall j | 0 <= j < |tail|
        ensures !Before(tail[j], xs[0])
      {
        BeforeIsTotal(xs[0], x);
        assert tail[j] in multiset(tail);
        assert tail[j] == x || tail[j] in xs[1..];
      }
    }
  }

  lemma {:induction false} SortNamesSorts(xs: seq<string>)
    ensures Ascending(SortNames(xs))
    ensures multiset(SortNames(xs)) == multiset(xs)
    ensures forall x :: x in SortNames(xs) <==> x in xs
    ensures |SortNames(xs)| == |xs|
  {
    hide Before, InsertName;
    if xs != [] {
      SortNamesSorts(xs[1..]);
      InsertNameSorts(xs[0], SortNames(xs[1..]));
      assert xs == [xs[0]] + xs[1..];
    }
    assert |multiset(SortNames(xs))| == |multiset(xs)|;
    assert forall x :: x in SortNames(xs) <==> x in multiset(SortNames(xs));
  }

  /** A set of names has one strictly sorted listing. */
  lemma {:induction false} StrictListingIsUnique(xs: seq<string>, ys: seq<string>)
    requires StrictlySorted(xs) && StrictlySorted(ys) && forall x :: x in xs <==> x in ys
    ensures xs == ys
  {
    if xs != [] {
      assert xs[0] in ys;
    }
    if ys != [] {
      assert ys[0] in xs;
    }
    if xs != [] {
      BeforeIsTotal(xs[0], ys[0]);
      BeforeIsTotal(xs[0], xs[0]);
      assert xs[0] == ys[0];
      forall x
        ensures x in xs[1..] <==> x in ys[1..]
      {
        if x in xs[1..] {
          assert x in ys;
          var k :| 0 <= k < |ys| && ys[k] == x;
          BeforeIsTotal(x, x);
          assert k != 0;
        }
        if x in ys[1..] {
          assert x in xs;
          var k :| 0 <= k < |xs| && xs[k] == x;
          BeforeIsTotal(x, x);
          assert k != 0;
        }
      }
      StrictListingIsUnique(xs[1..], ys[1..]);
    }
  }

  lemma {:induction false} DistinctAscendingIsStrict(xs: seq<string>)
    requires Ascending(xs) && forall i, j :: 0 <= i < j < |xs| ==> xs[i] != xs[j]
    ensures StrictlySorted(xs)
  {
    forall i, j | 0 <= i < j < |xs|
      ensures Before(xs[i], xs[j])
    {
      BeforeIsTotal(xs[i], xs[j]);
    }
  }

  /** `sets.List`: the set's elements in any order, then sorted. */
  method List(s: set<string>) returns (xs: seq<string>)
    ensures StrictlySorted(xs) && forall x :: x in xs <==> x in s
  {
    xs := [];
    var left := s;
    while left != {}
      invariant left <= s
      invariant forall x :: x in s <==> x in left || x in xs
      invariant forall x :: x in xs ==> x !in left
      invariant forall i, j :: 0 <= i < j < |xs| ==> xs[i] != xs[j]
      decreases |left|
    {
      var x :| x in left;
      left := left - {x};
      xs := xs + [x];
    }
    DistinctSorts(xs);
    xs := SortNames(xs);
  }

  ghost predicate Distinct(xs: seq<string>) {
    forall i, j :: 0 <= i < j < |xs| ==> xs[i] != xs[j]
  }

  lemma {:induction false} DistinctCounts(xs: seq<string>)
    ensures Distinct(xs) <==> forall x :: multiset(xs)[x] <= 1
  {
    if xs != [] {
      DistinctCounts(xs[1..]);
      assert xs == [xs[0]] + xs[1..];
      assert multiset(xs) == multiset{xs[0]} + multiset(xs[1..]);
      assert xs[0] in xs[1..] <==> xs[0] in multiset(xs[1..]);
      if Distinct(xs) {
        assert Distinct(xs[1..]);
        assert xs[0] !in xs[1..];
      } else if Distinct(xs[1..]) {
        assert xs[0] in xs[1..];
        assert multiset(xs)[xs[0]] > 1;
      } else {
        var x :| multiset(xs[1..])[x] > 1;
        assert multiset(xs)[x] > 1;
      }
    }
  }

  lemma {:induction false} DistinctSorts(xs: seq<string>)
    requires Distinct(xs)
    ensures StrictlySorted(SortNames(xs))
    ensures forall x :: x in SortNames(xs) <==> x in xs
  {
    SortNamesSorts(xs);
    DistinctCounts(xs);
    DistinctCounts(SortNames(xs));
    DistinctAscendingIsStrict(SortNames(xs));
  }

  // ---------- The strictly sorted listing as a function ----------

  ghost function ListOf(s: set<string>): (xs: seq<string>)
    ensures StrictlySorted(xs) && forall x :: x in xs <==> x in s
  {
    var ys := SomeOrder(s);
    DistinctSorts(ys);
    SortNames(ys)
  }

  ghost function SomeOrder(s: set<string>): (xs: seq<string>)
    ensures Distinct(xs) && forall x :: x in xs <==> x in s
    decreases |s|
  {
    if s == {} then []
    else
      var x :| x in s;
      [x] + SomeOrder(s - {x})
  }
}
