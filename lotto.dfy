/** The deterministic lucky-number generator of the birthday app: a seed built from the
    birth date drives a linear congruential generator; its first seven distinct candidates
    in arrival order give six main numbers (sorted) and one bonus number. */
module Lotto {

  /** Numbers are drawn from 1 .. Pool. */
  const Pool: int := 45
  const MainCount: nat := 6
  /** Six main numbers and one bonus. */
  const DrawCount: nat := 7

  // ---------------------------------------------------------------------------
  // The generator

  /** One step of the generator: `current = (current * 9301 + 49297) % 233280`.
      Dafny's `%` agrees with JavaScript's for the non-negative operands used here. */
  function Step(current: int): (next: int)
    ensures 0 <= next < 233280
  {
    (current * 9301 + 49297) % 233280
  }

  /** The number a generator state proposes: `(current % 45) + 1`. */
  function Candidate(current: int): (num: int)
    ensures 1 <= num <= Pool
  {
    current % 45 + 1
  }

  /** The generator state after `k` steps from `seed`. */
  function StateAfter(seed: int, k: nat): int
  {
    if k == 0 then seed else Step(StateAfter(seed, k - 1))
  }

  /** The candidate proposed by the `k`-th iteration of the draw loop (counting from 1). */
  function CandidateAt(seed: int, k: nat): int
    requires k >= 1
  {
    Candidate(StateAfter(seed, k))
  }

  predicate Distinct(s: seq<int>)
  {
    forall i, j :: 0 <= i < j < |s| ==> s[i] != s[j]
  }

  /** `Set.prototype.add` on an insertion-ordered set held as a sequence: a value already
      present is dropped, a new one goes to the end. */
  function Add(s: seq<int>, x: int): (r: seq<int>)
    ensures forall y :: y in r <==> y in s || y == x
    ensures |s| <= |r| <= |s| + 1 && r[..|s|] == s
    ensures Distinct(s) ==> Distinct(r)
  {
    if x in s then s else s + [x]
  }

  /** The contents of the set `generated` after `k` iterations of the draw loop. */
  function Generated(seed: int, k: nat): (g: seq<int>)
    ensures Distinct(g) && |g| <= k
    ensures forall x :: x in g ==> 1 <= x <= Pool
  {
    if k == 0 then [] else Add(Generated(seed, k - 1), CandidateAt(seed, k))
  }

  // ---------------------------------------------------------------------------
  // The generator seen modulo 45. Since 45 divides 233280, the candidates follow the
  // smaller generator r -> (31 r + 22) % 45, whose cube is r -> (r + 21) % 45. No power
  // below the seventh has a fixed point, so the first seven candidates always differ.

  function Residue(r: int): int
  {
    (31 * r + 22) % 45
  }

  function ResidueAfter(r: int, k: nat): int
  {
    if k == 0 then r else Residue(ResidueAfter(r, k - 1))
  }

  lemma ModMultiple(m: int, z: int)
    ensures (45 * m + z) % 45 == z % 45
  {
    var q := z / 45;
    assert 45 * m + z == 45 * (m + q) + z % 45;
  }

  lemma ResidueOfMod(y: int)
    ensures Residue(y % 45) == (31 * y + 22) % 45
  {
    var m := 31 * (y / 45);
    assert 31 * y + 22 == 45 * m + (31 * (y % 45) + 22);
    ModMultiple(m, 31 * (y % 45) + 22);
  }

  /** A generator step, reduced modulo 45, is a step of the residue generator. */
  lemma StepModPool(x: int)
    ensures Step(x) % 45 == Residue(x % 45)
  {
    var y := x * 9301 + 49297;
    var m := 9301 * (x / 45) + 206 * (x % 45) + 1095;
    assert y == 45 * m + (31 * (x % 45) + 22);
    assert Step(x) == y - 233280 * (y / 233280);
    ModMultiple(m - 5184 * (y / 233280), 31 * (x % 45) + 22);
  }

  lemma {:induction false} StateModPool(seed: int, i: nat, k: nat)
    ensures StateAfter(seed, i + k) % 45 == ResidueAfter(StateAfter(seed, i) % 45, k)
  {
    if k > 0 {
      StateModPool(seed, i, k - 1);
      StepModPool(StateAfter(seed, i + k - 1));
    }
  }

  lemma ResidueClosedForm(r: int)
    ensures ResidueAfter(r, 1) == (31 * r + 22) % 45
    ensures ResidueAfter(r, 2) == (16 * r + 29) % 45
    ensures ResidueAfter(r, 3) == (r + 21) % 45
    ensures ResidueAfter(r, 4) == (31 * r + 43) % 45
    ensures ResidueAfter(r, 5) == (16 * r + 5) % 45
    ensures ResidueAfter(r, 6) == (r + 42) % 45
  {
    ResidueOfMod(31 * r + 22);
    ModMultiple(21 * r + 15, 16 * r + 29);
    ResidueOfMod(16 * r + 29);
    ModMultiple(11 * r + 20, r + 21);
    ResidueOfMod(r + 21);
    ModMultiple(14, 31 * r + 43);
    ResidueOfMod(31 * r + 43);
    ModMultiple(21 * r + 30, 16 * r + 5);
    ResidueOfMod(16 * r + 5);
    ModMultiple(11 * r + 3, r + 42);
  }

  /** The residue generator has no cycle shorter than seven steps. */
  lemma NoShortCycle(r: int, k: nat)
    requires 0 <= r < Pool && 1 <= k < DrawCount
    ensures ResidueAfter(r, k) != r
  {
    ResidueClosedForm(r);
  }

  /** Any two of the first seven candidates differ. */
  lemma CandidatesDistinct(seed: int, i: nat, j: nat)
    requires 1 <= i < j <= DrawCount
    ensures CandidateAt(seed, i) != CandidateAt(seed, j)
  {
    StateModPool(seed, i, j - i);
    NoShortCycle(StateAfter(seed, i) % 45, j - i);
  }

  /** The first `n` candidates, repeats included. */
  function FirstCandidates(seed: int, n: nat): (c: seq<int>)
    ensures |c| == n
    ensures forall i :: 0 <= i < n ==> c[i] == CandidateAt(seed, i + 1)
  {
    if n == 0 then [] else FirstCandidates(seed, n - 1) + [CandidateAt(seed, n)]
  }

  /** Within the first seven iterations, no candidate repeats an earlier one. */
  lemma {:induction false} NotAmongEarlier(seed: int, k: nat, n: nat)
    requires k < n <= DrawCount
    ensures CandidateAt(seed, n) !in FirstCandidates(seed, k)
  {
    if k > 0 {
      NotAmongEarlier(seed, k - 1, n);
      CandidatesDistinct(seed, k, n);
    }
  }

  /** No candidate is dropped during the first seven iterations: after `n <= 7` of them the
      set holds exactly the first `n` candidates, so the loop `while (generated.size < 7)`
      stops after exactly seven iterations. */
  lemma {:induction false} GeneratedAreFirstCandidates(seed: int, n: nat)
    requires n <= DrawCount
    ensures Generated(seed, n) == FirstCandidates(seed, n)
  {
    if n > 0 {
      GeneratedAreFirstCandidates(seed, n - 1);
      NotAmongEarlier(seed, n - 1, n);
    }
  }

  /** One more iteration of the draw loop adds one value. */
  lemma GeneratedStep(seed: int, k: nat)
    requires k < DrawCount
    ensures StateAfter(seed, k + 1) == Step(StateAfter(seed, k))
    ensures Generated(seed, k + 1) == Add(Generated(seed, k), Candidate(StateAfter(seed, k + 1)))
    ensures |Generated(seed, k + 1)| == k + 1
  {
    GeneratedAreFirstCandidates(seed, k + 1);
  }

  /** The seven distinct values in the order they entered the set. */
  function Arrivals(seed: int): (a: seq<int>)
    ensures |a| == DrawCount && Distinct(a)
    ensures forall i :: 0 <= i < DrawCount ==> a[i] == CandidateAt(seed, i + 1)
  {
    GeneratedAreFirstCandidates(seed, DrawCount);
    Generated(seed, DrawCount)
  }

  // ---------------------------------------------------------------------------
  // Sorting the main numbers: `arr.slice(0, 6).sort((a, b) => a - b)`

  predicate Ascending(s: seq<int>)
  {
    forall i, j :: 0 <= i < j < |s| ==> s[i] <= s[j]
  }

  predicate StrictlyAscending(s: seq<int>)
  {
    forall i, j :: 0 <= i < j < |s| ==> s[i] < s[j]
  }

  function InsertAscending(x: int, s: seq<int>): (r: seq<int>)
    requires Ascending(s)
    ensures Ascending(r) && multiset(r) == multiset(s) + multiset{x}
    ensures forall y :: y in r <==> y == x || y in s
  {
    if s == [] || x <= s[0] then [x] + s
    else
      var rest := InsertAscending(x, s[1..]);
      assert s == [s[0]] + s[1..];
      HeadIsLeast(s);
      ConsAscending(s[0], rest);
      [s[0]] + rest
  }

  /** The first element of an ascending sequence is its least. */
  lemma HeadIsLeast(s: seq<int>)
    requires Ascending(s) && s != []
    ensures forall y :: y in s ==> s[0] <= y
  {
  }

  /** A lower bound put in front of an ascending sequence keeps it ascending. */
  lemma ConsAscending(a: int, s: seq<int>)
    requires Ascending(s) && forall y :: y in s ==> a <= y
    ensures Ascending([a] + s)
  {
    var r := [a] + s;
    forall i, j | 0 <= i < j < |r|
      ensures r[i] <= r[j]
    {
      assert r[j] == s[j - 1] && s[j - 1] in s;
      if i > 0 {
        assert r[i] == s[i - 1];
      }
    }
  }

  /** The numeric ascending order that the comparator `(a, b) => a - b` gives. */
  function SortAscending(s: seq<int>): (r: seq<int>)
    ensures Ascending(r) && multiset(r) == multiset(s)
  {
    if s == [] then []
    else
      assert s == [s[0]] + s[1..];
      InsertAscending(s[0], SortAscending(s[1..]))
  }

  /** A sequence has no repeated element exactly when every value occurs at most once. */
  lemma {:induction false} DistinctIffSingletons(s: seq<int>)
    ensures Distinct(s) <==> forall x :: multiset(s)[x] <= 1
  {
    if s != [] {
      var t := s[1..];
      assert s == [s[0]] + t;
      DistinctIffSingletons(t);
      if forall x :: multiset(s)[x] <= 1 {
        assert forall x :: multiset(t)[x] <= multiset(s)[x];
        assert multiset(s)[s[0]] == multiset(t)[s[0]] + 1;
        assert s[0] !in t;
        forall i, j | 0 <= i < j < |s|
          ensures s[i] != s[j]
        {
          if i > 0 {
            assert s[i] == t[i - 1] && s[j] == t[j - 1];
          } else {
            assert s[j] in t;
          }
        }
      }
    }
  }

  // ---------------------------------------------------------------------------
  // The result of a draw

  /** `main`: the first six arrivals sorted ascending. */
  function MainNumbers(seed: int): seq<int>
  {
    SortAscending(Arrivals(seed)[..MainCount])
  }

  /** `bonus`: the seventh arrival. */
  function BonusNumber(seed: int): int
  {
    Arrivals(seed)[MainCount]
  }

  /** Six distinct main numbers in ascending order, all in 1 .. 45, holding exactly the
      first six arrivals; a bonus in 1 .. 45 that is not among them. */
  lemma DrawIsValid(seed: int)
    ensures |MainNumbers(seed)| == MainCount && StrictlyAscending(MainNumbers(seed))
    ensures multiset(MainNumbers(seed)) == multiset(Arrivals(seed)[..MainCount])
    ensures forall x :: x in MainNumbers(seed) ==> 1 <= x <= Pool
    ensures BonusNumber(seed) == Arrivals(seed)[MainCount]
    ensures 1 <= BonusNumber(seed) <= Pool && BonusNumber(seed) !in MainNumbers(seed)
  {
    var a := Arrivals(seed);
    var first := a[..MainCount];
    var main := MainNumbers(seed);
    assert |main| == |multiset(main)| == |multiset(first)| == MainCount;
    assert Distinct(first);
    DistinctIffSingletons(first);
    DistinctIffSingletons(main);
    forall x | x in main
      ensures 1 <= x <= Pool
    {
      assert x in multiset(first);
    }
    assert a[MainCount] !in first;
    assert a[MainCount] !in multiset(main);
  }

  /** The draw loop of `generateLottoNumbers`: step the generator, add each candidate to the
      insertion-ordered set until it holds seven values, then split into sorted main numbers
      and the bonus. The result is a valid draw. */
  method DrawLotto(seed: int) returns (main: seq<int>, bonus: int)
    requires seed >= 0
    ensures main == MainNumbers(seed) && bonus == BonusNumber(seed)
    ensures |main| == MainCount && StrictlyAscending(main)
    ensures forall x :: x in main ==> 1 <= x <= Pool
    ensures 1 <= bonus <= Pool && bonus !in main
  {
    var generated: seq<int> := [];
    var current := seed;
    ghost var steps: nat := 0;
    while |generated| < DrawCount
      invariant steps <= DrawCount && |generated| == steps
      invariant current == StateAfter(seed, steps)
      invariant generated == Generated(seed, steps)
      decreases DrawCount - |generated|
    {
      ghost var previous := current;
      current := (current * 9301 + 49297) % 233280;
      assert current == Step(previous);
      var num := (current % 45) + 1;
      assert num == Candidate(current);
      GeneratedStep(seed, steps);
      generated := Add(generated, num);
      steps := steps + 1;
    }
    assert generated == Arrivals(seed);
    var arr := generated;
    main := SortAscending(arr[..MainCount]);
    bonus := arr[MainCount];
    DrawIsValid(seed);
  }

  /** The first seven generator states from the seed 19900101. */
  lemma StatesOfNewYear1990()
    ensures StateAfter(19900101, 1) == 4858
    ensures StateAfter(19900101, 2) == 210515
    ensures StateAfter(19900101, 3) == 130272
    ensures StateAfter(19900101, 4) == 52849
    ensures StateAfter(19900101, 5) == 76886
    ensures StateAfter(19900101, 6) == 162783
    ensures StateAfter(19900101, 7) == 106780
  {
    assert Step(19900101) == 4858 && Step(4858) == 210515 && Step(210515) == 130272;
    assert Step(130272) == 52849 && Step(52849) == 76886 && Step(76886) == 162783;
    assert Step(162783) == 106780;
    assert StateAfter(19900101, 1) == Step(StateAfter(19900101, 0));
    assert StateAfter(19900101, 2) == Step(StateAfter(19900101, 1));
    assert StateAfter(19900101, 3) == Step(StateAfter(19900101, 2));
    assert StateAfter(19900101, 4) == Step(StateAfter(19900101, 3));
    assert StateAfter(19900101, 5) == Step(StateAfter(19900101, 4));
    assert StateAfter(19900101, 6) == Step(StateAfter(19900101, 5));
    assert StateAfter(19900101, 7) == Step(StateAfter(19900101, 6));
  }

  lemma ArrivalsFromStates(seed: int)
    requires StateAfter(seed, 1) == 4858 && StateAfter(seed, 2) == 210515
    requires StateAfter(seed, 3) == 130272 && StateAfter(seed, 4) == 52849
    requires StateAfter(seed, 5) == 76886 && StateAfter(seed, 6) == 162783
    requires StateAfter(seed, 7) == 106780
    ensures Arrivals(seed) == [44, 6, 43, 20, 27, 19, 41]
  {
    var a := Arrivals(seed);
    assert a[0] == 44 && a[1] == 6 && a[2] == 43 && a[3] == 20;
    assert a[4] == 27 && a[5] == 19 && a[6] == 41;
  }

  lemma MainFromArrivals(seed: int)
    requires Arrivals(seed) == [44, 6, 43, 20, 27, 19, 41]
    ensures MainNumbers(seed) == [6, 19, 20, 27, 43, 44]
    ensures BonusNumber(seed) == 41
  {
    var first := Arrivals(seed)[..MainCount];
    assert first == [44, 6, 43, 20, 27, 19];
    var main := MainNumbers(seed);
    DrawIsValid(seed);
    var sorted := [6, 19, 20, 27, 43, 44];
    forall x
      ensures x in main <==> x in sorted
    {
      assert x in main <==> x in multiset(main);
      assert x in first <==> x in multiset(first);
    }
    StrictlyAscendingSix(6, 19, 20, 27, 43, 44);
    SameElementsSameOrder(main, sorted);
  }

  lemma StrictlyAscendingSix(a: int, b: int, c: int, d: int, e: int, f: int)
    requires a < b < c < d < e < f
    ensures StrictlyAscending([a, b, c, d, e, f])
  {
  }

  /** A fixed test vector: the seed 19900101 (1 January 1990, no time) makes the
      candidates 44, 6, 43, 20, 27, 19, 41, so the main numbers 6, 19, 20, 27, 43, 44
      and the bonus 41. */
  lemma DrawOfNewYear1990()
    ensures Arrivals(19900101) == [44, 6, 43, 20, 27, 19, 41]
    ensures MainNumbers(19900101) == [6, 19, 20, 27, 43, 44]
    ensures BonusNumber(19900101) == 41
  {
    StatesOfNewYear1990();
    ArrivalsFromStates(19900101);
    MainFromArrivals(19900101);
  }

  /** Two strictly ascending sequences with the same elements are equal. */
  lemma {:induction false} SameElementsSameOrder(s: seq<int>, t: seq<int>)
    requires StrictlyAscending(s) && StrictlyAscending(t)
    requires forall x :: x in s <==> x in t
    ensures s == t
  {
    if s != [] {
      assert s[0] in s;
    }
    if t != [] {
      assert t[0] in t;
    }
    if s != [] && t != [] {
      assert s[0] == t[0] by {
        var i :| 0 <= i < |t| && t[i] == s[0];
        var j :| 0 <= j < |s| && s[j] == t[0];
      }
      forall x
        ensures x in s[1..] <==> x in t[1..]
      {
        TailMembers(s, x);
        TailMembers(t, x);
      }
      SameElementsSameOrder(s[1..], t[1..]);
      assert s == [s[0]] + s[1..] && t == [t[0]] + t[1..];
    }
  }

  /** In a strictly ascending sequence, the tail holds every element except the head. */
  lemma TailMembers(s: seq<int>, x: int)
    requires StrictlyAscending(s) && s != []
    ensures x in s[1..] <==> x in s && x != s[0]
  {
    if x in s && x != s[0] {
      var k :| 0 <= k < |s| && s[k] == x;
      assert s[1..][k - 1] == x;
    }
  }

  // ---------------------------------------------------------------------------
  // Ball colours

  /** `getBallColor`: the colour band of a number. Every number falls in exactly one
      band, and the bands are the ranges up to 10, 11-20, 21-30, 31-40 and above 40. */
  function GetBallColor(num: int): (cls: string)
    ensures cls == "ball-yellow" <==> num <= 10
    ensures cls == "ball-blue" <==> 10 < num <= 20
    ensures cls == "ball-red" <==> 20 < num <= 30
    ensures cls == "ball-gray" <==> 30 < num <= 40
    ensures cls == "ball-green" <==> 40 < num
  {
    if num <= 10 then "ball-yellow"
    else if num <= 20 then "ball-blue"
    else if num <= 30 then "ball-red"
    else if num <= 40 then "ball-gray"
    else "ball-green"
  }
}
