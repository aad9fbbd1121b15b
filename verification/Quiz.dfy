/** Question generation and the Fisher-Yates shuffle (packages/exercise-math/src/math.ts). */
module Quiz {
  import opened Pigeonhole
  import opened Seqs

  /** Draws of `Math.random`, in the order they are consumed. */
  type Randoms = s: seq<real> | forall i :: 0 <= i < |s| ==> 0.0 <= s[i] < 1.0

  /** `Math.floor(rand() * n)`. */
  function Pick(r: real, n: nat): (k: nat)
    requires 0.0 <= r < 1.0 && n > 0
    ensures k < n
  {
    var scaled := Scale(r, n as real);
    assert scaled.Floor as real <= scaled;
    scaled.Floor
  }

  function Scale(r: real, n: real): (x: real)
    requires 0.0 <= r < 1.0 && n > 0.0
    ensures 0.0 <= x < n
  {
    r * n
  }

  /** Every value in range is drawn for some outcome of the generator. */
  lemma PickReachesAll(k: nat, n: nat)
    requires k < n
    ensures exists r :: 0.0 <= r < 1.0 && Pick(r, n) == k
  {
    var r := k as real / n as real;
    assert r * n as real == k as real;
    assert 0.0 <= r < 1.0;
    assert Pick(r, n) == k;
  }

  // ----- Shuffle

  /** The choices of one shuffle: at index `i` the loop swaps with some `j` in `0..i`. */
  ghost predicate ChoiceVector(choices: seq<nat>) {
    forall i :: 0 <= i < |choices| ==> choices[i] <= i
  }

  function Swap<T>(s: seq<T>, i: nat, j: nat): seq<T>
    requires i < |s| && j < |s|
  {
    s[i := s[j]][j := s[i]]
  }

  /** The sequence after the swaps at indices `|choices| - 1` down to 1. */
  function Shuffled<T>(s: seq<T>, choices: seq<nat>): (out: seq<T>)
    requires |choices| <= |s| && ChoiceVector(choices)
    ensures |out| == |s|
    decreases choices
  {
    if |choices| <= 1 then s
    else
      var i := |choices| - 1;
      Shuffled(Swap(s, i, choices[i]), choices[..i])
  }

  /** The choices made from the draws: the first draw decides the last index. */
  function Choices(n: nat, rand: Randoms): (choices: seq<nat>)
    requires |rand| >= n
    ensures |choices| == n
    ensures forall i :: 1 <= i < n ==> choices[i] == Pick(rand[n - 1 - i], i + 1)
    ensures ChoiceVector(choices)
  {
    seq(n, i requires 0 <= i < n => if i == 0 then 0 else Pick(rand[n - 1 - i], i + 1))
  }

  /** The sequence once the swaps at the indices below `k` are made as well. */
  ghost function Remaining<T>(s: seq<T>, choices: seq<nat>, k: nat): seq<T>
    requires k <= |choices| <= |s| && ChoiceVector(choices)
  {
    Shuffled(s, choices[..k])
  }

  lemma AllRemaining<T>(s: seq<T>, choices: seq<nat>)
    requires |choices| <= |s| && ChoiceVector(choices)
    ensures Remaining(s, choices, |choices|) == Shuffled(s, choices)
  {
    assert choices[..|choices|] == choices;
  }

  lemma NoneRemaining<T>(s: seq<T>, choices: seq<nat>)
    requires |choices| <= |s| && ChoiceVector(choices)
    ensures choices == [] ==> Shuffled(s, choices) == s
    ensures choices != [] ==> Remaining(s, choices, 1) == s
  {
  }

  lemma ShuffledStep<T>(s: seq<T>, choices: seq<nat>, i: nat)
    requires 0 < i < |choices| <= |s| && ChoiceVector(choices)
    ensures Remaining(s, choices, i + 1) == Remaining(Swap(s, i, choices[i]), choices, i)
  {
    assert choices[..i + 1][..i] == choices[..i];
  }

  method SwapAt<T>(a: array<T>, i: nat, j: nat)
    requires i < a.Length && j < a.Length
    modifies a
    ensures a[..] == Swap(old(a[..]), i, j)
  {
    a[i], a[j] := a[j], a[i];
  }

  method Shuffle<T>(arr: seq<T>, rand: Randoms) returns (out: array<T>)
    requires |rand| >= |arr|
    ensures fresh(out)
    ensures out[..] == Shuffled(arr, Choices(|arr|, rand))
  {
    var n := |arr|;
    out := new T[n](i requires 0 <= i < n => arr[i]);
    assert out[..] == arr;
    ghost var choices := Choices(n, rand);
    AllRemaining(arr, choices);
    var i := n - 1;
    while i > 0
      invariant n > 0 ==> 0 <= i < n
      invariant n > 0 ==> Remaining(out[..], choices, i + 1) == Shuffled(arr, choices)
    {
      var j := Pick(rand[n - 1 - i], i + 1);
      ShuffledStep(out[..], choices, i);
      SwapAt(out, i, j);
      i := i - 1;
    }
    NoneRemaining(out[..], choices);
  }

  predicate Rearranges<T(==)>(p: seq<T>, s: seq<T>) {
    multiset(p) == multiset(s)
  }

  lemma SwapMultiset<T>(s: seq<T>, i: nat, j: nat)
    requires i < |s| && j < |s|
    ensures multiset(Swap(s, i, j)) == multiset(s)
  {
  }

  /** Every output holds the elements of the input, each as often. */
  lemma {:induction false} ShufflePermutes<T>(s: seq<T>, choices: seq<nat>)
    requires |choices| <= |s| && ChoiceVector(choices)
    ensures Rearranges(Shuffled(s, choices), s)
    ensures Shuffled(s, choices)[|choices|..] == s[|choices|..]
    decreases choices
  {
    if |choices| <= 1 {
    } else {
      var i := |choices| - 1;
      var t := Swap(s, i, choices[i]);
      SwapMultiset(s, i, choices[i]);
      ShufflePermutes(t, choices[..i]);
      assert Shuffled(s, choices)[|choices|..] == Shuffled(t, choices[..i])[i..][1..];
      assert t[i..][1..] == s[|choices|..];
    }
  }

  function IndexIn<T(==)>(s: seq<T>, x: T): (i: nat)
    requires x in s
    ensures i < |s| && s[i] == x && x !in s[..i]
  {
    if s[0] == x then 0
    else
      var i := 1 + IndexIn(s[1..], x);
      assert s[..i] == [s[0]] + s[1..][..i - 1];
      i
  }

  /**
   The choices that lead from `s` to `p`: the element wanted last is looked up among the first `n`,
   swapped into place, and the rest is arranged the same way.
   */
  function ChoicesFor<T(==)>(s: seq<T>, p: seq<T>, n: nat): (choices: seq<nat>)
    requires n <= |s| == |p|
    requires multiset(s[..n]) == multiset(p[..n])
    ensures |choices| == n && ChoiceVector(choices)
    decreases n
  {
    if n == 0 then []
    else
      assert p[n - 1] in multiset(p[..n]) by { assert p[..n][n - 1] == p[n - 1]; }
      var j := IndexIn(s[..n], p[n - 1]);
      SwapIntoPlace(s, p, n, j);
      ChoicesFor(Swap(s, n - 1, j), p, n - 1) + [j]
  }

  lemma SwapIntoPlace<T>(s: seq<T>, p: seq<T>, n: nat, j: nat)
    requires j < n <= |s| == |p|
    requires multiset(s[..n]) == multiset(p[..n]) && s[j] == p[n - 1]
    ensures multiset(Swap(s, n - 1, j)[..n - 1]) == multiset(p[..n - 1])
  {
    SwapPrefix(s, n, j);
    SwapMultiset(s[..n], n - 1, j);
    SameWithoutLast(Swap(s, n - 1, j), p, n);
  }

  lemma SameWithoutLast<T>(t: seq<T>, p: seq<T>, n: nat)
    requires 0 < n <= |t| == |p| && t[n - 1] == p[n - 1]
    requires multiset(t[..n]) == multiset(p[..n])
    ensures multiset(t[..n - 1]) == multiset(p[..n - 1])
  {
    WithoutLast(t, n);
    WithoutLast(p, n);
  }

  lemma SwapPrefix<T>(s: seq<T>, n: nat, j: nat)
    requires j < n <= |s|
    ensures Swap(s, n - 1, j)[..n] == Swap(s[..n], n - 1, j)
  {
  }

  lemma WithoutLast<T>(s: seq<T>, n: nat)
    requires 0 < n <= |s|
    ensures multiset(s[..n - 1]) == multiset(s[..n]) - multiset{s[n - 1]}
  {
    assert s[..n] == s[..n - 1] + [s[n - 1]];
  }

  /** Onto: every rearrangement of the input is the output for the choices looked up for it. */
  lemma {:induction false} ShuffleReaches<T>(s: seq<T>, p: seq<T>, n: nat)
    requires n <= |s| == |p|
    requires multiset(s[..n]) == multiset(p[..n]) && s[n..] == p[n..]
    ensures Shuffled(s, ChoicesFor(s, p, n)) == p
    decreases n
  {
    if n == 0 {
      assert s[0..] == s && p[0..] == p;
    } else {
      assert p[n - 1] in multiset(p[..n]) by { assert p[..n][n - 1] == p[n - 1]; }
      var j := IndexIn(s[..n], p[n - 1]);
      SwapIntoPlace(s, p, n, j);
      var t := Swap(s, n - 1, j);
      SwapFillsSuffix(s, p, n, j);
      ShuffleReaches(t, p, n - 1);
      FirstSwap(s, ChoicesFor(t, p, n - 1), j);
    }
  }

  lemma SwapFillsSuffix<T>(s: seq<T>, p: seq<T>, n: nat, j: nat)
    requires j < n <= |s| == |p| && s[n..] == p[n..] && s[j] == p[n - 1]
    ensures Swap(s, n - 1, j)[n - 1..] == p[n - 1..]
  {
    InitSuffix(Swap(s, n - 1, j), n - 1);
    InitSuffix(p, n - 1);
    assert Swap(s, n - 1, j)[n..] == s[n..];
  }

  lemma InitSuffix<T>(s: seq<T>, i: nat)
    requires i < |s|
    ensures s[i..] == [s[i]] + s[i + 1..]
  {
  }

  lemma FirstSwap<T>(s: seq<T>, earlier: seq<nat>, j: nat)
    requires j <= |earlier| < |s| && ChoiceVector(earlier)
    ensures Shuffled(s, earlier + [j]) == Shuffled(Swap(s, |earlier|, j), earlier)
  {
    var choices := earlier + [j];
    assert choices[..|earlier|] == earlier && choices[|earlier|] == j;
    SwapFirst(s, choices);
  }

  lemma PrefixMultiset<T>(s: seq<T>, t: seq<T>, n: nat)
    requires n <= |s| == |t| && multiset(s) == multiset(t) && s[n..] == t[n..]
    ensures multiset(s[..n]) == multiset(t[..n])
  {
    assert s == s[..n] + s[n..] && t == t[..n] + t[n..];
    assert multiset(s[..n]) == multiset(s) - multiset(s[n..]);
    assert multiset(t[..n]) == multiset(t) - multiset(t[n..]);
  }

  /** The last of the first `n` elements is settled by the first swap. */
  lemma {:induction false} LastIsChosen<T>(s: seq<T>, choices: seq<nat>)
    requires 0 < |choices| <= |s| && ChoiceVector(choices)
    ensures var i := |choices| - 1; Shuffled(s, choices)[i] == s[choices[i]]
  {
    var i := |choices| - 1;
    if i > 0 {
      var t := Swap(s, i, choices[i]);
      ShufflePermutes(t, choices[..i]);
      assert Shuffled(t, choices[..i])[i] == Shuffled(t, choices[..i])[i..][0] == t[i..][0] == t[i];
    }
  }

  lemma SwapDistinct<T>(s: seq<T>, i: nat, j: nat)
    requires i < |s| && j < |s| && Distinct(s)
    ensures Distinct(Swap(s, i, j))
  {
  }

  lemma ChoicesForStep<T>(s: seq<T>, p: seq<T>, n: nat, j: nat)
    requires 0 < n <= |s| == |p| && j < n && Distinct(s)
    requires multiset(s[..n]) == multiset(p[..n]) && s[j] == p[n - 1]
    ensures multiset(Swap(s, n - 1, j)[..n - 1]) == multiset(p[..n - 1])
    ensures ChoicesFor(s, p, n) == ChoicesFor(Swap(s, n - 1, j), p, n - 1) + [j]
  {
    SwapIntoPlace(s, p, n, j);
    assert s[..n][j] == s[j];
    assert IndexIn(s[..n], p[n - 1]) == j;
  }

  /** One-to-one: without repeated elements the choices can be read off the output. */
  lemma {:induction false} ShuffleInjective<T>(s: seq<T>, choices: seq<nat>)
    requires |choices| <= |s| && ChoiceVector(choices) && Distinct(s)
    ensures ReadOff(s, choices)
    decreases choices
  {
    var n, out := |choices|, Shuffled(s, choices);
    ShufflePermutes(s, choices);
    PrefixMultiset(s, out, n);
    if n == 0 {
    } else {
      SwapDistinct(s, n - 1, choices[n - 1]);
      ShuffleInjective(Swap(s, n - 1, choices[n - 1]), choices[..n - 1]);
      ChoicesAreRead(s, choices);
    }
  }

  ghost predicate ReadOff<T>(s: seq<T>, choices: seq<nat>)
    requires |choices| <= |s| && ChoiceVector(choices)
  {
    var n, out := |choices|, Shuffled(s, choices);
    multiset(s[..n]) == multiset(out[..n]) && ChoicesFor(s, out, n) == choices
  }

  lemma ChoicesAreRead<T>(s: seq<T>, choices: seq<nat>)
    requires 0 < |choices| <= |s| && ChoiceVector(choices) && Distinct(s)
    requires multiset(s[..|choices|]) == multiset(Shuffled(s, choices)[..|choices|])
    requires ReadOff(Swap(s, |choices| - 1, choices[|choices| - 1]), choices[..|choices| - 1])
    ensures ReadOff(s, choices)
  {
    SwapFirst(s, choices);
    FirstChoiceIsRead(s, choices, Shuffled(s, choices));
  }

  lemma {:induction false} FirstChoiceIsRead<T>(s: seq<T>, choices: seq<nat>, out: seq<T>)
    requires 0 < |choices| <= |s| && ChoiceVector(choices) && Distinct(s) && out == Shuffled(s, choices)
    requires var n := |choices|; multiset(s[..n]) == multiset(out[..n])
    requires var n, t := |choices|, Swap(s, |choices| - 1, choices[|choices| - 1]);
             multiset(t[..n - 1]) == multiset(out[..n - 1]) && ChoicesFor(t, out, n - 1) == choices[..n - 1]
    ensures ChoicesFor(s, out, |choices|) == choices
  {
    LastIsChosen(s, choices);
    ChoicesForStep(s, out, |choices|, choices[|choices| - 1]);
    InitAndLast(choices);
  }

  lemma SwapFirst<T>(s: seq<T>, choices: seq<nat>)
    requires 0 < |choices| <= |s| && ChoiceVector(choices)
    ensures var i := |choices| - 1; Shuffled(Swap(s, i, choices[i]), choices[..i]) == Shuffled(s, choices)
  {
    if |choices| == 1 {
      assert Swap(s, 0, 0) == s;
    }
  }

  /**
   Fisher-Yates is a bijection: on distinct elements, choice vectors and rearrangements of the input
   correspond one to one, by `Shuffled` one way and `ChoicesFor` the other.
   */
  lemma {:induction false} ShuffleIsBijection<T>(s: seq<T>)
    requires Distinct(s)
    ensures forall p: seq<T> :: Rearranges(p, s) ==>
              exists choices :: ChoiceVector(choices) && |choices| == |s| && Shuffled(s, choices) == p
    ensures forall c: seq<nat>, d: seq<nat> ::
              ChoiceVector(c) && ChoiceVector(d) && |c| == |d| == |s| && Shuffled(s, c) == Shuffled(s, d) ==> c == d
  {
    forall p: seq<T> | Rearranges(p, s)
      ensures exists choices :: ChoiceVector(choices) && |choices| == |s| && Shuffled(s, choices) == p
    {
      assert |p| == |multiset(p)| == |multiset(s)| == |s|;
      assert s[..|s|] == s && p[..|s|] == p;
      ShuffleReaches(s, p, |s|);
    }
    forall c: seq<nat>, d: seq<nat> |
      ChoiceVector(c) && ChoiceVector(d) && |c| == |d| == |s| && Shuffled(s, c) == Shuffled(s, d)
      ensures c == d
    {
      ShuffleInjective(s, c);
      ShuffleInjective(s, d);
    }
  }

  // ----- Questions

  datatype Op = Plus | Minus | Times

  function Evaluate(a: int, op: Op, b: int): int {
    match op
    case Plus => a + b
    case Minus => a - b
    case Times => a * b
  }

  datatype Question = Question(a: int, op: Op, b: int, answer: int, options: seq<int>)

  const OPTIONS := 4
  const GUARD := 100

  /** The distractor proposed in a round of the loop: up to nine off the answer, either way. */
  function Candidate(answer: int, size: real, sign: real): int
    requires 0.0 <= size < 1.0
    ensures Candidate(answer, size, sign) != answer
    ensures answer - 9 <= Candidate(answer, size, sign) <= answer + 9
  {
    var delta := 1 + Pick(size, 9);
    answer + if sign < 0.5 then -delta else delta
  }

  /** The candidate of a round. */
  function CandidateAt(answer: int, rand: Randoms, round: nat): (c: int)
    requires |rand| > 4 + 2 * round
    ensures c != answer
  {
    Candidate(answer, rand[3 + 2 * round], rand[4 + 2 * round])
  }

  /** Whether a guarded round brought nothing new: its candidate is negative or already an option. */
  predicate Wasted(answer: int, options: seq<int>, rand: Randoms, round: nat)
    requires |rand| > 4 + 2 * round
  {
    CandidateAt(answer, rand, round) < 0 || CandidateAt(answer, rand, round) in options
  }

  predicate GoodOptions(answer: int, options: seq<int>) {
    && Distinct(options) && answer in options && |options| <= OPTIONS
    && forall i :: 0 <= i < |options| ==> options[i] >= 0 && answer - 9 <= options[i] <= answer + 9
  }

  /** The options after the first `rounds` rounds, and how many of these drew a candidate before all were found. */
  function Drawn(answer: int, rand: Randoms, rounds: nat): (r: (seq<int>, nat))
    requires |rand| > 2 + 2 * rounds
    ensures r.1 <= rounds
  {
    if rounds == 0 then ([answer], 0)
    else
      var (options, used) := Drawn(answer, rand, rounds - 1);
      if |options| >= OPTIONS then (options, used)
      else if Wasted(answer, options, rand, used) then (options, used + 1)
      else (options + [CandidateAt(answer, rand, used)], used + 1)
  }

  /** Once all options are found nothing more is drawn. */
  lemma {:induction false} DrawnStops(answer: int, rand: Randoms, found: nat, rounds: nat)
    requires found <= rounds && |rand| > 2 + 2 * rounds
    requires |Drawn(answer, rand, found).0| >= OPTIONS
    ensures Drawn(answer, rand, rounds) == Drawn(answer, rand, found)
    decreases rounds
  {
    if found < rounds {
      DrawnStops(answer, rand, found, rounds - 1);
    }
  }

  /** The guard is spent on wasted rounds only, or there are four options. */
  lemma {:induction false} DrawnIsGood(answer: int, rand: Randoms, rounds: nat)
    requires answer >= 0 && |rand| > 2 + 2 * rounds
    ensures var (options, used) := Drawn(answer, rand, rounds);
            && GoodOptions(answer, options)
            && (|options| < OPTIONS ==>
                  used == rounds && forall k :: 0 <= k < rounds ==> Wasted(answer, options, rand, k))
    decreases rounds
  {
    if rounds == 0 {
    } else {
      DrawnIsGood(answer, rand, rounds - 1);
      var before, options := Drawn(answer, rand, rounds - 1).0, Drawn(answer, rand, rounds).0;
      if |options| < OPTIONS {
        forall k | 0 <= k < rounds ensures Wasted(answer, options, rand, k) {
          assert k < rounds - 1 ==> Wasted(answer, before, rand, k);
        }
      }
    }
  }

  /** The different options that the first `rounds` rounds have on offer besides the answer. */
  ghost function OnOffer(answer: int, rand: Randoms, rounds: nat): set<int>
    requires |rand| > 2 + 2 * rounds
  {
    set k | 0 <= k < rounds && CandidateAt(answer, rand, k) >= 0 :: CandidateAt(answer, rand, k)
  }

  lemma OneMoreOnOffer(answer: int, rand: Randoms, rounds: nat)
    requires |rand| > 4 + 2 * rounds
    ensures var c := CandidateAt(answer, rand, rounds);
            OnOffer(answer, rand, rounds + 1) == OnOffer(answer, rand, rounds) + if c >= 0 then {c} else {}
  {
    var c := CandidateAt(answer, rand, rounds);
    forall x | x in OnOffer(answer, rand, rounds) ensures x in OnOffer(answer, rand, rounds + 1) {
      var k :| 0 <= k < rounds && CandidateAt(answer, rand, k) >= 0 && CandidateAt(answer, rand, k) == x;
      assert k < rounds + 1;
    }
    assert c >= 0 ==> c in OnOffer(answer, rand, rounds + 1);
  }

  /** Missing options: every round was used and all that was on offer taken; else at least three were on offer. */
  ghost predicate Stocked(answer: int, options: seq<int>, used: nat, rounds: nat, offer: set<int>) {
    if |options| < OPTIONS then used == rounds && TakenAll(answer, options, offer)
    else |options| == OPTIONS && |offer| >= OPTIONS - 1
  }

  ghost predicate TakenAll(answer: int, options: seq<int>, offer: set<int>) {
    && |options| == 1 + |offer|
    && forall x :: x in options <==> x == answer || x in offer
  }

  lemma TakeOne(answer: int, options: seq<int>, offer: set<int>, c: int)
    requires TakenAll(answer, options, offer) && c != answer
    ensures c < 0 || c in options ==> TakenAll(answer, options, offer + if c >= 0 then {c} else {})
    ensures c >= 0 && c !in options ==> TakenAll(answer, options + [c], offer + {c})
  {
    if c in offer {
      assert offer + {c} == offer;
    } else if c < 0 {
      assert offer + {} == offer;
    }
  }

  /** The options and the rounds used once the candidate `c` has had its turn. */
  function Taking(options: seq<int>, used: nat, c: int): (seq<int>, nat) {
    if |options| >= OPTIONS then (options, used)
    else if c < 0 || c in options then (options, used + 1)
    else (options + [c], used + 1)
  }

  lemma TakingKeepsStocked(answer: int, options: seq<int>, used: nat, rounds: nat, offer: set<int>, c: int)
    requires Stocked(answer, options, used, rounds, offer) && c != answer
    ensures var (options', used') := Taking(options, used, c);
            Stocked(answer, options', used', rounds + 1, offer + if c >= 0 then {c} else {})
  {
    if |options| >= OPTIONS {
      SubsetSize(offer, offer + if c >= 0 then {c} else {});
    } else {
      TakeOne(answer, options, offer, c);
    }
  }

  lemma NextDrawn(answer: int, rand: Randoms, rounds: nat)
    requires |rand| > 4 + 2 * rounds
    ensures var (options, used) := Drawn(answer, rand, rounds);
            |options| >= OPTIONS || used == rounds ==>
              Drawn(answer, rand, rounds + 1) == Taking(options, used, CandidateAt(answer, rand, rounds))
  {
  }

  ghost predicate DrawnStocked(answer: int, rand: Randoms, rounds: nat)
    requires |rand| > 2 + 2 * rounds
  {
    var (options, used) := Drawn(answer, rand, rounds);
    Stocked(answer, options, used, rounds, OnOffer(answer, rand, rounds))
  }

  lemma NextDrawnIsStocked(answer: int, rand: Randoms, rounds: nat)
    requires |rand| > 4 + 2 * rounds && DrawnStocked(answer, rand, rounds)
    ensures DrawnStocked(answer, rand, rounds + 1)
  {
    var (options, used) := Drawn(answer, rand, rounds);
    NextDrawn(answer, rand, rounds);
    OneMoreOnOffer(answer, rand, rounds);
    TakingKeepsStocked(answer, options, used, rounds, OnOffer(answer, rand, rounds),
                       CandidateAt(answer, rand, rounds));
  }

  lemma {:induction false} DrawnIsStocked(answer: int, rand: Randoms, rounds: nat)
    requires |rand| > 2 + 2 * rounds
    ensures DrawnStocked(answer, rand, rounds)
    decreases rounds
  {
    if rounds == 0 {
      assert OnOffer(answer, rand, 0) == {};
    } else {
      DrawnIsStocked(answer, rand, rounds - 1);
      NextDrawnIsStocked(answer, rand, rounds - 1);
    }
  }

  /** Four options exactly if the guarded rounds have three different ones on offer besides the answer. */
  lemma FourOptionsIff(answer: int, rand: Randoms)
    requires |rand| > 2 + 2 * GUARD
    ensures |Drawn(answer, rand, GUARD).0| == OPTIONS <==> |OnOffer(answer, rand, GUARD)| >= OPTIONS - 1
  {
    DrawnIsStocked(answer, rand, GUARD);
  }

  /** A generator stuck at zero offers one option only, over and over. */
  lemma StuckGeneratorGivesTwo(answer: int, rand: Randoms)
    requires answer >= 1 && |rand| > 2 + 2 * GUARD && forall i :: 0 <= i < |rand| ==> rand[i] == 0.0
    ensures |Drawn(answer, rand, GUARD).0| == 2
  {
    DrawnIsStocked(answer, rand, GUARD);
    var offer := OnOffer(answer, rand, GUARD);
    forall k: nat | k < GUARD ensures CandidateAt(answer, rand, k) == answer - 1 {
      PickOfZero(9);
    }
    assert CandidateAt(answer, rand, 0) in offer;
    assert offer == {answer - 1};
  }

  lemma PickOfZero(n: nat)
    requires n > 0
    ensures Pick(0.0, n) == 0
  {
    assert 0.0 * n as real == 0.0;
  }

  method DrawOptions(answer: int, rand: Randoms) returns (options: seq<int>, used: nat)
    requires answer >= 0 && |rand| == 3 + 2 * GUARD + OPTIONS
    ensures (options, used) == Drawn(answer, rand, GUARD)
  {
    options, used := [answer], 0;
    while |options| < OPTIONS && used < GUARD
      invariant 0 <= used <= GUARD
      invariant (options, used) == Drawn(answer, rand, used)
    {
      var candidate := Candidate(answer, rand[3 + 2 * used], rand[4 + 2 * used]);
      if candidate >= 0 && candidate !in options {
        options := options + [candidate];
      }
      used := used + 1;
    }
    if used < GUARD {
      DrawnStops(answer, rand, used, GUARD);
    }
  }

  /** The display order matters neither for the options nor for how they came about. */
  lemma KeepsGoodOptions(answer: int, drawn: seq<int>, shown: seq<int>, rand: Randoms)
    requires |rand| == 3 + 2 * GUARD + OPTIONS
    requires GoodOptions(answer, drawn) && Rearranges(shown, drawn)
    ensures GoodOptions(answer, shown) && |shown| == |drawn|
    ensures forall k :: 0 <= k < GUARD && Wasted(answer, drawn, rand, k) ==> Wasted(answer, shown, rand, k)
  {
    SameElements(drawn, shown);
    forall i | 0 <= i < |shown| ensures shown[i] >= 0 && answer - 9 <= shown[i] <= answer + 9 {
      assert shown[i] in drawn;
    }
  }

  /** The operands drawn, swapped where a difference would be negative. */
  function Operands(op: Op, rand: Randoms): (r: (int, int))
    requires |rand| > 2
    ensures 2 <= r.0 <= 19 && 2 <= r.1 <= 19 && (op == Minus ==> r.0 >= r.1)
  {
    var a, b := 2 + Pick(rand[1], 18), 2 + Pick(rand[2], 12);
    if op == Minus && b > a then (b, a) else (a, b)
  }

  method DrawOperands(op: Op, rand: Randoms) returns (a: int, b: int)
    requires |rand| > 2
    ensures (a, b) == Operands(op, rand)
  {
    a := 2 + Pick(rand[1], 18);
    b := 2 + Pick(rand[2], 12);
    if op == Minus && b > a {
      a, b := b, a;
    }
  }

  lemma AnswerIsNotNegative(a: nat, op: Op, b: nat)
    requires op == Minus ==> a >= b
    ensures Evaluate(a, op, b) >= 0
  {
  }

  /** The options in display order. */
  method Options(answer: int, rand: Randoms) returns (options: seq<int>)
    requires answer >= 0 && |rand| == 3 + 2 * GUARD + OPTIONS
    ensures var (drawn, used) := Drawn(answer, rand, GUARD);
            |drawn| <= OPTIONS && options == Shuffled(drawn, Choices(|drawn|, rand[3 + 2 * used..]))
    ensures GoodOptions(answer, options)
    // Fewer than four options only when all guarded rounds were spent on negative or repeated candidates.
    ensures |options| == OPTIONS || forall k :: 0 <= k < GUARD ==> Wasted(answer, options, rand, k)
    ensures |options| == OPTIONS <==> |OnOffer(answer, rand, GUARD)| >= OPTIONS - 1
  {
    var drawn, used := DrawOptions(answer, rand);
    DrawnIsGood(answer, rand, GUARD);
    FourOptionsIff(answer, rand);
    var rest := rand[3 + 2 * used..];
    var shuffled := Shuffle(drawn, rest);
    ShufflePermutes(drawn, Choices(|drawn|, rest));
    options := shuffled[..];
    KeepsGoodOptions(answer, drawn, options, rand);
  }

  /** `rand` holds every draw a call can consume: 3, then two for each guarded round, then the shuffle's. */
  method GenerateQuestion(rand: Randoms) returns (q: Question)
    requires |rand| == 3 + 2 * GUARD + OPTIONS
    ensures q.op == [Plus, Minus, Times][Pick(rand[0], 3)] && (q.a, q.b) == Operands(q.op, rand)
    ensures q.answer == Evaluate(q.a, q.op, q.b) && q.answer >= 0
    ensures var (drawn, used) := Drawn(q.answer, rand, GUARD);
            |drawn| <= OPTIONS && q.options == Shuffled(drawn, Choices(|drawn|, rand[3 + 2 * used..]))
    ensures GoodOptions(q.answer, q.options)
    ensures |q.options| == OPTIONS || forall k :: 0 <= k < GUARD ==> Wasted(q.answer, q.options, rand, k)
    ensures |q.options| == OPTIONS <==> |OnOffer(q.answer, rand, GUARD)| >= OPTIONS - 1
  {
    var op := [Plus, Minus, Times][Pick(rand[0], 3)];
    var a, b := DrawOperands(op, rand);
    AnswerIsNotNegative(a, op, b);
    var answer := Evaluate(a, op, b);
    var options := Options(answer, rand);
    q := Question(a, op, b, answer, options);
  }

  /** A rearrangement has the same members, and repeats none if the original repeats none. */
  lemma SameElements(s: seq<int>, t: seq<int>)
    requires multiset(s) == multiset(t)
    ensures |s| == |t|
    ensures forall x :: x in s <==> x in t
    ensures Distinct(s) ==> Distinct(t)
  {
    assert |s| == |multiset(s)| == |multiset(t)| == |t|;
    forall x ensures x in s <==> x in t {
      assert x in s <==> x in multiset(s);
      assert x in t <==> x in multiset(t);
    }
    if Distinct(s) {
      forall i, j | 0 <= i < j < |t| ensures t[i] != t[j] {
        if t[i] == t[j] {
          assert t == t[..i] + [t[i]] + t[i + 1..j] + [t[j]] + t[j + 1..];
          assert multiset(t)[t[i]] >= 2;
          AtMostOnce(s, t[i]);
        }
      }
    }
  }

  lemma {:induction false} AtMostOnce(s: seq<int>, x: int)
    requires Distinct(s)
    ensures multiset(s)[x] <= 1
    decreases |s|
  {
    if s == [] {
    } else {
      var init := s[..|s| - 1];
      AtMostOnce(init, x);
      assert s == init + [s[|s| - 1]];
    }
  }

  // ----- Draws and arithmetic

  /** A draw picks `k` exactly when it falls into the `k`-th of `n` equal parts. */
  lemma PickIff(r: real, n: nat, k: nat)
    requires 0.0 <= r < 1.0 && n > 0 && k < n
    ensures Pick(r, n) == k <==> k as real <= r * n as real < k as real + 1.0
  {
    var scaled := Scale(r, n as real);
    assert scaled == r * n as real;
  }

  /** The laws that determine the three operations on whole numbers. */
  lemma EvaluateLaws(a: int, b: int)
    ensures Evaluate(a, Plus, 0) == a && Evaluate(a, Plus, b + 1) == Evaluate(a, Plus, b) + 1
    ensures Evaluate(Evaluate(a, Plus, b), Minus, b) == a
    ensures Evaluate(a, Times, 0) == 0
    ensures Evaluate(a, Times, b + 1) == Evaluate(Evaluate(a, Times, b), Plus, a)
  {
  }

  /** Every number within nine of the answer, but the answer, is some round's candidate. */
  lemma EveryCandidateIsPossible(answer: int, delta: int)
    requires 1 <= delta <= 9
    ensures exists size :: 0.0 <= size < 1.0 && Candidate(answer, size, 0.0) == answer - delta
    ensures exists size :: 0.0 <= size < 1.0 && Candidate(answer, size, 0.5) == answer + delta
  {
    PickReachesAll(delta - 1, 9);
    var size :| 0.0 <= size < 1.0 && Pick(size, 9) == delta - 1;
    assert Candidate(answer, size, 0.0) == answer - delta && Candidate(answer, size, 0.5) == answer + delta;
  }
}
