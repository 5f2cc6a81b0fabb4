// `_mcnemar` of harness/evals/experiments.py, in exact arithmetic, against its meaning: the share of all equally likely
// splits of the discordant tasks that are at least as uneven as the observed one.
module SignTest {
  import opened Wrappers

  // math.comb
  function Choose(n: nat, k: nat): nat {
    if k == 0 then 1 else if n == 0 then 0 else Choose(n - 1, k - 1) + Choose(n - 1, k)
  }

  // sum(math.comb(n, index) for index in range(m + 1))
  function Tail(n: nat, m: nat): nat {
    if m == 0 then Choose(n, 0) else Tail(n, m - 1) + Choose(n, m)
  }

  function Pow2(n: nat): (r: nat)
    ensures r >= 1
  {
    if n == 0 then 1 else 2 * Pow2(n - 1)
  }

  function Fewer(wins: nat, losses: nat): nat { if wins <= losses then wins else losses }

  function McNemar(wins: nat, losses: nat): real {
    var n := wins + losses;
    if n == 0 then 1.0
    else
      var p := (2 * Tail(n, Fewer(wins, losses))) as real / Pow2(n) as real;
      if p < 1.0 then p else 1.0
  }

  // ---------------------------------------------------------------- the reference: splits of n discordant tasks

  // One verdict per task, true for a win.
  type Split = seq<bool>

  ghost function Prefixed(b: bool, s: set<Split>): set<Split> { set x | x in s :: [b] + x }

  ghost function Splits(n: nat): set<Split> {
    if n == 0 then {[]} else Prefixed(false, Splits(n - 1)) + Prefixed(true, Splits(n - 1))
  }

  function Trues(s: Split): nat {
    if s == [] then 0 else (if s[0] then 1 else 0) + Trues(s[1..])
  }

  function Flip(s: Split): (r: Split)
    ensures |r| == |s|
  {
    if s == [] then [] else [!s[0]] + Flip(s[1..])
  }

  ghost function WithWins(n: nat, k: nat): set<Split> { set s | s in Splits(n) && Trues(s) == k }

  ghost function AtMost(n: nat, m: nat): set<Split> { set s | s in Splits(n) && Trues(s) <= m }

  ghost function AtLeast(n: nat, m: nat): set<Split> { set s | s in Splits(n) && n <= Trues(s) + m }

  // As uneven as m against n - m, on either side.
  ghost function Extreme(n: nat, m: nat): set<Split> {
    set s | s in Splits(n) && (Trues(s) <= m || n <= Trues(s) + m)
  }

  lemma PrefixInjective(b: bool, x: Split, y: Split)
    requires [b] + x == [b] + y
    ensures x == y
  {
    assert ([b] + x)[1..] == x && ([b] + y)[1..] == y;
  }

  lemma {:induction false} PrefixedCount(b: bool, s: set<Split>)
    ensures |Prefixed(b, s)| == |s|
    decreases |s|
  {
    if s == {} {
      assert Prefixed(b, s) == {};
    } else {
      var x :| x in s;
      PrefixedCount(b, s - {x});
      forall y | [b] + y == [b] + x ensures y == x {
        PrefixInjective(b, x, y);
      }
      assert [b] + x !in Prefixed(b, s - {x});
      assert Prefixed(b, s) == Prefixed(b, s - {x}) + {[b] + x};
    }
  }

  lemma PrefixedApart(s: set<Split>, t: set<Split>)
    ensures |Prefixed(false, s) + Prefixed(true, t)| == |s| + |t|
  {
    PrefixedCount(false, s);
    PrefixedCount(true, t);
    forall x | x in Prefixed(false, s) ensures x !in Prefixed(true, t) {
      assert !x[0];
    }
    assert Prefixed(false, s) !! Prefixed(true, t);
  }

  lemma SplitsStep(n: nat, s: Split)
    ensures s in Splits(n + 1) <==> s != [] && s[1..] in Splits(n)
  {
    if s in Splits(n + 1) {
      var b, x :| x in Splits(n) && s == [b] + x;
      assert s[1..] == x;
    }
    if s != [] && s[1..] in Splits(n) {
      assert s == [s[0]] + s[1..];
      assert [s[0]] + s[1..] in Prefixed(s[0], Splits(n));
    }
  }

  lemma {:induction false} SplitsAre(n: nat, s: Split)
    ensures s in Splits(n) <==> |s| == n
    decreases n
  {
    if n > 0 {
      SplitsStep(n - 1, s);
      if s != [] {
        SplitsAre(n - 1, s[1..]);
      }
    }
  }

  lemma {:induction false} SplitsCount(n: nat)
    ensures |Splits(n)| == Pow2(n)
  {
    if n > 0 {
      SplitsCount(n - 1);
      PrefixedApart(Splits(n - 1), Splits(n - 1));
    }
  }

  lemma PrefixedHas(b: bool, set_: set<Split>, s: Split)
    ensures s in Prefixed(b, set_) <==> s != [] && s[0] == b && s[1..] in set_
  {
    if s != [] {
      assert s == [s[0]] + s[1..];
    }
    if s in Prefixed(b, set_) {
      var x :| x in set_ && s == [b] + x;
      assert s[1..] == x;
    }
  }

  ghost function OneFewer(n: nat, k: nat): set<Split> { if k == 0 then {} else WithWins(n, k - 1) }

  // A split with k wins begins with a loss and has k more, or with a win and has k - 1 more.
  lemma WinsStep(n: nat, k: nat)
    ensures |WithWins(n + 1, k)| == |WithWins(n, k)| + |OneFewer(n, k)|
  {
    forall s: Split
      ensures s in WithWins(n + 1, k) <==> s in Prefixed(false, WithWins(n, k)) || s in Prefixed(true, OneFewer(n, k))
    {
      SplitsStep(n, s);
      PrefixedHas(false, WithWins(n, k), s);
      PrefixedHas(true, OneFewer(n, k), s);
    }
    assert WithWins(n + 1, k) == Prefixed(false, WithWins(n, k)) + Prefixed(true, OneFewer(n, k));
    PrefixedApart(WithWins(n, k), OneFewer(n, k));
  }

  lemma NoTasks(k: nat)
    ensures |WithWins(0, k)| == Choose(0, k)
  {
    assert WithWins(0, k) == if k == 0 then {[]} else {};
  }

  // Binomial coefficients count the splits with k wins.
  lemma {:induction false} WinsCount(n: nat, k: nat)
    ensures |WithWins(n, k)| == Choose(n, k)
    decreases n
  {
    if n == 0 {
      NoTasks(k);
    } else {
      WinsStep(n - 1, k);
      WinsCount(n - 1, k);
      if k > 0 {
        WinsCount(n - 1, k - 1);
      } else {
        assert Choose(n - 1, 0) == 1;
      }
    }
  }

  lemma {:induction false} AtMostCount(n: nat, m: nat)
    ensures |AtMost(n, m)| == Tail(n, m)
    decreases m
  {
    WinsCount(n, m);
    if m == 0 {
      assert AtMost(n, 0) == WithWins(n, 0);
    } else {
      AtMostCount(n, m - 1);
      assert AtMost(n, m) == AtMost(n, m - 1) + WithWins(n, m);
      assert AtMost(n, m - 1) !! WithWins(n, m);
    }
  }

  lemma {:induction false} FlipTwice(s: Split)
    ensures Flip(Flip(s)) == s && Trues(Flip(s)) == |s| - Trues(s) && Trues(s) <= |s|
  {
    if s != [] {
      FlipTwice(s[1..]);
      assert Flip(s)[1..] == Flip(s[1..]);
    }
  }

  ghost function Flipped(s: set<Split>): set<Split> { set x | x in s :: Flip(x) }

  lemma FlipInjective(x: Split, y: Split)
    requires Flip(x) == Flip(y)
    ensures x == y
  {
    FlipTwice(x);
    FlipTwice(y);
  }

  lemma {:induction false} FlipCount(s: set<Split>)
    ensures |Flipped(s)| == |s|
    decreases |s|
  {
    if s == {} {
      assert Flipped(s) == {};
    } else {
      var x :| x in s;
      FlipCount(s - {x});
      forall y | Flip(y) == Flip(x) ensures y == x {
        FlipInjective(x, y);
      }
      assert Flip(x) !in Flipped(s - {x});
      assert Flipped(s) == Flipped(s - {x}) + {Flip(x)};
    }
  }

  // Swapping wins and losses in every split exchanges the two tails.
  lemma AtLeastCount(n: nat, m: nat)
    ensures |AtLeast(n, m)| == Tail(n, m)
  {
    AtMostCount(n, m);
    FlipCount(AtMost(n, m));
    forall s: Split ensures s in AtLeast(n, m) <==> s in Flipped(AtMost(n, m)) {
      FlippedTail(n, m, s);
    }
    assert AtLeast(n, m) == Flipped(AtMost(n, m));
  }

  lemma FlippedTail(n: nat, m: nat, s: Split)
    ensures s in AtLeast(n, m) <==> s in Flipped(AtMost(n, m))
  {
    SplitsAre(n, s);
    SplitsAre(n, Flip(s));
    FlipTwice(s);
    if s in AtLeast(n, m) {
      assert Flip(s) in AtMost(n, m) && s == Flip(Flip(s));
    }
    if s in Flipped(AtMost(n, m)) {
      var x :| x in AtMost(n, m) && s == Flip(x);
      SplitsAre(n, x);
      FlipTwice(x);
    }
  }

  lemma {:induction false} UnionCount<T>(a: set<T>, b: set<T>)
    ensures |a + b| + |a * b| == |a| + |b|
  {
    assert a + b == a + (b - a) && b == (b - a) + (a * b);
    assert (b - a) !! (a * b) && a !! (b - a);
  }

  lemma WithinAll(n: nat, s: set<Split>)
    requires s <= Splits(n)
    ensures |s| <= Pow2(n)
  {
    SplitsCount(n);
    SubsetCount(s, Splits(n));
  }

  lemma SubsetCount<T>(a: set<T>, b: set<T>)
    requires a <= b
    ensures |a| <= |b|
  {
    assert b == a + (b - a) && a !! (b - a);
  }

  // Twice the tail overcounts exactly the splits in both tails: none unless the observed split is even.
  lemma TwoTails(wins: nat, losses: nat)
    requires wins + losses > 0
    ensures var n, m := wins + losses, Fewer(wins, losses);
            && |Extreme(n, m)| <= Pow2(n)
            && (wins != losses ==> 2 * Tail(n, m) == |Extreme(n, m)|)
            && (wins == losses ==> 2 * Tail(n, m) == Pow2(n) + Choose(n, m) && |Extreme(n, m)| == Pow2(n))
  {
    var n, m := wins + losses, Fewer(wins, losses);
    AtMostCount(n, m);
    AtLeastCount(n, m);
    UnionCount(AtMost(n, m), AtLeast(n, m));
    assert Extreme(n, m) == AtMost(n, m) + AtLeast(n, m);
    WithinAll(n, Extreme(n, m));
    if wins != losses {
      assert AtMost(n, m) * AtLeast(n, m) == {};
    } else {
      assert AtMost(n, m) * AtLeast(n, m) == WithWins(n, m);
      WinsCount(n, m);
      assert Extreme(n, m) == Splits(n);
      SplitsCount(n);
    }
  }

  lemma {:induction false} ChoosePositive(n: nat, k: nat)
    requires k <= n
    ensures Choose(n, k) >= 1
  {
    if k > 0 {
      ChoosePositive(n - 1, k - 1);
    }
  }

  lemma {:induction false} TailPositive(n: nat, m: nat)
    ensures Tail(n, m) >= 1
  {
    if m > 0 {
      TailPositive(n, m - 1);
    }
  }

  lemma RatioBelowOne(a: nat, b: nat)
    requires b >= 1
    ensures a as real / b as real < 1.0 <==> a < b
    ensures a >= 1 ==> a as real / b as real > 0.0
    ensures a == b ==> a as real / b as real == 1.0
  {
    var x, d := a as real / b as real, b as real;
    assert x * d == a as real;
    if x >= 1.0 {
      assert x * d >= 1.0 * d;
    } else {
      assert x * d < 1.0 * d;
    }
  }

  // The p-value is the exact two-sided probability, capped or not.
  lemma McNemarIsExact(wins: nat, losses: nat)
    ensures var n, m := wins + losses, Fewer(wins, losses);
            McNemar(wins, losses) == |Extreme(n, m)| as real / Pow2(n) as real
  {
    var n, m := wins + losses, Fewer(wins, losses);
    if n == 0 {
      assert Splits(0) == {[]};
      assert Extreme(0, 0) == {[]};
    } else {
      TwoTails(wins, losses);
      RatioBelowOne(2 * Tail(n, m), Pow2(n));
      RatioBelowOne(|Extreme(n, m)|, Pow2(n));
    }
  }

  // Symmetric, within (0, 1], and the cap is strictly needed for even splits only.
  lemma McNemarShape(wins: nat, losses: nat)
    ensures McNemar(wins, losses) == McNemar(losses, wins)
    ensures 0.0 < McNemar(wins, losses) <= 1.0
    ensures wins + losses > 0 ==>
      (2 * Tail(wins + losses, Fewer(wins, losses)) > Pow2(wins + losses) <==> wins == losses)
  {
    var n, m := wins + losses, Fewer(wins, losses);
    if n > 0 {
      TwoTails(wins, losses);
      TailPositive(n, m);
      RatioBelowOne(2 * Tail(n, m), Pow2(n));
      if wins == losses {
        ChoosePositive(n, m);
      }
    }
  }
}
