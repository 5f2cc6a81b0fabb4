// `_paired_task_values` and the win/loss/tie loop of harness/evals/experiments.py.
module PairedTrials {
  import opened Wrappers
  import T = SignTest

  datatype Task = Task(benchmark: string, taskId: string)

  datatype Trial = Trial(candidate: string, task: Task, attempt: nat, reward: Option<nat>)

  // What the `values` dictionary ends up holding: the last scored record of the attempt.
  function Reward(records: seq<Trial>, candidate: string, task: Task, attempt: nat): Option<nat> {
    if records == [] then None
    else
      var last := records[|records| - 1];
      if last.reward.Some? && last.candidate == candidate && last.task == task && last.attempt == attempt
      then last.reward
      else Reward(records[..|records| - 1], candidate, task, attempt)
  }

  // The attempts below `bound` that both candidates have scored, in ascending order.
  function Pairs(records: seq<Trial>, a: string, b: string, task: Task, bound: nat): seq<(nat, nat)> {
    if bound == 0 then []
    else
      var left, right := Reward(records, a, task, bound - 1), Reward(records, b, task, bound - 1);
      Pairs(records, a, b, task, bound - 1)
      + (if left.Some? && right.Some? then [(left.value, right.value)] else [])
  }

  function Bound(records: seq<Trial>): (r: nat)
    ensures forall t :: t in records ==> t.attempt < r
  {
    if records == [] then 0
    else
      var n := |records| - 1;
      assert records == records[..n] + [records[n]];
      if Bound(records[..n]) <= records[n].attempt then records[n].attempt + 1 else Bound(records[..n])
  }

  function Lefts(pairs: seq<(nat, nat)>): nat {
    if pairs == [] then 0 else Lefts(pairs[..|pairs| - 1]) + pairs[|pairs| - 1].0
  }

  function Rights(pairs: seq<(nat, nat)>): nat {
    if pairs == [] then 0 else Rights(pairs[..|pairs| - 1]) + pairs[|pairs| - 1].1
  }

  datatype Result = Win | Loss | Tie

  // Compare the two means.
  function Compare(pairs: seq<(nat, nat)>): Result
    requires pairs != []
  {
    var left := Lefts(pairs) as real / |pairs| as real;
    var right := Rights(pairs) as real / |pairs| as real;
    if left > right then Win else if left < right then Loss else Tie
  }

  ghost function Paired(records: seq<Trial>, a: string, b: string): set<Task> {
    set t | t in records && Pairs(records, a, b, t.task, Bound(records)) != [] :: t.task
  }

  ghost function With(records: seq<Trial>, a: string, b: string, result: Result): set<Task> {
    set task | task in Paired(records, a, b) && Compare(Pairs(records, a, b, task, Bound(records))) == result
  }

  // ---------------------------------------------------------------- swapping the candidates

  function Swap(pairs: seq<(nat, nat)>): (r: seq<(nat, nat)>)
    ensures |r| == |pairs|
  {
    if pairs == [] then [] else Swap(pairs[..|pairs| - 1]) + [(pairs[|pairs| - 1].1, pairs[|pairs| - 1].0)]
  }

  lemma {:induction false} PairsSwap(records: seq<Trial>, a: string, b: string, task: Task, bound: nat)
    ensures Pairs(records, b, a, task, bound) == Swap(Pairs(records, a, b, task, bound))
  {
    if bound > 0 {
      PairsSwap(records, a, b, task, bound - 1);
      var before := Pairs(records, a, b, task, bound - 1);
      var after := Pairs(records, a, b, task, bound);
      if after != before {
        assert after[..|after| - 1] == before;
      } else {
        assert Pairs(records, b, a, task, bound) == Pairs(records, b, a, task, bound - 1) + [];
      }
    }
  }

  lemma {:induction false} SumsSwap(pairs: seq<(nat, nat)>)
    ensures Lefts(Swap(pairs)) == Rights(pairs) && Rights(Swap(pairs)) == Lefts(pairs)
  {
    if pairs != [] {
      SumsSwap(pairs[..|pairs| - 1]);
      assert Swap(pairs)[..|pairs| - 1] == Swap(pairs[..|pairs| - 1]);
    }
  }

  function Reversed(r: Result): Result {
    match r
    case Win => Loss
    case Loss => Win
    case Tie => Tie
  }

  lemma TaskSwaps(records: seq<Trial>, a: string, b: string, task: Task)
    ensures var ours, theirs := Pairs(records, a, b, task, Bound(records)), Pairs(records, b, a, task, Bound(records));
            |ours| == |theirs| && (ours != [] ==> Compare(theirs) == Reversed(Compare(ours)))
  {
    PairsSwap(records, a, b, task, Bound(records));
    SumsSwap(Pairs(records, a, b, task, Bound(records)));
  }

  // Swapping the candidates swaps wins and losses and keeps the ties and the p-value.
  lemma SwapSwapsTally(records: seq<Trial>, a: string, b: string)
    ensures Paired(records, b, a) == Paired(records, a, b)
    ensures With(records, b, a, Win) == With(records, a, b, Loss)
    ensures With(records, b, a, Loss) == With(records, a, b, Win)
    ensures With(records, b, a, Tie) == With(records, a, b, Tie)
    ensures T.McNemar(|With(records, b, a, Win)|, |With(records, b, a, Loss)|)
            == T.McNemar(|With(records, a, b, Win)|, |With(records, a, b, Loss)|)
  {
    forall task ensures |Pairs(records, a, b, task, Bound(records))| == |Pairs(records, b, a, task, Bound(records))| {
      TaskSwaps(records, a, b, task);
    }
    forall task | task in Paired(records, a, b)
      ensures Compare(Pairs(records, b, a, task, Bound(records)))
              == Reversed(Compare(Pairs(records, a, b, task, Bound(records))))
    {
      TaskSwaps(records, a, b, task);
    }
    T.McNemarShape(|With(records, a, b, Win)|, |With(records, a, b, Loss)|);
  }

  // Every paired task is exactly one of a win, a loss and a tie.
  lemma TallyIsTotal(records: seq<Trial>, a: string, b: string)
    ensures |With(records, a, b, Win)| + |With(records, a, b, Loss)| + |With(records, a, b, Tie)|
            == |Paired(records, a, b)|
  {
    var w, l, t := With(records, a, b, Win), With(records, a, b, Loss), With(records, a, b, Tie);
    assert Paired(records, a, b) == w + l + t;
    assert w !! l && (w + l) !! t;
  }

  predicate BothScored(records: seq<Trial>, a: string, b: string, task: Task, attempt: nat) {
    Reward(records, a, task, attempt).Some? && Reward(records, b, task, attempt).Some?
  }

  // A task is paired exactly when some attempt of it is scored for both candidates.
  lemma {:induction false} PairedIff(records: seq<Trial>, a: string, b: string, task: Task, bound: nat)
    ensures Pairs(records, a, b, task, bound) != []
            <==> exists k: nat :: k < bound && BothScored(records, a, b, task, k)
  {
    if bound > 0 {
      PairedIff(records, a, b, task, bound - 1);
      assert BothScored(records, a, b, task, bound - 1) ==> Pairs(records, a, b, task, bound) != [];
    }
  }

  // ---------------------------------------------------------------- what is compared

  // The i-th record scores this attempt of the candidate.
  predicate Scores(records: seq<Trial>, i: nat, candidate: string, task: Task, attempt: nat)
    requires i < |records|
  {
    records[i].reward.Some? && records[i] == Trial(candidate, task, attempt, records[i].reward)
  }

  // The reward of an attempt is that of the last record that scores it.
  lemma {:induction false} RewardIs(records: seq<Trial>, candidate: string, task: Task, attempt: nat, i: nat)
    requires i < |records| && Scores(records, i, candidate, task, attempt)
    requires forall j :: i < j < |records| ==> !Scores(records, j, candidate, task, attempt)
    ensures Reward(records, candidate, task, attempt) == records[i].reward
  {
    var n := |records| - 1;
    if i < n {
      assert !Scores(records, n, candidate, task, attempt);
      forall j | i < j < n ensures !Scores(records[..n], j, candidate, task, attempt) {
        assert !Scores(records, j, candidate, task, attempt);
      }
      RewardIs(records[..n], candidate, task, attempt, i);
    }
  }

  lemma {:induction false} RewardIff(records: seq<Trial>, candidate: string, task: Task, attempt: nat)
    ensures Reward(records, candidate, task, attempt).Some?
            <==> exists i :: 0 <= i < |records| && Scores(records, i, candidate, task, attempt)
  {
    if records != [] {
      var n := |records| - 1;
      RewardIff(records[..n], candidate, task, attempt);
      forall i | 0 <= i < n
        ensures Scores(records[..n], i, candidate, task, attempt) == Scores(records, i, candidate, task, attempt)
      {
      }
      assert Scores(records, n, candidate, task, attempt) ==> Reward(records, candidate, task, attempt).Some?;
    }
  }

  // The pairs are those of these attempts: all the common ones, each once, in order.
  ghost predicate Common(
    records: seq<Trial>, a: string, b: string, task: Task, bound: nat, attempts: seq<nat>, pairs: seq<(nat, nat)>)
  {
    && (forall i, j :: 0 <= i < j < |attempts| ==> attempts[i] < attempts[j])
    && (forall k: nat :: k in attempts <==> k < bound && BothScored(records, a, b, task, k))
    && |pairs| == |attempts|
    && (forall i :: 0 <= i < |pairs| ==> Reward(records, a, task, attempts[i]) == Some(pairs[i].0)
                                         && Reward(records, b, task, attempts[i]) == Some(pairs[i].1))
  }

  lemma {:induction false} PairsAreCommon(records: seq<Trial>, a: string, b: string, task: Task, bound: nat)
    returns (attempts: seq<nat>)
    ensures Common(records, a, b, task, bound, attempts, Pairs(records, a, b, task, bound))
  {
    attempts := [];
    if bound > 0 {
      attempts := PairsAreCommon(records, a, b, task, bound - 1);
      if BothScored(records, a, b, task, bound - 1) {
        forall i | 0 <= i < |attempts| ensures attempts[i] < bound - 1 {
          assert attempts[i] in attempts;
        }
        attempts := attempts + [bound - 1];
      }
    }
  }

  // By how much the first candidate is ahead.
  function Lead(pairs: seq<(nat, nat)>): int {
    if pairs == [] then 0 else pairs[0].0 - pairs[0].1 + Lead(pairs[1..])
  }

  lemma {:induction false} LeadSnoc(pairs: seq<(nat, nat)>, p: (nat, nat))
    ensures Lead(pairs + [p]) == Lead(pairs) + p.0 - p.1
  {
    if pairs == [] {
      assert pairs + [p] == [p] && [p][1..] == [];
    } else {
      LeadSnoc(pairs[1..], p);
      assert (pairs + [p])[1..] == pairs[1..] + [p];
    }
  }

  lemma {:induction false} LeadIs(pairs: seq<(nat, nat)>)
    ensures Lead(pairs) == Lefts(pairs) - Rights(pairs)
  {
    if pairs != [] {
      LeadIs(pairs[..|pairs| - 1]);
      LeadSnoc(pairs[..|pairs| - 1], pairs[|pairs| - 1]);
      SplitLast(pairs);
    }
  }

  // The candidate that is ahead over the common attempts wins the task.
  lemma ComparesIff(pairs: seq<(nat, nat)>)
    requires pairs != []
    ensures (Compare(pairs) == Win <==> Lead(pairs) > 0) && (Compare(pairs) == Loss <==> Lead(pairs) < 0)
  {
    LeadIs(pairs);
    SameScale(Lefts(pairs), Rights(pairs), |pairs|);
  }

  lemma SameScale(x: nat, y: nat, n: nat)
    requires n > 0
    ensures x as real / n as real > y as real / n as real <==> x > y
    ensures x as real / n as real < y as real / n as real <==> x < y
  {
    var r := 1.0 / n as real;
    assert x as real / n as real == x as real * r && y as real / n as real == y as real * r;
  }

  // ---------------------------------------------------------------- the loops

  // values[(candidate, benchmark, task)][attempt]
  method Collect(records: seq<Trial>) returns (values: map<(string, Task), map<nat, nat>>)
    ensures forall candidate: string, task: Task, attempt: nat ::
      Reward(records, candidate, task, attempt)
      == if (candidate, task) in values then Lookup(values[(candidate, task)], attempt) else None
  {
    values := map[];
    for i := 0 to |records|
      invariant forall candidate: string, task: Task, attempt: nat ::
        Reward(records[..i], candidate, task, attempt)
        == if (candidate, task) in values then Lookup(values[(candidate, task)], attempt) else None
    {
      var record := records[i];
      assert records[..i + 1][..i] == records[..i];
      if record.reward.Some? {
        var key := (record.candidate, record.task);
        var attempts := if key in values then values[key] else map[];
        values := values[key := attempts[record.attempt := record.reward.value]];
      }
    }
    assert records[..|records|] == records;
  }

  // The common attempts of one task, in order.
  method PairAttempts(records: seq<Trial>, values: map<(string, Task), map<nat, nat>>, a: string, b: string, task: Task)
    returns (pairs: seq<(nat, nat)>)
    requires forall candidate: string, task: Task, attempt: nat ::
      Reward(records, candidate, task, attempt)
      == if (candidate, task) in values then Lookup(values[(candidate, task)], attempt) else None
    ensures pairs == Pairs(records, a, b, task, Bound(records))
  {
    pairs := [];
    var left := if (a, task) in values then values[(a, task)] else map[];
    var right := if (b, task) in values then values[(b, task)] else map[];
    for k := 0 to Bound(records)
      invariant pairs == Pairs(records, a, b, task, k)
    {
      assert Reward(records, a, task, k) == Lookup(left, k) && Reward(records, b, task, k) == Lookup(right, k);
      if k in left && k in right {
        pairs := pairs + [(left[k], right[k])];
      }
    }
  }

  // _paired_task_values
  method PairTasks(records: seq<Trial>, a: string, b: string) returns (paired: map<Task, seq<(nat, nat)>>)
    ensures paired.Keys == Paired(records, a, b)
    ensures forall task :: task in paired ==> paired[task] == Pairs(records, a, b, task, Bound(records)) != []
  {
    var values := Collect(records);
    paired := map[];
    for i := 0 to |records|
      invariant forall task :: task in paired ==> paired[task] == Pairs(records, a, b, task, Bound(records)) != []
      invariant forall task :: task in paired ==> task in Paired(records, a, b)
      invariant forall k :: 0 <= k < i && Pairs(records, a, b, records[k].task, Bound(records)) != []
                  ==> records[k].task in paired
    {
      var task := records[i].task;
      if task !in paired {
        var pairs := PairAttempts(records, values, a, b, task);
        if pairs != [] {
          assert records[i] in records;
          paired := paired[task := pairs];
        }
      }
    }
    forall task | task in Paired(records, a, b) ensures task in paired {
      var t :| t in records && t.task == task;
      var k :| 0 <= k < |records| && records[k] == t;
    }
  }

  // Tasks already counted with this result.
  ghost function Counted(paired: map<Task, seq<(nat, nat)>>, todo: set<Task>, result: Result): set<Task>
    requires forall task :: task in paired ==> paired[task] != []
  {
    set task | task in paired && task !in todo && Compare(paired[task]) == result
  }

  lemma CountOne(paired: map<Task, seq<(nat, nat)>>, todo: set<Task>, task: Task, result: Result)
    requires (forall t :: t in paired ==> paired[t] != []) && task in paired && task in todo
    ensures |Counted(paired, todo - {task}, result)|
            == |Counted(paired, todo, result)| + if Compare(paired[task]) == result then 1 else 0
  {
    if Compare(paired[task]) == result {
      assert Counted(paired, todo - {task}, result) == Counted(paired, todo, result) + {task};
    } else {
      assert Counted(paired, todo - {task}, result) == Counted(paired, todo, result);
    }
  }

  method TallyTasks(paired: map<Task, seq<(nat, nat)>>) returns (wins: nat, losses: nat, ties: nat)
    requires forall task :: task in paired ==> paired[task] != []
    ensures wins == |Counted(paired, {}, Win)| && losses == |Counted(paired, {}, Loss)|
    ensures ties == |Counted(paired, {}, Tie)| && wins + losses + ties == |paired.Keys|
  {
    wins, losses, ties := 0, 0, 0;
    var todo := paired.Keys;
    assert forall r: Result :: Counted(paired, todo, r) == {};
    while todo != {}
      invariant todo <= paired.Keys && wins + losses + ties == |paired.Keys| - |todo|
      invariant wins == |Counted(paired, todo, Win)| && losses == |Counted(paired, todo, Loss)|
      invariant ties == |Counted(paired, todo, Tie)|
      decreases todo
    {
      var task :| task in todo;
      CountOne(paired, todo, task, Win);
      CountOne(paired, todo, task, Loss);
      CountOne(paired, todo, task, Tie);
      todo := todo - {task};
      var attempts := paired[task];
      match Compare(attempts)
      case Win => wins := wins + 1;
      case Loss => losses := losses + 1;
      case Tie => ties := ties + 1;
    }
  }

  // One comparison of analyze_trials: the tally and its sign test.
  method CompareCandidates(records: seq<Trial>, a: string, b: string)
    returns (wins: nat, losses: nat, ties: nat, p: real)
    ensures wins == |With(records, a, b, Win)| && losses == |With(records, a, b, Loss)|
    ensures ties == |With(records, a, b, Tie)| && wins + losses + ties == |Paired(records, a, b)|
    ensures p == T.McNemar(wins, losses)
  {
    var paired := PairTasks(records, a, b);
    wins, losses, ties := TallyTasks(paired);
    assert forall r: Result :: Counted(paired, {}, r) == With(records, a, b, r);
    p := T.McNemar(wins, losses);
  }
}
