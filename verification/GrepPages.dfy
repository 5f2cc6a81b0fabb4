// harness/repo/fff_search.py: the round-robin quota pager of grep snapshots and the cursor walk over its pages.
module GrepPages {
  import opened Wrappers

  // Paths are only ever compared.
  type Path(==, !new)

  datatype Match = Match(path: Path, line: nat, column: nat)

  const PER_FILE_PAGE_LIMIT := 5

  // The matches of one file, in snapshot order.
  function OfFile(ms: seq<Match>, path: Path): seq<Match> {
    if ms == [] then []
    else
      var last := ms[|ms| - 1];
      OfFile(ms[..|ms| - 1], path) + (if last.path == path then [last] else [])
  }

  function Concat(pages: seq<seq<Match>>): seq<Match> {
    if pages == [] then [] else Concat(pages[..|pages| - 1]) + pages[|pages| - 1]
  }

  lemma OfFileSnoc(ms: seq<Match>, m: Match, path: Path)
    ensures OfFile(ms + [m], path) == OfFile(ms, path) + (if m.path == path then [m] else [])
  {
    assert (ms + [m])[..|ms|] == ms;
  }

  lemma {:induction false} OfFileConcat(a: seq<Match>, b: seq<Match>, path: Path)
    ensures OfFile(a + b, path) == OfFile(a, path) + OfFile(b, path)
  {
    if b == [] {
      assert a + b == a;
    } else {
      var n := |b| - 1;
      var last := if b[n].path == path then [b[n]] else [];
      OfFileConcat(a, b[..n], path);
      assert a + b == (a + b[..n]) + [b[n]] && b == b[..n] + [b[n]];
      OfFileSnoc(a + b[..n], b[n], path);
      assert (OfFile(a, path) + OfFile(b[..n], path)) + last == OfFile(a, path) + (OfFile(b[..n], path) + last);
    }
  }

  lemma {:induction false} OfFileUniform(ms: seq<Match>, owner: Path, path: Path)
    requires forall m :: m in ms ==> m.path == owner
    ensures OfFile(ms, path) == if owner == path then ms else []
  {
    if ms != [] {
      var n := |ms| - 1;
      OfFileUniform(ms[..n], owner, path);
      assert ms[n] in ms && ms == ms[..n] + [ms[n]];
    }
  }

  lemma OfFileIn(ms: seq<Match>, path: Path)
    ensures forall m :: m in OfFile(ms, path) ==> m.path == path && m in ms
    ensures |OfFile(ms, path)| <= |ms|
  {
    if ms != [] {
      OfFileIn(ms[..|ms| - 1], path);
    }
  }

  // A file's list holds its matches as often as the whole does.
  lemma {:induction false} OfFileCount(ms: seq<Match>, m: Match)
    ensures multiset(OfFile(ms, m.path))[m] == multiset(ms)[m]
  {
    if ms != [] {
      var n := |ms| - 1;
      OfFileCount(ms[..n], m);
      SplitLast(ms);
      assert multiset(ms)[m] == multiset(ms[..n])[m] + (if ms[n] == m then 1 else 0);
    }
  }

  // Two lists that agree file by file hold the same matches the same number of times.
  lemma SameFilesSameMatches(a: seq<Match>, b: seq<Match>)
    requires forall path :: OfFile(a, path) == OfFile(b, path)
    ensures multiset(a) == multiset(b) && |a| == |b|
  {
    forall m ensures multiset(a)[m] == multiset(b)[m] {
      OfFileCount(a, m);
      OfFileCount(b, m);
    }
    assert |multiset(a)| == |a| && |multiset(b)| == |b|;
  }

  lemma PrefixMultiset(a: seq<Match>, b: seq<Match>)
    requires a <= b
    ensures multiset(a) <= multiset(b)
  {
    assert b == a + b[|a|..];
  }

  lemma PrefixCount(a: seq<Match>, b: seq<Match>, m: Match)
    requires OfFile(a, m.path) <= OfFile(b, m.path)
    ensures multiset(a)[m] <= multiset(b)[m]
  {
    OfFileCount(a, m);
    OfFileCount(b, m);
    PrefixMultiset(OfFile(a, m.path), OfFile(b, m.path));
  }

  lemma SubsetFewer(a: multiset<Match>, b: multiset<Match>)
    requires a <= b
    ensures |a| <= |b|
  {
    assert b == a + (b - a);
  }

  lemma PrefixFilesFewer(a: seq<Match>, b: seq<Match>)
    requires forall path :: OfFile(a, path) <= OfFile(b, path)
    ensures |a| <= |b|
  {
    forall m: Match ensures multiset(a)[m] <= multiset(b)[m] {
      PrefixCount(a, b, m);
    }
    SubsetFewer(multiset(a), multiset(b));
  }

  // The files, in the order of their first matches.
  function Paths(ms: seq<Match>): seq<Path> {
    if ms == [] then []
    else
      var (paths, path) := (Paths(ms[..|ms| - 1]), ms[|ms| - 1].path);
      if path in paths then paths else paths + [path]
  }

  lemma PathsSnoc(ms: seq<Match>, m: Match)
    ensures Paths(ms + [m]) == if m.path in Paths(ms) then Paths(ms) else Paths(ms) + [m.path]
  {
    assert (ms + [m])[..|ms|] == ms;
  }

  // Each file once, and a file whose first match comes earlier stands earlier.
  lemma {:induction false} PathsAre(ms: seq<Match>, n: nat)
    requires n <= |ms|
    ensures Paths(ms[..n]) <= Paths(ms)
    ensures forall path :: path in Paths(ms) <==> OfFile(ms, path) != []
    ensures forall i, j :: 0 <= i < j < |Paths(ms)| ==> Paths(ms)[i] != Paths(ms)[j]
    decreases |ms|
  {
    if ms != [] {
      var rest, last := ms[..|ms| - 1], ms[|ms| - 1];
      PathsAre(rest, Min(n, |ms| - 1));
      SplitLast(ms);
      PathsSnoc(rest, last);
      if n < |ms| {
        assert rest[..n] == ms[..n];
      } else {
        assert ms[..n] == ms;
      }
    }
  }

  // At most n of the file's matches that earlier pages do not hold.
  function Share(ms: seq<Match>, held: seq<Match>, path: Path, n: int): (r: seq<Match>)
    ensures n >= 0 ==> |r| <= n
  {
    var all := OfFile(ms, path);
    var left := all[Min(|OfFile(held, path)|, |all|)..];
    left[..Max(Min(n, |left|), 0)]
  }

  function Extended(ms: seq<Match>, held: seq<Match>, page: seq<Match>, path: Path, pageSize: nat): (r: seq<Match>)
    ensures |page| <= pageSize ==> |r| <= pageSize
  {
    page + Share(ms, held, path, Min(5, pageSize - |page|))
  }

  // What belongs on the page after `held`: of each file in its turn the next five matches, as far as the page has room.
  function Filled(ms: seq<Match>, held: seq<Match>, order: seq<Path>, i: nat, pageSize: nat): (r: seq<Match>)
    requires i <= |order|
    ensures |r| <= pageSize
    decreases i, 1
  {
    if i == 0 then [] else FilledTo(ms, held, order, i - 1, pageSize)
  }

  function FilledTo(ms: seq<Match>, held: seq<Match>, order: seq<Path>, i: nat, pageSize: nat): (r: seq<Match>)
    requires i < |order|
    ensures |r| <= pageSize
    decreases i + 1, 0
  {
    Extended(ms, held, Filled(ms, held, order, i, pageSize), order[i], pageSize)
  }

  lemma FilledStep(ms: seq<Match>, held: seq<Match>, order: seq<Path>, i: nat, pageSize: nat)
    requires i < |order|
    ensures Filled(ms, held, order, i + 1, pageSize)
            == Extended(ms, held, Filled(ms, held, order, i, pageSize), order[i], pageSize)
  {
  }

  // A page: nonempty, at most pageSize matches, at most five of any file.
  ghost predicate GoodPage(page: seq<Match>, pageSize: nat) {
    1 <= |page| <= pageSize && forall path :: |OfFile(page, path)| <= 5
  }

  // The two dictionaries and the file order built from the snapshot.
  ghost predicate Grouped(ms: seq<Match>, order: seq<Path>, queues: map<Path, seq<Match>>) {
    && (forall i, j :: 0 <= i < j < |order| ==> order[i] != order[j])
    && (forall path :: path in queues <==> path in order)
    && (forall path :: path in queues ==> queues[path] == OfFile(ms, path))
    && (forall path :: path !in queues ==> OfFile(ms, path) == [])
  }

  // What the pages and the page under construction hold so far is a prefix of every file's queue.
  ghost predicate Taken(held: seq<Match>, queues: map<Path, seq<Match>>, offsets: map<Path, nat>) {
    && offsets.Keys == queues.Keys
    && (forall path :: path in queues ==> offsets[path] <= |queues[path]|
                                          && OfFile(held, path) == queues[path][..offsets[path]])
    && (forall path :: path !in queues ==> OfFile(held, path) == [])
  }

  lemma GroupOrder(m: Match, order: seq<Path>, keys: set<Path>, order': seq<Path>)
    requires (forall i, j :: 0 <= i < j < |order| ==> order[i] != order[j])
    requires (forall path :: path in keys <==> path in order)
    requires order' == if m.path in keys then order else order + [m.path]
    ensures forall i, j :: 0 <= i < j < |order'| ==> order'[i] != order'[j]
    ensures forall path :: path in keys + {m.path} <==> path in order'
  {
    if m.path !in keys {
      forall i | 0 <= i < |order| ensures order[i] != m.path {
        assert order[i] in order;
      }
    }
  }

  lemma GroupOne(
    ms: seq<Match>, m: Match, order: seq<Path>, queues: map<Path, seq<Match>>, ms': seq<Match>,
    order': seq<Path>, queues': map<Path, seq<Match>>)
    requires Grouped(ms, order, queues) && ms' == ms + [m]
    requires order' == if m.path in queues then order else order + [m.path]
    requires queues' == queues[m.path := (if m.path in queues then queues[m.path] else []) + [m]]
    ensures Grouped(ms', order', queues')
  {
    GroupOrder(m, order, queues.Keys, order');
    assert queues'.Keys == queues.Keys + {m.path};
    forall path
      ensures if path in queues' then queues'[path] == OfFile(ms', path) else OfFile(ms', path) == []
    {
      OfFileSnoc(ms, m, path);
      EmptySides(OfFile(ms, path));
    }
  }

  method Group(ms: seq<Match>) returns (order: seq<Path>, queues: map<Path, seq<Match>>)
    ensures Grouped(ms, order, queues) && order == Paths(ms)
  {
    order, queues := [], map[];
    for i := 0 to |ms|
      invariant Grouped(ms[..i], order, queues) && order == Paths(ms[..i])
    {
      order, queues := Add(ms[..i], ms[i], order, queues);
      assert ms[..i + 1] == ms[..i] + [ms[i]];
    }
    assert ms[..|ms|] == ms;
  }

  // One match joins its file's queue; a new file joins the order.
  method Add(ghost ms: seq<Match>, m: Match, order: seq<Path>, queues: map<Path, seq<Match>>)
    returns (order': seq<Path>, queues': map<Path, seq<Match>>)
    requires Grouped(ms, order, queues) && order == Paths(ms)
    ensures Grouped(ms + [m], order', queues') && order' == Paths(ms + [m])
  {
    order', queues' := order, queues;
    PathsSnoc(ms, m);
    if m.path !in queues {
      order' := order + [m.path];
      queues' := queues[m.path := []];
    }
    queues' := queues'[m.path := queues'[m.path] + [m]];
    GroupOne(ms, m, order, queues, ms + [m], order', queues');
  }

  lemma AddOfOneFile(held: seq<Match>, more: seq<Match>, path: Path, q: Path)
    requires forall m :: m in more ==> m.path == path
    ensures OfFile(held + more, q) == OfFile(held, q) + (if q == path then more else [])
  {
    OfFileUniform(more, path, q);
    OfFileConcat(held, more, q);
  }

  lemma TakeMore(
    held: seq<Match>, queues: map<Path, seq<Match>>, offsets: map<Path, nat>, path: Path, more: seq<Match>)
    requires Taken(held, queues, offsets) && path in queues
    requires forall m :: m in more ==> m.path == path
    requires offsets[path] + |more| <= |queues[path]|
    requires more == queues[path][offsets[path]..offsets[path] + |more|]
    ensures Taken(held + more, queues, offsets[path := offsets[path] + |more|])
  {
    forall q ensures OfFile(held + more, q) == OfFile(held, q) + (if q == path then more else []) {
      AddOfOneFile(held, more, path, q);
    }
    assert queues[path][..offsets[path]] + more == queues[path][..offsets[path] + |more|];
  }

  ghost predicate Files(ms: seq<Match>, order: seq<Path>, queues: map<Path, seq<Match>>) {
    && (forall i, j :: 0 <= i < j < |order| ==> order[i] != order[j])
    && (forall path :: path in queues <==> path in order)
    && (forall q :: q in queues ==> queues[q] == OfFile(ms, q))
    && (forall q, m: Match :: q in queues && m in queues[q] ==> m.path == q)
  }

  ghost predicate Exhausted(order: seq<Path>, queues: map<Path, seq<Match>>, offsets: map<Path, nat>) {
    forall j :: 0 <= j < |order| ==>
      order[j] in queues && order[j] in offsets && offsets[order[j]] == |queues[order[j]]|
  }

  // No file is over its quota on the page, and the files from the i-th on are not on it at all.
  ghost predicate Within(page: seq<Match>, order: seq<Path>, i: nat) {
    && (forall path :: |OfFile(page, path)| <= PER_FILE_PAGE_LIMIT)
    && (forall j :: i <= j < |order| ==> OfFile(page, order[j]) == [])
  }

  // Unless the page has its share, every file before the i-th is exhausted.
  ghost predicate Drained(
    page: seq<Match>, order: seq<Path>, i: nat, queues: map<Path, seq<Match>>, offsets: map<Path, nat>,
    pageSize: nat)
    requires i <= |order|
  {
    |page| < Min(PER_FILE_PAGE_LIMIT, pageSize) ==>
      forall j :: 0 <= j < i ==> order[j] in queues && order[j] in offsets && offsets[order[j]] == |queues[order[j]]|
  }

  // After the first i files of a pass.
  ghost predicate Passed(
    ms: seq<Match>, held: seq<Match>, page: seq<Match>, order: seq<Path>, i: nat,
    queues: map<Path, seq<Match>>, offsets: map<Path, nat>, pageSize: nat)
  {
    && i <= |order| && |page| <= pageSize && Taken(held + page, queues, offsets)
    && Within(page, order, i) && Drained(page, order, i, queues, offsets, pageSize)
  }

  // The next matches of one file that still fit the page and the file's quota.
  predicate NextOf(
    more: seq<Match>, page: seq<Match>, path: Path, queues: map<Path, seq<Match>>, offsets: map<Path, nat>,
    pageSize: nat)
  {
    && path in queues && path in offsets && offsets[path] <= |queues[path]| && |page| <= pageSize
    && |more| == Min(Min(PER_FILE_PAGE_LIMIT, |queues[path]| - offsets[path]), pageSize - |page|)
    && more == queues[path][offsets[path]..offsets[path] + |more|]
  }

  lemma NextOwned(
    ms: seq<Match>, more: seq<Match>, page: seq<Match>, path: Path, order: seq<Path>,
    queues: map<Path, seq<Match>>, offsets: map<Path, nat>, pageSize: nat)
    requires Files(ms, order, queues) && NextOf(more, page, path, queues, offsets, pageSize)
    ensures forall m :: m in more ==> m.path == path
  {
    assert forall m :: m in more ==> m in queues[path];
  }

  lemma TakeNext(
    held: seq<Match>, page: seq<Match>, path: Path, more: seq<Match>, queues: map<Path, seq<Match>>,
    offsets: map<Path, nat>, pageSize: nat)
    requires Taken(held + page, queues, offsets) && NextOf(more, page, path, queues, offsets, pageSize)
    requires forall m :: m in more ==> m.path == path
    ensures Taken(held + (page + more), queues, offsets[path := offsets[path] + |more|])
  {
    assert held + (page + more) == (held + page) + more;
    TakeMore(held + page, queues, offsets, path, more);
  }

  lemma StaysWithin(page: seq<Match>, order: seq<Path>, i: nat, more: seq<Match>)
    requires i < |order| && (forall j, k :: 0 <= j < k < |order| ==> order[j] != order[k])
    requires |more| <= PER_FILE_PAGE_LIMIT && Within(page, order, i) && forall m :: m in more ==> m.path == order[i]
    ensures Within(page + more, order, i + 1)
  {
    forall q ensures OfFile(page + more, q) == OfFile(page, q) + (if q == order[i] then more else []) {
      AddOfOneFile(page, more, order[i], q);
    }
    assert OfFile(page, order[i]) == [];
  }

  lemma StaysDrained(
    page: seq<Match>, order: seq<Path>, i: nat, queues: map<Path, seq<Match>>, offsets: map<Path, nat>,
    pageSize: nat, more: seq<Match>)
    requires i < |order| && Drained(page, order, i, queues, offsets, pageSize)
    requires NextOf(more, page, order[i], queues, offsets, pageSize)
    ensures Drained(page + more, order, i + 1, queues, offsets[order[i] := offsets[order[i]] + |more|], pageSize)
  {
  }

  lemma PassOne(
    ms: seq<Match>, held: seq<Match>, page: seq<Match>, order: seq<Path>, i: nat,
    queues: map<Path, seq<Match>>, offsets: map<Path, nat>, pageSize: nat, more: seq<Match>,
    page': seq<Match>, offsets': map<Path, nat>)
    requires Files(ms, order, queues) && Passed(ms, held, page, order, i, queues, offsets, pageSize) && i < |order|
    requires NextOf(more, page, order[i], queues, offsets, pageSize)
    requires page' == page + more && offsets' == offsets[order[i] := offsets[order[i]] + |more|]
    ensures Passed(ms, held, page', order, i + 1, queues, offsets', pageSize)
  {
    NextOwned(ms, more, page, order[i], order, queues, offsets, pageSize);
    TakeNext(held, page, order[i], more, queues, offsets, pageSize);
    StaysWithin(page, order, i, more);
    StaysDrained(page, order, i, queues, offsets, pageSize, more);
  }

  lemma PassSkip(
    ms: seq<Match>, held: seq<Match>, page: seq<Match>, order: seq<Path>, i: nat,
    queues: map<Path, seq<Match>>, offsets: map<Path, nat>, pageSize: nat)
    requires Files(ms, order, queues) && Passed(ms, held, page, order, i, queues, offsets, pageSize) && i < |order|
    requires order[i] in queues && offsets[order[i]] >= |queues[order[i]]|
    ensures Passed(ms, held, page, order, i + 1, queues, offsets, pageSize)
  {
  }

  // A page that is ready: within both quotas, and short of its share only if every file is exhausted.
  ghost predicate PageReady(
    ms: seq<Match>, held: seq<Match>, page: seq<Match>, order: seq<Path>,
    queues: map<Path, seq<Match>>, offsets: map<Path, nat>, pageSize: nat)
  {
    && Taken(held + page, queues, offsets)
    && |page| <= pageSize && (forall path :: |OfFile(page, path)| <= PER_FILE_PAGE_LIMIT)
    && (|page| < Min(PER_FILE_PAGE_LIMIT, pageSize) ==> Exhausted(order, queues, offsets))
  }

  lemma PassEnds(
    ms: seq<Match>, held: seq<Match>, page: seq<Match>, order: seq<Path>, i: nat,
    queues: map<Path, seq<Match>>, offsets: map<Path, nat>, pageSize: nat)
    requires Passed(ms, held, page, order, i, queues, offsets, pageSize) && (i == |order| || |page| >= pageSize)
    ensures PageReady(ms, held, page, order, queues, offsets, pageSize)
  {
  }

  // The offset of a file that is not on the page yet is what earlier pages hold of it.
  lemma OffsetIsHeld(
    held: seq<Match>, page: seq<Match>, queues: map<Path, seq<Match>>, offsets: map<Path, nat>, path: Path)
    requires Taken(held + page, queues, offsets) && path in queues && OfFile(page, path) == []
    ensures offsets[path] == |OfFile(held, path)| <= |queues[path]|
  {
    OfFileConcat(held, page, path);
  }

  lemma NextIsShare(
    ms: seq<Match>, held: seq<Match>, page: seq<Match>, path: Path, queues: map<Path, seq<Match>>,
    offsets: map<Path, nat>, pageSize: nat, more: seq<Match>)
    requires NextOf(more, page, path, queues, offsets, pageSize) && queues[path] == OfFile(ms, path)
    requires offsets[path] == |OfFile(held, path)|
    ensures page + more == Extended(ms, held, page, path, pageSize)
  {
    ShareIs(ms, held, path, Min(5, pageSize - |page|), offsets[path], more);
  }

  lemma ShareIs(ms: seq<Match>, held: seq<Match>, path: Path, n: nat, start: nat, more: seq<Match>)
    requires start == |OfFile(held, path)| <= |OfFile(ms, path)| && |more| == Min(n, |OfFile(ms, path)| - start)
    requires more == OfFile(ms, path)[start..start + |more|]
    ensures Share(ms, held, path, n) == more
  {
    SliceTake(OfFile(ms, path), start, |more|);
  }

  lemma SliceTake(all: seq<Match>, start: nat, n: nat)
    requires start + n <= |all|
    ensures all[start..][..n] == all[start..start + n]
  {
  }

  // A file that is exhausted adds nothing.
  lemma NoShare(ms: seq<Match>, held: seq<Match>, page: seq<Match>, path: Path, pageSize: nat)
    requires |OfFile(held, path)| == |OfFile(ms, path)|
    ensures page == Extended(ms, held, page, path, pageSize)
  {
    EmptySides(page);
  }

  // A full page stays as it is.
  lemma {:induction false} FilledUp(
    ms: seq<Match>, held: seq<Match>, order: seq<Path>, i: nat, n: nat, pageSize: nat)
    requires i <= n <= |order| && |Filled(ms, held, order, i, pageSize)| == pageSize
    ensures Filled(ms, held, order, n, pageSize) == Filled(ms, held, order, i, pageSize)
  {
    if i < n {
      FilledUp(ms, held, order, i, n - 1, pageSize);
      FilledStep(ms, held, order, n - 1, pageSize);
      var page := Filled(ms, held, order, n - 1, pageSize);
      assert Share(ms, held, order[n - 1], 0) == [];
      EmptySides(page);
    }
  }

  // A pass that has done its first i files.
  ghost predicate AtFile(
    ms: seq<Match>, held: seq<Match>, page: seq<Match>, order: seq<Path>, i: nat, queues: map<Path, seq<Match>>,
    offsets: map<Path, nat>, pageSize: nat)
  {
    Passed(ms, held, page, order, i, queues, offsets, pageSize) && page == Filled(ms, held, order, i, pageSize)
  }

  lemma PassStart(
    ms: seq<Match>, held: seq<Match>, order: seq<Path>, queues: map<Path, seq<Match>>, offsets: map<Path, nat>,
    pageSize: nat)
    requires Files(ms, order, queues) && Taken(held, queues, offsets)
    ensures AtFile(ms, held, [], order, 0, queues, offsets, pageSize)
  {
    EmptySides(held);
  }

  lemma TakeFile(
    ms: seq<Match>, held: seq<Match>, page: seq<Match>, order: seq<Path>, i: nat, queues: map<Path, seq<Match>>,
    offsets: map<Path, nat>, pageSize: nat, more: seq<Match>, page': seq<Match>, offsets': map<Path, nat>)
    requires Files(ms, order, queues) && AtFile(ms, held, page, order, i, queues, offsets, pageSize) && i < |order|
    requires NextOf(more, page, order[i], queues, offsets, pageSize)
    requires page' == page + more && offsets' == offsets[order[i] := offsets[order[i]] + |more|]
    ensures AtFile(ms, held, page', order, i + 1, queues, offsets', pageSize)
  {
    var path := order[i];
    PassOne(ms, held, page, order, i, queues, offsets, pageSize, more, page', offsets');
    OffsetIsHeld(held, page, queues, offsets, path);
    NextIsShare(ms, held, page, path, queues, offsets, pageSize, more);
    FilledStep(ms, held, order, i, pageSize);
  }

  lemma SkipFile(
    ms: seq<Match>, held: seq<Match>, page: seq<Match>, order: seq<Path>, i: nat, queues: map<Path, seq<Match>>,
    offsets: map<Path, nat>, pageSize: nat)
    requires Files(ms, order, queues) && AtFile(ms, held, page, order, i, queues, offsets, pageSize) && i < |order|
    requires order[i] in queues && offsets[order[i]] >= |queues[order[i]]|
    ensures AtFile(ms, held, page, order, i + 1, queues, offsets, pageSize)
  {
    PassSkip(ms, held, page, order, i, queues, offsets, pageSize);
    OffsetIsHeld(held, page, queues, offsets, order[i]);
    NoShare(ms, held, page, order[i], pageSize);
    FilledStep(ms, held, order, i, pageSize);
  }

  lemma PassDone(
    ms: seq<Match>, held: seq<Match>, page: seq<Match>, order: seq<Path>, i: nat, queues: map<Path, seq<Match>>,
    offsets: map<Path, nat>, pageSize: nat)
    requires AtFile(ms, held, page, order, i, queues, offsets, pageSize) && (i == |order| || |page| >= pageSize)
    ensures PageReady(ms, held, page, order, queues, offsets, pageSize)
    ensures page == Filled(ms, held, order, |order|, pageSize)
  {
    PassEnds(ms, held, page, order, i, queues, offsets, pageSize);
    if i < |order| {
      FilledUp(ms, held, order, i, |order|, pageSize);
    }
  }

  // The next matches of one file.
  method TakeFrom(
    page: seq<Match>, path: Path, queues: map<Path, seq<Match>>, offsets: map<Path, nat>, pageSize: nat)
    returns (more: seq<Match>)
    requires path in queues && path in offsets && offsets[path] <= |queues[path]| && |page| <= pageSize
    ensures NextOf(more, page, path, queues, offsets, pageSize)
  {
    var start := offsets[path];
    var count := Min(Min(PER_FILE_PAGE_LIMIT, |queues[path]| - start), pageSize - |page|);
    more := queues[path][start..start + count];
  }

  lemma AtFileFacts(
    ms: seq<Match>, held: seq<Match>, page: seq<Match>, order: seq<Path>, i: nat, queues: map<Path, seq<Match>>,
    offsets: map<Path, nat>, pageSize: nat)
    requires Files(ms, order, queues) && AtFile(ms, held, page, order, i, queues, offsets, pageSize) && i < |order|
    ensures order[i] in queues && order[i] in offsets && offsets[order[i]] <= |queues[order[i]]| && |page| <= pageSize
  {
  }

  method VisitFile(
    ghost ms: seq<Match>, ghost held: seq<Match>, page: seq<Match>, order: seq<Path>, i: nat,
    queues: map<Path, seq<Match>>, offsets: map<Path, nat>, pageSize: nat)
    returns (page': seq<Match>, offsets': map<Path, nat>)
    requires Files(ms, order, queues) && AtFile(ms, held, page, order, i, queues, offsets, pageSize) && i < |order|
    ensures AtFile(ms, held, page', order, i + 1, queues, offsets', pageSize)
  {
    AtFileFacts(ms, held, page, order, i, queues, offsets, pageSize);
    var path := order[i];
    if offsets[path] < |queues[path]| {
      var more := TakeFrom(page, path, queues, offsets, pageSize);
      page', offsets' := page + more, offsets[path := offsets[path] + |more|];
      TakeFile(ms, held, page, order, i, queues, offsets, pageSize, more, page', offsets');
    } else {
      page', offsets' := page, offsets;
      SkipFile(ms, held, page, order, i, queues, offsets, pageSize);
    }
  }

  // The inner loop: one pass over the files in order.
  method TakePage(
    ghost ms: seq<Match>, ghost held: seq<Match>, order: seq<Path>, queues: map<Path, seq<Match>>,
    offsets: map<Path, nat>, pageSize: nat)
    returns (page: seq<Match>, offsets': map<Path, nat>)
    requires Files(ms, order, queues) && Taken(held, queues, offsets)
    ensures PageReady(ms, held, page, order, queues, offsets', pageSize)
    ensures page == Filled(ms, held, order, |order|, pageSize)
  {
    page, offsets' := [], offsets;
    PassStart(ms, held, order, queues, offsets, pageSize);
    var i := 0;
    while i < |order|
      invariant i <= |order| && AtFile(ms, held, page, order, i, queues, offsets', pageSize)
    {
      page, offsets' := VisitFile(ms, held, page, order, i, queues, offsets', pageSize);
      i := i + 1;
      if |page| >= pageSize {
        break;
      }
    }
    PassDone(ms, held, page, order, i, queues, offsets', pageSize);
  }

  // Finished pages are good; all but the last hold a full quota, and so does the last while a file has matches left.
  ghost predicate Paged(
    ms: seq<Match>, pages: seq<seq<Match>>, order: seq<Path>, queues: map<Path, seq<Match>>,
    offsets: map<Path, nat>, pageSize: nat)
  {
    && Taken(Concat(pages), queues, offsets)
    && (pageSize == 0 ==> pages == [])
    && (forall k :: 0 <= k < |pages| ==> GoodPage(pages[k], pageSize))
    && (forall k :: 0 <= k < |pages| ==> pages[k] == Filled(ms, Concat(pages[..k]), order, |order|, pageSize))
    && (forall k :: 0 <= k < |pages| && |pages[k]| < Min(PER_FILE_PAGE_LIMIT, pageSize)
          ==> k == |pages| - 1 && Exhausted(order, queues, offsets))
  }

  lemma AddPage(
    ms: seq<Match>, pages: seq<seq<Match>>, page: seq<Match>, order: seq<Path>, queues: map<Path, seq<Match>>,
    offsets: map<Path, nat>, offsets': map<Path, nat>, pageSize: nat)
    requires Paged(ms, pages, order, queues, offsets, pageSize) && !Exhausted(order, queues, offsets)
    requires Taken(Concat(pages) + page, queues, offsets') && GoodPage(page, pageSize)
    requires page == Filled(ms, Concat(pages), order, |order|, pageSize)
    requires |page| < Min(PER_FILE_PAGE_LIMIT, pageSize) ==> Exhausted(order, queues, offsets')
    ensures Paged(ms, pages + [page], order, queues, offsets', pageSize)
    ensures Concat(pages + [page]) == Concat(pages) + page
  {
    assert (pages + [page])[..|pages|] == pages;
    assert forall k :: 0 <= k <= |pages| ==> (pages + [page])[..k] == pages[..k];
  }

  // Offsets are determined by what is held, so an empty page after an unfinished pass means a page size of zero.
  lemma EmptyPage(
    ms: seq<Match>, held: seq<Match>, order: seq<Path>, queues: map<Path, seq<Match>>,
    offsets: map<Path, nat>, offsets': map<Path, nat>, pageSize: nat)
    requires Files(ms, order, queues) && Taken(held, queues, offsets) && Taken(held + [], queues, offsets')
    requires !Exhausted(order, queues, offsets)
    requires 0 < Min(PER_FILE_PAGE_LIMIT, pageSize) ==> Exhausted(order, queues, offsets')
    ensures pageSize == 0
  {
    assert held + [] == held;
    forall path | path in order ensures offsets[path] == offsets'[path] {
      assert |queues[path][..offsets[path]]| == |queues[path][..offsets'[path]]|;
    }
  }

  lemma ExhaustedHoldsAll(
    ms: seq<Match>, held: seq<Match>, order: seq<Path>, queues: map<Path, seq<Match>>, offsets: map<Path, nat>)
    requires Grouped(ms, order, queues) && Taken(held, queues, offsets) && Exhausted(order, queues, offsets)
    ensures forall path :: OfFile(held, path) == OfFile(ms, path)
  {
    forall path ensures OfFile(held, path) == OfFile(ms, path) {
      if path in queues {
        var j :| 0 <= j < |order| && order[j] == path;
        assert queues[path][..offsets[path]] == queues[path];
      }
    }
  }

  lemma Start(
    ms: seq<Match>, order: seq<Path>, queues: map<Path, seq<Match>>, offsets: map<Path, nat>, pageSize: nat)
    requires Grouped(ms, order, queues) && offsets == map path | path in queues :: 0
    ensures Files(ms, order, queues) && Paged(ms, [], order, queues, offsets, pageSize)
  {
    forall q, m: Match | q in queues && m in queues[q] ensures m.path == q {
      OfFileIn(ms, q);
    }
  }

  // The pages partition the matches, keep each file's order, respect both quotas, and all but the last are at least
  // min(5, pageSize) long, so there are at most ceil(n / min(5, pageSize)) of them.
  ghost predicate Partition(ms: seq<Match>, pages: seq<seq<Match>>, pageSize: nat) {
    && (forall path :: OfFile(Concat(pages), path) == OfFile(ms, path))
    && multiset(Concat(pages)) == multiset(ms)
    && (forall k :: 0 <= k < |pages| ==>
          && GoodPage(pages[k], pageSize)
          && pages[k] == Filled(ms, Concat(pages[..k]), Paths(ms), |Paths(ms)|, pageSize))
    && (forall k :: 0 <= k < |pages| - 1 ==> |pages[k]| >= Min(5, pageSize))
    && (pages != [] ==> (|pages| - 1) * Min(5, pageSize) < |ms|)
  }

  // FffSearchService._grep_pages
  method GrepPages(ms: seq<Match>, pageSize: nat) returns (pages: seq<seq<Match>>)
    ensures if pageSize == 0 then pages == [] else Partition(ms, pages, pageSize)
  {
    var order, queues := Group(ms);
    var offsets: map<Path, nat> := map path | path in queues :: 0;
    pages := [];
    Start(ms, order, queues, offsets, pageSize);
    while exists i :: 0 <= i < |order| && offsets[order[i]] < |queues[order[i]]|
      invariant Paged(ms, pages, order, queues, offsets, pageSize)
      invariant |Concat(pages)| <= |ms|
      decreases |ms| - |Concat(pages)|
    {
      assert !Exhausted(order, queues, offsets);
      var page, offsets' := TakePage(ms, Concat(pages), order, queues, offsets, pageSize);
      if page == [] {
        EmptyPage(ms, Concat(pages), order, queues, offsets, offsets', pageSize);
        break;
      }
      AddPage(ms, pages, page, order, queues, offsets, offsets', pageSize);
      pages := pages + [page];
      offsets := offsets';
      HeldFewer(ms, order, queues, Concat(pages), offsets);
    }
    if pageSize > 0 {
      Complete(ms, pages, order, queues, offsets, pageSize);
    }
  }

  lemma Complete(
    ms: seq<Match>, pages: seq<seq<Match>>, order: seq<Path>, queues: map<Path, seq<Match>>,
    offsets: map<Path, nat>, pageSize: nat)
    requires Grouped(ms, order, queues) && Paged(ms, pages, order, queues, offsets, pageSize)
    requires Exhausted(order, queues, offsets) && order == Paths(ms)
    ensures Partition(ms, pages, pageSize)
  {
    ExhaustedHoldsAll(ms, Concat(pages), order, queues, offsets);
    SameFilesSameMatches(Concat(pages), ms);
    if pages != [] {
      PageCount(ms, pages, order, queues, offsets, pageSize);
    }
  }

  lemma PageCount(
    ms: seq<Match>, pages: seq<seq<Match>>, order: seq<Path>, queues: map<Path, seq<Match>>,
    offsets: map<Path, nat>, pageSize: nat)
    requires Paged(ms, pages, order, queues, offsets, pageSize) && pages != []
    ensures (|pages| - 1) * Min(PER_FILE_PAGE_LIMIT, pageSize) < |Concat(pages)|
  {
    var quota := Min(PER_FILE_PAGE_LIMIT, pageSize);
    forall k | 0 <= k < |pages| - 1 ensures |pages[k]| >= quota {
    }
    FullPagesCount(pages, quota);
    assert GoodPage(pages[|pages| - 1], pageSize);
  }

  lemma HeldFewer(
    ms: seq<Match>, order: seq<Path>, queues: map<Path, seq<Match>>, held: seq<Match>, offsets: map<Path, nat>)
    requires Grouped(ms, order, queues) && Taken(held, queues, offsets)
    ensures |held| <= |ms|
  {
    forall path ensures OfFile(held, path) <= OfFile(ms, path) {
    }
    PrefixFilesFewer(held, ms);
  }

  lemma {:induction false} FullPagesCount(pages: seq<seq<Match>>, quota: nat)
    requires pages != [] && (forall k :: 0 <= k < |pages| - 1 ==> |pages[k]| >= quota)
    ensures |Concat(pages)| >= (|pages| - 1) * quota + |pages[|pages| - 1]|
  {
    var n := |pages| - 1;
    if n > 0 {
      FullPagesCount(pages[..n], quota);
      assert |pages[..n][n - 1]| >= quota;
      assert n * quota == (n - 1) * quota + quota;
    }
  }

  // ---------------------------------------------------------------- following cursors

  datatype Rendered = Rendered(records: seq<Match>, next: Option<nat>)

  // _render_grep_page: out of range is an error, the last page carries no cursor.
  function Render(pages: seq<seq<Match>>, index: nat): Result<Rendered, ()> {
    if index >= |pages| then Err(())
    else Ok(Rendered(pages[index], if index + 1 < |pages| then Some(index + 1) else None))
  }

  // A page is rendered exactly when there is one, with the cursor of the next page if that exists too.
  lemma RenderIff(pages: seq<seq<Match>>, index: nat)
    ensures Render(pages, index).Ok? <==> index < |pages|
    ensures Render(pages, index).Ok? ==>
      var shown := Render(pages, index).value;
      && shown.records == pages[index] && (shown.next.Some? <==> Render(pages, index + 1).Ok?)
      && (shown.next.Some? ==> shown.next.value == index + 1)
  {
  }

  // What a client sees that follows every cursor it is given.
  function Follow(pages: seq<seq<Match>>, index: nat): seq<seq<Match>>
    decreases |pages| - index
  {
    match Render(pages, index)
    case Err(_) => []
    case Ok(Rendered(records, None)) => [records]
    case Ok(Rendered(records, Some(next))) => [records] + Follow(pages, next)
  }

  lemma {:induction false} FollowVisitsEachOnce(pages: seq<seq<Match>>, index: nat)
    requires index <= |pages|
    ensures Follow(pages, index) == pages[index..]
    decreases |pages| - index
  {
    if index + 1 < |pages| {
      FollowVisitsEachOnce(pages, index + 1);
    }
  }
}
