/** ICPC ranking, in the Rust version (unstable sort) and the TypeScript one
    (stable sort). */
module Ranking {
  import opened Common

  datatype Entry = Entry(id: string, solved: nat, penaltyCount: nat, timeUsing: nat)

  datatype RankedEntry = RankedEntry(entry: Entry, rank: nat)

  function Penalty(e: Entry, penaltySeconds: nat): nat {
    e.timeUsing + e.penaltyCount * penaltySeconds
  }

  /** `a` is ranked strictly better: more solved, or as many with less penalty. */
  predicate Better(a: Entry, b: Entry, ps: nat) {
    a.solved > b.solved || (a.solved == b.solved && Penalty(a, ps) < Penalty(b, ps))
  }

  predicate Tied(a: Entry, b: Entry, ps: nat) { !Better(a, b, ps) && !Better(b, a, ps) }

  ghost predicate Sorted(es: seq<Entry>, ps: nat) {
    forall i, j | 0 <= i < j < |es| :: !Better(es[j], es[i], ps)
  }

  function CountBetter(es: seq<Entry>, e: Entry, ps: nat): nat {
    if es == [] then 0 else (if Better(es[0], e, ps) then 1 else 0) + CountBetter(es[1..], e, ps)
  }

  function Entries(rs: seq<RankedEntry>): seq<Entry> {
    seq(|rs|, i requires 0 <= i < |rs| => rs[i].entry)
  }

  /** Standard competition ranking: sorted, and everyone's rank is one more
      than the number of entries strictly better. */
  ghost predicate IsRanking(es: seq<Entry>, rs: seq<RankedEntry>, ps: nat) {
    && multiset(Entries(rs)) == multiset(es)
    && Sorted(Entries(rs), ps)
    && forall i | 0 <= i < |rs| :: rs[i].rank == 1 + CountBetter(es, rs[i].entry, ps)
  }

  /** In a ranking the teams come by problems solved, the most first, and among
      equals by penalty, the least first: time plus a fixed charge for each
      penalty. A team's rank is one more than the number of teams that solved
      more, or as many with less penalty. */
  lemma RankingMeans(es: seq<Entry>, rs: seq<RankedEntry>, ps: nat)
    requires IsRanking(es, rs, ps)
    ensures forall i, j | 0 <= i < j < |rs| ::
              var a, b := rs[i].entry, rs[j].entry;
              a.solved > b.solved
              || (a.solved == b.solved && a.timeUsing + ps * a.penaltyCount <= b.timeUsing + ps * b.penaltyCount)
    ensures forall i | 0 <= i < |rs| ::
              rs[i].rank == 1 + |set k | 0 <= k < |es| && Ahead(es[k], rs[i].entry, ps)|
  {
    forall i, j | 0 <= i < j < |rs|
      ensures var a, b := rs[i].entry, rs[j].entry;
        a.solved > b.solved
        || (a.solved == b.solved && a.timeUsing + ps * a.penaltyCount <= b.timeUsing + ps * b.penaltyCount)
    {
      assert !Better(Entries(rs)[j], Entries(rs)[i], ps);
    }
    forall i | 0 <= i < |rs| ensures rs[i].rank == 1 + |set k | 0 <= k < |es| && Ahead(es[k], rs[i].entry, ps)| {
      CountBetterIsCardinality(es, rs[i].entry, ps, |es|);
      assert es[..|es|] == es;
    }
  }

  /** `a` has solved more than `b`, or as many with less time and charges. */
  predicate Ahead(a: Entry, b: Entry, ps: nat) {
    a.solved > b.solved
    || (a.solved == b.solved && a.timeUsing + ps * a.penaltyCount < b.timeUsing + ps * b.penaltyCount)
  }

  lemma {:induction false} CountBetterIsCardinality(es: seq<Entry>, e: Entry, ps: nat, n: nat)
    requires n <= |es|
    ensures CountBetter(es[..n], e, ps) == |set k | 0 <= k < n && Ahead(es[k], e, ps)|
  {
    if n > 0 {
      CountBetterIsCardinality(es, e, ps, n - 1);
      var before := set k | 0 <= k < n - 1 && Ahead(es[k], e, ps);
      var all := set k | 0 <= k < n && Ahead(es[k], e, ps);
      assert all == if Ahead(es[n - 1], e, ps) then before + {n - 1} else before;
      CountBetterSplit(es[..n], n - 1, e, ps);
      assert es[..n][..n - 1] + es[..n][n..] == es[..n - 1];
      assert Better(es[n - 1], e, ps) == Ahead(es[n - 1], e, ps);
    }
  }

  // ----- Sorting -----

  /** An entry nothing is better than. */
  ghost predicate Least(es: seq<Entry>, k: nat, ps: nat)
    requires k < |es|
  {
    forall j | 0 <= j < |es| :: !Better(es[j], es[k], ps)
  }

  lemma {:induction false} LeastExists(es: seq<Entry>, ps: nat) returns (k: nat)
    requires es != []
    ensures k < |es| && Least(es, k, ps)
  {
    if |es| == 1 {
      k := 0;
    } else {
      k := LeastExists(es[1..], ps);
      k := if Better(es[0], es[k + 1], ps) then 0 else k + 1;
      assert forall j | 1 <= j < |es| :: es[j] == es[1..][j - 1];
    }
  }

  /** `sort_unstable_by`: ties come out in any order whatever, since any best
      remaining entry may be taken next. */
  method SortUnstable(entries: seq<Entry>, ps: nat) returns (sorted: seq<Entry>)
    ensures multiset(sorted) == multiset(entries) && Sorted(sorted, ps)
  {
    sorted := [];
    var rest := entries;
    while rest != []
      invariant multiset(sorted) + multiset(rest) == multiset(entries)
      invariant Sorted(sorted, ps)
      invariant forall i, j | 0 <= i < |sorted| && 0 <= j < |rest| :: !Better(rest[j], sorted[i], ps)
      decreases |rest|
    {
      var _ := LeastExists(rest, ps);
      var k: nat :| k < |rest| && forall j | 0 <= j < |rest| :: !Better(rest[j], rest[k], ps);
      TakeOne(rest, k);
      sorted := sorted + [rest[k]];
      rest := rest[..k] + rest[k + 1..];
    }
  }

  /** `toSorted`, as insertion from the left: an entry goes behind its ties. */
  function StableSort(es: seq<Entry>, ps: nat): seq<Entry> {
    if es == [] then [] else Insert(StableSort(es[..|es| - 1], ps), es[|es| - 1], ps)
  }

  function Insert(sorted: seq<Entry>, e: Entry, ps: nat): seq<Entry> {
    if sorted != [] && Better(e, sorted[|sorted| - 1], ps)
    then Insert(sorted[..|sorted| - 1], e, ps) + [sorted[|sorted| - 1]]
    else sorted + [e]
  }

  function TiesOf(es: seq<Entry>, e: Entry, ps: nat): seq<Entry> {
    if es == [] then []
    else TiesOf(es[..|es| - 1], e, ps) + (if Tied(es[|es| - 1], e, ps) then [es[|es| - 1]] else [])
  }

  lemma {:induction false} InsertSorts(sorted: seq<Entry>, e: Entry, ps: nat)
    requires Sorted(sorted, ps)
    ensures Sorted(Insert(sorted, e, ps), ps)
    ensures multiset(Insert(sorted, e, ps)) == multiset(sorted) + multiset{e}
  {
    var n := |sorted| - 1;
    if sorted != [] && Better(e, sorted[n], ps) {
      InsertSorts(sorted[..n], e, ps);
      assert sorted == sorted[..n] + [sorted[n]];
      forall x | x in Insert(sorted[..n], e, ps) ensures !Better(sorted[n], x, ps) {
        assert x in multiset(Insert(sorted[..n], e, ps));
      }
    }
  }

  lemma {:induction false} InsertKeepsTies(sorted: seq<Entry>, e: Entry, x: Entry, ps: nat)
    ensures TiesOf(Insert(sorted, e, ps), x, ps) == TiesOf(sorted, x, ps) + (if Tied(e, x, ps) then [e] else [])
  {
    var n := |sorted| - 1;
    var r := Insert(sorted, e, ps);
    if sorted != [] && Better(e, sorted[n], ps) {
      InsertKeepsTies(sorted[..n], e, x, ps);
      assert r[..|r| - 1] == Insert(sorted[..n], e, ps);
    } else {
      assert r[..|r| - 1] == sorted;
    }
  }

  lemma SplitLast(es: seq<Entry>)
    requires es != []
    ensures multiset(es) == multiset(es[..|es| - 1]) + multiset{es[|es| - 1]}
  {
    assert es == es[..|es| - 1] + [es[|es| - 1]];
  }

  lemma {:induction false} StableSortSorts(es: seq<Entry>, ps: nat)
    ensures Sorted(StableSort(es, ps), ps) && multiset(StableSort(es, ps)) == multiset(es)
  {
    if es != [] {
      var n := |es| - 1;
      var front := StableSort(es[..n], ps);
      StableSortSorts(es[..n], ps);
      SplitLast(es);
      InsertSorts(front, es[n], ps);
      assert StableSort(es, ps) == Insert(front, es[n], ps);
    }
  }

  /** Tied entries keep their order. */
  lemma {:induction false} StableSortIsStable(es: seq<Entry>, x: Entry, ps: nat)
    ensures TiesOf(StableSort(es, ps), x, ps) == TiesOf(es, x, ps)
  {
    if es != [] {
      var n := |es| - 1;
      StableSortIsStable(es[..n], x, ps);
      InsertKeepsTies(StableSort(es[..n], ps), es[n], x, ps);
    }
  }

  // ----- Assigning ranks -----

  lemma {:induction false} CountBetterOf(sorted: seq<Entry>, e: Entry, ps: nat, p: nat)
    requires p <= |sorted|
    requires forall j | 0 <= j < p :: Better(sorted[j], e, ps)
    requires forall j | p <= j < |sorted| :: !Better(sorted[j], e, ps)
    ensures CountBetter(sorted, e, ps) == p
  {
    if sorted != [] {
      CountBetterOf(sorted[1..], e, ps, if p > 0 then p - 1 else 0);
    }
  }

  lemma {:induction false} CountBetterSplit(es: seq<Entry>, k: nat, e: Entry, ps: nat)
    requires k < |es|
    ensures CountBetter(es, e, ps)
            == CountBetter(es[..k] + es[k + 1..], e, ps) + (if Better(es[k], e, ps) then 1 else 0)
  {
    var rest := es[..k] + es[k + 1..];
    if k == 0 {
      assert rest == es[1..];
    } else {
      assert rest[0] == es[0] && rest[1..] == es[1..][..k - 1] + es[1..][k..];
      CountBetterSplit(es[1..], k - 1, e, ps);
    }
  }

  lemma {:induction false} CountBetterPermuted(es: seq<Entry>, es': seq<Entry>, e: Entry, ps: nat)
    requires multiset(es) == multiset(es')
    ensures CountBetter(es, e, ps) == CountBetter(es', e, ps)
    decreases |es|
  {
    if es == [] {
      assert |multiset(es')| == 0;
    } else {
      var k := TakeFirst(es, es');
      CountBetterSplit(es', k, e, ps);
      CountBetterPermuted(es[1..], es'[..k] + es'[k + 1..], e, ps);
    }
  }

  /** The loop of both versions over the sorted entries. */
  method AssignRanks(sorted: seq<Entry>, ps: nat) returns (result: seq<RankedEntry>)
    requires Sorted(sorted, ps)
    ensures Entries(result) == sorted
    ensures forall i | 0 <= i < |result| :: result[i].rank == 1 + CountBetter(sorted, result[i].entry, ps)
  {
    result := [];
    var rank := 1;
    for i := 0 to |sorted|
      invariant |result| == i && forall k | 0 <= k < i :: result[k].entry == sorted[k]
      invariant 1 <= rank && (i == 0 ==> rank == 1) && (i > 0 ==> rank <= i)
      invariant forall j | rank - 1 <= j < i :: Tied(sorted[j], sorted[i - 1], ps)
      invariant forall j | 0 <= j < rank - 1 :: i > 0 && Better(sorted[j], sorted[i - 1], ps)
      invariant forall k | 0 <= k < i :: result[k].rank == 1 + CountBetter(sorted, sorted[k], ps)
    {
      var current := sorted[i];
      if i > 0 {
        var previous := result[i - 1].entry;
        var isTie := current.solved == previous.solved && Penalty(current, ps) == Penalty(previous, ps);
        if !isTie {
          rank := i + 1;
        }
      }
      CountBetterOf(sorted, current, ps, rank - 1);
      result := result + [RankedEntry(current, rank)];
    }
  }

  lemma RankingOfPermutation(es: seq<Entry>, sorted: seq<Entry>, rs: seq<RankedEntry>, ps: nat)
    requires multiset(sorted) == multiset(es) && Sorted(sorted, ps) && Entries(rs) == sorted
    requires forall i | 0 <= i < |rs| :: rs[i].rank == 1 + CountBetter(sorted, rs[i].entry, ps)
    ensures IsRanking(es, rs, ps)
  {
    forall i | 0 <= i < |rs| ensures rs[i].rank == 1 + CountBetter(es, rs[i].entry, ps) {
      CountBetterPermuted(sorted, es, rs[i].entry, ps);
    }
  }

  /** `IcpcRanker::rank` */
  method RankRust(entries: seq<Entry>, ps: nat) returns (result: seq<RankedEntry>)
    ensures IsRanking(entries, result, ps)
  {
    var sorted := SortUnstable(entries, ps);
    result := AssignRanks(sorted, ps);
    RankingOfPermutation(entries, sorted, result, ps);
  }

  /** `icpcAssignRanks` */
  method RankTypeScript(entries: seq<Entry>, ps: nat) returns (result: seq<RankedEntry>)
    ensures IsRanking(entries, result, ps)
    ensures forall x :: TiesOf(Entries(result), x, ps) == TiesOf(entries, x, ps)
  {
    StableSortSorts(entries, ps);
    forall x {
      StableSortIsStable(entries, x, ps);
    }
    var sorted := StableSort(entries, ps);
    result := AssignRanks(sorted, ps);
    RankingOfPermutation(entries, sorted, result, ps);
  }

  // ----- The two versions agree -----

  function Ranked(e: Entry, es: seq<Entry>, ps: nat): RankedEntry {
    RankedEntry(e, 1 + CountBetter(es, e, ps))
  }

  function RankAll(xs: seq<Entry>, es: seq<Entry>, ps: nat): multiset<RankedEntry> {
    if xs == [] then multiset{} else multiset{Ranked(xs[0], es, ps)} + RankAll(xs[1..], es, ps)
  }

  lemma {:induction false} RankAllSplit(xs: seq<Entry>, k: nat, es: seq<Entry>, ps: nat)
    requires k < |xs|
    ensures RankAll(xs, es, ps) == RankAll(xs[..k] + xs[k + 1..], es, ps) + multiset{Ranked(xs[k], es, ps)}
  {
    var rest := xs[..k] + xs[k + 1..];
    if k == 0 {
      assert rest == xs[1..];
    } else {
      assert rest[0] == xs[0] && rest[1..] == xs[1..][..k - 1] + xs[1..][k..];
      RankAllSplit(xs[1..], k - 1, es, ps);
    }
  }

  lemma {:induction false} RankAllPermuted(xs: seq<Entry>, xs': seq<Entry>, es: seq<Entry>, ps: nat)
    requires multiset(xs) == multiset(xs')
    ensures RankAll(xs, es, ps) == RankAll(xs', es, ps)
    decreases |xs|
  {
    if xs == [] {
      assert |multiset(xs')| == 0;
    } else {
      var k := TakeFirst(xs, xs');
      RankAllSplit(xs', k, es, ps);
      RankAllPermuted(xs[1..], xs'[..k] + xs'[k + 1..], es, ps);
    }
  }

  lemma {:induction false} RankingIsRankAll(rs: seq<RankedEntry>, es: seq<Entry>, ps: nat)
    requires forall i | 0 <= i < |rs| :: rs[i].rank == 1 + CountBetter(es, rs[i].entry, ps)
    ensures multiset(rs) == RankAll(Entries(rs), es, ps)
  {
    if rs != [] {
      assert rs == [rs[0]] + rs[1..];
      assert Entries(rs)[1..] == Entries(rs[1..]);
      RankingIsRankAll(rs[1..], es, ps);
    }
  }

  /** Any two rankings of the same entries, in whatever order they came and
      whichever version made them, give everyone the same rank. */
  lemma RankingsAgree(es: seq<Entry>, es': seq<Entry>, rs: seq<RankedEntry>, rs': seq<RankedEntry>, ps: nat)
    requires multiset(es) == multiset(es') && IsRanking(es, rs, ps) && IsRanking(es', rs', ps)
    ensures multiset(rs) == multiset(rs')
  {
    forall i | 0 <= i < |rs'| ensures rs'[i].rank == 1 + CountBetter(es, rs'[i].entry, ps) {
      CountBetterPermuted(es, es', rs'[i].entry, ps);
    }
    RankingIsRankAll(rs, es, ps);
    RankingIsRankAll(rs', es, ps);
    RankAllPermuted(Entries(rs), Entries(rs'), es, ps);
  }
}
