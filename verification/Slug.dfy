/** A fresh page id: the base slug, or the first free numbered one. */
module Slug {
  import opened Basics
  import Text

  /** The `n`th candidate: the plain slug, then `_2`, `_3` and so on. */
  function Candidate(prefix: string, base: string, n: nat): string {
    if n <= 1 then prefix + base else prefix + base + "_" + Text.Decimal(n)
  }

  predicate Taken(files: set<string>, slug: string) {
    slug + ".md" in files
  }

  lemma CandidatesDiffer(prefix: string, base: string, m: nat, n: nat)
    requires 1 <= m < n
    ensures Candidate(prefix, base, m) + ".md" != Candidate(prefix, base, n) + ".md"
  {
    var head := prefix + base + "_";
    var a, b := Candidate(prefix, base, m), Candidate(prefix, base, n);
    assert b == head + Text.Decimal(n) && b[|head|..] == Text.Decimal(n);
    Text.ValueOfPadded(n, 1);
    if m == 1 {
      assert |a| < |b|;
    } else {
      assert a == head + Text.Decimal(m) && a[|head|..] == Text.Decimal(m);
      Text.ValueOfPadded(m, 1);
    }
    assert (a + ".md")[..|a|] == a && (b + ".md")[..|b|] == b;
  }

  function TakenNames(prefix: string, base: string, n: nat): set<string> {
    set m | 1 <= m <= n :: Candidate(prefix, base, m) + ".md"
  }

  lemma {:induction false} CandidateCount(prefix: string, base: string, n: nat)
    ensures |TakenNames(prefix, base, n)| == n
  {
    if n == 0 {
      assert TakenNames(prefix, base, n) == {};
    } else {
      var last := Candidate(prefix, base, n) + ".md";
      CandidateCount(prefix, base, n - 1);
      assert last !in TakenNames(prefix, base, n - 1) by {
        if last in TakenNames(prefix, base, n - 1) {
          var m: nat :| 1 <= m <= n - 1 && Candidate(prefix, base, m) + ".md" == last;
          CandidatesDiffer(prefix, base, m, n);
        }
      }
      assert TakenNames(prefix, base, n) == TakenNames(prefix, base, n - 1) + {last};
    }
  }

  lemma SubsetSize<T>(a: set<T>, b: set<T>)
    requires a <= b
    ensures |a| <= |b|
  {
    if a != {} {
      var x :| x in a;
      SubsetSize(a - {x}, b - {x});
    }
  }

  /** Distinct candidates that are all taken cannot outnumber the files of the directory. */
  lemma TakenAreFew(prefix: string, base: string, files: set<string>, n: nat)
    requires forall m :: 1 <= m <= n ==> Taken(files, Candidate(prefix, base, m))
    ensures n <= |files|
  {
    CandidateCount(prefix, base, n);
    SubsetSize(TakenNames(prefix, base, n), files);
  }

  /** The first free candidate, found after at most one probe more than the directory has files. */
  method FindUniqueSlug(base: string, files: set<string>, prefix: string) returns (slug: string, probes: nat)
    ensures 1 <= probes <= |files| + 1
    ensures slug == Candidate(prefix, base, probes) && !Taken(files, slug)
    ensures forall m :: 1 <= m < probes ==> Taken(files, Candidate(prefix, base, m))
    ensures slug == prefix + base + if probes == 1 then "" else "_" + Text.Decimal(probes)
    ensures slug + ".md" !in files && (probes > 1 ==> prefix + base + ".md" in files)
    ensures forall m :: 2 <= m < probes ==> prefix + base + "_" + Text.Decimal(m) + ".md" in files
  {
    probes := 1;
    if !Taken(files, prefix + base) { return prefix + base, probes; }
    var counter := 2;
    TakenAreFew(prefix, base, files, 1);
    while true
      invariant counter >= 2 && counter - 1 <= |files|
      invariant forall m :: 1 <= m < counter ==> Taken(files, Candidate(prefix, base, m))
      decreases |files| + 1 - counter
    {
      probes := counter;
      slug := prefix + base + "_" + Text.Decimal(counter);
      assert slug == prefix + base + ("_" + Text.Decimal(counter));
      forall m | 2 <= m < counter ensures prefix + base + "_" + Text.Decimal(m) + ".md" in files {
        assert Taken(files, Candidate(prefix, base, m));
      }
      if !Taken(files, slug) { return slug, probes; }
      TakenAreFew(prefix, base, files, counter);
      counter := counter + 1;
    }
  }
}
