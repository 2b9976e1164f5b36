/** The ids of a page's headings: each its text's slug, or that with the first number that makes it new. */
module HeadingIds {
  import opened Wrappers
  import Digits

  /** `base` is the slug, `n` how many suffixes have been passed over. */
  function Candidate(base: string, n: nat): string {
    if n == 0 then base else base + ("-" + Digits.Print(10, n))
  }

  function Candidates(base: string, n: nat): set<string> {
    set k | 0 <= k < n :: Candidate(base, k)
  }

  lemma CandidatesDiffer(base: string, m: nat, n: nat)
    requires m != n
    ensures Candidate(base, m) != Candidate(base, n)
  {
    Digits.PrintValue(10, m);
    Digits.PrintValue(10, n);
    var a, b := Candidate(base, m), Candidate(base, n);
    if m > 0 && n > 0 {
      assert a[|base| + 1..] == Digits.Print(10, m) && b[|base| + 1..] == Digits.Print(10, n);
    }
  }

  lemma {:induction false} CandidatesCount(base: string, n: nat)
    ensures |Candidates(base, n)| == n
  {
    if n > 0 {
      CandidatesCount(base, n - 1);
      forall k | 0 <= k < n - 1 ensures Candidate(base, k) != Candidate(base, n - 1) {
        CandidatesDiffer(base, k, n - 1);
      }
      assert Candidates(base, n) == Candidates(base, n - 1) + {Candidate(base, n - 1)};
    }
  }

  /** The ids in use are too few for every suffix tried to be among them. */
  lemma Pigeonhole(used: set<string>, base: string, n: nat)
    requires Candidates(base, n) <= used
    ensures n <= |used|
  {
    CandidatesCount(base, n);
    Smaller(Candidates(base, n), used);
  }

  /** `id` is new, and every candidate before it was taken. */
  predicate FirstFree(used: set<string>, base: string, id: string) {
    id !in used && exists n: nat :: n <= |used| && id == Candidate(base, n) && Candidates(base, n) <= used
  }

  /** The first candidate not in use, searched for as long as there may be one taken. */
  method FreshId(used: set<string>, base: string) returns (id: string)
    ensures FirstFree(used, base, id)
  {
    id := base;
    var n: nat := 0;
    while id in used
      invariant id == Candidate(base, n) && Candidates(base, n) <= used && n <= |used|
      decreases |used| - n
    {
      assert Candidates(base, n + 1) == Candidates(base, n) + {id};
      Pigeonhole(used, base, n + 1);
      n := n + 1;
      id := base + ("-" + Digits.Print(10, n));
    }
  }

  /** Only one id is the first free one. */
  lemma FirstFreeOne(used: set<string>, base: string, a: string, b: string)
    requires FirstFree(used, base, a) && FirstFree(used, base, b)
    ensures a == b
  {
    var m: nat :| m <= |used| && a == Candidate(base, m) && Candidates(base, m) <= used;
    var n: nat :| n <= |used| && b == Candidate(base, n) && Candidates(base, n) <= used;
    assert m < n ==> a in Candidates(base, n);
    assert n < m ==> b in Candidates(base, m);
  }

  /** Each heading's id the first of its slug's that no earlier heading has. */
  ghost predicate Given(texts: seq<string>, slug: string -> string, ids: seq<string>) {
    |ids| == |texts| && forall k :: 0 <= k < |ids| ==> FirstFree(Earlier(ids, k), slug(texts[k]), ids[k])
  }

  function Earlier(ids: seq<string>, k: nat): set<string>
    requires k <= |ids|
  {
    set j | 0 <= j < k :: ids[j]
  }

  lemma OneMore(ids: seq<string>, id: string)
    ensures Earlier(ids + [id], |ids| + 1) == Earlier(ids, |ids|) + {id}
    ensures forall k :: 0 <= k <= |ids| ==> Earlier(ids + [id], k) == Earlier(ids, k)
  {
    EarlierAlone(ids + [id], ids);
    var all := ids + [id];
    assert forall j :: 0 <= j < |ids| ==> all[j] == ids[j];
    forall x | x in Earlier(ids, |ids|) + {id} ensures x in Earlier(all, |ids| + 1) {
      if x == id {
        assert all[|ids|] == id;
      } else {
        var j :| 0 <= j < |ids| && ids[j] == x;
        assert all[j] == x;
      }
    }
  }

  lemma NoneEarlier()
    ensures Earlier([], 0) == {}
  {
  }

  /** What is earlier is a prefix's. */
  lemma EarlierAlone(longer: seq<string>, ids: seq<string>)
    requires |ids| <= |longer| && longer[..|ids|] == ids
    ensures forall k :: 0 <= k <= |ids| ==> Earlier(longer, k) == Earlier(ids, k)
  {
    assert forall j :: 0 <= j < |ids| ==> longer[..|ids|][j] == longer[j];
  }

  /** `slug` is how a text becomes an id: lowercased, its punctuation dropped, its spaces dashes. */
  method AssignIds(texts: seq<string>, slug: string -> string) returns (ids: seq<string>)
    ensures Given(texts, slug, ids)
    ensures forall j, k :: 0 <= j < k < |ids| ==> ids[j] != ids[k]
  {
    hide FirstFree, Earlier;
    ids := [];
    var used: set<string> := {};
    NoneEarlier();
    for i := 0 to |texts|
      invariant |ids| == i && used == Earlier(ids, i)
      invariant forall k :: 0 <= k < i ==> FirstFree(Earlier(ids, k), slug(texts[k]), ids[k])
    {
      var id := FreshId(used, slug(texts[i]));
      OneMore(ids, id);
      used := used + {id};
      ids := ids + [id];
    }
    Distinct(texts, slug, ids);
  }

  lemma Distinct(texts: seq<string>, slug: string -> string, ids: seq<string>)
    requires Given(texts, slug, ids)
    ensures forall j, k :: 0 <= j < k < |ids| ==> ids[j] != ids[k]
  {
    forall j, k | 0 <= j < k < |ids| ensures ids[j] != ids[k] {
      assert FirstFree(Earlier(ids, k), slug(texts[k]), ids[k]);
      assert ids[j] in Earlier(ids, k);
    }
  }

  /** The ids are one answer, and what comes later on a page changes none of them. */
  lemma {:induction false} IdsDetermined(texts: seq<string>, more: seq<string>, slug: string -> string,
      ids: seq<string>, longer: seq<string>, k: nat)
    requires Given(texts, slug, ids) && Given(texts + more, slug, longer) && k < |ids|
    ensures longer[k] == ids[k]
    decreases k
  {
    hide FirstFree;
    forall j | 0 <= j < k ensures longer[j] == ids[j] {
      IdsDetermined(texts, more, slug, ids, longer, j);
    }
    assert Earlier(longer, k) == Earlier(ids, k);
    assert (texts + more)[k] == texts[k];
    FirstFreeOne(Earlier(ids, k), slug(texts[k]), ids[k], longer[k]);
  }

  /** Three headings of one slug: the slug itself, then numbered from one. */
  lemma Numbered(slug: string)
    ensures FirstFree({}, slug, slug)
    ensures FirstFree({slug}, slug, slug + "-1")
    ensures FirstFree({slug, slug + "-1"}, slug, slug + "-2")
  {
    assert Digits.Print(10, 1) == "1" && Digits.Print(10, 2) == "2";
    var a, b, c := Candidate(slug, 0), Candidate(slug, 1), Candidate(slug, 2);
    assert a == slug && b == slug + "-1" && c == slug + "-2" by {
      assert slug + ("-" + "1") == slug + "-1" && slug + ("-" + "2") == slug + "-2";
    }
    assert b != a && c != a && c[|slug| + 1] != b[|slug| + 1];
    hide Candidate;
    Found({}, slug, 0);
    Found({a}, slug, 1);
    forall x | x in Candidates(slug, 2) ensures x in {a, b} {
      var k :| 0 <= k < 2 && x == Candidate(slug, k);
    }
    Found({a, b}, slug, 2);
  }

  lemma Found(used: set<string>, base: string, n: nat)
    requires n <= |used| && Candidates(base, n) <= used && Candidate(base, n) !in used
    ensures FirstFree(used, base, Candidate(base, n))
  {
  }
}
