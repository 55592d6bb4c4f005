/** Unique slug resolution in `course_create` (courses/views.py). `slugify` is a library
    function and is taken as a parameter; the slugs already stored are a set. */
module Slugs {
  import opened PyText
  import opened Sets

  /** The slug used when the title slugifies to nothing. */
  const FallbackSlug := "course"

  /** `slugify(title) or "course"`. */
  function BaseSlug(title: string, slugify: string -> string): (base: string)
    ensures base != ""
    ensures slugify(title) != "" ==> base == slugify(title)
    ensures slugify(title) == "" ==> base == FallbackSlug
  {
    if slugify(title) == "" then FallbackSlug else slugify(title)
  }

  /** The `n`-th candidate the loop tries: `base`, then `base-1`, `base-2`, ... */
  function Candidate(base: string, n: nat): string {
    if n == 0 then base else base + "-" + Show(n)
  }

  /** `slug` is the first candidate not in `existing`. */
  ghost predicate FirstFree(base: string, existing: set<string>, slug: string) {
    && slug !in existing
    && exists n: nat :: slug == Candidate(base, n)
                        && forall m: nat :: m < n ==> Candidate(base, m) in existing
  }

  lemma CandidatesDistinct(base: string, a: nat, b: nat)
    requires a != b
    ensures Candidate(base, a) != Candidate(base, b)
  {
    if a != 0 && b != 0 {
      var p := base + "-";
      assert Candidate(base, a) == p + Show(a) && Candidate(base, b) == p + Show(b);
      if Show(a) != Show(b) {
        if |Show(a)| == |Show(b)| {
          var k :| 0 <= k < |Show(a)| && Show(a)[k] != Show(b)[k];
          assert Candidate(base, a)[|p| + k] != Candidate(base, b)[|p| + k];
        }
      } else {
        ShowInjective(a, b);
      }
    }
  }

  /** The first `n` candidates. */
  function Tried(base: string, n: nat): (r: set<string>)
    ensures forall m: nat :: m < n ==> Candidate(base, m) in r
  {
    if n == 0 then {} else Tried(base, n - 1) + {Candidate(base, n - 1)}
  }

  lemma {:induction false} TriedSize(base: string, n: nat)
    ensures |Tried(base, n)| == n
    ensures forall s :: s in Tried(base, n) ==> exists m: nat :: m < n && s == Candidate(base, m)
  {
    if n > 0 {
      TriedSize(base, n - 1);
      if Candidate(base, n - 1) in Tried(base, n - 1) {
        var m: nat :| m < n - 1 && Candidate(base, n - 1) == Candidate(base, m);
        CandidatesDistinct(base, m, n - 1);
      }
    }
  }

  /** The slug loop of `course_create`: try `base`, `base-1`, `base-2`, ... and keep the
      first one no stored course uses. */
  method ResolveSlug(title: string, slugify: string -> string, existing: set<string>)
    returns (slug: string)
    ensures slug !in existing
    ensures FirstFree(BaseSlug(title, slugify), existing, slug)
    ensures BaseSlug(title, slugify) !in existing ==> slug == BaseSlug(title, slugify)
    ensures BaseSlug(title, slugify) in existing ==>
      exists n: nat :: n >= 1 && slug == BaseSlug(title, slugify) + "-" + Show(n)
  {
    var base := BaseSlug(title, slugify);
    slug := base;
    var n: nat := 1;
    while slug in existing
      invariant n >= 1 && slug == Candidate(base, n - 1)
      invariant forall m: nat :: m < n - 1 ==> Candidate(base, m) in existing
      invariant n - 1 <= |existing|
      decreases |existing| - (n - 1)
    {
      TriedSize(base, n);
      assert Tried(base, n) <= existing;
      SubsetSize(Tried(base, n), existing);
      slug := base + "-" + Show(n);
      n := n + 1;
    }
  }

  /** At most one slug is the first free candidate. */
  lemma FirstFreeUnique(base: string, existing: set<string>, s1: string, s2: string)
    requires FirstFree(base, existing, s1) && FirstFree(base, existing, s2)
    ensures s1 == s2
  {
    var n1: nat :| s1 == Candidate(base, n1) && forall m: nat :: m < n1 ==> Candidate(base, m) in existing;
    var n2: nat :| s2 == Candidate(base, n2) && forall m: nat :: m < n2 ==> Candidate(base, m) in existing;
    assert !(n1 < n2) && !(n2 < n1);
  }

  /** With "intro-python" taken the next course gets "intro-python-1"; with that taken as
      well, "intro-python-2". */
  lemma IntroPythonExamples(s1: string, s2: string)
    requires FirstFree("intro-python", {"intro-python"}, s1)
    requires FirstFree("intro-python", {"intro-python", "intro-python-1"}, s2)
    ensures s1 == "intro-python-1" && s2 == "intro-python-2"
  {
    assert Show(1) == "1" && Show(2) == "2";
    assert Candidate("intro-python", 0) in {"intro-python"};
    assert FirstFree("intro-python", {"intro-python"}, "intro-python-1") by {
      assert "intro-python-1" == Candidate("intro-python", 1);
    }
    FirstFreeUnique("intro-python", {"intro-python"}, s1, "intro-python-1");
    var e2 := {"intro-python", "intro-python-1"};
    assert forall m: nat :: m < 2 ==> Candidate("intro-python", m) in e2;
    assert FirstFree("intro-python", e2, "intro-python-2") by {
      assert "intro-python-2" == Candidate("intro-python", 2);
    }
    FirstFreeUnique("intro-python", e2, s2, "intro-python-2");
  }
}
