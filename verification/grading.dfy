/** Answer evaluation and the shuffled presentation of matching options
    (courses/views.py: `_check_multiple_choice`, `_check_matching`, `right_options`). */
module Grading {
  import opened Results
  import opened PyText
  import opened Schema
  import opened CourseModels

  /** `int(v)` for a submitted form value: `None` raises `TypeError`, a malformed string
      raises `ValueError`; both read as "no number". */
  function ParseAnswer(v: Option<string>): Option<int> {
    match v
    case None => None
    case Some(s) => ParseInt(s)
  }

  /** `_check_multiple_choice`: never fails, true exactly when the submission is an integer
      inside the option range that equals the stored correct index. */
  function CheckMultipleChoice(ex: Exercise, selected: Option<string>): (correct: bool)
    ensures correct <==>
      && ParseAnswer(selected).Some?
      && 0 <= ParseAnswer(selected).value < |OptionsOf(ex.payload)|
      && CorrectIndexOf(ex.payload) == ParseAnswer(selected)
    ensures selected.None? ==> !correct
  {
    match ParseAnswer(selected)
    case None => false
    case Some(idx) => 0 <= idx < |OptionsOf(ex.payload)| && Some(idx) == CorrectIndexOf(ex.payload)
  }

  /** For a stored question whose correct index lies in its options, submitting the decimal
      form of option `j` is marked correct exactly when `j` is the correct index, and any
      accepted submission reads as that index. */
  lemma MultipleChoiceVerdict(options: seq<string>, k: int, question: string, j: int, s: string)
    requires 0 <= k < |options|
    ensures var ex := Exercise(0, MultipleChoiceType, question, ChoicePayload(options, k));
      && (CheckMultipleChoice(ex, Some(IntToStr(j))) <==> j == k)
      && (CheckMultipleChoice(ex, Some(s)) ==> ParseInt(s) == Some(k))
      && !CheckMultipleChoice(ex, None)
  {
    ParseShowInt(j);
  }

  /** A correct index outside the options can never be answered correctly. */
  lemma UnreachableCorrectIndex(ex: Exercise, selected: Option<string>)
    requires ex.payload.ChoicePayload?
    requires !(0 <= ex.payload.correctIndex < |ex.payload.options|)
    ensures !CheckMultipleChoice(ex, selected)
  {
  }

  /** `selected_by_left.get(i)`. */
  function Lookup(selected: map<int, Option<string>>, i: int): Option<string> {
    if i in selected then selected[i] else None
  }

  /** `int(selected_by_left.get(i))` for each left index `i < n`; parsing has no side
      effects, so reading every entry up front does not change the loop's verdict. */
  function Answers(selected: map<int, Option<string>>, n: nat): (answers: seq<Option<int>>)
    ensures |answers| == n && forall i :: 0 <= i < n ==> answers[i] == ParseAnswer(Lookup(selected, i))
  {
    seq(n, i requires 0 <= i < n => ParseAnswer(Lookup(selected, i)))
  }

  /** The loop of `_check_matching` from left index `i` on: it stops at the first answer that
      is not its own index. */
  function MatchesFrom(answers: seq<Option<int>>, i: nat): bool
    requires i <= |answers|
    decreases |answers| - i
  {
    if i == |answers| then true
    else if answers[i] != Some(i) then false
    else MatchesFrom(answers, i + 1)
  }

  /** The loop from `i` succeeds exactly when every remaining answer is its own index. */
  lemma {:induction false} MatchesFromAll(answers: seq<Option<int>>, i: nat)
    requires i <= |answers|
    ensures MatchesFrom(answers, i) <==> forall j :: i <= j < |answers| ==> answers[j] == Some(j)
    decreases |answers| - i
  {
    if i < |answers| {
      MatchesFromAll(answers, i + 1);
    }
  }

  /** `_check_matching`: all or nothing. */
  function CheckMatching(ex: Exercise, selected: map<int, Option<string>>): (correct: bool)
    ensures |selected| != |PairsOf(ex.payload)| ==> !correct
    ensures correct <==>
      && |selected| == |PairsOf(ex.payload)|
      && forall i :: 0 <= i < |PairsOf(ex.payload)| ==> ParseAnswer(Lookup(selected, i)) == Some(i)
  {
    var n := |PairsOf(ex.payload)|;
    if |selected| != n then false
    else
      MatchesFromAll(Answers(selected, n), 0);
      MatchesFrom(Answers(selected, n), 0)
  }

  /** `set(range(n))`. */
  function RangeSet(n: nat): (r: set<int>)
    ensures forall i :: i in r <==> 0 <= i < n
  {
    if n == 0 then {} else RangeSet(n - 1) + {n - 1}
  }

  lemma {:induction false} RangeSetSize(n: nat)
    ensures |RangeSet(n)| == n
  {
    if n > 0 {
      RangeSetSize(n - 1);
    }
  }

  /** A submission is accepted exactly when it is the identity on the left indices: its keys
      are `0..n-1` and every entry reads as its own key. */
  lemma MatchingIsIdentity(ex: Exercise, selected: map<int, Option<string>>)
    ensures CheckMatching(ex, selected) <==>
      && selected.Keys == RangeSet(|PairsOf(ex.payload)|)
      && forall i :: i in selected ==> ParseAnswer(selected[i]) == Some(i)
  {
    var n := |PairsOf(ex.payload)|;
    RangeSetSize(n);
    if CheckMatching(ex, selected) {
      forall i | i in RangeSet(n) ensures i in selected.Keys {
        assert ParseAnswer(Lookup(selected, i)) == Some(i);
      }
      KeysOfRangeSize(selected.Keys, n);
    }
    if selected.Keys == RangeSet(n) {
      assert |selected| == |selected.Keys| == n;
      forall i | 0 <= i < n ensures Lookup(selected, i) == selected[i] {
        assert i in RangeSet(n);
      }
    }
  }

  /** A set of `n` keys that holds `0..n-1` holds nothing else. */
  lemma KeysOfRangeSize(keys: set<int>, n: nat)
    requires RangeSet(n) <= keys && |keys| == n
    ensures keys == RangeSet(n)
  {
    RangeSetSize(n);
    assert |keys - RangeSet(n)| == 0;
  }

  /** `list(range(n))`. */
  function Range(n: nat): (r: seq<int>)
    ensures |r| == n && forall k :: 0 <= k < n ==> r[k] == k
  {
    seq(n, k => k)
  }

  /** What `random.shuffle(list(range(n)))` may leave behind. */
  predicate IsPermutation(p: seq<int>, n: nat) {
    multiset(p) == multiset(Range(n))
  }

  lemma {:induction false} RangeCount(n: nat, i: int)
    ensures multiset(Range(n))[i] == if 0 <= i < n then 1 else 0
  {
    if n > 0 {
      assert Range(n) == Range(n - 1) + [n - 1];
      RangeCount(n - 1, i);
    }
  }

  lemma PermutationInRange(p: seq<int>, n: nat)
    requires IsPermutation(p, n)
    ensures forall k :: 0 <= k < |p| ==> 0 <= p[k] < n
  {
    forall k | 0 <= k < |p| ensures 0 <= p[k] < n {
      assert p[k] in multiset(p);
      RangeCount(n, p[k]);
    }
  }

  lemma PermutationLength(p: seq<int>, n: nat)
    requires IsPermutation(p, n)
    ensures |p| == n
  {
    assert |multiset(p)| == |multiset(Range(n))|;
  }

  /** The original indices of a list of displayed options. */
  function Originals(options: seq<(int, string)>): (r: seq<int>)
    ensures |r| == |options| && forall k :: 0 <= k < |options| ==> r[k] == options[k].0
  {
    seq(|options|, k requires 0 <= k < |options| => options[k].0)
  }

  /** `right_options`: the right items in shuffled order, each tagged with its original index
      and showing the right text of that original pair. */
  function RightOptions(pairs: seq<MatchingPair>, shuffled: seq<int>): (r: seq<(int, string)>)
    requires IsPermutation(shuffled, |pairs|)
    ensures |r| == |pairs|
    ensures forall k :: 0 <= k < |r| ==> 0 <= r[k].0 < |pairs| && r[k].1 == pairs[r[k].0].right
    ensures Originals(r) == shuffled
  {
    PermutationLength(shuffled, |pairs|);
    PermutationInRange(shuffled, |pairs|);
    seq(|pairs|, k requires 0 <= k < |pairs| => (shuffled[k], pairs[shuffled[k]].right))
  }

  /** Every original index is offered exactly once, and for each left item some displayed
      option carries its own partner. */
  lemma RightOptionsBijective(pairs: seq<MatchingPair>, shuffled: seq<int>, i: int)
    requires IsPermutation(shuffled, |pairs|)
    ensures multiset(Originals(RightOptions(pairs, shuffled)))[i] == if 0 <= i < |pairs| then 1 else 0
    ensures 0 <= i < |pairs| ==> exists k :: 0 <= k < |pairs| && RightOptions(pairs, shuffled)[k] == (i, pairs[i].right)
  {
    var r := RightOptions(pairs, shuffled);
    RangeCount(|pairs|, i);
    if 0 <= i < |pairs| {
      assert i in multiset(Originals(r));
      var k :| 0 <= k < |r| && Originals(r)[k] == i;
      assert r[k] == (i, pairs[i].right);
    }
  }

  /** An entry holding the decimal form of `v` reads as `v`. */
  lemma ReadsPrinted(selected: map<int, Option<string>>, i: int, v: int)
    requires i in selected && selected[i] == Some(IntToStr(v))
    ensures ParseAnswer(Lookup(selected, i)) == Some(v)
  {
    ParseShowInt(v);
  }

  /** A submission of the right size whose entry `i` reads as `vals[i]` is accepted exactly
      when `vals` is the identity. */
  lemma CheckMatchingReads(ex: Exercise, selected: map<int, Option<string>>, vals: seq<int>)
    requires |vals| == |PairsOf(ex.payload)| == |selected|
    requires forall i :: 0 <= i < |vals| ==> ParseAnswer(Lookup(selected, i)) == Some(vals[i])
    ensures CheckMatching(ex, selected) <==> forall i :: 0 <= i < |vals| ==> vals[i] == i
  {
  }

  /** The original index of the option shown at display position `choice[i]`, for each
      left item `i`. */
  function PickedIndices(r: seq<(int, string)>, choice: seq<int>): (picked: seq<int>)
    requires forall i :: 0 <= i < |choice| ==> 0 <= choice[i] < |r|
    ensures |picked| == |choice| && forall i :: 0 <= i < |choice| ==> picked[i] == r[choice[i]].0
  {
    seq(|choice|, i requires 0 <= i < |choice| => r[choice[i]].0)
  }

  /** What the page posts for those picks: field `match_i` carries the picked original
      index. */
  function PostedChoices(picked: seq<int>): (posted: map<int, Option<string>>)
    ensures posted.Keys == RangeSet(|picked|) && |posted| == |picked|
    ensures forall i :: 0 <= i < |picked| ==> posted[i] == Some(IntToStr(picked[i]))
  {
    RangeSetSize(|picked|);
    map i | i in RangeSet(|picked|) :: Some(IntToStr(picked[i]))
  }

  /** A posted set of picks is accepted exactly when every left item picked its own
      index. */
  lemma PostedVerdict(ex: Exercise, picked: seq<int>)
    requires |picked| == |PairsOf(ex.payload)|
    ensures CheckMatching(ex, PostedChoices(picked)) <==> forall i :: 0 <= i < |picked| ==> picked[i] == i
  {
    var posted := PostedChoices(picked);
    forall i | 0 <= i < |picked| ensures ParseAnswer(Lookup(posted, i)) == Some(picked[i]) {
      ReadsPrinted(posted, i, picked[i]);
    }
    CheckMatchingReads(ex, posted, picked);
  }

  /** Matching every left item to its own right item is accepted, and exchanging the picks
      of two left items makes the answer wrong. */
  lemma CanonicalAcceptedSwapRejected(pairs: seq<MatchingPair>, question: string, a: int, b: int)
    requires 0 <= a < |pairs| && 0 <= b < |pairs| && a != b
    ensures var ex := Exercise(0, MatchingPairsType, question, PairsPayload(pairs));
      var identity := Range(|pairs|);
      && CheckMatching(ex, PostedChoices(identity))
      && !CheckMatching(ex, PostedChoices(identity[a := b][b := a]))
  {
    var ex := Exercise(0, MatchingPairsType, question, PairsPayload(pairs));
    var identity := Range(|pairs|);
    var swapped := identity[a := b][b := a];
    PostedVerdict(ex, identity);
    PostedVerdict(ex, swapped);
    assert swapped[b] == a;
  }

  /** The option shown at display position `k` posts `shuffled[k]`. */
  lemma PickedAreShuffled(pairs: seq<MatchingPair>, shuffled: seq<int>, choice: seq<int>)
    requires IsPermutation(shuffled, |pairs|)
    requires forall i :: 0 <= i < |choice| ==> 0 <= choice[i] < |pairs|
    ensures forall i :: 0 <= i < |choice| ==>
      PickedIndices(RightOptions(pairs, shuffled), choice)[i] == shuffled[choice[i]]
  {
    var r := RightOptions(pairs, shuffled);
    forall i | 0 <= i < |choice| ensures PickedIndices(r, choice)[i] == shuffled[choice[i]] {
      assert Originals(r)[choice[i]] == r[choice[i]].0;
    }
  }

  /** The learner picks display position `choice[i]` for left item `i`; the page posts that
      option's original index. However the options were shuffled, the answer is accepted
      exactly when every left item picked the position the shuffle moved its own right item
      to. */
  lemma DisplayedChoiceRoundTrip(pairs: seq<MatchingPair>, question: string, shuffled: seq<int>, choice: seq<int>)
    requires IsPermutation(shuffled, |pairs|)
    requires |choice| == |pairs| && forall i :: 0 <= i < |choice| ==> 0 <= choice[i] < |pairs|
    ensures var picked := PickedIndices(RightOptions(pairs, shuffled), choice);
      var ex := Exercise(0, MatchingPairsType, question, PairsPayload(pairs));
      CheckMatching(ex, PostedChoices(picked)) <==> forall i :: 0 <= i < |pairs| ==> shuffled[choice[i]] == i
  {
    var picked := PickedIndices(RightOptions(pairs, shuffled), choice);
    PickedAreShuffled(pairs, shuffled, choice);
    PostedVerdict(Exercise(0, MatchingPairsType, question, PairsPayload(pairs)), picked);
  }
}
