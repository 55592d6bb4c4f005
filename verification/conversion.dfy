/** The loop of `course_create` that turns generated items into Exercise rows
    (courses/views.py). */
module Conversion {
  import opened Results
  import opened Schema
  import opened CourseModels
  import opened PyText
  import opened Grading

  /** The item carries the payload its tag names, so the loop stores it. */
  predicate HasTaggedPayload(item: ExerciseItem) {
    || (item.tag == MultipleChoiceTag && item.multipleChoice.Some?)
    || (item.tag == MatchingTag && item.matching.Some?)
  }

  /** The row the loop creates for the item at position `i`, if any. */
  function ToRow(item: ExerciseItem, i: nat): (row: Option<Exercise>)
    ensures row.Some? <==> HasTaggedPayload(item)
    ensures row.Some? ==> row.value.orderIndex == i
  {
    if item.tag == MultipleChoiceTag && item.multipleChoice.Some? then
      var mc := item.multipleChoice.value;
      Some(Exercise(i, MultipleChoiceType, mc.question, ChoicePayload(mc.options, mc.correctIndex)))
    else if item.tag == MatchingTag && item.matching.Some? then
      var mat := item.matching.value;
      Some(Exercise(i, MatchingPairsType, mat.question, PairsPayload(mat.pairs)))
    else
      None
  }

  /** Reads a row back as the item it stores. The explanation is not persisted. */
  function ItemOf(row: Exercise): ExerciseItem {
    match row.payload
    case ChoicePayload(options, k) =>
      ExerciseItem(MultipleChoiceTag, Some(MultipleChoiceExercise(row.question, options, k, None)), None)
    case PairsPayload(pairs) =>
      ExerciseItem(MatchingTag, None, Some(MatchingExercise(row.question, pairs)))
  }

  /** The stored row keeps the question, the options and correct index, or the pairs in
      their generated order: reading it back gives the item minus its explanation and its
      unused slot. */
  lemma RowRoundTrip(item: ExerciseItem, i: nat)
    requires HasTaggedPayload(item)
    ensures var row := ToRow(item, i).value;
      && row.orderIndex == i
      && (item.tag == MultipleChoiceTag ==>
            row.kind == MultipleChoiceType
            && ItemOf(row) == ExerciseItem(MultipleChoiceTag,
                 Some(item.multipleChoice.value.(explanation := None)), None))
      && (item.tag == MatchingTag ==>
            row.kind == MatchingPairsType
            && ItemOf(row) == ExerciseItem(MatchingTag, None, item.matching))
  {
  }

  /** A row the exercise page can show: its kind matches its payload, a multiple-choice row
      has four options and a correct index among them, a matching row at least two pairs. */
  predicate WellFormedRow(row: Exercise) {
    match row.payload
    case ChoicePayload(options, k) =>
      row.kind == MultipleChoiceType && |options| == OptionCount && 0 <= k < |options|
    case PairsPayload(pairs) =>
      row.kind == MatchingPairsType && |pairs| >= MinPairs
  }

  /** The row of a schema-valid item is well formed. */
  lemma ValidItemRow(item: ExerciseItem, i: nat)
    requires ValidItem(item) && HasTaggedPayload(item)
    ensures WellFormedRow(ToRow(item, i).value)
  {
  }

  /** A schema-valid item that the loop stores can be answered: its multiple-choice row
      accepts the decimal form of the generated correct index and nothing else among the
      option numbers, and its matching row accepts the submission pairing each left item
      with its own right item. */
  lemma StoredItemIsAnswerable(item: ExerciseItem, i: nat, j: int)
    requires ValidItem(item) && HasTaggedPayload(item)
    ensures var row := ToRow(item, i).value;
      && (item.tag == MultipleChoiceTag ==>
            (CheckMultipleChoice(row, Some(IntToStr(j))) <==> j == item.multipleChoice.value.correctIndex))
      && (item.tag == MatchingTag ==>
            CheckMatching(row, PostedChoices(Range(|item.matching.value.pairs|))))
  {
    var row := ToRow(item, i).value;
    if item.tag == MultipleChoiceTag {
      var mc := item.multipleChoice.value;
      MultipleChoiceVerdict(mc.options, mc.correctIndex, mc.question, j, "");
    } else {
      var pairs := item.matching.value.pairs;
      assert |pairs| >= 2;
      CanonicalAcceptedSwapRejected(pairs, row.question, 0, 1);
    }
  }

  /** Every row is the conversion of the item at its order index, which lies below `i`. */
  predicate RowsFromItems(items: seq<ExerciseItem>, rows: seq<Exercise>, i: nat) {
    forall k :: 0 <= k < |rows| ==>
      rows[k].orderIndex < i && rows[k].orderIndex < |items|
      && ToRow(items[rows[k].orderIndex], rows[k].orderIndex) == Some(rows[k])
  }

  predicate IncreasingOrder(rows: seq<Exercise>) {
    forall k, l :: 0 <= k < l < |rows| ==> rows[k].orderIndex < rows[l].orderIndex
  }

  /** The first `i` items each have a row exactly when they carry their tagged payload. */
  predicate CoversItems(items: seq<ExerciseItem>, rows: seq<Exercise>, i: nat)
    requires i <= |items|
  {
    forall j :: 0 <= j < i ==>
      (HasTaggedPayload(items[j]) <==> exists k :: 0 <= k < |rows| && rows[k].orderIndex == j)
  }

  /** When the first `i` items all carry their payload, the rows are numbered `0..i-1`. */
  predicate DenseWhenAllTagged(items: seq<ExerciseItem>, rows: seq<Exercise>, i: nat)
    requires i <= |items|
  {
    (forall j :: 0 <= j < i ==> HasTaggedPayload(items[j])) ==>
      |rows| == i && forall k :: 0 <= k < |rows| ==> rows[k].orderIndex == k
  }

  predicate LoopInvariant(items: seq<ExerciseItem>, rows: seq<Exercise>, i: nat) {
    && i <= |items| && |rows| <= i
    && RowsFromItems(items, rows, i) && IncreasingOrder(rows)
    && CoversItems(items, rows, i) && DenseWhenAllTagged(items, rows, i)
  }

  /** Storing the row of item `i` keeps the invariant. */
  lemma AppendRow(items: seq<ExerciseItem>, rows: seq<Exercise>, i: nat)
    requires LoopInvariant(items, rows, i) && i < |items| && ToRow(items[i], i).Some?
    ensures LoopInvariant(items, rows + [ToRow(items[i], i).value], i + 1)
  {
    var row := ToRow(items[i], i).value;
    var next := rows + [row];
    assert next[|rows|] == row && row.orderIndex == i;
    assert RowsFromItems(items, next, i + 1);
    assert IncreasingOrder(next);
    forall j | 0 <= j < i + 1
      ensures HasTaggedPayload(items[j]) <==> exists k :: 0 <= k < |next| && next[k].orderIndex == j
    {
      if j < i {
        if HasTaggedPayload(items[j]) {
          var k :| 0 <= k < |rows| && rows[k].orderIndex == j;
          assert next[k] == rows[k];
        } else {
          forall k | 0 <= k < |next| ensures next[k].orderIndex != j {
            if k < |rows| {
              assert next[k] == rows[k];
            }
          }
        }
      } else {
        assert next[|rows|].orderIndex == j;
      }
    }
    if forall j :: 0 <= j < i + 1 ==> HasTaggedPayload(items[j]) {
      assert forall j :: 0 <= j < i ==> HasTaggedPayload(items[j]);
    }
  }

  /** Skipping an item without its tagged payload keeps the invariant. */
  lemma SkipItem(items: seq<ExerciseItem>, rows: seq<Exercise>, i: nat)
    requires LoopInvariant(items, rows, i) && i < |items| && ToRow(items[i], i).None?
    ensures LoopInvariant(items, rows, i + 1)
  {
    assert !HasTaggedPayload(items[i]);
    forall j | 0 <= j < i + 1
      ensures HasTaggedPayload(items[j]) <==> exists k :: 0 <= k < |rows| && rows[k].orderIndex == j
    {
      if j == i {
        forall k | 0 <= k < |rows| ensures rows[k].orderIndex != j {
          assert rows[k].orderIndex < i;
        }
      }
    }
  }

  /** `for i, item in enumerate(content.exercises)`: one row per item that carries its tagged
      payload, with the item's position as order index; nothing else is created. */
  method ConvertItems(items: seq<ExerciseItem>) returns (rows: seq<Exercise>)
    ensures forall k :: 0 <= k < |rows| ==>
      rows[k].orderIndex < |items| && ToRow(items[rows[k].orderIndex], rows[k].orderIndex) == Some(rows[k])
    ensures forall k, l :: 0 <= k < l < |rows| ==> rows[k].orderIndex < rows[l].orderIndex
    ensures forall i :: 0 <= i < |items| ==>
      (HasTaggedPayload(items[i]) <==> exists k :: 0 <= k < |rows| && rows[k].orderIndex == i)
    ensures |rows| <= |items|
    ensures (forall i :: 0 <= i < |items| ==> HasTaggedPayload(items[i])) ==>
      |rows| == |items| && forall k :: 0 <= k < |rows| ==> rows[k].orderIndex == k
  {
    rows := [];
    var i := 0;
    while i < |items|
      invariant LoopInvariant(items, rows, i)
    {
      var row := ToRow(items[i], i);
      if row.Some? {
        AppendRow(items, rows, i);
        rows := rows + [row.value];
      } else {
        SkipItem(items, rows, i);
      }
      i := i + 1;
    }
  }
}
