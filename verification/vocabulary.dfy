/**
  The vocabulary item entity: which student met which word, how many times
  it has been reviewed and when last. The count starts at one and every
  review adds one; the identity of the item never changes.
 */
module Vocabulary {

  import opened Errors

  /** A word concept: its lemma (the dictionary form, here `headword`) and its definition. */
  datatype Lexeme = Lexeme(headword: string, definition: string)

  datatype VocabularyItemState = VocabularyItemState(
    id: Uuid,
    createdAt: Timestamp,
    studentId: Uuid,
    lexeme: Lexeme,
    lastReviewedAt: Timestamp,
    reviewCount: int)

  /** `create_new`: counted once, last reviewed when created. */
  function NewItemState(id: Uuid, now: Timestamp, studentId: Uuid, lexeme: Lexeme): VocabularyItemState {
    VocabularyItemState(id, now, studentId, lexeme, now, 1)
  }

  /** `mark_as_reviewed`. */
  function ReviewStep(s: VocabularyItemState, now: Timestamp): VocabularyItemState {
    s.(reviewCount := s.reviewCount + 1, lastReviewedAt := now)
  }

  /** The item after a review at each of `times`, in order. */
  function ReviewAll(s: VocabularyItemState, times: seq<Timestamp>): VocabularyItemState
    decreases |times|
  {
    if times == [] then s else ReviewAll(ReviewStep(s, times[0]), times[1..])
  }

  /** n reviews add n to the count and leave the time of the last one; the
      id, the creation time, the student and the lexeme stay as they were. */
  lemma {:induction false} ReviewAllCounts(s: VocabularyItemState, times: seq<Timestamp>)
    ensures ReviewAll(s, times).reviewCount == s.reviewCount + |times|
    ensures ReviewAll(s, times).lastReviewedAt == if times == [] then s.lastReviewedAt else times[|times| - 1]
    ensures ReviewAll(s, times)
         == s.(reviewCount := ReviewAll(s, times).reviewCount, lastReviewedAt := ReviewAll(s, times).lastReviewedAt)
    decreases |times|
  {
    if times != [] {
      ReviewAllCounts(ReviewStep(s, times[0]), times[1..]);
    }
  }

  /** One more review after a series is the series extended by it. */
  lemma {:induction false} ReviewAllSnoc(s: VocabularyItemState, times: seq<Timestamp>, now: Timestamp)
    ensures ReviewAll(s, times + [now]) == ReviewStep(ReviewAll(s, times), now)
    decreases |times|
  {
    if times == [] {
      assert [now][1..] == [];
    } else {
      assert (times + [now])[1..] == times[1..] + [now];
      ReviewAllSnoc(ReviewStep(s, times[0]), times[1..], now);
    }
  }

  /** An item made by `create_new` and reviewed n times has been counted
      1 + n times, so never less than once, and it still belongs to the
      same student and word. */
  lemma NewItemAfterReviews(id: Uuid, now: Timestamp, studentId: Uuid, lexeme: Lexeme, times: seq<Timestamp>)
    ensures var s := ReviewAll(NewItemState(id, now, studentId, lexeme), times);
      && s.reviewCount == 1 + |times| && s.reviewCount >= 1
      && s.id == id && s.createdAt == now && s.studentId == studentId && s.lexeme == lexeme
      && s.lastReviewedAt == if times == [] then now else times[|times| - 1]
  {
    ReviewAllCounts(NewItemState(id, now, studentId, lexeme), times);
  }

  class VocabularyItem {
    const id: Uuid
    const createdAt: Timestamp
    const studentId: Uuid
    const lexeme: Lexeme
    var lastReviewedAt: Timestamp
    var reviewCount: int
    /** The times of the reviews since creation. */
    ghost var reviews: seq<Timestamp>

    function State(): (s: VocabularyItemState)
      reads this
      ensures s.reviewCount == reviewCount && s.lastReviewedAt == lastReviewedAt
    {
      VocabularyItemState(id, createdAt, studentId, lexeme, lastReviewedAt, reviewCount)
    }

    /** The item is what `create_new` made, reviewed at `reviews`. */
    ghost predicate Valid()
      reads this
    {
      State() == ReviewAll(NewItemState(id, createdAt, studentId, lexeme), reviews)
    }

    constructor CreateNew(id: Uuid, now: Timestamp, studentId: Uuid, lexeme: Lexeme)
      ensures State() == NewItemState(id, now, studentId, lexeme)
      ensures reviews == [] && Valid()
    {
      this.id, createdAt, this.studentId, this.lexeme := id, now, studentId, lexeme;
      lastReviewedAt, reviewCount := now, 1;
      reviews := [];
    }

    method MarkAsReviewed(now: Timestamp)
      modifies this
      ensures State() == ReviewStep(old(State()), now)
      ensures reviews == old(reviews) + [now]
      ensures old(Valid()) ==> Valid() && reviewCount == 1 + |reviews|
    {
      reviewCount := reviewCount + 1;
      lastReviewedAt := now;
      reviews := reviews + [now];
      ReviewAllSnoc(NewItemState(id, createdAt, studentId, lexeme), old(reviews), now);
      ReviewAllCounts(NewItemState(id, createdAt, studentId, lexeme), reviews);
    }
  }
}
