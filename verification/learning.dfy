/**
  The aggregate-root variant of the vocabulary item, which also records
  where the word was first met. Apart from that source, which no operation
  changes, its fields and operations are those of the plain vocabulary item,
  so its state is that record plus the source.
 */
module Learning {

  import opened Errors
  import Vocabulary

  /** Who brought the word into the conversation. */
  datatype VocabularySource = Student | Teacher {
    function Value(): string {
      match this
      case Student => "student"
      case Teacher => "teacher"
    }
  }

  datatype LearningItemState = LearningItemState(record: Vocabulary.VocabularyItemState, source: VocabularySource)

  /** `create_new`: the given source, counted once, last reviewed when created. */
  function NewLearningItem(id: Uuid, now: Timestamp, studentId: Uuid, lexeme: Vocabulary.Lexeme,
                           source: VocabularySource): LearningItemState
  {
    LearningItemState(Vocabulary.NewItemState(id, now, studentId, lexeme), source)
  }

  /** `mark_as_reviewed`. */
  function LearningReviewStep(s: LearningItemState, now: Timestamp): LearningItemState {
    s.(record := Vocabulary.ReviewStep(s.record, now))
  }

  /** A review adds exactly one to the count and records `now`; the source,
      the student and the lexeme are never touched. */
  lemma ReviewKeepsSource(s: LearningItemState, now: Timestamp)
    ensures var t := LearningReviewStep(s, now);
      && t.record.reviewCount == s.record.reviewCount + 1
      && t.record.lastReviewedAt == now
      && t.source == s.source && t.record.studentId == s.record.studentId && t.record.lexeme == s.record.lexeme
      && t.record.id == s.record.id && t.record.createdAt == s.record.createdAt
  {
  }

  class VocabularyItem {
    const id: Uuid
    const createdAt: Timestamp
    const studentId: Uuid
    const lexeme: Vocabulary.Lexeme
    const source: VocabularySource
    var lastReviewedAt: Timestamp
    var reviewCount: int
    /** The times of the reviews since creation. */
    ghost var reviews: seq<Timestamp>

    function State(): (s: LearningItemState)
      reads this
      ensures s.source == source && s.record.reviewCount == reviewCount
    {
      LearningItemState(
        Vocabulary.VocabularyItemState(id, createdAt, studentId, lexeme, lastReviewedAt, reviewCount),
        source)
    }

    /** The item is what `create_new` made, reviewed at `reviews`; hence its
        count is 1 + |reviews| >= 1. */
    ghost predicate Valid()
      reads this
    {
      State().record == Vocabulary.ReviewAll(Vocabulary.NewItemState(id, createdAt, studentId, lexeme), reviews)
    }

    constructor CreateNew(id: Uuid, now: Timestamp, studentId: Uuid, lexeme: Vocabulary.Lexeme,
                          source: VocabularySource)
      ensures State() == NewLearningItem(id, now, studentId, lexeme, source)
      ensures reviews == [] && Valid()
    {
      this.id, createdAt, this.studentId, this.lexeme, this.source := id, now, studentId, lexeme, source;
      lastReviewedAt, reviewCount := now, 1;
      reviews := [];
    }

    method MarkAsReviewed(now: Timestamp)
      modifies this
      ensures State() == LearningReviewStep(old(State()), now)
      ensures reviews == old(reviews) + [now]
      ensures old(Valid()) ==> Valid() && reviewCount == 1 + |reviews| && reviewCount >= 1
    {
      reviewCount := reviewCount + 1;
      lastReviewedAt := now;
      reviews := reviews + [now];
      Vocabulary.ReviewAllSnoc(Vocabulary.NewItemState(id, createdAt, studentId, lexeme), old(reviews), now);
      Vocabulary.ReviewAllCounts(Vocabulary.NewItemState(id, createdAt, studentId, lexeme), reviews);
    }
  }
}
