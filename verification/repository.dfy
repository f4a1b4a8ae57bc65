/**
  Conversation persistence: the repository port's `get_by_id`, and the
  in-memory repository, a dictionary from conversation id to a private copy
  of the conversation, with its paginated newest-first listing of one
  student's conversations.

  The dictionary holds `ConversationState` values, so what is stored can
  never be reached through a conversation object a caller still holds, and
  `find_by_id` hands out a fresh object built from the stored value: this is
  how the deep copies on both sides are modelled.
 */
module Repository {

  import opened Errors
  import opened ChatOptions
  import opened Conversations

  /** `get_by_id` on top of whatever `find_by_id` answered: the conversation
      itself when there is one, the not-found error otherwise. There is no
      third outcome, so it never yields "nothing". */
  function RequireFound<T>(id: Uuid, found: Option<T>): (r: Result<T>)
    ensures r.Success? <==> found.Some?
    ensures r.Success? ==> r.value == found.value
    ensures r.Failure? ==> r.error == ResourceNotFound("Conversation", id)
  {
    match found
    case None => Failure(ResourceNotFound("Conversation", id))
    case Some(c) => Success(c)
  }

  /** The stored values in the dictionary's iteration order, which is the
      order in which their keys were first inserted. */
  function InOrder(storage: map<Uuid, ConversationState>, order: seq<Uuid>): (r: seq<ConversationState>)
    requires forall k :: k in order ==> k in storage
    ensures |r| == |order|
    ensures forall i :: 0 <= i < |order| ==> r[i] == storage[order[i]]
  {
    seq(|order|, i requires 0 <= i < |order| => storage[order[i]])
  }

  predicate DistinctIds(cs: seq<ConversationState>) {
    forall i, j :: 0 <= i < j < |cs| ==> cs[i].id != cs[j].id
  }

  /** The list comprehension keeping one student's conversations, in order. */
  function OwnedBy(cs: seq<ConversationState>, studentId: Uuid): (r: seq<ConversationState>)
    ensures forall c :: c in r <==> c in cs && c.studentId == studentId
    ensures |r| <= |cs|
  {
    if cs == [] then []
    else if cs[0].studentId == studentId then [cs[0]] + OwnedBy(cs[1..], studentId)
    else OwnedBy(cs[1..], studentId)
  }

  /** Filtering keeps distinct ids distinct. */
  lemma {:induction false} OwnedByKeepsDistinctIds(cs: seq<ConversationState>, studentId: Uuid)
    requires DistinctIds(cs)
    ensures DistinctIds(OwnedBy(cs, studentId))
  {
    if cs != [] {
      OwnedByKeepsDistinctIds(cs[1..], studentId);
      var rest := OwnedBy(cs[1..], studentId);
      forall x | x in rest ensures x.id != cs[0].id {
        var j :| 0 <= j < |cs[1..]| && cs[1..][j] == x;
        assert cs[1 + j] == x;
      }
    }
  }

  /** Newest first: creation times never increase along the sequence. */
  predicate NewestFirst(cs: seq<ConversationState>) {
    forall i, j :: 0 <= i < j < |cs| ==> cs[i].createdAt >= cs[j].createdAt
  }

  /** Puts `c` in front of the first conversation that is not newer than it,
      so that `c` precedes the conversations created at the same time. */
  function InsertNewest(c: ConversationState, cs: seq<ConversationState>): (r: seq<ConversationState>)
    ensures multiset(r) == multiset(cs) + multiset{c}
  {
    if cs == [] || cs[0].createdAt <= c.createdAt then [c] + cs
    else
      assert cs == [cs[0]] + cs[1..];
      [cs[0]] + InsertNewest(c, cs[1..])
  }

  /** The tail of a newest-first sequence is newest first and no newer than its head. */
  lemma NewestFirstTail(cs: seq<ConversationState>)
    requires cs != [] && NewestFirst(cs)
    ensures NewestFirst(cs[1..])
    ensures forall x :: x in cs[1..] ==> x.createdAt <= cs[0].createdAt
  {
    forall x | x in cs[1..] ensures x.createdAt <= cs[0].createdAt {
      var j :| 0 <= j < |cs[1..]| && cs[1..][j] == x;
      assert cs[1 + j] == x;
    }
  }

  /** A head no older than everything after it extends a newest-first sequence. */
  lemma NewestFirstCons(h: ConversationState, rest: seq<ConversationState>)
    requires NewestFirst(rest) && forall x :: x in rest ==> x.createdAt <= h.createdAt
    ensures NewestFirst([h] + rest)
  {
    var r := [h] + rest;
    forall i, j | 0 <= i < j < |r| ensures r[i].createdAt >= r[j].createdAt {
      assert r[j] == rest[j - 1];
      if i == 0 {
        assert rest[j - 1] in rest;
      } else {
        assert r[i] == rest[i - 1];
      }
    }
  }

  /** Insertion keeps the sequence newest first. */
  lemma {:induction false} InsertNewestSorted(c: ConversationState, cs: seq<ConversationState>)
    requires NewestFirst(cs)
    ensures NewestFirst(InsertNewest(c, cs))
  {
    if cs == [] || cs[0].createdAt <= c.createdAt {
      if cs != [] {
        NewestFirstTail(cs);
        assert cs == [cs[0]] + cs[1..];
      }
      NewestFirstCons(c, cs);
    } else {
      NewestFirstTail(cs);
      InsertNewestSorted(c, cs[1..]);
      var rest := InsertNewest(c, cs[1..]);
      SameMultisetSameMembers(rest, cs[1..] + [c]);
      NewestFirstCons(cs[0], rest);
    }
  }

  /** `list.sort(key=lambda c: c.created_at, reverse=True)`. Python's sort
      stays stable when reversed: conversations created at the same time
      keep the order they had. */
  function SortNewestFirst(cs: seq<ConversationState>): (r: seq<ConversationState>)
    ensures multiset(r) == multiset(cs)
  {
    if cs == [] then []
    else
      assert cs == [cs[0]] + cs[1..];
      InsertNewest(cs[0], SortNewestFirst(cs[1..]))
  }

  /** The sorted sequence is newest first. */
  lemma {:induction false} SortNewestFirstSorted(cs: seq<ConversationState>)
    ensures NewestFirst(SortNewestFirst(cs))
  {
    if cs != [] {
      SortNewestFirstSorted(cs[1..]);
      InsertNewestSorted(cs[0], SortNewestFirst(cs[1..]));
    }
  }

  /** Members of a permutation are the members of the original. */
  lemma SameMultisetSameMembers(r: seq<ConversationState>, cs: seq<ConversationState>)
    requires multiset(r) == multiset(cs)
    ensures forall x :: x in r <==> x in cs
  {
    forall x ensures x in r <==> x in cs {
      assert x in r <==> x in multiset(r);
      assert x in cs <==> x in multiset(cs);
    }
  }

  /** Inserting a conversation whose id is new keeps ids distinct. */
  lemma {:induction false} InsertNewestKeepsDistinctIds(c: ConversationState, cs: seq<ConversationState>)
    requires DistinctIds(cs) && forall x :: x in cs ==> x.id != c.id
    ensures DistinctIds(InsertNewest(c, cs))
  {
    if cs != [] && cs[0].createdAt > c.createdAt {
      assert cs == [cs[0]] + cs[1..];
      InsertNewestKeepsDistinctIds(c, cs[1..]);
      var rest := InsertNewest(c, cs[1..]);
      SameMultisetSameMembers(rest, cs[1..] + [c]);
      forall x | x in rest ensures x.id != cs[0].id {
        if x != c {
          var j :| 0 <= j < |cs[1..]| && cs[1..][j] == x;
          assert cs[1 + j] == x;
        }
      }
      assert InsertNewest(c, cs) == [cs[0]] + rest;
    }
  }

  /** Sorting keeps distinct ids distinct. */
  lemma {:induction false} SortKeepsDistinctIds(cs: seq<ConversationState>)
    requires DistinctIds(cs)
    ensures DistinctIds(SortNewestFirst(cs))
  {
    if cs != [] {
      var rest := SortNewestFirst(cs[1..]);
      SortKeepsDistinctIds(cs[1..]);
      SameMultisetSameMembers(rest, cs[1..]);
      forall x | x in rest ensures x.id != cs[0].id {
        var j :| 0 <= j < |cs[1..]| && cs[1..][j] == x;
        assert cs[1 + j] == x;
      }
      InsertNewestKeepsDistinctIds(cs[0], rest);
    }
  }

  /** How Python clamps a slice bound `i` against a length `n`: a negative
      bound counts from the end, and the result lies in `0..n`. */
  function SliceBound(i: int, n: nat): (b: nat)
    ensures b <= n
    ensures 0 <= i ==> b == (if i <= n then i else n)
    ensures i < 0 ==> b == (if -i <= n then n + i else 0)
  {
    if i < 0 then (if i + n < 0 then 0 else i + n)
    else if i > n then n
    else i
  }

  /** `s[start:stop]`. */
  function PySlice<T>(s: seq<T>, start: int, stop: int): (r: seq<T>)
    ensures |r| <= |s|
  {
    var lo, hi := SliceBound(start, |s|), SliceBound(stop, |s|);
    if lo < hi then s[lo..hi] else []
  }

  /** Whatever the bounds, a slice is one run of consecutive elements,
      starting where the clamped start bound points. */
  lemma SliceIsRun<T>(s: seq<T>, start: int, stop: int) returns (lo: nat)
    ensures lo == SliceBound(start, |s|)
    ensures lo + |PySlice(s, start, stop)| <= |s|
    ensures forall k :: 0 <= k < |PySlice(s, start, stop)| ==> PySlice(s, start, stop)[k] == s[lo + k]
  {
    lo := SliceBound(start, |s|);
  }

  function Max(a: int, b: int): int { if a < b then b else a }

  function Min(a: int, b: int): int { if a < b then a else b }

  /** A page `[offset:offset + limit]` with non-negative offset and limit is
      the run of the input starting at `offset`, cut at the end of the input;
      so it has `max(0, min(limit, n - offset))` elements. */
  lemma PageShape<T>(s: seq<T>, offset: int, limit: int)
    requires 0 <= offset && 0 <= limit
    ensures offset <= |s| ==> PySlice(s, offset, offset + limit) == s[offset..Min(offset + limit, |s|)]
    ensures |s| <= offset ==> PySlice(s, offset, offset + limit) == []
    ensures |PySlice(s, offset, offset + limit)| == Max(0, Min(limit, |s| - offset))
  {
  }

  /** A negative limit is a slice bound counted from the end: offset 0 and
      limit -1 give everything but the last element, not an empty page. */
  lemma NegativeLimitCountsFromEnd<T>(s: seq<T>)
    requires |s| > 0
    ensures PySlice(s, 0, 0 + -1) == s[..|s| - 1]
  {
  }

  /** The read model of one conversation in a listing. */
  datatype ConversationSummary = ConversationSummary(
    conversationId: Uuid,
    title: string,
    createdAt: Timestamp,
    lastActivityAt: Timestamp,
    status: Status)

  /** `_to_summary`: copies id, times and status; an empty title shows as
      the default title. */
  function ToSummary(c: ConversationState): (r: ConversationSummary)
    ensures r.conversationId == c.id && r.createdAt == c.createdAt
    ensures r.lastActivityAt == c.lastActivityAt && r.status == c.status
    ensures r.title == (if c.title == [] then DefaultTitle else c.title)
  {
    ConversationSummary(c.id, if c.title == [] then DefaultTitle else c.title,
                        c.createdAt, c.lastActivityAt, c.status)
  }

  /** A well-formed conversation never has an empty title, so its summary
      shows its own title and the default never applies. */
  lemma SummaryOfWellFormedKeepsTitle(c: ConversationState)
    requires WellFormed(c)
    ensures ToSummary(c).title == c.title
    ensures ToSummary(c).title != DefaultTitle || c.title == DefaultTitle
  {
  }

  /** The student's conversations, newest first, before paging. */
  function StudentListing(cs: seq<ConversationState>, studentId: Uuid): (r: seq<ConversationState>)
    ensures multiset(r) == multiset(OwnedBy(cs, studentId))
  {
    SortNewestFirst(OwnedBy(cs, studentId))
  }

  /** The listing before paging is newest first. */
  lemma StudentListingNewestFirst(cs: seq<ConversationState>, studentId: Uuid)
    ensures NewestFirst(StudentListing(cs, studentId))
  {
    SortNewestFirstSorted(OwnedBy(cs, studentId));
  }

  /** The listing before paging holds exactly the student's conversations. */
  lemma StudentListingMembers(cs: seq<ConversationState>, studentId: Uuid)
    ensures forall c :: c in StudentListing(cs, studentId) <==> c in cs && c.studentId == studentId
  {
    SameMultisetSameMembers(StudentListing(cs, studentId), OwnedBy(cs, studentId));
  }

  /** The listing before paging has one entry per stored conversation of the student. */
  lemma StudentListingLength(cs: seq<ConversationState>, studentId: Uuid)
    ensures |StudentListing(cs, studentId)| == |OwnedBy(cs, studentId)|
  {
    var owned := OwnedBy(cs, studentId);
    var r := StudentListing(cs, studentId);
    assert |r| == |multiset(r)| == |multiset(owned)| == |owned|;
  }

  /** Distinct stored ids stay distinct in the listing. */
  lemma StudentListingDistinctIds(cs: seq<ConversationState>, studentId: Uuid)
    requires DistinctIds(cs)
    ensures DistinctIds(StudentListing(cs, studentId))
  {
    OwnedByKeepsDistinctIds(cs, studentId);
    SortKeepsDistinctIds(OwnedBy(cs, studentId));
  }

  /** The default page size of `get_student_conversations`. */
  const DefaultLimit: int := 20

  /** `get_student_conversations` over the stored values in dictionary order:
      filter by owner, sort newest first, slice `[offset:offset + limit]`,
      summarise each. */
  function StudentConversations(cs: seq<ConversationState>, studentId: Uuid,
                                limit: int := DefaultLimit, offset: int := 0)
    : (r: seq<ConversationSummary>)
    ensures |r| == |PySlice(StudentListing(cs, studentId), offset, offset + limit)|
    ensures forall k :: 0 <= k < |r| ==>
              r[k] == ToSummary(PySlice(StudentListing(cs, studentId), offset, offset + limit)[k])
  {
    var page := PySlice(StudentListing(cs, studentId), offset, offset + limit);
    seq(|page|, k requires 0 <= k < |page| => ToSummary(page[k]))
  }

  /** For a non-negative offset and limit, a page has
      `max(0, min(limit, n - offset))` summaries, `n` being the number of the
      student's conversations. */
  lemma PageLength(cs: seq<ConversationState>, studentId: Uuid, limit: int, offset: int)
    requires 0 <= offset && 0 <= limit
    ensures |StudentConversations(cs, studentId, limit, offset)| == Max(0, Min(limit, |OwnedBy(cs, studentId)| - offset))
  {
    StudentListingLength(cs, studentId);
    PageShape(StudentListing(cs, studentId), offset, limit);
  }

  /** For a non-negative offset and limit, summary `k` of a page is the
      summary of conversation `offset + k` of the listing. */
  lemma PageElements(cs: seq<ConversationState>, studentId: Uuid, limit: int, offset: int)
    requires 0 <= offset && 0 <= limit
    ensures var r := StudentConversations(cs, studentId, limit, offset);
      forall k :: 0 <= k < |r| ==>
        offset + k < |StudentListing(cs, studentId)| && r[k] == ToSummary(StudentListing(cs, studentId)[offset + k])
  {
    var listing := StudentListing(cs, studentId);
    PageShape(listing, offset, limit);
  }

  /** Without a limit and an offset, the page is the student's 20 newest
      conversations, or all of them when there are fewer. */
  lemma DefaultPageIsNewestTwenty(cs: seq<ConversationState>, studentId: Uuid)
    ensures var r := StudentConversations(cs, studentId);
      && |r| == Min(20, |OwnedBy(cs, studentId)|)
      && forall k :: 0 <= k < |r| ==>
           k < |StudentListing(cs, studentId)| && r[k] == ToSummary(StudentListing(cs, studentId)[k])
  {
    var n := |OwnedBy(cs, studentId)|;
    PageLength(cs, studentId, 20, 0);
    PageElements(cs, studentId, 20, 0);
    assert Max(0, Min(20, n - 0)) == Min(20, n);
  }

  /** Every listing, whatever the offset and limit (negative ones
      included), holds only summaries of the student's own conversations. */
  lemma StudentConversationsOwned(cs: seq<ConversationState>, studentId: Uuid, limit: int, offset: int)
    ensures var r := StudentConversations(cs, studentId, limit, offset);
      forall k :: 0 <= k < |r| ==> exists c :: c in cs && c.studentId == studentId && r[k] == ToSummary(c)
  {
    var listing := StudentListing(cs, studentId);
    StudentListingMembers(cs, studentId);
    var page := PySlice(listing, offset, offset + limit);
    var lo := SliceIsRun(listing, offset, offset + limit);
    var r := StudentConversations(cs, studentId, limit, offset);
    forall k | 0 <= k < |r|
      ensures exists c :: c in cs && c.studentId == studentId && r[k] == ToSummary(c)
    {
      assert page[k] == listing[lo + k];
      assert listing[lo + k] in listing;
    }
  }

  /** Every listing, whatever the offset and limit, is newest first. */
  lemma StudentConversationsNewestFirst(cs: seq<ConversationState>, studentId: Uuid, limit: int, offset: int)
    ensures var r := StudentConversations(cs, studentId, limit, offset);
      forall i, j :: 0 <= i < j < |r| ==> r[i].createdAt >= r[j].createdAt
  {
    var listing := StudentListing(cs, studentId);
    StudentListingNewestFirst(cs, studentId);
    var page := PySlice(listing, offset, offset + limit);
    var lo := SliceIsRun(listing, offset, offset + limit);
    var r := StudentConversations(cs, studentId, limit, offset);
    forall i, j | 0 <= i < j < |r| ensures r[i].createdAt >= r[j].createdAt {
      assert r[i].createdAt == listing[lo + i].createdAt;
      assert r[j].createdAt == listing[lo + j].createdAt;
    }
  }

  /** Two pages whose windows do not overlap share no conversation id, as
      long as the stored ids are distinct. */
  lemma DisjointPagesShareNoId(cs: seq<ConversationState>, studentId: Uuid,
                               offset1: int, limit1: int, offset2: int, limit2: int)
    requires DistinctIds(cs)
    requires 0 <= offset1 && 0 <= limit1 && offset1 + limit1 <= offset2 && 0 <= limit2
    ensures var p1, p2 := StudentConversations(cs, studentId, limit1, offset1),
                          StudentConversations(cs, studentId, limit2, offset2);
      forall i, j :: 0 <= i < |p1| && 0 <= j < |p2| ==> p1[i].conversationId != p2[j].conversationId
  {
    var listing := StudentListing(cs, studentId);
    StudentListingDistinctIds(cs, studentId);
    PageElements(cs, studentId, limit1, offset1);
    PageElements(cs, studentId, limit2, offset2);
    PageLength(cs, studentId, limit1, offset1);
  }

  class InMemoryConversationRepository {
    /** The dictionary: id to the stored copy. */
    var storage: map<Uuid, ConversationState>
    /** The dictionary's key order: each key once, oldest insertion first. */
    var order: seq<Uuid>

    ghost predicate Valid()
      reads this
    {
      && (forall i, j :: 0 <= i < j < |order| ==> order[i] != order[j])
      && (forall k :: k in order <==> k in storage)
      && (forall k :: k in storage ==> storage[k].id == k)
    }

    constructor ()
      ensures Valid() && storage == map[] && order == []
    {
      storage := map[];
      order := [];
    }

    /** The stored values in dictionary order. */
    function Values(): (r: seq<ConversationState>)
      requires Valid()
      reads this
      ensures DistinctIds(r)
      ensures forall c :: c in r <==> c in storage.Values
    {
      var r := InOrder(storage, order);
      assert forall c :: c in storage.Values ==> c in r by {
        forall c | c in storage.Values ensures c in r {
          var k :| k in storage && storage[k] == c;
          var i :| 0 <= i < |order| && order[i] == k;
        }
      }
      r
    }

    /** `save`: stores a copy of the conversation's current state under its
        id, replacing any earlier copy; a new key goes to the end of the
        dictionary order, a known key keeps its place. */
    method Save(c: Conversation)
      modifies this
      ensures storage == old(storage)[c.id := c.State()]
      ensures order == if c.id in old(storage) then old(order) else old(order) + [c.id]
      ensures old(Valid()) ==> Valid()
    {
      if c.id !in storage {
        order := order + [c.id];
      }
      storage := storage[c.id := c.State()];
    }

    /** `find_by_id`: nothing for an unknown id, otherwise a new object
        holding the stored state. */
    method FindById(id: Uuid) returns (r: Option<Conversation>)
      ensures r.None? <==> id !in storage
      ensures r.Some? ==> fresh(r.value) && r.value.State() == storage[id]
    {
      if id !in storage {
        return None;
      }
      var c := new Conversation.Restore(storage[id]);
      r := Some(c);
    }

    /** `get_by_id`: `find_by_id`, with absence turned into the not-found
        error; it only reads the store. */
    method GetById(id: Uuid) returns (r: Result<Conversation>)
      ensures r.Failure? <==> id !in storage
      ensures r.Failure? ==> r.error == ResourceNotFound("Conversation", id)
      ensures r.Success? ==> fresh(r.value) && r.value.State() == storage[id]
    {
      var found := FindById(id);
      r := RequireFound(id, found);
    }

    /** `remove`: the not-found error and no change for an unknown id;
        otherwise exactly that key disappears. */
    method Remove(id: Uuid) returns (o: Outcome)
      modifies this
      ensures id !in old(storage) ==> o == Fail(ResourceNotFound("Conversation", id)) && unchanged(this)
      ensures id in old(storage) ==> o == Pass && storage == old(storage) - {id}
                                     && order == Without(old(order), id)
      ensures old(Valid()) ==> Valid()
    {
      if id !in storage {
        return Fail(ResourceNotFound("Conversation", id));
      }
      storage := storage - {id};
      order := Without(order, id);
      o := Pass;
    }

    /** `get_student_conversations` on the current contents. */
    function GetStudentConversations(studentId: Uuid, limit: int := DefaultLimit, offset: int := 0)
      : (r: seq<ConversationSummary>)
      requires Valid()
      reads this
      ensures r == StudentConversations(Values(), studentId, limit, offset)
    {
      StudentConversations(Values(), studentId, limit, offset)
    }
  }

  /** The key order after `del d[id]`: the others keep their relative order
      (see `WithoutKeepsOrder`). */
  function Without(order: seq<Uuid>, id: Uuid): (r: seq<Uuid>)
    ensures forall k :: k in r <==> k in order && k != id
    ensures (forall i, j :: 0 <= i < j < |order| ==> order[i] != order[j]) ==>
              (forall i, j :: 0 <= i < j < |r| ==> r[i] != r[j])
  {
    if order == [] then []
    else
      var rest := Without(order[1..], id);
      assert forall k :: k in rest ==> k in order[1..];
      assert (forall i, j :: 0 <= i < j < |order| ==> order[i] != order[j]) ==> order[0] !in order[1..];
      if order[0] == id then rest else [order[0]] + rest
  }

  /** Deleting a key is an order-keeping filter: it works piece by piece on
      any split of the key order, and a single key stays exactly when it is
      not the deleted one. */
  lemma {:induction false} WithoutKeepsOrder(a: seq<Uuid>, b: seq<Uuid>, id: Uuid)
    ensures Without(a + b, id) == Without(a, id) + Without(b, id)
    ensures forall x :: Without([x], id) == (if x == id then [] else [x])
    decreases |a|
  {
    if a == [] {
      assert a + b == b;
    } else {
      assert (a + b)[1..] == a[1..] + b;
      WithoutKeepsOrder(a[1..], b, id);
    }
  }
}
