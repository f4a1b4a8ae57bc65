/**
  Identity of domain entities. An entity is compared by class and id, never
  by its other attributes, and hashes by id alone. Python's class hierarchy
  of the entities is modelled explicitly so that `isinstance` can be stated.
 */
module Entities {

  import opened Errors

  /** The entity classes of the core and their single-inheritance tree. */
  datatype EntityClass =
    | EntityBase
    | AggregateRootClass
    | ChatMessageClass
    | ConversationClass
    | UserClass
    | VocabularyItemClass
    | LearningVocabularyItemClass

  function Depth(c: EntityClass): nat {
    match c
    case EntityBase => 0
    case ConversationClass => 2
    case LearningVocabularyItemClass => 2
    case _ => 1
  }

  /** The direct superclass: Conversation and the learning vocabulary item
      are aggregate roots, every other class derives from Entity. */
  function Parent(c: EntityClass): (p: EntityClass)
    requires c != EntityBase
    ensures Depth(p) + 1 == Depth(c)
  {
    match c
    case ConversationClass => AggregateRootClass
    case LearningVocabularyItemClass => AggregateRootClass
    case _ => EntityBase
  }

  /** `issubclass(c, d)`. */
  predicate IsSubclassOf(c: EntityClass, d: EntityClass)
    decreases Depth(c)
  {
    c == d || (c != EntityBase && IsSubclassOf(Parent(c), d))
  }

  /** An entity instance as far as identity is concerned. */
  datatype EntityRef = EntityRef(cls: EntityClass, id: Uuid, createdAt: Timestamp)

  /** `self.__eq__(other)`: `isinstance(other, self.__class__)` and equal ids.
      It returns `False`, never `NotImplemented`, on a foreign class. */
  predicate Eq(self: EntityRef, other: EntityRef) {
    IsSubclassOf(other.cls, self.cls) && self.id == other.id
  }

  /** The operator `a == b`. When the right operand's class is a proper
      subclass of the left operand's, Python calls the right operand's
      `__eq__` first, and its answer (never `NotImplemented`) is final. */
  predicate PyEq(a: EntityRef, b: EntityRef) {
    if a.cls != b.cls && IsSubclassOf(b.cls, a.cls) then Eq(b, a) else Eq(a, b)
  }

  /** `hash(self)`: the hash of the id (its integer value). */
  function Hash(e: EntityRef): int {
    e.id
  }

  /** A proper superclass sits strictly higher in the tree, so a class is
      a subclass of another and the other way round only when the two are
      the same class. */
  lemma {:induction false} SubclassDepth(c: EntityClass, d: EntityClass)
    requires IsSubclassOf(c, d)
    ensures Depth(d) <= Depth(c)
    ensures Depth(d) == Depth(c) ==> c == d
    decreases Depth(c)
  {
    if c != d {
      SubclassDepth(Parent(c), d);
    }
  }

  /** `==` between entities holds exactly for the same class and the same id,
      so it is symmetric, although `__eq__` alone is not. */
  lemma PyEqIsSameClassAndId(a: EntityRef, b: EntityRef)
    ensures PyEq(a, b) <==> a.cls == b.cls && a.id == b.id
    ensures PyEq(a, b) <==> PyEq(b, a)
  {
    if IsSubclassOf(a.cls, b.cls) && IsSubclassOf(b.cls, a.cls) {
      SubclassDepth(a.cls, b.cls);
      SubclassDepth(b.cls, a.cls);
    }
  }

  /** Within one class, `==` is decided by the ids; the creation time never
      matters. */
  lemma EqSameClass(a: EntityRef, b: EntityRef)
    requires a.cls == b.cls
    ensures Eq(a, b) <==> a.id == b.id
    ensures PyEq(a, b) <==> a.id == b.id
  {
  }

  /** Different ids are never equal, whatever the classes and timestamps. */
  lemma DifferentIdsNeverEqual(a: EntityRef, b: EntityRef)
    requires a.id != b.id
    ensures !Eq(a, b) && !Eq(b, a)
    ensures !PyEq(a, b) && !PyEq(b, a)
  {
  }

  /** Instances of two unrelated classes (neither derives from the other)
      are unequal in both directions, even with the same id. */
  lemma UnrelatedClassesNeverEqual(a: EntityRef, b: EntityRef)
    requires !IsSubclassOf(a.cls, b.cls) && !IsSubclassOf(b.cls, a.cls)
    ensures !Eq(a, b) && !Eq(b, a)
    ensures !PyEq(a, b) && !PyEq(b, a)
  {
  }

  /** Equal entities hash equally, so they can serve as set members and keys. */
  lemma EqualEntitiesHashEqually(a: EntityRef, b: EntityRef)
    requires PyEq(a, b)
    ensures Hash(a) == Hash(b)
  {
  }

  /** `__eq__` itself is asymmetric between a class and its subclass: an
      aggregate root's `__eq__` accepts a conversation with its id, the
      conversation's refuses the aggregate root. The operator `==` consults
      the conversation's in both orders, so it says no both ways. */
  lemma SubclassEqualityGoesThroughSubclass(id: Uuid, t: Timestamp)
    ensures var root, conv := EntityRef(AggregateRootClass, id, t), EntityRef(ConversationClass, id, t);
      && Eq(root, conv) && !Eq(conv, root)
      && !PyEq(root, conv) && !PyEq(conv, root)
  {
    assert IsSubclassOf(ConversationClass, AggregateRootClass);
  }

  /** Whether some member of a Python set already matches `e`: same hash and
      `member == e`. */
  predicate SetHas(members: seq<EntityRef>, e: EntityRef) {
    exists k :: k in members && Hash(k) == Hash(e) && PyEq(k, e)
  }

  /** `{e1, e2, ...}`: insert in order, keeping the first of equal members. */
  function SetOf(es: seq<EntityRef>): (r: seq<EntityRef>)
    ensures forall k :: k in r ==> k in es
  {
    if es == [] then []
    else
      var prior := SetOf(es[..|es| - 1]);
      var e := es[|es| - 1];
      if SetHas(prior, e) then prior else prior + [e]
  }

  /** What makes `SetOf` a set: every input is matched by a member under
      `==`, and no two members are equal under `==`. */
  lemma {:induction false} SetOfIsPythonSet(es: seq<EntityRef>)
    ensures forall e :: e in es ==> SetHas(SetOf(es), e)
    ensures forall i, j :: 0 <= i < j < |SetOf(es)| ==> !PyEq(SetOf(es)[i], SetOf(es)[j])
  {
    if es != [] {
      var init, e := es[..|es| - 1], es[|es| - 1];
      SetOfIsPythonSet(init);
      var prior := SetOf(init);
      assert forall x :: x in es ==> x in init || x == e by {
        assert es == init + [e];
      }
      if !SetHas(prior, e) {
        SetOfAppend(prior, e, init);
      }
    }
  }

  lemma SetOfAppend(prior: seq<EntityRef>, e: EntityRef, init: seq<EntityRef>)
    requires forall x :: x in init ==> SetHas(prior, x)
    requires forall i, j :: 0 <= i < j < |prior| ==> !PyEq(prior[i], prior[j])
    requires !SetHas(prior, e)
    ensures forall x :: x in init || x == e ==> SetHas(prior + [e], x)
    ensures forall i, j :: 0 <= i < j < |prior + [e]| ==> !PyEq((prior + [e])[i], (prior + [e])[j])
  {
    var r := prior + [e];
    forall x | x in init || x == e ensures SetHas(r, x) {
      if x == e {
        PyEqIsSameClassAndId(e, e);
        assert e in r;
      } else {
        assert SetHas(prior, x);
        var k :| k in prior && Hash(k) == Hash(x) && PyEq(k, x);
        assert k in r;
      }
    }
    forall i, j | 0 <= i < j < |r| ensures !PyEq(r[i], r[j]) {
      if j == |prior| {
        assert r[i] in prior && r[j] == e;
        PyEqIsSameClassAndId(r[i], e);
      } else {
        assert r[i] == prior[i] && r[j] == prior[j];
      }
    }
  }

  /** An aggregate root and a conversation with the same id are two members
      of a set, because `==` refuses them in both orders. */
  lemma SubclassInstancesStayApartInSet(id: Uuid, t: Timestamp)
    ensures |SetOf([EntityRef(AggregateRootClass, id, t), EntityRef(ConversationClass, id, t)])| == 2
  {
    var root, conv := EntityRef(AggregateRootClass, id, t), EntityRef(ConversationClass, id, t);
    assert [root, conv][..1] == [root];
    assert [root][..0] == [];
    assert SetOf([root]) == [root];
    SubclassEqualityGoesThroughSubclass(id, t);
    assert !SetHas([root], conv);
  }

  function Ids(es: seq<EntityRef>): set<Uuid> {
    set e | e in es :: e.id
  }

  predicate DistinctIds(es: seq<EntityRef>) {
    forall i, j :: 0 <= i < j < |es| ==> es[i].id != es[j].id
  }

  predicate AllOfClass(es: seq<EntityRef>, c: EntityClass) {
    forall e :: e in es ==> e.cls == c
  }

  /** A set of entities of one class keeps one member per id. */
  lemma {:induction false} SetOfDeduplicatesById(es: seq<EntityRef>, c: EntityClass)
    requires AllOfClass(es, c)
    ensures Ids(SetOf(es)) == Ids(es)
    ensures DistinctIds(SetOf(es))
  {
    if es != [] {
      var init, e := es[..|es| - 1], es[|es| - 1];
      assert es == init + [e];
      SetOfDeduplicatesById(init, c);
      var prior := SetOf(init);
      assert Ids(es) == Ids(init) + {e.id};
      if SetHas(prior, e) {
        var k :| k in prior && Hash(k) == Hash(e) && PyEq(k, e);
        PyEqIsSameClassAndId(k, e);
        assert e.id in Ids(prior);
      } else {
        assert e.id !in Ids(prior) by {
          if e.id in Ids(prior) {
            var k :| k in prior && k.id == e.id;
            assert k in init;
            assert PyEq(k, e);
          }
        }
        assert Ids(prior + [e]) == Ids(prior) + {e.id};
        forall i | 0 <= i < |prior| ensures prior[i].id != e.id {
          assert prior[i] in prior;
        }
      }
    }
  }

  /** A sequence with distinct ids has as many members as ids. */
  lemma {:induction false} DistinctIdsCount(es: seq<EntityRef>)
    requires DistinctIds(es)
    ensures |Ids(es)| == |es|
  {
    if es != [] {
      var init, e := es[..|es| - 1], es[|es| - 1];
      assert es == init + [e];
      DistinctIdsCount(init);
      assert e.id !in Ids(init);
      assert Ids(es) == Ids(init) + {e.id};
    }
  }

  /** The number of members of a set of same-class entities is the number of
      distinct ids among them. */
  lemma SetSizeIsIdCount(es: seq<EntityRef>, c: EntityClass)
    requires AllOfClass(es, c)
    ensures |SetOf(es)| == |Ids(es)|
  {
    SetOfDeduplicatesById(es, c);
    DistinctIdsCount(SetOf(es));
  }

  /** Three entities of one class, two of them sharing an id, make a set of two. */
  lemma ThreeEntitiesTwoIds(c: EntityClass, shared: Uuid, other: Uuid, t: Timestamp)
    requires shared != other
    ensures |SetOf([EntityRef(c, shared, t), EntityRef(c, shared, t), EntityRef(c, other, t)])| == 2
  {
    var es := [EntityRef(c, shared, t), EntityRef(c, shared, t), EntityRef(c, other, t)];
    SetSizeIsIdCount(es, c);
    assert Ids(es) == {shared, other} by {
      assert es[0] in es && es[2] in es;
    }
  }
}
