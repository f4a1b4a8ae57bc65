/**
  The `User` entity: a learner with a native language, a target language
  that must differ from it, and a CEFR level that moves one step at a time.
  Each method is proved against a function on `UserState`; the invariant
  native != target is proved for every operation.
 */
module Users {

  import opened Errors
  import opened Cefr
  import opened Languages

  datatype UserState = UserState(
    id: Uuid,
    createdAt: Timestamp,
    nativeLang: Language,
    targetLang: Language,
    level: CEFRLevel)

  /** The invariant `__post_init__` enforces. */
  predicate PairOk(s: UserState) {
    s.nativeLang != s.targetLang
  }

  /** `create_new`, which goes through `__post_init__`: the same language
      twice is refused with both codes, native first. */
  function NewUser(id: Uuid, now: Timestamp, nativeLang: Language, targetLang: Language,
                   level: CEFRLevel): (r: Result<UserState>)
    ensures r.Success? <==> nativeLang != targetLang
    ensures r.Success? ==> r.value == UserState(id, now, nativeLang, targetLang, level) && PairOk(r.value)
    ensures r.Failure? ==> r.error == InvalidLanguagePair(nativeLang.code, targetLang.code)
  {
    if nativeLang == targetLang then Failure(InvalidLanguagePair(nativeLang.code, targetLang.code))
    else Success(UserState(id, now, nativeLang, targetLang, level))
  }

  /** The state after an operation, and whether it succeeded. */
  datatype UserStep = UserStep(state: UserState, outcome: Outcome)

  function CorrectNativeLanguageStep(s: UserState, newNative: Language): UserStep {
    if s.targetLang == newNative then UserStep(s, Fail(InvalidLanguagePair(s.targetLang.code, newNative.code)))
    else UserStep(s.(nativeLang := newNative), Pass)
  }

  function SwitchLearningGoalStep(s: UserState, newTarget: Language): UserStep {
    if s.nativeLang == newTarget then UserStep(s, Fail(InvalidLanguagePair(s.nativeLang.code, newTarget.code)))
    else UserStep(s.(targetLang := newTarget), Pass)
  }

  function AssessLevelStep(s: UserState, newLevel: CEFRLevel): UserStep {
    if !IsAdjacentTo(s.level, newLevel) then UserStep(s, Fail(InvalidLevelChange(s.level, newLevel)))
    else UserStep(s.(level := newLevel), Pass)
  }

  /** Correcting the native language succeeds exactly when the new one
      differs from the target; only the native language changes; a refusal
      names the target first and changes nothing. */
  lemma CorrectNativeLanguageProperties(s: UserState, newNative: Language)
    ensures var st := CorrectNativeLanguageStep(s, newNative);
      && (st.outcome.Pass? <==> newNative != s.targetLang)
      && (st.outcome.Pass? ==> st.state.nativeLang == newNative && st.state == s.(nativeLang := newNative))
      && (st.outcome.Fail? ==> st.state == s && st.outcome.error == InvalidLanguagePair(s.targetLang.code, newNative.code))
  {
  }

  /** Switching the learning goal succeeds exactly when the new target
      differs from the native language; only the target changes; a refusal
      names the native language first and changes nothing. */
  lemma SwitchLearningGoalProperties(s: UserState, newTarget: Language)
    ensures var st := SwitchLearningGoalStep(s, newTarget);
      && (st.outcome.Pass? <==> newTarget != s.nativeLang)
      && (st.outcome.Pass? ==> st.state.targetLang == newTarget && st.state == s.(targetLang := newTarget))
      && (st.outcome.Fail? ==> st.state == s && st.outcome.error == InvalidLanguagePair(s.nativeLang.code, newTarget.code))
  {
  }

  /** A level assessment succeeds exactly when the new level is one step up
      or down; the rank then moves by exactly one. Staying put or jumping two
      or more steps is refused and leaves the level as it was. */
  lemma AssessLevelProperties(s: UserState, newLevel: CEFRLevel)
    ensures var st := AssessLevelStep(s, newLevel);
      && (st.outcome.Pass? <==> (Rank(newLevel) == Rank(s.level) + 1 || Rank(newLevel) == Rank(s.level) - 1))
      && (st.outcome.Pass? ==> st.state == s.(level := newLevel) && Abs(Rank(st.state.level) - Rank(s.level)) == 1)
      && (st.outcome.Fail? ==> st.state == s && st.outcome.error == InvalidLevelChange(s.level, newLevel))
      && (newLevel == s.level ==> st.outcome.Fail?)
  {
    AdjacencyProperties(s.level, newLevel);
  }

  /** No operation can make the two languages equal. */
  lemma OperationsKeepPairOk(s: UserState, lang: Language, newLevel: CEFRLevel)
    requires PairOk(s)
    ensures PairOk(CorrectNativeLanguageStep(s, lang).state)
    ensures PairOk(SwitchLearningGoalStep(s, lang).state)
    ensures PairOk(AssessLevelStep(s, newLevel).state)
  {
  }

  class User {
    const id: Uuid
    const createdAt: Timestamp
    var nativeLang: Language
    var targetLang: Language
    var level: CEFRLevel

    function State(): (s: UserState)
      reads this
      ensures s.nativeLang == nativeLang && s.targetLang == targetLang && s.level == level
    {
      UserState(id, createdAt, nativeLang, targetLang, level)
    }

    ghost predicate Valid()
      reads this
    {
      PairOk(State())
    }

    /** Holds exactly the given state; `CreateNew` runs the check first. */
    constructor Restore(s: UserState)
      ensures State() == s
    {
      id, createdAt := s.id, s.createdAt;
      nativeLang, targetLang, level := s.nativeLang, s.targetLang, s.level;
    }

    static method CreateNew(id: Uuid, now: Timestamp, nativeLang: Language, targetLang: Language,
                            level: CEFRLevel) returns (r: Result<User>)
      ensures var spec := NewUser(id, now, nativeLang, targetLang, level);
        && (r.Success? <==> spec.Success?)
        && (r.Failure? ==> r.error == spec.error)
        && (r.Success? ==> fresh(r.value) && r.value.State() == spec.value && r.value.Valid())
    {
      var spec := NewUser(id, now, nativeLang, targetLang, level);
      if spec.Failure? {
        r := Failure(spec.error);
      } else {
        var u := new User.Restore(spec.value);
        r := Success(u);
      }
    }

    method CorrectNativeLanguage(newNative: Language) returns (o: Outcome)
      modifies this
      ensures UserStep(State(), o) == CorrectNativeLanguageStep(old(State()), newNative)
      ensures old(Valid()) ==> Valid()
    {
      if targetLang == newNative {
        return Fail(InvalidLanguagePair(targetLang.code, newNative.code));
      }
      nativeLang := newNative;
      o := Pass;
    }

    method SwitchLearningGoal(newTarget: Language) returns (o: Outcome)
      modifies this
      ensures UserStep(State(), o) == SwitchLearningGoalStep(old(State()), newTarget)
      ensures old(Valid()) ==> Valid()
    {
      if nativeLang == newTarget {
        return Fail(InvalidLanguagePair(nativeLang.code, newTarget.code));
      }
      targetLang := newTarget;
      o := Pass;
    }

    method AssessLevel(newLevel: CEFRLevel) returns (o: Outcome)
      modifies this
      ensures UserStep(State(), o) == AssessLevelStep(old(State()), newLevel)
      ensures old(Valid()) ==> Valid()
    {
      if !IsAdjacentTo(level, newLevel) {
        return Fail(InvalidLevelChange(level, newLevel));
      }
      level := newLevel;
      o := Pass;
    }
  }
}
