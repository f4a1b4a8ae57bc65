/**
  Conversation roles, conversation status and the teacher behaviour
  profile. The standalone `Role` and `Status` enumerations are the same
  values with the same predicates as the ones defined here and are modelled
  once.
 */
module ChatOptions {

  import opened Errors

  /** Author of a message. */
  datatype Role = Student | Teacher {

    /** The enumeration's string value. */
    function Value(): string {
      match this
      case Student => "student"
      case Teacher => "teacher"
    }

    predicate IsStudent() { this == Student }

    predicate IsTeacher() { this == Teacher }
  }

  /** Lifecycle state of a conversation. */
  datatype Status = Active | Archived | Deleted {

    function Value(): string {
      match this
      case Active => "active"
      case Archived => "archived"
      case Deleted => "deleted"
    }

    predicate IsActive() { this == Active }

    predicate IsArchived() { this == Archived }

    /** Only an active conversation accepts new messages or a new title. */
    predicate IsWritable() { IsActive() }
  }

  /** Each role is exactly one of student and teacher, and the predicates
      identify the enumeration member. */
  lemma RolePredicates(r: Role)
    ensures r.IsStudent() != r.IsTeacher()
    ensures r.IsStudent() <==> r == Student
    ensures r.IsTeacher() <==> r == Teacher
  {
  }

  /** Writable means active; archived and deleted conversations are read-only,
      and a deleted one is neither active, archived nor writable. */
  lemma StatusPredicates(s: Status)
    ensures s.IsWritable() <==> s == Active
    ensures s.IsActive() <==> s == Active
    ensures s.IsArchived() <==> s == Archived
    ensures s == Deleted ==> !s.IsActive() && !s.IsArchived() && !s.IsWritable()
  {
  }

  /** How varied the teacher's answers are; an integer enumeration 0..3. */
  datatype CreativityLevel = Strict | Controlled | Moderate | Expressive {

    function Value(): (v: int)
      ensures 0 <= v <= 3
    {
      match this
      case Strict => 0
      case Controlled => 1
      case Moderate => 2
      case Expressive => 3
    }

    function Description(): string {
      match this
      case Strict => "strictly deterministic and consistent"
      case Controlled => "controlled with moderate variation"
      case Moderate => "naturally varied and expressive"
      case Expressive => "highly variable and creative"
    }
  }

  /** `CreativityLevel(n)`: the member whose value is `n`, if any. */
  function CreativityFromValue(n: int): (r: Option<CreativityLevel>)
    ensures r.Some? <==> 0 <= n <= 3
    ensures r.Some? ==> r.value.Value() == n
  {
    if n == 0 then Some(Strict)
    else if n == 1 then Some(Controlled)
    else if n == 2 then Some(Moderate)
    else if n == 3 then Some(Expressive)
    else None
  }

  /** Converting a level to its integer and back gives the level. */
  lemma CreativityRoundTrip(c: CreativityLevel)
    ensures CreativityFromValue(c.Value()) == Some(c)
  {
  }

  /** The pedagogical approach of the teacher. */
  datatype GenerationStyle = Practice | Explanatory | Corrective | Conversational {

    function Value(): string {
      match this
      case Practice => "practice"
      case Explanatory => "explanatory"
      case Corrective => "corrective"
      case Conversational => "conversational"
    }

    function Instruction(): string {
      match this
      case Practice => "focus on exercises and drills to reinforce learning"
      case Explanatory => "provide detailed explanations and deep understanding"
      case Corrective => "emphasize error correction and guidance toward correct responses"
      case Conversational => "use natural dialogue and conversational language"
    }
  }

  /** Frozen pair configuring the teacher; a datatype value cannot be mutated. */
  datatype TeacherProfile = TeacherProfile(creativity: CreativityLevel, style: GenerationStyle)

  /** `TeacherProfile()` with no arguments. */
  const DefaultProfile := TeacherProfile(Moderate, Conversational)

  /** A profile built without arguments is moderate and conversational, and
      its description uses those two entries. */
  lemma DefaultProfileChoices()
    ensures DefaultProfile.creativity == Moderate && DefaultProfile.creativity.Value() == 2
    ensures DefaultProfile.style == Conversational && DefaultProfile.style.Value() == "conversational"
    ensures Repr(DefaultProfile) == ReprHeader + "use natural dialogue and conversational language"
                                    + ReprTone + "naturally varied and expressive"
  {
  }

  const ReprHeader := "This is how you should answer:\n- Style: "
  const ReprTone := "\n- Tone: "

  /** `TeacherProfile.__repr__`: the style instruction then the tone. */
  function Repr(p: TeacherProfile): string {
    ReprHeader + p.style.Instruction() + ReprTone + p.creativity.Description()
  }

  /** The description is defined for every profile and is laid out as the
      header, the style instruction, the tone marker and the tone, in order. */
  lemma ReprLayout(p: TeacherProfile)
    ensures var r := Repr(p);
      var k := |ReprHeader| + |p.style.Instruction()|;
      && |r| == k + |ReprTone| + |p.creativity.Description()|
      && r[..|ReprHeader|] == ReprHeader
      && r[|ReprHeader|..k] == p.style.Instruction()
      && r[k..k + |ReprTone|] == ReprTone
      && r[k + |ReprTone|..] == p.creativity.Description()
  {
  }
}
