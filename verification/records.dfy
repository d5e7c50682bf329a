/** The records of src/applications.ts: round references, rounds, features,
    applications and the values the key-value cache holds. */
module Records {
  import opened Wrappers

  /** One funding round on one chain (`RoundRef`). Chain and round ids are
      non-negative integers. */
  datatype RoundRef = RoundRef(chainId: nat, roundId: nat)

  /** `Round` as embedded in an application; `applicationMetadata` is opaque
      and left out. */
  datatype Round = Round(
    id: string,
    chainId: nat,
    matchAmountInUsd: string,
    name: string,
    eligibilityDescription: string,
    requirements: seq<string>)

  /** AI-derived features of one application (`Features`). */
  datatype Features = Features(
    shortDescription: string,
    enhancedProjectDescription: string,
    tags: seq<string>,
    technologyStack: seq<string>,
    projectAge: string,
    usersCount: string,
    teamSize: string,
    regions: seq<string>,
    isDao: bool)

  /** An answer of the application form: either plain or encrypted. */
  datatype Answer =
    | PlainAnswer(question: string, answer: string)
    | EncryptedAnswer(question: string, encryptedAnswer: string)

  datatype Project = Project(
    logoImg: string,
    title: string,
    bannerImg: string,
    userGithub: string,
    projectGithub: string,
    projectTwitter: string,
    description: string)

  /** `Application`. The indexer delivers it without `refId`, `features` and
      `tags` (None); the assembler stamps all three. */
  datatype Application = Application(
    id: string,
    refId: Option<string>,
    roundId: string,
    chainId: nat,
    projectId: string,
    round: Round,
    answers: seq<Answer>,
    project: Project,
    totalAmountDonatedInUsd: real,
    totalDonationsCount: nat,
    features: Option<Features>,
    tags: Option<seq<string>>)

  /** What the cache stores under a key: the list of a round's raw
      applications, a features record, or `null` (a failed classification). */
  datatype Value = Null | AppList(apps: seq<Application>) | FeatureRecord(features: Features)

  /** JavaScript truthiness of a stored value: arrays (even empty ones) and
      objects are truthy, `null` is not. */
  predicate Truthy(v: Value) {
    !v.Null?
  }

  /** The value the cache stores for a classification result. */
  function Stored(f: Option<Features>): (v: Value)
    ensures v.Null? <==> f.None?
    ensures f.Some? ==> v == FeatureRecord(f.value)
    ensures Truthy(v) <==> f.Some?
  {
    match f
    case None => Null
    case Some(x) => FeatureRecord(x)
  }
}
