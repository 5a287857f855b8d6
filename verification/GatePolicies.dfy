/** What a gate policy asks for, and its hash. */
module GatePolicies {
  import opened DatasetContent

  /** `others` stands for the further limits a policy declares. */
  datatype Thresholds = Thresholds(
    minimumPassRate: real, minimumWeightedScore: real, maximumSystemErrorRate: real, others: string)
  {
    /** The bounds of the schema. */
    predicate Valid() {
      0.0 <= minimumPassRate <= 1.0 && 0.0 <= minimumWeightedScore <= 1.0 && 0.0 <= maximumSystemErrorRate <= 1.0
    }
  }

  /** A dataset version that a gate policy requires, with the hash it must have. */
  datatype Requirement = Requirement(key: Key, hash: Digest)

  /** `otherRules` holds the regression rules and the required case tags. */
  datatype PolicyContent = PolicyContent(
    requirements: seq<Requirement>, resourceTypes: seq<string>, thresholds: Thresholds, otherRules: string,
    allowOverride: bool)

  /** The hash of a policy stands for what it is taken over. */
  datatype PolicyDigest = PolicyDigest(key: Key, content: PolicyContent)
}
