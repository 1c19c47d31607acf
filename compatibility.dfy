/** Which (detector, descriptor) pairs the benchmark sweep runs
    (src/MidTermProject_Camera_Student.cpp, lines 222-234). The rule is a
    block-list of combinations that crashed the vision library or make no
    sense for it; every other pair runs. */
module Compatibility {

  /** The condition of lines 222-234: the pair is not one of the blocked
      combinations. Names are compared exactly, as string::compare == 0 does. */
  predicate Compatible(detectorType: string, descriptorType: string)
  {
    !((detectorType == "HARRIS" && (descriptorType == "AKAZE" || descriptorType == "SIFT")) ||
      (detectorType == "FAST" && (descriptorType == "AKAZE" || descriptorType == "SIFT")) ||
      (detectorType == "BRISK" && (descriptorType == "AKAZE" || descriptorType == "SIFT")) ||
      (detectorType == "ORB" && (descriptorType == "AKAZE" || descriptorType == "SIFT")) ||
      (detectorType == "AKAZE" && descriptorType == "SIFT") ||
      (detectorType == "SIFT" && (descriptorType == "ORB" || descriptorType == "AKAZE" || descriptorType == "SIFT")))
  }

  /** The blocked pairs as a table: the AKAZE and SIFT descriptors after the
      HARRIS, FAST, BRISK and ORB detectors; SIFT after AKAZE; ORB, AKAZE and
      SIFT after SIFT. */
  const BLOCK_LIST: set<(string, string)> := {
    ("HARRIS", "AKAZE"), ("HARRIS", "SIFT"),
    ("FAST", "AKAZE"), ("FAST", "SIFT"),
    ("BRISK", "AKAZE"), ("BRISK", "SIFT"),
    ("ORB", "AKAZE"), ("ORB", "SIFT"),
    ("AKAZE", "SIFT"),
    ("SIFT", "ORB"), ("SIFT", "AKAZE"), ("SIFT", "SIFT")
  }

  /** The predicate rejects exactly the pairs of the table. */
  lemma CompatibleIffNotBlocked(detectorType: string, descriptorType: string)
    ensures Compatible(detectorType, descriptorType) <==> (detectorType, descriptorType) !in BLOCK_LIST
  {
  }

  /** Sample verdicts: (HARRIS, SIFT) is rejected; (BRISK, BRIEF) runs, and
      so does (FAST, ORB), which this table does not block. */
  lemma SampleVerdicts()
    ensures !Compatible("HARRIS", "SIFT")
    ensures Compatible("BRISK", "BRIEF")
    ensures Compatible("FAST", "ORB")
  {
  }
}
