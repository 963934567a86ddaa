/** The fixed configuration tables of the companion that its logic reads. */
module Config {

  /**
   * RELATIONSHIP_LEVELS: point thresholds with their labels, in the order
   * the dictionary is written (and iterated), which is ascending.
   */
  const RelationshipLevels: seq<(int, string)> :=
    [(0, "Acquaintance"), (50, "Friend"), (150, "Close Friend"), (300, "Best Friend"), (500, "Soulmate")]
}
