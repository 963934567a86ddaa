/**
 * The companion's persistent store: the relationship-metrics row with its
 * level table, and the user-info, conversation and memory tables next to
 * the semantic memory collection. SQLite tables become sequences and maps
 * held in a class; the vector collection is a plain sequence of documents.
 */
module Database {
  import opened Wrappers
  import opened Config

  // ---------------------------------------------------------------------------
  // The relationship_metrics row
  // ---------------------------------------------------------------------------

  /** The four integer counters of the singleton relationship_metrics row. */
  datatype Metrics = Metrics(
    interactionCount: int,
    positiveInteractions: int,
    negativeInteractions: int,
    relationshipPoints: int)

  /** The row as created (every column DEFAULT 0) and as reset. */
  const ZeroMetrics := Metrics(0, 0, 0, 0)

  /** The row after one `update_interaction_metrics(sentiment)`. */
  function Apply(m: Metrics, sentiment: string): Metrics {
    if sentiment == "positive" then
      m.(interactionCount := m.interactionCount + 1,
         positiveInteractions := m.positiveInteractions + 1,
         relationshipPoints := m.relationshipPoints + 2)
    else if sentiment == "negative" then
      m.(interactionCount := m.interactionCount + 1,
         negativeInteractions := m.negativeInteractions + 1,
         relationshipPoints := m.relationshipPoints - 1)
    else
      m.(interactionCount := m.interactionCount + 1,
         relationshipPoints := m.relationshipPoints + 1)
  }

  /** The row after one update per sentiment, in order. */
  function ApplyAll(m: Metrics, sentiments: seq<string>): Metrics {
    if |sentiments| == 0 then m
    else Apply(ApplyAll(m, sentiments[..|sentiments| - 1]), sentiments[|sentiments| - 1])
  }

  /** Number of occurrences of `x` in `ss`. */
  function Count(ss: seq<string>, x: string): nat {
    if |ss| == 0 then 0
    else Count(ss[..|ss| - 1], x) + (if ss[|ss| - 1] == x then 1 else 0)
  }

  /** `n` copies of `x`. */
  function Repeat(x: string, n: nat): (r: seq<string>)
    ensures |r| == n && forall k :: 0 <= k < n ==> r[k] == x
  {
    seq(n, _ => x)
  }

  /**
   * One update counts exactly one interaction; the positive and negative
   * counters never decrease and at most one of them moves; the points move
   * by +2, -1 or +1 according to the sentiment.
   */
  lemma ApplyStep(m: Metrics, sentiment: string)
    ensures Apply(m, sentiment).interactionCount == m.interactionCount + 1
    ensures Apply(m, sentiment).positiveInteractions >= m.positiveInteractions
    ensures Apply(m, sentiment).negativeInteractions >= m.negativeInteractions
    ensures Apply(m, sentiment).positiveInteractions == m.positiveInteractions
            || Apply(m, sentiment).negativeInteractions == m.negativeInteractions
    ensures Apply(m, sentiment).relationshipPoints - m.relationshipPoints
            == (if sentiment == "positive" then 2 else if sentiment == "negative" then -1 else 1)
  {
  }

  /**
   * Closed form of a sequence of updates: one interaction per update,
   * one positive (negative) per "positive" ("negative") sentiment, and
   * points +2 per positive, -1 per negative and +1 per any other string.
   */
  lemma {:induction false} ApplyAllCounts(m: Metrics, sentiments: seq<string>)
    ensures Count(sentiments, "positive") + Count(sentiments, "negative") <= |sentiments|
    ensures ApplyAll(m, sentiments) == Metrics(
              m.interactionCount + |sentiments|,
              m.positiveInteractions + Count(sentiments, "positive"),
              m.negativeInteractions + Count(sentiments, "negative"),
              m.relationshipPoints + 2 * Count(sentiments, "positive") - Count(sentiments, "negative")
                + (|sentiments| - Count(sentiments, "positive") - Count(sentiments, "negative")))
  {
    if |sentiments| > 0 {
      ApplyAllCounts(m, sentiments[..|sentiments| - 1]);
    }
  }

  /** Updating with `a` and then with `b` is updating with `a + b`. */
  lemma {:induction false} ApplyAllAppend(m: Metrics, a: seq<string>, b: seq<string>)
    ensures ApplyAll(m, a + b) == ApplyAll(ApplyAll(m, a), b)
  {
    if |b| > 0 {
      var b' := b[..|b| - 1];
      assert (a + b)[..|a + b| - 1] == a + b';
      ApplyAllAppend(m, a, b');
    } else {
      assert a + b == a;
    }
  }

  /**
   * Over any run of updates the positive and negative counters never
   * decrease, and the points change by at least -1 and at most +2 per update.
   */
  lemma CountersNeverDecrease(m: Metrics, sentiments: seq<string>)
    ensures ApplyAll(m, sentiments).interactionCount == m.interactionCount + |sentiments|
    ensures ApplyAll(m, sentiments).positiveInteractions >= m.positiveInteractions
    ensures ApplyAll(m, sentiments).negativeInteractions >= m.negativeInteractions
    ensures m.relationshipPoints - |sentiments| <= ApplyAll(m, sentiments).relationshipPoints
            <= m.relationshipPoints + 2 * |sentiments|
  {
    ApplyAllCounts(m, sentiments);
  }

  /** `x` occurs `n` times in `n` copies of `x`. */
  lemma {:induction false} CountRepeat(x: string, n: nat)
    ensures Count(Repeat(x, n), x) == n
  {
    if n > 0 {
      assert Repeat(x, n)[..n - 1] == Repeat(x, n - 1);
      CountRepeat(x, n - 1);
    }
  }

  // ---------------------------------------------------------------------------
  // Relationship level
  // ---------------------------------------------------------------------------

  /**
   * Index of the last entry of `table` whose threshold `points` reaches, or
   * -1 when it reaches none: where the scan over the table last assigned.
   */
  function LastReached(table: seq<(int, string)>, points: int): (k: int)
    ensures -1 <= k < |table|
    ensures k >= 0 ==> table[k].0 <= points
    ensures forall j :: k < j < |table| ==> points < table[j].0
  {
    if |table| == 0 then -1
    else if table[|table| - 1].0 <= points then |table| - 1
    else LastReached(table[..|table| - 1], points)
  }

  /** The label a scan of `table` leaves, starting from "Acquaintance". */
  function LevelIn(table: seq<(int, string)>, points: int): string {
    var k := LastReached(table, points);
    if k < 0 then "Acquaintance" else table[k].1
  }

  /** The relationship level for `points`. */
  function Level(points: int): string {
    LevelIn(RelationshipLevels, points)
  }

  /** Thresholds strictly increase along the table. */
  ghost predicate Ascending(table: seq<(int, string)>) {
    forall i, j :: 0 <= i < j < |table| ==> table[i].0 < table[j].0
  }

  /**
   * The level is the label of the highest threshold that `points` reaches;
   * negative points reach none and give "Acquaintance".
   */
  lemma LevelSpec(points: int)
    ensures points < 0 ==> Level(points) == "Acquaintance"
    ensures points >= 0 ==>
              exists k :: && 0 <= k < |RelationshipLevels|
                          && RelationshipLevels[k].0 <= points
                          && Level(points) == RelationshipLevels[k].1
                          && (forall j :: 0 <= j < |RelationshipLevels| && RelationshipLevels[j].0 <= points
                                ==> RelationshipLevels[j].0 <= RelationshipLevels[k].0)
  {
    var t := RelationshipLevels;
    assert Ascending(t);
    var k := LastReached(t, points);
    if points < 0 {
      assert k == -1;
    } else {
      assert t[0].0 <= points;
      forall j | 0 <= j < |t| && t[j].0 <= points
        ensures t[j].0 <= t[k].0
      {
        assert j <= k;
      }
    }
  }

  /** More points never give a level earlier in the table. */
  lemma LevelMonotone(a: int, b: int)
    requires a <= b
    ensures LastReached(RelationshipLevels, a) <= LastReached(RelationshipLevels, b)
  {
  }

  /** An entry reached by `points` whose successor is not reached gives the level. */
  lemma LevelAt(points: int, k: int)
    requires 0 <= k < |RelationshipLevels|
    requires RelationshipLevels[k].0 <= points
    requires k + 1 < |RelationshipLevels| ==> points < RelationshipLevels[k + 1].0
    ensures Level(points) == RelationshipLevels[k].1
  {
    var t := RelationshipLevels;
    assert Ascending(t);
    var last := LastReached(t, points);
    assert last >= k;
  }

  /** The thresholds are inclusive: 49 points is still an Acquaintance, 50 a Friend. */
  lemma LevelBoundaries()
    ensures Level(49) == "Acquaintance" && Level(50) == "Friend"
    ensures Level(149) == "Friend" && Level(150) == "Close Friend"
    ensures Level(300) == "Best Friend" && Level(499) == "Best Friend"
    ensures Level(500) == "Soulmate" && Level(100000) == "Soulmate"
    ensures Level(-7) == "Acquaintance"
  {
    LevelAt(49, 0);
    LevelAt(50, 1);
    LevelAt(149, 1);
    LevelAt(150, 2);
    LevelAt(300, 3);
    LevelAt(499, 3);
    LevelAt(500, 4);
    LevelAt(100000, 4);
    LevelSpec(-7);
  }

  /**
   * From a fresh row, three positive turns leave 6 points and an
   * Acquaintance; twenty-five reach exactly 50 points and a Friend.
   */
  lemma {:induction false} PositiveTurns(n: nat)
    ensures ApplyAll(ZeroMetrics, Repeat("positive", n)) == Metrics(n, n, 0, 2 * n)
    ensures n == 3 ==> Level(ApplyAll(ZeroMetrics, Repeat("positive", n)).relationshipPoints) == "Acquaintance"
    ensures n == 25 ==> Level(ApplyAll(ZeroMetrics, Repeat("positive", n)).relationshipPoints) == "Friend"
  {
    var turns := Repeat("positive", n);
    ApplyAllCounts(ZeroMetrics, turns);
    CountRepeat("positive", n);
    assert Count(turns, "negative") == 0;
    if n == 3 {
      LevelAt(6, 0);
    } else if n == 25 {
      LevelAt(50, 1);
    }
  }

  /** What `get_relationship_status` returns. */
  datatype Status = Status(level: string, points: int, interactions: Option<int>, positive: Option<int>)

  /** The status for the metrics row, or for a missing row. */
  function StatusOf(row: Option<Metrics>): Status {
    match row
    case None => Status("Acquaintance", 0, None, None)
    case Some(m) => Status(Level(m.relationshipPoints), m.relationshipPoints, Some(m.interactionCount), Some(m.positiveInteractions))
  }

  /** A missing metrics row reads as an Acquaintance with 0 points and nothing else. */
  lemma MissingRowStatus()
    ensures StatusOf(None).level == "Acquaintance" && StatusOf(None).points == 0
    ensures StatusOf(None).interactions.None? && StatusOf(None).positive.None?
  {
  }

  /** The relationship_metrics row, updated in place. */
  class RelationshipMetrics {
    var interactionCount: int
    var positiveInteractions: int
    var negativeInteractions: int
    var relationshipPoints: int

    function Snapshot(): Metrics
      reads this
    {
      Metrics(interactionCount, positiveInteractions, negativeInteractions, relationshipPoints)
    }

    /** The row as `INSERT OR IGNORE ... VALUES (1)` creates it. */
    constructor ()
      ensures Snapshot() == ZeroMetrics
    {
      interactionCount, positiveInteractions, negativeInteractions, relationshipPoints := 0, 0, 0, 0;
    }

    /** The UPDATE of `update_interaction_metrics`, with its deltas chosen by the sentiment. */
    method Update(sentiment: string)
      modifies this
      ensures Snapshot() == Apply(old(Snapshot()), sentiment)
    {
      var pointsChange := 0;
      var posChange := 0;
      var negChange := 0;
      if sentiment == "positive" {
        pointsChange := 2;
        posChange := 1;
      } else if sentiment == "negative" {
        pointsChange := -1;
        negChange := 1;
      } else {
        pointsChange := 1;
      }
      interactionCount := interactionCount + 1;
      positiveInteractions := positiveInteractions + posChange;
      negativeInteractions := negativeInteractions + negChange;
      relationshipPoints := relationshipPoints + pointsChange;
    }

    /** The UPDATE of `clear_all_memories` that zeroes every counter. */
    method Reset()
      modifies this
      ensures Snapshot() == ZeroMetrics
    {
      interactionCount, positiveInteractions, negativeInteractions, relationshipPoints := 0, 0, 0, 0;
    }
  }

  // ---------------------------------------------------------------------------
  // Tables and the memory collection
  // ---------------------------------------------------------------------------

  /** A row of the conversations table (its AUTOINCREMENT id is not read back). */
  datatype ConversationRow = ConversationRow(role: string, content: string, timestamp: int, mood: string)

  /** A row of the memories table. */
  datatype MemoryRow = MemoryRow(
    id: int, memoryType: string, content: string, importance: int, createdAt: int, context: string)

  /** The metadata stored next to a document of the memory collection. */
  datatype MemoryMetadata = MemoryMetadata(memoryType: string, importance: int, context: string, timestamp: int)

  /** A document of the memory collection; its id stands for the random uuid. */
  datatype Document = Document(id: nat, text: string, metadata: MemoryMetadata)

  /** The (role, content) pairs of the newest rows first, at most `limit` of them; a negative limit means no limit. */
  function Newest(rows: seq<ConversationRow>, limit: int): (r: seq<(string, string)>)
    ensures |r| == if 0 <= limit <= |rows| then limit else |rows|
    ensures forall k :: 0 <= k < |r| ==> r[k] == (rows[|rows| - 1 - k].role, rows[|rows| - 1 - k].content)
  {
    if |rows| == 0 || limit == 0 then []
    else
      var last := rows[|rows| - 1];
      [(last.role, last.content)] + Newest(rows[..|rows| - 1], limit - 1)
  }

  /** Memory rows have strictly increasing ids, as AUTOINCREMENT hands them out. */
  ghost predicate MemoryIdsAscending(rows: seq<MemoryRow>) {
    forall i, j :: 0 <= i < j < |rows| ==> rows[i].id < rows[j].id
  }

  /**
   * The id discipline of the two stores: AUTOINCREMENT starts at 1, rows and
   * documents carry strictly increasing ids, all below the next id handed out.
   */
  ghost predicate StoreValid(memories: seq<MemoryRow>, nextMemoryId: int, collection: seq<Document>, nextDocumentId: nat) {
    && 1 <= nextMemoryId
    && MemoryIdsAscending(memories)
    && (forall i :: 0 <= i < |memories| ==> memories[i].id < nextMemoryId)
    && (forall i, j :: 0 <= i < j < |collection| ==> collection[i].id < collection[j].id)
    && (forall i :: 0 <= i < |collection| ==> collection[i].id < nextDocumentId)
  }

  /** The rows whose id is not `id`, in their order. */
  function Without(rows: seq<MemoryRow>, id: int): (r: seq<MemoryRow>)
    ensures |r| <= |rows|
    ensures forall x :: x in r <==> x in rows && x.id != id
  {
    if |rows| == 0 then []
    else (if rows[0].id == id then [] else [rows[0]]) + Without(rows[1..], id)
  }

  /** Some row carries the id `id`. */
  ghost predicate HasId(rows: seq<MemoryRow>, id: int) {
    exists k :: 0 <= k < |rows| && rows[k].id == id
  }

  /** A row below every row of an ascending list can be put in front of it. */
  lemma ConsAscending(x: MemoryRow, w: seq<MemoryRow>)
    requires MemoryIdsAscending(w)
    requires forall k :: 0 <= k < |w| ==> x.id < w[k].id
    ensures MemoryIdsAscending([x] + w)
  {
    var r := [x] + w;
    forall i, j | 0 <= i < j < |r|
      ensures r[i].id < r[j].id
    {
      assert r[j] == w[j - 1];
      if i > 0 {
        assert r[i] == w[i - 1];
      }
    }
  }

  /** Deleting keeps every remaining id above a bound that all ids were above. */
  lemma WithoutAbove(rows: seq<MemoryRow>, id: int, bound: int)
    requires forall k :: 0 <= k < |rows| ==> bound < rows[k].id
    ensures forall k :: 0 <= k < |Without(rows, id)| ==> bound < Without(rows, id)[k].id
  {
    var w := Without(rows, id);
    forall k | 0 <= k < |w|
      ensures bound < w[k].id
    {
      assert w[k] in rows;
    }
  }

  /** Deleting keeps the ids ascending. */
  lemma {:induction false} WithoutAscending(rows: seq<MemoryRow>, id: int)
    requires MemoryIdsAscending(rows)
    ensures MemoryIdsAscending(Without(rows, id))
  {
    if |rows| > 0 {
      var tail := rows[1..];
      WithoutAscending(tail, id);
      var w := Without(tail, id);
      if rows[0].id != id {
        assert forall k :: 0 <= k < |tail| ==> tail[k] == rows[k + 1];
        WithoutAbove(tail, id, rows[0].id);
        ConsAscending(rows[0], w);
      }
    }
  }

  /** With unique ids, deleting removes exactly one row when the id is present and none otherwise. */
  lemma {:induction false} WithoutLength(rows: seq<MemoryRow>, id: int)
    requires MemoryIdsAscending(rows)
    ensures |Without(rows, id)| == |rows| - (if HasId(rows, id) then 1 else 0)
  {
    if |rows| > 0 {
      var tail := rows[1..];
      WithoutLength(tail, id);
      if rows[0].id == id {
        assert HasId(rows, id);
        assert !HasId(tail, id);
      } else {
        if HasId(rows, id) {
          var k :| 0 <= k < |rows| && rows[k].id == id;
          assert tail[k - 1].id == id;
        }
        if HasId(tail, id) {
          var k :| 0 <= k < |tail| && tail[k].id == id;
          assert rows[k + 1].id == id;
        }
      }
    }
  }

  /** The SQLite tables, the metrics row and the memory collection of one store. */
  class MemoryDatabase {
    /** user_info: key -> value, key is the PRIMARY KEY. */
    var userInfo: map<string, string>
    /** conversations, in insertion order. */
    var conversations: seq<ConversationRow>
    /** memories, in insertion order. */
    var memories: seq<MemoryRow>
    /** The id AUTOINCREMENT hands to the next memory row. */
    var nextMemoryId: int
    /** The anjali_memories collection, in insertion order. */
    var collection: seq<Document>
    /** Stands for uuid4: the id of the next document, distinct from every earlier one. */
    var nextDocumentId: nat
    /** The singleton relationship_metrics row. */
    const metrics: RelationshipMetrics

    /** Ids are unique and below the next id handed out, in both stores. */
    ghost predicate Valid()
      reads this
    {
      StoreValid(memories, nextMemoryId, collection, nextDocumentId)
    }

    /** A new store: empty tables, an empty collection and a zero metrics row. */
    constructor ()
      ensures Valid()
      ensures userInfo == map[] && conversations == [] && memories == [] && collection == []
      ensures fresh(metrics) && metrics.Snapshot() == ZeroMetrics
    {
      userInfo := map[];
      conversations := [];
      memories := [];
      nextMemoryId := 1;
      collection := [];
      nextDocumentId := 0;
      metrics := new RelationshipMetrics();
    }

    /** `get_user_info`: the stored value, or None for an unknown key. */
    function GetUserInfo(key: string): Option<string>
      reads this
    {
      if key in userInfo then Some(userInfo[key]) else None
    }

    /** `save_user_info`: INSERT OR REPLACE on the key. */
    method SaveUserInfo(key: string, value: string)
      modifies this
      ensures GetUserInfo(key) == Some(value)
      ensures forall k :: k != key ==> GetUserInfo(k) == old(GetUserInfo(k))
      ensures userInfo.Keys == old(userInfo.Keys) + {key}
      ensures conversations == old(conversations) && memories == old(memories) && collection == old(collection)
      ensures nextMemoryId == old(nextMemoryId) && nextDocumentId == old(nextDocumentId)
    {
      userInfo := userInfo[key := value];
    }

    /** `save_conversation`: appends one row stamped `now`. */
    method SaveConversation(role: string, content: string, mood: string, now: int)
      modifies this
      ensures conversations == old(conversations) + [ConversationRow(role, content, now, mood)]
      ensures userInfo == old(userInfo) && memories == old(memories) && collection == old(collection)
      ensures nextMemoryId == old(nextMemoryId) && nextDocumentId == old(nextDocumentId)
    {
      conversations := conversations + [ConversationRow(role, content, now, mood)];
    }

    /** `get_recent_conversations`: newest first, at most `limit` (role, content) pairs. */
    function RecentConversations(limit: int): seq<(string, string)>
      reads this
    {
      Newest(conversations, limit)
    }

    /**
     * `save_memory`: one memories row with the next AUTOINCREMENT id and one
     * collection document with a fresh id, both with the same content.
     */
    method SaveMemory(content: string, memoryType: string, importance: int, context: string, now: int)
      modifies this
      ensures old(Valid()) ==> Valid()
      ensures memories == old(memories) + [MemoryRow(old(nextMemoryId), memoryType, content, importance, now, context)]
      ensures collection == old(collection)
                            + [Document(old(nextDocumentId), content, MemoryMetadata(memoryType, importance, context, now))]
      ensures nextMemoryId == old(nextMemoryId) + 1 && nextDocumentId == old(nextDocumentId) + 1
      ensures userInfo == old(userInfo) && conversations == old(conversations)
    {
      var documentId := nextDocumentId;
      nextDocumentId := nextDocumentId + 1;
      memories := memories + [MemoryRow(nextMemoryId, memoryType, content, importance, now, context)];
      nextMemoryId := nextMemoryId + 1;
      collection := collection + [Document(documentId, content, MemoryMetadata(memoryType, importance, context, now))];
    }

    /** `delete_memory`: removes the SQL row with that id; the collection keeps its document. */
    method DeleteMemory(memoryId: int)
      requires Valid()
      modifies this
      ensures Valid()
      ensures memories == Without(old(memories), memoryId)
      ensures collection == old(collection)
      ensures userInfo == old(userInfo) && conversations == old(conversations)
      ensures nextMemoryId == old(nextMemoryId) && nextDocumentId == old(nextDocumentId)
    {
      WithoutAscending(memories, memoryId);
      memories := Without(memories, memoryId);
    }

    /** `get_relationship_status`: scans the level table for the row's points. */
    method GetRelationshipStatus() returns (status: Status)
      ensures status == StatusOf(Some(metrics.Snapshot()))
    {
      var points := metrics.relationshipPoints;
      var level := "Acquaintance";
      for i := 0 to |RelationshipLevels|
        invariant level == LevelIn(RelationshipLevels[..i], points)
      {
        var (threshold, name) := RelationshipLevels[i];
        assert RelationshipLevels[..i + 1][..i] == RelationshipLevels[..i];
        if points >= threshold {
          level := name;
        }
      }
      assert RelationshipLevels[..|RelationshipLevels|] == RelationshipLevels;
      status := Status(level, points, Some(metrics.interactionCount), Some(metrics.positiveInteractions));
    }

    /** `update_interaction_metrics`. */
    method UpdateInteractionMetrics(sentiment: string)
      modifies metrics
      ensures metrics.Snapshot() == Apply(old(metrics.Snapshot()), sentiment)
    {
      metrics.Update(sentiment);
    }

    /**
     * `clear_all_memories`: empties the three tables and the collection and
     * zeroes the metrics; AUTOINCREMENT does not reuse ids afterwards.
     */
    method ClearAllMemories()
      requires Valid()
      modifies this, metrics
      ensures Valid()
      ensures memories == [] && conversations == [] && userInfo == map[] && collection == []
      ensures metrics.Snapshot() == ZeroMetrics
      ensures nextMemoryId == old(nextMemoryId) && nextDocumentId == old(nextDocumentId)
    {
      memories := [];
      conversations := [];
      userInfo := map[];
      metrics.Reset();
      collection := [];
    }
  }
}
