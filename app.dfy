/**
 * The chat session: the progress value of the header, the message history
 * held in the session, and one user turn from prompt to stored memories.
 * The reply of the language model, the caption of an uploaded image, the
 * documents the memory search returns and the clock are inputs.
 */
module App {
  import opened Wrappers
  import MemoryProcessor
  import ChatModel
  import Database

  // ---------------------------------------------------------------------------
  // Header
  // ---------------------------------------------------------------------------

  /**
   * The progress-bar value: `points % 100` below 500 points, else 100. Python's
   * `%` by a positive divisor is never negative, like Dafny's.
   */
  function ProgressValue(points: int): (v: int)
    ensures 0 <= v <= 100
    ensures v == 100 <==> points >= 500
    ensures points < 500 ==> (points - v) % 100 == 0
  {
    if points < 500 then points % 100 else 100
  }

  /** Negative points still give a bar inside [0, 100]: -30 points show as 70. */
  lemma ProgressExamples()
    ensures ProgressValue(-30) == 70 && ProgressValue(-100) == 0
    ensures ProgressValue(250) == 50 && ProgressValue(499) == 99 && ProgressValue(500) == 100
  {
  }

  // ---------------------------------------------------------------------------
  // Session messages
  // ---------------------------------------------------------------------------

  /** One `{"role": ..., "content": ...}` dictionary of the session history; its content can be changed in place. */
  class ChatMessage {
    const role: string
    var content: string

    constructor (role: string, content: string)
      ensures this.role == role && this.content == content
    {
      this.role := role;
      this.content := content;
    }
  }

  /** The value a message dictionary holds at one moment. */
  datatype Message = Message(role: string, content: string)

  /** The current values of a list of message dictionaries. */
  function Contents(ms: seq<ChatMessage>): seq<Message>
    reads ms
  {
    if |ms| == 0 then []
    else Contents(ms[..|ms| - 1]) + [Message(ms[|ms| - 1].role, ms[|ms| - 1].content)]
  }

  /** One value per dictionary. */
  lemma {:induction false} ContentsLength(ms: seq<ChatMessage>)
    ensures |Contents(ms)| == |ms|
  {
    if |ms| > 0 {
      ContentsLength(ms[..|ms| - 1]);
    }
  }

  /** Reading two lists of dictionaries one after the other. */
  lemma {:induction false} ContentsAppend(a: seq<ChatMessage>, b: seq<ChatMessage>)
    ensures Contents(a + b) == Contents(a) + Contents(b)
  {
    if |b| > 0 {
      assert (a + b)[..|a + b| - 1] == a + b[..|b| - 1];
      ContentsAppend(a, b[..|b| - 1]);
    } else {
      assert a + b == a;
    }
  }

  /** Python's `s[-n:]` for a positive `n`: the last `n` items, or all of them. */
  function Window<T>(s: seq<T>, n: nat): seq<T> {
    if |s| <= n then s else s[|s| - n..]
  }

  /** Reading a window of dictionaries is taking the window of their values. */
  lemma ContentsWindow(ms: seq<ChatMessage>, n: nat)
    ensures Contents(Window(ms, n)) == Window(Contents(ms), n)
  {
    ContentsLength(ms);
    if |ms| > n {
      assert ms == ms[..|ms| - n] + ms[|ms| - n..];
      ContentsAppend(ms[..|ms| - n], ms[|ms| - n..]);
      ContentsLength(ms[..|ms| - n]);
    }
  }

  /** Dictionaries nobody changed read the same. */
  twostate lemma {:induction false} ContentsUnchanged(ms: seq<ChatMessage>)
    requires unchanged(ms)
    ensures Contents(ms) == old(Contents(ms))
  {
    if |ms| > 0 {
      assert unchanged(ms[..|ms| - 1]);
      ContentsUnchanged(ms[..|ms| - 1]);
    }
  }

  /** Reading a list of dictionaries after changing only its last one. */
  twostate lemma EditedLast(ms: seq<ChatMessage>)
    requires |ms| > 0
    requires unchanged(ms[..|ms| - 1])
    ensures |old(Contents(ms))| == |ms|
    ensures Contents(ms) == old(Contents(ms))[..|ms| - 1] + [Message(ms[|ms| - 1].role, ms[|ms| - 1].content)]
  {
    ContentsUnchanged(ms[..|ms| - 1]);
    ContentsLength(ms);
    assert ms[..|ms| - 1][..|ms| - 1] == ms[..|ms| - 1];
  }

  // ---------------------------------------------------------------------------
  // Memories saved during a turn
  // ---------------------------------------------------------------------------

  /** The arguments of one `save_memory` call. */
  datatype Pending = Pending(content: string, memoryType: string, importance: int, context: string)

  /** The `save_memory` arguments for one extracted record. */
  function PendingOf(c: MemoryProcessor.MemoryCandidate, context: string): Pending {
    Pending(c.content, MemoryProcessor.TypeName(c.memoryType), c.importance, context)
  }

  /** The extracted records of one text, each labelled with where the text came from. */
  function Labelled(candidates: seq<MemoryProcessor.MemoryCandidate>, context: string): seq<Pending> {
    seq(|candidates|, k requires 0 <= k < |candidates| => PendingOf(candidates[k], context))
  }

  /** All records extracted from a list of (text, origin) pairs, pair by pair. */
  function Harvest(sources: seq<(string, string)>): seq<Pending> {
    if |sources| == 0 then []
    else
      var (text, origin) := sources[|sources| - 1];
      Harvest(sources[..|sources| - 1]) + Labelled(MemoryProcessor.Extract(text), origin)
  }

  /** The memories row `save_memory` inserts for `x` with id `id`. */
  function RowOf(id: int, x: Pending, now: int): Database.MemoryRow {
    Database.MemoryRow(id, x.memoryType, x.content, x.importance, now, x.context)
  }

  /** The collection document `save_memory` adds for `x` with id `id`. */
  function DocOf(id: nat, x: Pending, now: int): Database.Document {
    Database.Document(id, x.content, Database.MemoryMetadata(x.memoryType, x.importance, x.context, now))
  }

  /** The memories rows that saving `items` in order adds, numbered from `firstId`. */
  function RowsFor(firstId: int, items: seq<Pending>, now: int): seq<Database.MemoryRow> {
    seq(|items|, k requires 0 <= k < |items| => RowOf(firstId + k, items[k], now))
  }

  /** The collection documents that saving `items` in order adds, numbered from `firstId`. */
  function DocsFor(firstId: nat, items: seq<Pending>, now: int): seq<Database.Document> {
    seq(|items|, k requires 0 <= k < |items| => DocOf(firstId + k, items[k], now))
  }

  /** Labelling one more record appends its label. */
  lemma LabelledSnoc(candidates: seq<MemoryProcessor.MemoryCandidate>, c: MemoryProcessor.MemoryCandidate, context: string)
    ensures Labelled(candidates + [c], context) == Labelled(candidates, context) + [PendingOf(c, context)]
  {
  }

  /** Saving one more item appends one row and one document with the next ids. */
  lemma SavedSnoc(firstId: int, firstDoc: nat, items: seq<Pending>, x: Pending, now: int)
    ensures RowsFor(firstId, items + [x], now) == RowsFor(firstId, items, now) + [RowOf(firstId + |items|, x, now)]
    ensures DocsFor(firstDoc, items + [x], now) == DocsFor(firstDoc, items, now) + [DocOf(firstDoc + |items|, x, now)]
  {
  }

  /** Saving `a` and then `b` adds the rows and documents of `a`, then those of `b` numbered on from them. */
  lemma SavedAppend(firstId: int, firstDoc: nat, a: seq<Pending>, b: seq<Pending>, now: int)
    ensures RowsFor(firstId, a + b, now) == RowsFor(firstId, a, now) + RowsFor(firstId + |a|, b, now)
    ensures DocsFor(firstDoc, a + b, now) == DocsFor(firstDoc, a, now) + DocsFor(firstDoc + |a|, b, now)
  {
  }

  /** The rows and documents stored so far, followed by those of one more batch. */
  lemma StoredAppend(rows: seq<Database.MemoryRow>, docs: seq<Database.Document>, firstId: int, firstDoc: nat,
                     saved: seq<Pending>, batch: seq<Pending>, now: int)
    ensures rows + RowsFor(firstId, saved, now) + RowsFor(firstId + |saved|, batch, now)
            == rows + RowsFor(firstId, saved + batch, now)
    ensures docs + DocsFor(firstDoc, saved, now) + DocsFor(firstDoc + |saved|, batch, now)
            == docs + DocsFor(firstDoc, saved + batch, now)
  {
    SavedAppend(firstId, firstDoc, saved, batch, now);
  }

  /** Appending the rows and documents of a batch keeps the id discipline of the stores. */
  lemma StoredValid(rows: seq<Database.MemoryRow>, docs: seq<Database.Document>, firstId: int, firstDoc: nat,
                    items: seq<Pending>, now: int)
    requires Database.StoreValid(rows, firstId, docs, firstDoc)
    ensures Database.StoreValid(rows + RowsFor(firstId, items, now), firstId + |items|,
                                docs + DocsFor(firstDoc, items, now), firstDoc + |items|)
  {
    var r := rows + RowsFor(firstId, items, now);
    assert forall i :: |rows| <= i < |r| ==> r[i].id == firstId + i - |rows|;
    var d := docs + DocsFor(firstDoc, items, now);
    assert forall i :: |docs| <= i < |d| ==> d[i].id == firstDoc + i - |docs|;
  }

  /** Harvesting one more source appends its labelled records. */
  lemma HarvestSnoc(sources: seq<(string, string)>, p: nat)
    requires p < |sources|
    ensures Harvest(sources[..p + 1]) == Harvest(sources[..p]) + Labelled(MemoryProcessor.Extract(sources[p].0), sources[p].1)
  {
    assert sources[..p + 1][..p] == sources[..p];
  }

  const UserSaid := "User said"
  const AnjaliSaid := "Anjali said"

  /** The prompt's records come first, then the response's. */
  lemma HarvestTurn(prompt: string, response: string)
    ensures Harvest([(prompt, UserSaid), (response, AnjaliSaid)])
            == Labelled(MemoryProcessor.Extract(prompt), UserSaid) + Labelled(MemoryProcessor.Extract(response), AnjaliSaid)
  {
    var sources := [(prompt, UserSaid), (response, AnjaliSaid)];
    var first := Labelled(MemoryProcessor.Extract(prompt), UserSaid);
    assert sources[..1] == [(prompt, UserSaid)];
    assert sources[..1][..0] == [];
    assert Harvest(sources[..1]) == Harvest([]) + first;
    assert Harvest(sources[..1]) == first;
  }

  // ---------------------------------------------------------------------------
  // The session and one turn
  // ---------------------------------------------------------------------------

  /** Prefix of the note added to the user's message when an image was shared. */
  const ImageNote := "\nThe user has shared an image with me. I see: "

  /** How many recent history messages go to the model. */
  const HistoryWindow := 10

  /** What `process_user_input` did: warned about an empty input, or answered. */
  datatype Outcome = Warned | Answered(response: string)

  /** The session state the turn logic reads and changes. */
  class Session {
    /** `messages`: the chat history, oldest first. */
    var messages: seq<ChatMessage>
    var mood: string
    /** `uploaded_file`, present from the moment an image is shared until a turn consumes it. */
    var uploadedFile: Option<string>
    const db: Database.MemoryDatabase

    function History(): seq<Message>
      reads this, messages
    {
      Contents(messages)
    }

    /** A fresh session over `db`: no messages, a "friendly" mood, no file. */
    constructor (db: Database.MemoryDatabase)
      ensures this.db == db && messages == [] && mood == "friendly" && uploadedFile == None
    {
      this.db := db;
      messages := [];
      mood := "friendly";
      uploadedFile := None;
    }

    /** The sidebar's uploader storing the shared image in the session. */
    method ShareImage(file: string)
      modifies this
      ensures uploadedFile == Some(file)
      ensures messages == old(messages) && mood == old(mood)
    {
      uploadedFile := Some(file);
    }

    /** `add_message`: appends to the history and stores the row with the current mood. */
    method AddMessage(role: string, content: string, now: int) returns (message: ChatMessage)
      modifies this, db
      ensures fresh(message) && message.role == role && message.content == content
      ensures messages == old(messages) + [message]
      ensures History() == old(History()) + [Message(role, content)]
      ensures mood == old(mood) && uploadedFile == old(uploadedFile)
      ensures db.conversations == old(db.conversations) + [Database.ConversationRow(role, content, now, mood)]
      ensures db.userInfo == old(db.userInfo) && db.memories == old(db.memories) && db.collection == old(db.collection)
      ensures db.nextMemoryId == old(db.nextMemoryId) && db.nextDocumentId == old(db.nextDocumentId)
    {
      message := new ChatMessage(role, content);
      messages := messages + [message];
      db.SaveConversation(role, content, mood, now);
    }

    /** Saves each record of one text with `origin` as its context, in order. */
    method SaveRecords(records: seq<MemoryProcessor.MemoryCandidate>, origin: string, now: int)
      modifies db
      ensures db.memories == old(db.memories) + RowsFor(old(db.nextMemoryId), Labelled(records, origin), now)
      ensures db.collection == old(db.collection) + DocsFor(old(db.nextDocumentId), Labelled(records, origin), now)
      ensures db.nextMemoryId == old(db.nextMemoryId) + |records|
      ensures db.nextDocumentId == old(db.nextDocumentId) + |records|
      ensures db.userInfo == old(db.userInfo) && db.conversations == old(db.conversations)
    {
      for q := 0 to |records|
        invariant db.memories == old(db.memories) + RowsFor(old(db.nextMemoryId), Labelled(records[..q], origin), now)
        invariant db.collection == old(db.collection) + DocsFor(old(db.nextDocumentId), Labelled(records[..q], origin), now)
        invariant db.nextMemoryId == old(db.nextMemoryId) + q
        invariant db.nextDocumentId == old(db.nextDocumentId) + q
        invariant db.userInfo == old(db.userInfo) && db.conversations == old(db.conversations)
      {
        var mem := records[q];
        db.SaveMemory(mem.content, MemoryProcessor.TypeName(mem.memoryType), mem.importance, origin, now);
        assert records[..q + 1] == records[..q] + [mem];
        LabelledSnoc(records[..q], mem, origin);
        SavedSnoc(old(db.nextMemoryId), old(db.nextDocumentId), Labelled(records[..q], origin), PendingOf(mem, origin), now);
      }
      assert records[..|records|] == records;
    }

    /** Extracts the records of one text and saves them with `origin` as their context. */
    method SaveSource(text: string, origin: string, now: int)
      modifies db
      ensures var batch := Labelled(MemoryProcessor.Extract(text), origin);
              && db.memories == old(db.memories) + RowsFor(old(db.nextMemoryId), batch, now)
              && db.collection == old(db.collection) + DocsFor(old(db.nextDocumentId), batch, now)
              && db.nextMemoryId == old(db.nextMemoryId) + |batch|
              && db.nextDocumentId == old(db.nextDocumentId) + |batch|
      ensures db.userInfo == old(db.userInfo) && db.conversations == old(db.conversations)
    {
      var memories := MemoryProcessor.ExtractImportantInfo(text);
      SaveRecords(memories, origin, now);
    }

    /**
     * The memory loop of a turn: the records extracted from the prompt are
     * saved with "User said", then those from the response with "Anjali said".
     */
    method SaveMemories(prompt: string, response: string, now: int)
      requires db.Valid()
      modifies db
      ensures db.Valid()
      ensures var saved := Labelled(MemoryProcessor.Extract(prompt), UserSaid)
                           + Labelled(MemoryProcessor.Extract(response), AnjaliSaid);
              && db.memories == old(db.memories) + RowsFor(old(db.nextMemoryId), saved, now)
              && db.collection == old(db.collection) + DocsFor(old(db.nextDocumentId), saved, now)
      ensures db.userInfo == old(db.userInfo) && db.conversations == old(db.conversations)
    {
      var sources := [(prompt, UserSaid), (response, AnjaliSaid)];
      ghost var firstId, firstDoc := db.nextMemoryId, db.nextDocumentId;
      ghost var saved: seq<Pending> := [];
      for p := 0 to |sources|
        invariant saved == Harvest(sources[..p])
        invariant db.memories == old(db.memories) + RowsFor(firstId, saved, now)
        invariant db.collection == old(db.collection) + DocsFor(firstDoc, saved, now)
        invariant db.nextMemoryId == firstId + |saved| && db.nextDocumentId == firstDoc + |saved|
        invariant db.userInfo == old(db.userInfo) && db.conversations == old(db.conversations)
      {
        var text, origin := sources[p].0, sources[p].1;
        ghost var batch := Labelled(MemoryProcessor.Extract(text), origin);
        SaveSource(text, origin, now);
        StoredAppend(old(db.memories), old(db.collection), firstId, firstDoc, saved, batch, now);
        HarvestSnoc(sources, p);
        saved := saved + batch;
      }
      assert sources[..|sources|] == sources;
      HarvestTurn(prompt, response);
      StoredValid(old(db.memories), old(db.collection), firstId, firstDoc, saved, now);
    }

    /**
     * Appends `note` in place to `last`, the history's last dictionary: the
     * history reads the same except for that last message.
     */
    method AppendNote(last: ChatMessage, note: string)
      requires |messages| > 0 && last == messages[|messages| - 1]
      requires last !in messages[..|messages| - 1]
      modifies last
      ensures last.content == old(last.content) + note
      ensures |old(History())| == |messages|
      ensures History() == old(History())[..|messages| - 1] + [Message(last.role, old(last.content) + note)]
    {
      if note != "" {
        last.content := last.content + note;
      } else {
        assert last.content + note == last.content;
      }
      EditedLast(messages);
    }

    /** The system dictionary holding the memory context, or nothing when the context is empty. */
    method SystemFront(context: string) returns (front: seq<ChatMessage>)
      ensures Contents(front) == (if context == "" then [] else [Message("system", context)])
      ensures forall m :: m in front ==> fresh(m)
    {
      front := [];
      if context != "" {
        var system := new ChatMessage("system", context);
        front := [system];
        assert front[..0] == [];
      }
    }

    /**
     * Lines 132-136 of a turn: the payload is the last `HistoryWindow`
     * history dictionaries, behind a fresh system dictionary holding the
     * memory context when there is one, and `imageContext` is appended to
     * the payload's last dictionary. That dictionary is the history's own
     * last one, so the history sees the note too.
     */
    method BuildPayload(context: string, imageContext: string) returns (payload: seq<Message>)
      requires |messages| > 0
      requires messages[|messages| - 1] !in messages[..|messages| - 1]
      modifies messages[|messages| - 1]
      ensures |old(History())| == |messages|
      ensures History() == old(History())[..|messages| - 1]
                           + [Message(messages[|messages| - 1].role, old(messages[|messages| - 1].content) + imageContext)]
      ensures payload == (if context == "" then [] else [Message("system", context)]) + Window(History(), HistoryWindow)
    {
      label Entry:
      var recent := Window(messages, HistoryWindow);
      var front := SystemFront(context);
      var modelMessages := front + recent;
      var last := modelMessages[|modelMessages| - 1];
      assert last == messages[|messages| - 1];
      ContentsUnchanged@Entry(messages);
      label Framed:
      AppendNote(last, imageContext);
      assert last !in front;
      ContentsUnchanged@Framed(front);
      ContentsWindow(messages, HistoryWindow);
      ContentsAppend(front, recent);
      payload := Contents(modelMessages);
    }

    /**
     * The first half of an answered turn, up to the model call: the user
     * message is added and stored, the uploaded file is consumed, and the
     * payload is built. The image note reaches the history's last message
     * while the stored conversation row keeps the plain prompt.
     */
    method Ask(prompt: string, caption: string, documents: seq<seq<string>>, reply: Option<string>, now: int)
      returns (answer: ChatModel.Reply, payload: seq<Message>)
      modifies this, db
      ensures var userContent := prompt + (if old(uploadedFile).Some? then ImageNote + caption else "");
              History() == old(History()) + [Message("user", userContent)]
      ensures var context := MemoryProcessor.RelevantContext(documents);
              payload == (if context == "" then [] else [Message("system", context)]) + Window(History(), HistoryWindow)
      ensures answer == ChatModel.GenerateResponse(reply)
      ensures uploadedFile == None && mood == old(mood)
      ensures db.conversations == old(db.conversations) + [Database.ConversationRow("user", prompt, now, mood)]
      ensures db.userInfo == old(db.userInfo) && db.memories == old(db.memories) && db.collection == old(db.collection)
      ensures db.nextMemoryId == old(db.nextMemoryId) && db.nextDocumentId == old(db.nextDocumentId)
    {
      var userMessage := AddMessage("user", prompt, now);
      assert messages[..|messages| - 1] == old(messages);

      var imageContext := "";
      var file := uploadedFile;
      uploadedFile := None;
      if file.Some? {
        imageContext := ImageNote + caption;
      }

      var context := MemoryProcessor.RelevantContext(documents);
      payload := BuildPayload(context, imageContext);

      answer := ChatModel.GenerateResponse(reply);
    }

    /**
     * The second half of an answered turn: the metrics are updated once
     * with the answer's sentiment, the memories of the prompt and then of
     * the response are saved, and the assistant message is added last.
     */
    method Record(prompt: string, answer: ChatModel.Reply, now: int)
      requires db.Valid()
      modifies this, db, db.metrics
      ensures db.Valid()
      ensures History() == old(History()) + [Message("assistant", answer.content)]
      ensures uploadedFile == old(uploadedFile) && mood == old(mood)
      ensures db.conversations == old(db.conversations) + [Database.ConversationRow("assistant", answer.content, now, mood)]
      ensures db.metrics.Snapshot() == Database.Apply(old(db.metrics.Snapshot()), answer.sentiment)
      ensures var saved := Labelled(MemoryProcessor.Extract(prompt), UserSaid)
                           + Labelled(MemoryProcessor.Extract(answer.content), AnjaliSaid);
              && db.memories == old(db.memories) + RowsFor(old(db.nextMemoryId), saved, now)
              && db.collection == old(db.collection) + DocsFor(old(db.nextDocumentId), saved, now)
      ensures db.userInfo == old(db.userInfo)
    {
      db.UpdateInteractionMetrics(answer.sentiment);
      SaveMemories(prompt, answer.content, now);
      ContentsUnchanged(messages);
      var _ := AddMessage("assistant", answer.content, now);
    }

    /**
     * `process_user_input(prompt)`. `caption` is what the captioning model
     * says about the uploaded image, `documents` what the memory search
     * returns, `reply` the model's raw reply (None when the request fails)
     * and `now` the clock. Returns what happened and the messages sent to
     * the model.
     */
    method ProcessUserInput(prompt: string, caption: string, documents: seq<seq<string>>,
                            reply: Option<string>, now: int)
      returns (outcome: Outcome, payload: seq<Message>)
      requires db.Valid()
      modifies this, db, db.metrics
      ensures db.Valid()
      ensures mood == old(mood) && db.userInfo == old(db.userInfo)
      ensures prompt == "" && old(uploadedFile).None? ==>
                && outcome == Warned && payload == []
                && messages == old(messages) && uploadedFile == old(uploadedFile)
                && db.conversations == old(db.conversations)
                && db.memories == old(db.memories) && db.collection == old(db.collection)
                && db.nextMemoryId == old(db.nextMemoryId) && db.nextDocumentId == old(db.nextDocumentId)
                && db.metrics.Snapshot() == old(db.metrics.Snapshot())
      ensures !(prompt == "" && old(uploadedFile).None?) ==>
                var userContent := prompt + (if old(uploadedFile).Some? then ImageNote + caption else "");
                var answer := ChatModel.GenerateResponse(reply);
                var context := MemoryProcessor.RelevantContext(documents);
                var saved := Labelled(MemoryProcessor.Extract(prompt), UserSaid)
                             + Labelled(MemoryProcessor.Extract(answer.content), AnjaliSaid);
                && outcome == Answered(answer.content)
                && History() == old(History()) + [Message("user", userContent), Message("assistant", answer.content)]
                && payload == (if context == "" then [] else [Message("system", context)])
                              + Window(old(History()) + [Message("user", userContent)], HistoryWindow)
                && db.conversations == old(db.conversations)
                                       + [Database.ConversationRow("user", prompt, now, mood),
                                          Database.ConversationRow("assistant", answer.content, now, mood)]
                && db.metrics.Snapshot() == Database.Apply(old(db.metrics.Snapshot()), answer.sentiment)
                && db.memories == old(db.memories) + RowsFor(old(db.nextMemoryId), saved, now)
                && db.collection == old(db.collection) + DocsFor(old(db.nextDocumentId), saved, now)
                && uploadedFile == None
    {
      if prompt == "" && uploadedFile.None? {
        return Warned, [];
      }
      var answer;
      answer, payload := Ask(prompt, caption, documents, reply, now);
      Record(prompt, answer, now);
      outcome := Answered(answer.content);
    }
  }
}
