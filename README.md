# Anjali companion core, modelled in Dafny

Anjali is a Streamlit chat companion. Each user turn goes through the
same steps:

- the user's message is added to the session history and stored in
  SQLite;
- an optional shared image is captioned;
- remembered facts are retrieved from a vector collection;
- a language model answers, tagging its reply with
  `[sentiment: positive|neutral|negative]`;
- the answer's sentiment moves a relationship score, which is shown as a
  level and a progress bar;
- keyword rules pick facts worth remembering out of the prompt and the
  answer, and those facts are saved.

This project models the logic inside that glue:

- `text.dfy`: the Python string operations the core relies on. These are
  `in`, ASCII `lower()`, `isspace()`/`strip()` and `"\n".join`. It also
  has `split("\n")`, which the core never calls: it is the inverse used to
  read the joined memory context back line by line (`ContextLines`).
- `memory_processor.dfy`: `MemoryProcessor.extract_important_info` as the
  method the source writes, with four independent appends. It is proved
  equal to a rule-table specification `Extract`. The file also formats
  the memory context.
- `chat_model.dfy`: the tag handling of `ChatModel.generate_response`. It
  covers the leftmost tag as the sentiment, tag removal and `strip()`, the
  untouched reply when there is no tag, and the apology fallback when the
  call fails.
  - `GenerateResponseAsWritten` uses the single `re.sub` pass of the source.
  - `GenerateResponse` repeats the removal until no tag is left, and the
    turn uses it (see "## Findings").
  - The two agree exactly when the as-written text shows no tag.
  - For a reply of text without `[` with tags in it, such as the text then
    its tag that the persona prompt asks for, both show the text with the
    tags cut out and stripped (`TaggedParse`, `TrailingTag`).
- `config.dfy`: the `RELATIONSHIP_LEVELS` table.
- `database.dfy` contains the following:
  - the `relationship_metrics` row, as a class with four counters;
  - the update and reset of that row;
  - the level scan;
  - `MemoryDatabase`, as a class holding the user_info map, the
    conversations and memories tables, and the memory collection.
- `app.py` is modelled in `app.dfy`:
  - the progress-bar value;
  - the session history, kept as mutable message dictionaries so that the
    shallow copy taken by `messages[-10:]` is modelled as aliasing;
  - `process_user_input`, split into `Ask` (user turn, payload, model
    call) and `Record` (metrics, memories, assistant turn).

Some inputs come from outside the code this project models. Each one is a
parameter of the model:

- the model's raw reply, or `None` when the request failed;
- the caption of the shared image;
- the `documents` field of the memory search;
- the clock.

## Model

| member | source | states |
|---|---|---|
| `MemoryProcessor.ExtractImportantInfo` | ai_models.py:76-87 | The list built by the four conditional appends is exactly the rule-table specification `Extract(text)`: every rule that fires, in rule order. |
| `MemoryProcessor.PersonalInfoFires` | ai_models.py:79 | The personal-information rule fires exactly when "my name is", "i'm" or "i am" is a substring of the lower-cased text. |
| `MemoryProcessor.ExtractUnfolded` | ai_models.py:79-86 | The extractor's output is four independent optional records, concatenated in this order: personal_info/8, preference/6, event/7, emotion/5. Each record is guarded by its own keyword test on the lower-cased text and carries the original text. |
| `MemoryProcessor.CandidatesShape` | ai_models.py:80-86 | Every emitted record holds the input text verbatim and the fixed importance of its type. There are no more records than rules. |
| `MemoryProcessor.CandidatesOrdered` | ai_models.py:79-86 | Records come out in the order of the rules that emitted them. |
| `MemoryProcessor.CandidatesFire` | ai_models.py:79-86 | A type has a record if and only if its rule is in the table and fires on the lower-cased text. |
| `MemoryProcessor.ExtractShape` | ai_models.py:77-87 | At most four records. Each carries the original, not lower-cased, text and importance 8/6/7/5 by type. Types appear in rule order, each at most once. |
| `MemoryProcessor.ExtractFiresIff` | ai_models.py:78-86 | A type's record is present if and only if one of its keywords occurs at some offset of the lower-cased text. |
| `MemoryProcessor.ExtractNothing` | ai_models.py:77-87 | A text with no keyword of any rule yields the empty list. |
| `MemoryProcessor.ExtractCaseInsensitive` | ai_models.py:78 | Two texts equal after lower-casing yield records of the same types and importances, in the same order. |
| `MemoryProcessor.RelevantContext` | ai_models.py:88-93 | The context is empty if and only if the search returned no query lists; otherwise it starts with "Here's what I remember:" and a newline. |
| `MemoryProcessor.ContextLines` | ai_models.py:91 | For documents without line breaks, the context read back line by line is the header followed by one "- doc" line per document of the first query. |
| `MemoryProcessor.JoinBullets` | ai_models.py:91 | A line break followed by the newline-joined "- doc" bullets is each document written as its own bullet: line break, dash, blank, document. |
| `MemoryProcessor.ContextText` | ai_models.py:90-91 | For any non-empty search result, line breaks inside documents included: the context is the header followed by one newline-dash bullet per document of the first query, or by a lone line break when that query found nothing. |
| `ChatModel.TagAt` | ai_models.py:33 | A tag found at the start of a string is one of the three literal tags and is a prefix of the string. When none is found, none of the three tags is a prefix. |
| `ChatModel.FirstTagSpec` | ai_models.py:33-36 | The search returns the value of the leftmost tag, and returns nothing only when no tag occurs anywhere. |
| `ChatModel.RemoveTagsOnce` | ai_models.py:38 | One substitution pass never lengthens the reply, and shortens it whenever it holds a tag. |
| `ChatModel.RemoveAllTags` | ai_models.py:38 | Repeated removal leaves no tag. |
| `ChatModel.ParseReplySpec` | ai_models.py:33-42 | The visible reply never holds a tag, and the sentiment is one of the three values. With a tag, the sentiment is that of the leftmost tag and the reply has no leading or trailing whitespace. Without a tag, the result is the raw reply, unchanged, with "neutral". `ChatModel.TaggedParse` states what the text is. |
| `ChatModel.GenerateResponseSpec` | ai_models.py:27-45 | For the corrected parse the turn uses, and any outcome of the call: the sentiment is one of the three values and the content holds no tag. A failed call gives the apology with "neutral". `ChatModel.TaggedResponse` states the text shown for a tagged reply. |
| `ChatModel.StripKeepsTag` | ai_models.py:38 | `strip()` never removes a tag: a tag starts with `[` and ends with `]`, so it lies inside the stripped text. |
| `ChatModel.ParseReplyAsWrittenSpec` | ai_models.py:33-42 | For the single-pass parse of the source, the sentiment is one of the three values and the text is never longer than the reply. With a tag, the sentiment is that of the leftmost tag and the text has no whitespace at either end. Without a tag, the reply comes back unchanged with "neutral". |
| `ChatModel.AsWrittenAgreesIff` | ai_models.py:33-42 | The single-pass parse gives the corrected result if and only if the text it shows holds no tag. It does so whenever one pass leaves no tag behind. |
| `ChatModel.GenerateResponseAsWrittenSpec` | ai_models.py:27-45 | For `generate_response` as written, and any outcome of the call: the sentiment is one of the three values, and a failed call gives the apology with "neutral". With a tag, the sentiment is the leftmost tag's and the text is stripped. Without a tag, the reply is unchanged with "neutral". It agrees with the corrected version exactly when the text it shows holds no tag. `ChatModel.TaggedResponse` states the text shown for a tagged reply. |
| `ChatModel.ApologyHasNoTag` | ai_models.py:45 | The fallback apology contains no tag. |
| `ChatModel.LoneTag` | ai_models.py:33-38 | A reply that is only a tag yields that tag's value and an empty text after removal. |
| `ChatModel.TagFront` | ai_models.py:33-38 | A reply that starts with a tag yields that tag's value, and one pass drops the tag whole and goes on with the rest. |
| `ChatModel.TaggedOnce` | ai_models.py:33-38 | For text pieces without `[` with tags between them, one substitution pass gives exactly the pieces run together. The search finds the first tag laid out, or nothing when there is no tag. |
| `ChatModel.TaggedParse` | ai_models.py:33-42 | For such a reply with at least one tag, the single-pass parse and the corrected parse give the same result: the pieces run together and stripped, with the first tag's sentiment. |
| `ChatModel.TaggedResponse` | ai_models.py:27-42 | `generate_response`, as written and corrected, shows such a reply as the pieces run together and stripped, with the first tag's sentiment. |
| `ChatModel.TrailingTag` | config.py:41 | For a reply laid out as the persona prompt asks (text without `[`, then its tag), both versions of the parse and of `generate_response` show the text stripped, with the tag's sentiment. |
| `ChatModel.ParseReplyExample` | ai_models.py:33-42 | "Hello! [sentiment: positive]" parses to ("Hello!", "positive"). |
| `ChatModel.NestedTagsOnePass` | ai_models.py:38 | One pass over a tag nested in another removes the inner tag and leaves the outer one reassembled. |
| `ChatModel.AsWrittenLeavesTag` | ai_models.py:33-38 | As written, the nested-tag reply is shown with a complete tag still in it. |
| `Database.ApplyStep` | database.py:88-109 | One update adds exactly one interaction. The positive and negative counters never decrease, and at most one of them moves. Points move by +2 for "positive", -1 for "negative" and +1 for any other string. |
| `Database.ApplyAllCounts` | database.py:88-109 | After any run of updates, the four counters equal their old values plus, respectively: the number of updates; the positive count; the negative count; and 2·positives − negatives + others. |
| `Database.ApplyAllAppend` | database.py:88-109 | Updating with one run of sentiments and then another is the same as updating with their concatenation. |
| `Database.CountersNeverDecrease` | database.py:88-109 | Over any run, interactions grow by the run's length, and the positive and negative counters never decrease. Points stay between −1 and +2 per update. |
| `Database.CountRepeat` | database.py:93-95 | Counting a sentiment in n copies of itself gives n (the helper behind `PositiveTurns`). |
| `Database.PositiveTurns` | database.py:88-110 | From a fresh row, n positive turns give (n, n, 0, 2n). Three turns leave an Acquaintance; twenty-five reach 50 points and a Friend. |
| `Database.LastReached` | database.py:82-85 | The level scan ends at the last table entry whose threshold the points reach, or at none; every later threshold is above the points. |
| `Database.LevelSpec` | database.py:81-85 | Negative points give "Acquaintance". Otherwise the level is the label of the highest threshold at or below the points. |
| `Database.LevelMonotone` | database.py:82-85 | More points never select an earlier entry of the level table. |
| `Database.LevelAt` | database.py:82-85 | An entry the points reach, whose successor they do not reach, gives the level. |
| `Database.LevelBoundaries` | config.py:51-57 | Thresholds are inclusive: 49→Acquaintance, 50→Friend, 149→Friend, 150→Close Friend, 300 and 499→Best Friend, 500 and above→Soulmate, −7→Acquaintance. |
| `Database.MissingRowStatus` | database.py:79 | A missing metrics row reads as level "Acquaintance" with 0 points and no interaction counts. |
| `Database.RelationshipMetrics.constructor` | database.py:32-37 | The row is created with all four counters at 0. |
| `Database.RelationshipMetrics.Update` | database.py:88-110 | The row's new counters are the update of the old ones by the sentiment; `ApplyStep` states what that update does. |
| `Database.RelationshipMetrics.Reset` | database.py:121 | All four counters are 0 afterwards. |
| `Database.Newest` | database.py:58-60 | Exactly min(limit, rows) pairs, or all rows for a negative limit; entry k is the role and content of the k-th newest row. |
| `Database.Without` | database.py:113 | `DELETE ... WHERE id = ?` keeps exactly the rows whose id differs, never adding any. |
| `Database.WithoutAscending` | database.py:112-114 | Deleting a memory row keeps the remaining ids strictly ascending. |
| `Database.WithoutLength` | database.py:112-114 | Deleting removes exactly one row when the id is present and none otherwise. |
| `Database.MemoryDatabase.constructor` | database.py:16-43 | A new store has empty tables, an empty collection, a zero metrics row, and ids that satisfy the store invariant. |
| `Database.MemoryDatabase.SaveUserInfo` | database.py:45-52 | Afterwards `get_user_info(key)` returns the new value, overwriting any earlier one. Every other key reads as before, and nothing else changes. |
| `Database.MemoryDatabase.SaveConversation` | database.py:54-56 | Exactly one row (role, content, now, mood) is appended to the log; nothing else changes. |
| `Database.MemoryDatabase.SaveMemory` | database.py:62-67 | Exactly one memories row with the next id and exactly one collection document with a fresh id are appended, both with the same content, type, importance and context. The store invariant is kept, and nothing else changes. |
| `Database.MemoryDatabase.DeleteMemory` | database.py:112-114 | Only the row with that id leaves the memories table. The collection, the other tables and the id counters are untouched, and the invariant is kept. |
| `Database.MemoryDatabase.GetRelationshipStatus` | database.py:76-86 | The threshold loop leaves exactly `Level(points)` (see `LevelSpec`). The status also carries the points, interactions and positives of the row. |
| `Database.MemoryDatabase.UpdateInteractionMetrics` | database.py:88-110 | The metrics row becomes the sentiment update of its old value. |
| `Database.MemoryDatabase.ClearAllMemories` | database.py:116-124 | Memories, conversations, user_info and the collection are empty, and all four counters are 0. Ids are not reused afterwards. |
| `App.ProgressValue` | app.py:63 | The bar value always lies in [0, 100], and is 100 exactly when points reach 500. Below 500 it is congruent to the points mod 100, with Python's non-negative `%`. |
| `App.ProgressExamples` | app.py:63 | −30 points show as 70, −100 as 0, 250 as 50, 499 as 99, 500 as 100. |
| `App.ContentsWindow` | app.py:132 | The values seen through `messages[-10:]` are the last ten values of the history. |
| `App.EditedLast` | app.py:136 | Changing only the last dictionary changes only the last value of the history. |
| `App.HarvestTurn` | app.py:147 | The (text, label) loop yields the prompt's records labelled "User said", then the response's labelled "Anjali said". |
| `App.StoredValid` | app.py:149-150 | Appending a batch of saved rows and documents keeps ids unique, ascending and below the next ids. |
| `App.Session.constructor` | app.py:28-31 | A new session has no messages, the "friendly" mood and no uploaded file. |
| `App.Session.ShareImage` | app.py:90-92 | The uploaded file is stored in the session; the history and mood are unchanged. |
| `App.Session.AddMessage` | app.py:96-99 | One message is appended to the history and exactly one conversation row, with the current mood, to the log; nothing else changes. |
| `App.Session.SaveRecords` | app.py:149-150 | The records are saved in order with the given label. The rows and documents with consecutive ids are appended, and user_info and conversations are untouched. |
| `App.Session.SaveSource` | app.py:148-150 | The saved rows and documents are exactly the extractor's records for the text, labelled and in order. |
| `App.Session.SaveMemories` | app.py:147-150 | The prompt's records, labelled "User said", are saved before the response's, labelled "Anjali said". The store invariant is kept. |
| `App.Session.AppendNote` | app.py:135-136 | Appending the image note to the payload's last dictionary rewrites the history's last message and nothing else in it. |
| `App.Session.SystemFront` | app.py:133-134 | A fresh system message holding the context is prepended only when the context is non-empty. |
| `App.Session.BuildPayload` | app.py:132-136 | The payload is the optional system context followed by the last up-to-10 history messages, the last one already carrying the image note. The same note shows in the session history through the shared dictionary. |
| `App.Session.Ask` | app.py:112-141 | The user message is added and stored with the plain prompt, while the history shows it with the image note. The uploaded file is consumed, the payload is the window after the user message, and the answer is the parsed reply. |
| `App.Session.Record` | app.py:144-152 | The metrics are updated once with the answer's sentiment, the memories of the prompt and then of the answer are saved, and the assistant message is appended last. |
| `App.Session.ProcessUserInput` | app.py:106-152 | An empty prompt with no uploaded file warns and changes nothing. Otherwise the history gains the user message (with the image note) and the answer, and the log gains both rows. The metrics move once by the answer's sentiment, and the prompt's then the answer's memories are saved. The file is consumed and the store invariant is kept. |

## Left out

- The Streamlit UI is not modelled:
  - page layout, chat rendering and sidebar widgets;
  - `st.rerun`, `st.warning` and the spinners;
  - text-to-speech of assistant messages (app.py:100-104) and voice input;
  - session-state initialisation other than `messages`, `mood`, the uploaded file and the store.
- The Lottie animation fetch (app.py:47-58) is network I/O and is not modelled.
- The OpenRouter request is not modelled (ai_models.py:19-30). This includes the personality and mood system message prepended to the payload, and the temperature.
  - The raw reply text, or `None` for a failed call, is a parameter.
- BLIP captioning (ai_models.py:47-70) is a foreign model. Its caption is an opaque string parameter.
- ChromaDB's embedding and cosine ranking are not modelled (database.py:40-43, 69-70). This covers `search_memories` and the reopening of the collection in `clear_all_memories`.
  - The collection is a sequence of documents.
  - The search result's `documents` field is a parameter.
- `get_all_memories` (database.py:72-74) is not modelled: the turn never lists memories.
- `DailyBriefingModel` and utils.py (weather, quotes, speech and CSS) are I/O wrappers and are not part of this model.
- `datetime.now()` is modelled as one `now` parameter per turn:
  - the same value stamps the conversation rows, the memory rows and the documents' metadata;
  - `ORDER BY timestamp DESC` is modelled as newest-inserted first.
- `uuid.uuid4()` is modelled as a counter that hands out distinct document ids.
- SQLite connections, commits, reopening an existing database file, and integer width are not modelled. Counters are unbounded integers.
- `lower()` is modelled on ASCII letters only, not with full Unicode case mapping.
- `MemoryProcessor.RelevantContext`:
  - The model follows the code when the search returns a first query with no documents (`[[]]`): the context is the header line followed by an empty line, not `""`. Only a missing or empty `documents` list gives `""`.
  - The `results` value being falsy is folded into an empty `documents`.
- `Database.MemoryDatabase.GetUserInfo` is the map lookup itself. Its behaviour is stated through `SaveUserInfo`'s contract.
- `App.Session.ProcessUserInput` folds two cases into `uploadedFile == None`:
  - the `"uploaded_file" not in st.session_state` test;
  - the `pop(..., None)` of a missing key.
- `App.Session.ProcessUserInput` does not model a widget that re-uploads a file on every rerun.
- `App.Session.ProcessUserInput` always completes: exceptions raised during a turn are not modelled. Such exceptions come from `Image.open(...).convert("RGB")` on an upload that cannot be decoded (app.py:124), and from SQLite or ChromaDB. In the program such an exception aborts the turn, after the user message has been added and stored and the file consumed, with no reply, no metrics update and no saved memories.
- `ChatModel.GenerateResponse`:
  - The turn (`Ask`, `Record`, `ProcessUserInput`) uses the corrected parse, which repeats the tag removal until no tag is left. The source makes one `re.sub` pass.
  - Example: for the raw reply `[sentiment: [sentiment: neutral]neutral]` the program shows, stores and mines `[sentiment: neutral]`, where the model uses `""`.
  - `ChatModel.GenerateResponseAsWritten` is the program's version. `ChatModel.GenerateResponseAsWrittenSpec` states its contract and that the two agree exactly when its text holds no tag.
- `ChatModel.GenerateResponseSpec`: its tag-free content holds for the corrected parse only. The program as written can show a tag for nested tags (see "## Findings"). What the program does promise is in `ChatModel.GenerateResponseAsWrittenSpec`.

## Findings

| source | as written | input that shows it | evidently intended | confidence | as-written member | corrected member |
|---|---|---|---|---|---|---|
| ai_models.py:38 | a single `re.sub` pass removes the tags, and never looks again at text that a removal glued together | the reply `[sentiment: [sentiment: neutral]neutral]` is shown as `[sentiment: neutral]` | the reply shown to the user holds no sentiment tag | not executed | `ChatModel.AsWrittenLeavesTag` | `ChatModel.ParseReplySpec` |
