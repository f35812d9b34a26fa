# Chat, document upload and landing redirect: a Dafny model

This project models three parts of the web application's server and client:

- **The chat API** (`/api/chat`, module `Chat`). The chat tables live in the `ChatStore` class. The model covers:
  - listing the caller's conversations;
  - listing the messages of a conversation the caller owns;
  - sending a message.
  Sending a message creates or reuses a conversation; a new conversation's title is derived from the content. A missing conversation and another user's conversation get the same 404. The user message is stored before the text-generation provider is called. The newest 20 messages are sent in chronological order, with "user"/"model" roles and the content appended as one more user turn. The assistant message is stored only when the provider answers.
- **The document API** (`/api/documents`, modules `UploadForm` and `Documents`). The model covers:
  - the parser for the multipart keys `files[N][title]` / `files[N][file]`;
  - the loop that folds those keys into a sparse list of entries;
  - the upload loop that stores one document per entry, stopping at the first failure;
  - the listing of a project's documents.
- **The dashboard landing route** (`/dashboard/`, module `Landing`), which redirects by session and role.

Module `Http` holds the response shapes, status codes and error strings. Module `Seqs` holds the filtering, reversal and ordering facts behind the database queries.

The database is an in-memory store. Rows are kept in insertion order. Ids come from a counter. `defaultNow()` timestamps come from a second counter that grows with every insert. The provider call (`generate`), the file-store creation (`createStore`) and the file upload (`uploadFile`) are function parameters. Each may answer or fail.

The model follows the code on these points:
- The chat request carries no project or document context.
- The message list is returned newest first.
- A conversation's `updatedAt` is never refreshed by these routes.
- The provider request repeats the new content. The content is the last message of the history and also the extra final user turn.
- The request body is validated before the session is checked. An empty `content` therefore gets 400 even without a session.

## Model

| member | source | states |
|---|---|---|
| Chat.Title | apps/server/src/routes/chat.ts:71 | A new conversation's title is the first `min(50, length)` characters of the content followed by "...", even when the content is short. |
| Chat.ShortContentTitle | apps/server/src/routes/chat.ts:71 | Content of at most 50 characters gets the whole content plus "...". |
| Chat.LongContentTitle | apps/server/src/routes/chat.ts:71 | Longer content is cut to its first 50 characters before "..." is added. |
| Chat.RequestTurns | apps/server/src/routes/chat.ts:100-110 | Each history message becomes one turn in the same position. The turn's role is "user" exactly when the stored role is user and "model" otherwise, with a single text part holding the content. The content follows as one final user turn. |
| Chat.FindConversation | apps/server/src/routes/chat.ts:76-78 | The lookup returns a stored conversation with the requested id, and returns nothing exactly when no stored conversation has that id. |
| Chat.HistoryIsNewestWindow | apps/server/src/routes/chat.ts:92-100 | The forwarded history is exactly the newest `min(20, n)` of the conversation's `n` messages, oldest first. |
| Chat.HistoryChronological | apps/server/src/routes/chat.ts:92-100 | When rows are stored in creation order, the forwarded history is strictly increasing in `createdAt`. |
| Chat.ConversationAppend | apps/server/src/routes/chat.ts:85-89 | Storing a message appends it to the end of its conversation's transcript and leaves the earlier transcript as it was. |
| Chat.SavedMessageEndsHistory | apps/server/src/routes/chat.ts:84-96 | After the user message is stored, the history window holds between 1 and 20 messages and ends with that message. |
| Chat.RequestAfterSave | apps/server/src/routes/chat.ts:84-111 | The provider request has between 2 and 21 turns, and its last two turns are both the new content as a user turn. |
| Chat.EmptyTranscript | apps/server/src/routes/chat.ts:92-96 | A conversation with no stored messages has an empty transcript. |
| Chat.FirstMessageRequest | apps/server/src/routes/chat.ts:68-111 | The first message of a new conversation reaches the provider as exactly two identical user turns. |
| Chat.ChatStore.ListConversations | apps/server/src/routes/chat.ts:18-30 | No session gives 401. Otherwise the result holds exactly the caller's conversations, strictly newest `updatedAt` first. |
| Chat.ChatStore.ListMessages | apps/server/src/routes/chat.ts:33-56 | No session gives 401. A conversation that is missing or owned by someone else gives the same 404. Otherwise the result holds exactly that conversation's messages, strictly newest first. |
| Chat.ChatStore.InsertMessage | apps/server/src/routes/chat.ts:85-89 | The store gains one message row with the given conversation, role and content, and the store invariant is kept. |
| Chat.ChatStore.CreateConversation | apps/server/src/routes/chat.ts:68-73 | A conversation row with a fresh id, the given owner and title, and `updatedAt == createdAt` is appended. No message changes. |
| Chat.ChatStore.Exchange | apps/server/src/routes/chat.ts:84-130 | The user message is stored first. The provider receives the request built from the transcript including that message: the newest 20 messages in chronological order, then the content as a final user turn. On failure the result is 500 and nothing more is stored. On success exactly one assistant message with the answer is stored, and both stored messages are returned. |
| Chat.ChatStore.SendMessage | apps/server/src/routes/chat.ts:59-131 | Checks run in order: empty content gives 400, then no session gives 401, then a supplied id the caller does not own gives 404, and these three change nothing. A request without an id creates a titled conversation for the caller, and it stays even when the provider fails. The exchange is as in `Exchange`, and the store invariant is kept. |
| UploadForm.DigitRun | apps/server/src/routes/documents.ts:37 | The greedy `\d+` consumes the longest run of digits at that position. |
| UploadForm.WidthIsOnePastLargestIndex | apps/server/src/routes/documents.ts:41-49 | The entry list's length is one past the largest assigned index: every assigned slot lies below it and the last slot is assigned. |
| UploadForm.CollectEntries | apps/server/src/routes/documents.ts:34-47 | The list has one slot per index up to the largest assigned one, and the last slot is never a hole. Each occupied slot holds the last value assigned to each property, and an unassigned index is a hole. |
| UploadForm.SeenIffAssigned | apps/server/src/routes/documents.ts:35-45 | A slot is occupied exactly when some body key parses to that index. |
| UploadForm.DecimalRoundTrip | apps/server/src/routes/documents.ts:39 | `parseInt` of a decimal rendering gives back the number. |
| UploadForm.KeyParse | apps/server/src/routes/documents.ts:37-40 | `files[<digits>][<prop>]` followed by anything is read as the slot `parseInt(digits)` and that property. |
| UploadForm.KeyRoundTrip | apps/server/src/routes/documents.ts:36-40 | The key a client writes for slot `i` and a property is read back as that slot and property, whatever text follows it. It takes part when `i` is an array index. |
| UploadForm.ZeroPadding | apps/server/src/routes/documents.ts:39 | `parseInt` ignores leading zeros. |
| UploadForm.PaddedKey | apps/server/src/routes/documents.ts:36-40 | A zero-padded index names the same slot: `files[007][title]` assigns slot 7. |
| UploadForm.IgnoredKey | apps/server/src/routes/documents.ts:36 | A key that does not start with `files[` assigns nothing. |
| UploadForm.FindMatchLeftmost | apps/server/src/routes/documents.ts:37 | `key.match` finds a slot and property exactly when the expression matches with them at some position and at no earlier position. |
| UploadForm.MatchAtSound | apps/server/src/routes/documents.ts:37-40 | A match at a position is the text `files[<digits>][<prop>]` there, where the digits are the whole digit run after `files[`, and the slot is `parseInt` of those digits. |
| UploadForm.ContributionSound | apps/server/src/routes/documents.ts:36-40 | A key assigns a slot only when it starts with `files[`, the slot is an array index, and the expression matches with that slot and property at some position and nowhere before it. |
| UploadForm.MatchAtShift | apps/server/src/routes/documents.ts:37 | Whether the expression matches at a position depends only on the text from that position on. |
| UploadForm.MatchAfterText | apps/server/src/routes/documents.ts:36-40 | The match need not start the key: in a key starting with `files[`, the first well-formed `files[<i>][<prop>]` assigns that slot and property whatever text precedes it, e.g. `files[a]files[2][title]` assigns the title of slot 2. |
| Documents.Lookup | apps/server/src/routes/documents.ts:28 | A body field is absent exactly when no key equals the name, and a present value belongs to a field with that key. |
| Documents.ProjectIdOf | apps/server/src/routes/documents.ts:28-32 | The project id is rejected exactly when the field is missing or empty. An accepted id is the field's string form and is never empty. |
| Documents.Accepted | apps/server/src/routes/documents.ts:57-71 | It counts the leading entries the upload loop gets through: each of them has a file, a title and a successful upload, and the next entry does not. |
| Documents.RowsShape | apps/server/src/routes/documents.ts:61-68 | Each stored row belongs to the project and has type "other" and status "completed". Its name is the entry's title, and both `url` and `geminiFileUri` are the upload's returned name. |
| Documents.AllAcceptedIff | apps/server/src/routes/documents.ts:57-73 | The loop gets through every entry exactly when every slot is present with a file and a title and its upload succeeds. |
| Documents.SchemaDefaultIdCollides | packages/db/src/schema/documents.ts:10 | With the schema's one-time default id, any insert after a successful one is rejected by the primary key. |
| Documents.DocumentStore.Insert | apps/server/src/routes/documents.ts:61-68 | A row with a fresh id, distinct from every stored id, is appended, and the uniqueness invariant is kept. |
| Documents.DocumentStore.ListByProject | apps/server/src/routes/documents.ts:13-19 | No session is required. The result holds exactly the documents whose project id equals the parameter, each of them once. |
| Documents.DocumentStore.Upload | apps/server/src/routes/documents.ts:21-78 | The checks run in this order, and the first three change nothing: 1. No session gives 401. 2. A missing or empty project id gives 400 "Missing projectId". 3. No `files[N]` key gives 400 "No files to upload". 4. A failed store creation gives 500 and nothing is stored. After that, one row is stored per leading acceptable entry, in index order. The result is 200 with those rows when every entry is acceptable, and otherwise 500 "Upload failed" with the earlier rows kept. |
| Documents.DocumentStore.StoreEntries | apps/server/src/routes/documents.ts:55-73 | Rows are inserted for the leading acceptable entries, in index order, with consecutive fresh ids. The result is those rows when every entry is acceptable, and otherwise 500 "Upload failed" with the earlier rows kept. |
| Landing.LandingRedirect | apps/web/src/routes/dashboard/index.tsx:6-25 | No session goes to /login, broker to /dashboard/search, admin to /dashboard/admin, and every other role or no role to /dashboard/projects. |
| Landing.RedirectTargets | apps/web/src/routes/dashboard/index.tsx:7-24 | Every visitor goes to one of the four pages, and only visitors without a session go to /login. |
| Landing.RolePages | apps/web/src/routes/dashboard/index.tsx:14-19 | /dashboard/search is reached exactly by brokers, and /dashboard/admin exactly by admins. |
| Landing.DeveloperFallsBackToProjects | apps/web/src/routes/dashboard/index.tsx:20-24 | Developers, other roles and users without a role all go to /dashboard/projects. |

## Findings

| source | as written | input that shows it | evidently intended | confidence | as-written member | corrected member |
|---|---|---|---|---|---|---|
| packages/db/src/schema/documents.ts:10 | `.default(createId())` calls `createId` once, when the schema module loads. Every document insert that leaves `id` out gets that same value. | A POST /api/documents/upload with two well-formed entries `files[0]` and `files[1]` stores the first row. The second insert repeats the id, the primary key rejects it, and the handler answers 500 "Upload failed". Any later upload also fails once one row with that id exists. | A fresh id per row, as `$defaultFn(() => createId())` would give. | high; not executed | Documents.SchemaDefaultIdCollides | Documents.DocumentStore.Insert |

`Documents.InsertWithSchemaDefault` models the insert as written: it fails when the id is already stored. The rest of the model uses `DocumentStore.Insert`, which draws a fresh id from the store's counter.

## Left out

- Transport, Hono routing and CORS are not modelled. Only status codes and error strings are kept. Zod's body for a failed validation is replaced by one placeholder string.
- Zod's uuid format check on the body's `conversationId` in POST / is not modelled. Ids are counter values; a malformed id there gets 400 from the validator before the handler runs.
- Chat.ChatStore.ListMessages: the path id of GET /:conversationId/messages is not validated (chat.ts:39-44). A non-uuid id reaches the query on the `uuid` column `conversation.id`, where Postgres rejects it, and since nothing catches that error the route answers 500. The model's ids are numbers, so it cannot express a malformed id and gives 404 for every id the caller does not own.
- Session retrieval is not modelled. A session is the caller's user id, or none.
- Concurrency and interleaving of requests are not modelled. Each handler runs atomically against the store.
- Database failures other than the NOT NULL `name` column are not modelled. The store accepts every other insert, including a document whose project id names no project, which the foreign key would reject. The primary-key failure on the document id appears only in `Documents.InsertWithSchemaDefault`, the as-written half of the finding above; the upload uses the corrected fresh-id `DocumentStore.Insert`.
- The `createdAt`/`updatedAt` columns of documents, the `citations` column of messages, and `$onUpdate` are not modelled. No modelled route sets them explicitly or branches on them: the inserts leave them to their defaults, and they only pass through in the rows the routes return (GET /project/:projectId, the upload's 200 body, the message list and the send reply).
- Chat.ChatStore.SendMessage: chat.ts:8 imports `model` from the provider module, which exports no such name. The call is modelled as the provider function `generate`, as if the import resolved.
- Chat.Title: takes the first 50 Unicode characters. JavaScript's `substring` counts UTF-16 code units, so content with characters outside the Basic Multilingual Plane can be cut at a different place.
- Documents.DocumentStore.Upload: the first loop visits body keys once each, in insertion order. Hono's handling of a repeated key, and its collection of keys ending in `[]` into arrays, are not modelled.
- Documents.DocumentStore.Upload: the store handle returned by `createFileStore` is not modelled. The upload receives the display name `project-<id>`, which is what `store.displayName` carries.
- Documents.DocumentStore.Upload: an upload response without a `name` is modelled as a failed upload.
- Documents.DraftFor: a non-string `projectId` or `title` is taken as its string conversion "[object File]". What the database driver does with a File object is not modelled.
- Logging is not modelled: `console.error` in the catch blocks of the send handler (chat.ts:128) and the upload handler (documents.ts:75).
- Documents.DocumentStore.Upload: `uploadFile` is a pure function parameter, so the model cannot express that its effect persists. An entry with a file but no title is uploaded to the file store before its insert fails on the NOT NULL `name` column, so the file stays in the store without a row.
- Documents.DocumentStore.ListByProject: the order of its result is not stated, because the query sets no `orderBy`.
- The rest of the repository is not part of this model: the user interface, the project, subscription, user and audit-log routes, and the provider module's internals.
