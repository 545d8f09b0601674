# Enterprise RBAC RAG — access-control core in Dafny

The system is a document question-answering service for a company. Users hold one of three
roles (Executive, Manager, Employee) and belong to a department. They upload PDF documents,
search them and ask questions about them. This project models the part that decides who may
do what:

- **auth.py**: the user table, which registers users and logs them in, and the check whether a
  role may read a document with a given access list.
- **rag.py**: the rest of the access-control core:
  - the access list an upload receives, and whether the uploader may assign it;
  - the ids given to the stored chunks, and how the search recovers the document id from a chunk id;
  - the search's filter over the vector store's ranked hits (role check, department check, one
    answer per document, stop at `top_k`);
  - document deletion and its permission rule;
  - the executive-only read of the audit log.
- **models.py**: the record shapes (roles, users, documents, audit entries).

Layout:

- `wrappers.dfy`: `Option` and `Result`.
- `models.dfy`: the records.
- `auth.dfy`: pure specification functions `Register` and `Login`, plus the class `UserTable`
  whose methods update its `users` map and are proved equal to those functions.
- `rag.dfy`:
  - the upload rules and the chunk-id functions;
  - the search filter, as a method with a loop proved equal to the recursive function `SearchFilter`;
  - the class `DocumentStore`, whose fields hold the vector collection's entries and the
    per-document metadata files;
  - the audit-log read, as a method with a loop.

Numbers are unbounded integers: the source does no fixed-width arithmetic that matters here.

Two source behaviours are modelled as written:

- **A limit below 1 still gives one entry.** `get_audit_logs` compares the count with the limit
  only after appending, so a limit below 1 returns the first entry of a non-empty log. The
  search's filter loop has the same shape: over a given list of hits and a top_k below 1, it keeps
  the first visible hit. `StopAt` states this. In the running system the search never gets
  there: it asks the vector store for `top_k * 3` hits, a count that is not positive when top_k
  is below 1.
- **Delete rights do not follow read rights.** Deleting a document is allowed to every manager
  and executive unless the document lists a role above the caller's. The caller's department
  and read access are not checked. `ManagerMayDeleteUnreadable` exhibits this.

## Model

| member | source | states |
|---|---|---|
| Auth.HasAccessToDocument | auth.py:116-123 | An executive may read every document, even one with an empty access list. Any other role may read exactly the documents whose list contains that role. |
| Auth.AccessMonotone | auth.py:116-123 | Access depends only on which roles are listed: a list containing every role of another grants at least the same access. |
| Auth.Register | auth.py:143-159 | An existing username is refused with an error and the table is left as it was. A new one adds exactly that key, with the given hash, role and department and no last login. No other entry changes. |
| Auth.RegisterTwiceRefused | auth.py:146-147 | Registering a name a second time is always refused and leaves the table as it was after the first registration. |
| Auth.Login | auth.py:78-94 | Login fails exactly for an unknown name or a password that does not verify, and then nothing changes. On success it returns the user with last login set to `now`. Only that entry changes, and the set of names stays the same. |
| Auth.RegisterThenLogin | auth.py:78-94 | A freshly registered user whose hash verifies against the password can log in, with unchanged role and department. |
| Auth.LoginKeepsCredentials | auth.py:86-89 | No login changes any user's password hash, role or department, or adds or removes a user. |
| Auth.UserTable.CreateUser | auth.py:143-159 | The returned result and the new `users` map are those of `Register` on the old map. |
| Auth.UserTable.AuthenticateUser | auth.py:78-94 | The returned user and the new `users` map are those of `Login` on the old map. |
| Rag.DefaultAccessRoles | rag.py:54-60 | Without an explicit list, a document is readable by exactly the roles at or below the uploader's. The list starts with the uploader's role, then descends in rank, naming each role once. |
| Rag.DefaultRolesGrantLowerRanks | rag.py:54-60 | Under the default list, a reader has access exactly when it is an executive or does not outrank the uploader. |
| Rag.ResolveAccessRoles | rag.py:53-67 | A missing or empty list means the defaults, which are always accepted. A given list is accepted exactly when no role in it outranks the uploader, and it is then kept unchanged. A refusal carries the employee reason or the manager reason, and executives are never refused. |
| Rag.DecimalString | rag.py:104 | The chunk number's text is one or more decimal digits. It is a single digit exactly for numbers below 10, and it starts with "0" only for zero. |
| Rag.DecimalStringValue | rag.py:104 | The chunk number's text, read as decimal digits with the most significant first, denotes the number itself. |
| Rag.DecimalStringInjective | rag.py:104 | Different chunk numbers have different texts. |
| Rag.ChunkId | rag.py:104 | A chunk id is the document id, then "_", then the decimal text of the chunk number. |
| Rag.ChunkIds | rag.py:104 | An upload of n chunks gets n ids, id i being the document id, "_" and the digits of i. |
| Rag.ChunkIdsDistinct | rag.py:104 | The chunk ids of one upload are pairwise distinct. |
| Rag.ParseDocId | rag.py:167 | The parsed document id is never longer than the chunk id. `ParseDocIdPrefix` states what it is. |
| Rag.ParseDocIdPrefix | rag.py:167 | The parsed document id is the longest prefix of the chunk id without "_". It is followed by "_" or by the end of the id. |
| Rag.ChunkIdRoundTrip | rag.py:167 | Parsing the id that line 104 builds for any chunk gives back the document id, whenever that id has no "_". |
| Rag.UnderscoreDocIdTruncated | rag.py:167 | A document id containing "_" does not survive the round trip: "a_b" parses back as "a". |
| Rag.Preview | rag.py:90 | The stored content is the first 1000 characters of the text (all of it when shorter) followed by "...". |
| Rag.ChunkRecords | rag.py:104-113 | One store entry per splitter piece, in order: entry i has chunk id i, the piece's text, and metadata giving the document id, title, chunk number i, access list, department and uploader. |
| Rag.EffectiveTitle | rag.py:50-51 | A non-empty title is kept as given. A missing or empty one becomes the file's base name. |
| Rag.PlanUpload | rag.py:46-129 | An upload is refused exactly when the access-list check refuses it, and with the same reason. An accepted upload stores the document under the generated id, with the effective title, the content preview, the source path, page count and uploader's department, the resolved access list and the uploader's name. Its chunk entries are those of `ChunkRecords` for the same title and access list. |
| Rag.UploadRolesBounded | rag.py:53-67 | An accepted upload grants only roles at or below the uploader's, to the document and to every chunk alike. |
| Rag.UploadRecordsWellFormed | rag.py:87-119 | The chunks of an accepted upload correspond to the splitter's pieces in order and have distinct ids. Each is tagged with the document's id, title and access list and the uploader's department. Each id parses back to the document id. |
| Rag.UploadKeepsConsistent | rag.py:100-119 | Adding an upload's metadata and chunks keeps every stored chunk attached to stored document metadata. |
| Rag.DocumentStore.ProcessPdf | rag.py:46-129 | On a refused access list nothing is stored and the error is returned. Otherwise the document's metadata is stored under its id and its chunks are appended after the existing ones. Store consistency is preserved. |
| Rag.ResultOf | rag.py:183-189 | An answer carries the document id parsed from the chunk id, the chunk's title and the chunk's text. |
| Rag.StopAt | rag.py:192-194 | The filter loop over a given list of hits stops at top_k entries when top_k >= 1, and after exactly one entry otherwise. |
| Rag.Visible | rag.py:177-180 | An executive sees every chunk. Anyone else sees a chunk exactly when it is from their department and lists their role. |
| Rag.Picks | rag.py:165-194 | The kept positions lie within the hits and at or after the starting position. `PicksShape` states the rest. |
| Rag.PicksShape | rag.py:165-194 | The filter keeps at most the allowed number of hits. Each kept hit is visible to the caller and belongs to a document not yet answered. Kept hits stay in ranking order and come from distinct documents. |
| Rag.FilterFromPicks | rag.py:162-196 | The answers are exactly the entries built from the kept hits, in order. |
| Rag.PicksBestRanked | rag.py:169-190 | No hit ranked before a kept hit, after the starting position, is a visible hit of the same document. |
| Rag.PicksComplete | rag.py:169-194 | A visible hit of a document not yet answered is dropped only after the room is used up. Otherwise its document is among the kept hits, at the returned position. |
| Rag.SearchFilter | rag.py:162-196 | The answers are one entry per kept hit, in ranking order. |
| Rag.SearchBounded | rag.py:192-194 | Over a given list of hits, the filter gives at most top_k answers (at most one when top_k < 1), and never more answers than hits. |
| Rag.SearchAnswersFromVisibleHits | rag.py:176-189 | Every answer is built from a single hit, in ranking order. The caller's role is on that hit's access list, or the caller is an executive. For a non-executive, the hit is from the caller's department. |
| Rag.SearchNoDuplicateDocuments | rag.py:163-171 | No document appears twice among the answers. |
| Rag.SearchBestRanked | rag.py:165-190 | Each answer is the best-ranked chunk of its document that the caller may see. |
| Rag.SearchAnswersVisible | rag.py:165-194 | A visible hit has its document among the answers when fewer than top_k answers were found, or when it comes no later than the last kept hit. |
| Rag.SearchComplete | rag.py:165-194 | A visible hit whose document is not answered was cut off: top_k answers were found (one when top_k < 1), all from hits ranked before it. |
| Rag.SearchDocuments | rag.py:162-196 | The filter loop, with its skip of answered documents, role check, department check and stop at top_k, returns exactly `SearchFilter`. |
| Rag.MayDelete | rag.py:277-282 | Deletion is allowed exactly when the caller is not an employee and no role on the document's list outranks the caller. |
| Rag.UploaderMayDeleteOwnUpload | rag.py:277-282 | After an accepted upload, the uploader may delete the document exactly when the uploader is not an employee. |
| Rag.ManagerMayDeleteUnreadable | rag.py:277-282 | A manager may delete a document that only employees can read, even though the manager cannot read it. |
| Rag.WithoutDocument | rag.py:284-292 | The document's chunks are all removed. Every other chunk is kept, with the same number of occurrences. |
| Rag.DeleteKeepsConsistent | rag.py:284-298 | After the document's chunks and metadata are removed, every remaining chunk still belongs to a stored document. |
| Rag.DocumentStore.DeleteDocument | rag.py:268-308 | Returns true exactly when the document's metadata exists and the caller may delete it. Then its chunks and metadata are removed and nothing else changes. Otherwise the store is unchanged. Store consistency is preserved. |
| Rag.UploadThenDeleteRestores | rag.py:284-298 | Uploading under a new document id and then deleting that document restores the chunks and the metadata exactly. |
| Rag.GetAuditLogs | rag.py:311-328 | Anyone but an executive gets nothing. An executive gets the oldest entries of the log, in order: min(log length, limit) of them, with one entry when limit < 1. |

## Left out

- PDF reading, text extraction and the page count are inputs to `PlanUpload`/`ProcessPdf`
  (`text`, `pageCount`). So are the text splitter's output (`pieces`) and the base name of the
  file path (`fileBaseName`).
- The uuid generation is an input (`docId`). Nothing checks that it is new, as in the source.
  The round-trip lemmas assume an id without "_", which a uuid4 string satisfies.
- The search's store query is not modelled: no bound ties the number of hits to
  `top_k * 3`, and the rejection of a non-positive count for top_k below 1 is not captured. The
  search members take any ranked list of hits.
- Embeddings and the vector store query (ranking, distances) are
  inputs: the search receives the ranked hits as a sequence.
- `relevance_score` is left out of the answer entries because it comes from the store's distances.
- The store's delete-by-ids, applied to the ids its `where` query returns, is modelled as removing
  every entry whose metadata document id matches.
- The JSON encoding of access lists in chunk metadata, and the `Role(...)` parsing of it, are left
  out: lists are kept as `seq<Role>`, so malformed metadata cannot arise.
- Password hashing and verification (bcrypt) are left out. `Register`/`CreateUser` take the hash
  already computed, and `Login`/`AuthenticateUser` take the verifier as a function parameter.
- JWT creation and decoding (`create_access_token`, `decode_token`) are left out: they are
  library calls.
- File persistence is left out. The user table is the `users` field, and the metadata files are
  the `documents` field. The audit log file is the `log` sequence given to `GetAuditLogs`, empty
  when the file is missing. JSON parsing of its lines is left out.
- `log_action` appends (login, search, upload, delete) are left out, because they only write to
  the log file.
- Clock readings (`created_at`, `last_login`, `uploaded_at`, `last_modified`, audit timestamps)
  are left out, except `last_login`, whose value is the parameter `now`.
- `generate_answer` (LLM prompt and call), the default-user bootstrap and the HTTP layer in
  app.py are left out: they are outside the access-control core.
- Auth.Register: the refusal is an error value rather than a raised ValueError.
- Rag.PlanUpload: an upload refusal is an error value rather than a raised ValueError.
