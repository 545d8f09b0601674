/**
 * rag.py: upload rules, chunk identifiers, the role- and department-aware search
 * filter, document deletion and the audit-log read.
 * PDF extraction, text splitting, uuid generation, embeddings and the vector
 * store's ranking are outside the model: their outputs are parameters.
 */
module Rag {
  import opened Wrappers
  import opened Models
  import opened Auth

  // ---------------------------------------------------------------------------
  // Upload rules
  // ---------------------------------------------------------------------------

  datatype UploadError = EmployeeMayOnlyAssignEmployee | ManagerMayNotAssignExecutive

  /** The access list an upload gets when the uploader names none. */
  function DefaultAccessRoles(uploader: Role): (r: seq<Role>)
    // exactly the roles at or below the uploader's, so the uploader is always among them
    ensures forall role :: role in r <==> role.Rank() <= uploader.Rank()
    // listed from the highest rank down, each role once, starting with the uploader's own
    ensures r[0] == uploader && forall i, j :: 0 <= i < j < |r| ==> r[i].Rank() > r[j].Rank()
  {
    match uploader
    case Executive => [Executive, Manager, Employee]
    case Manager => [Manager, Employee]
    case Employee => [Employee]
  }

  /** Picks the access list of an upload and checks that the uploader may assign it; None and [] both mean "not given". */
  function ResolveAccessRoles(uploader: Role, requested: Option<seq<Role>>): (r: Result<seq<Role>, UploadError>)
    // without a request the defaults apply, and they are always accepted
    ensures requested.None? || requested.value == [] ==> r == Ok(DefaultAccessRoles(uploader))
    // a request is accepted exactly when no listed role outranks the uploader, and is then kept as given
    ensures requested.Some? && requested.value != [] ==>
      && (r.Ok? <==> forall role :: role in requested.value ==> role.Rank() <= uploader.Rank())
      && (r.Ok? ==> r.value == requested.value)
    // the error names the uploader's own restriction
    ensures r.Err? ==> uploader != Executive
    ensures r.Err? && uploader == Employee ==> r.error == EmployeeMayOnlyAssignEmployee
    ensures r.Err? && uploader == Manager ==> r.error == ManagerMayNotAssignExecutive
  {
    var roles := if requested.None? || requested.value == [] then DefaultAccessRoles(uploader) else requested.value;
    if uploader == Employee && exists role :: role in roles && role != Employee then
      Err(EmployeeMayOnlyAssignEmployee)
    else if uploader == Manager && Executive in roles then
      Err(ManagerMayNotAssignExecutive)
    else
      Ok(roles)
  }

  /** Under the default access list a role other than Executive may read the document exactly when it does not outrank the uploader. */
  lemma DefaultRolesGrantLowerRanks(uploader: Role, reader: Role)
    ensures HasAccessToDocument(reader, DefaultAccessRoles(uploader)) <==> reader == Executive || reader.Rank() <= uploader.Rank()
  {
  }

  // ---------------------------------------------------------------------------
  // Chunk identifiers: document id, "_", chunk number; parsed back by cutting at the first "_"
  // ---------------------------------------------------------------------------

  function DigitChar(d: nat): (c: char)
    requires d < 10
    ensures '0' <= c <= '9' && c as int == '0' as int + d
  {
    ('0' as int + d) as char
  }

  /** `str(n)` for a natural number: its decimal digits, most significant first, without leading zeros. */
  function DecimalString(n: nat): (s: string)
    ensures |s| >= 1
    ensures forall k :: 0 <= k < |s| ==> '0' <= s[k] <= '9'
    ensures n < 10 <==> |s| == 1
    // only zero itself is written with a leading '0'
    ensures s[0] == '0' ==> n == 0
  {
    if n < 10 then [DigitChar(n)] else DecimalString(n / 10) + [DigitChar(n % 10)]
  }

  /** The number a string of decimal digits denotes, most significant digit first. */
  function DigitsValue(s: string): nat
    requires forall k :: 0 <= k < |s| ==> '0' <= s[k] <= '9'
  {
    if s == [] then 0 else DigitsValue(s[..|s| - 1]) * 10 + (s[|s| - 1] as int - '0' as int)
  }

  /** The decimal string of n denotes n. */
  lemma {:induction false} DecimalStringValue(n: nat)
    ensures DigitsValue(DecimalString(n)) == n
  {
    var s := DecimalString(n);
    if n >= 10 {
      assert s[..|s| - 1] == DecimalString(n / 10);
      DecimalStringValue(n / 10);
    }
  }

  /** Different numbers have different decimal strings. */
  lemma DecimalStringInjective(m: nat, n: nat)
    requires DecimalString(m) == DecimalString(n)
    ensures m == n
  {
    DecimalStringValue(m);
    DecimalStringValue(n);
  }

  /** The identifier of chunk `i` of document `docId`. */
  function ChunkId(docId: string, i: nat): (id: string)
    // the document id, then "_", then the digits of i
    ensures |id| > |docId| + 1 && id[..|docId|] == docId && id[|docId|] == '_'
    ensures id[|docId| + 1..] == DecimalString(i)
  {
    docId + "_" + DecimalString(i)
  }

  /** The identifiers an upload gives its `n` chunks. */
  function ChunkIds(docId: string, n: nat): (ids: seq<string>)
    ensures |ids| == n
    ensures forall i :: 0 <= i < n ==> ids[i] == ChunkId(docId, i)
  {
    seq(n, i requires 0 <= i < n => ChunkId(docId, i))
  }

  /** The part of a chunk id before its first "_", or all of it when it has none. */
  function ParseDocId(chunkId: string): (r: string)
    ensures |r| <= |chunkId|
  {
    if |chunkId| == 0 || chunkId[0] == '_' then "" else [chunkId[0]] + ParseDocId(chunkId[1..])
  }

  /** The parse gives the longest prefix without "_": it is followed by "_" or by the end of the id. */
  lemma {:induction false} ParseDocIdPrefix(chunkId: string)
    ensures var r := ParseDocId(chunkId);
      && |r| <= |chunkId| && r == chunkId[..|r|]
      && '_' !in r
      && (|r| < |chunkId| ==> chunkId[|r|] == '_')
  {
    if |chunkId| != 0 && chunkId[0] != '_' {
      ParseDocIdPrefix(chunkId[1..]);
    }
  }

  /** Parsing the id of any chunk of a document gives the document id back, when that id has no "_" (a uuid4 string has none). */
  lemma ChunkIdRoundTrip(docId: string, i: nat)
    requires '_' !in docId
    ensures ParseDocId(ChunkId(docId, i)) == docId
  {
    var id := ChunkId(docId, i);
    var r := ParseDocId(id);
    ParseDocIdPrefix(id);
    assert id[..|docId|] == docId && id[|docId|] == '_';
  }

  /** A document id that contains "_" is cut short by the parse: the "_" in chunk ids is ambiguous. */
  lemma UnderscoreDocIdTruncated()
    ensures ParseDocId(ChunkId("a_b", 0)) == "a"
  {
  }

  /** One upload never gives two chunks the same id. */
  lemma ChunkIdsDistinct(docId: string, n: nat, i: nat, j: nat)
    requires i < j < n
    ensures ChunkIds(docId, n)[i] != ChunkIds(docId, n)[j]
  {
    var a, b := ChunkId(docId, i), ChunkId(docId, j);
    if a == b {
      DecimalStringInjective(i, j);
    }
  }

  // ---------------------------------------------------------------------------
  // Stored chunks and the upload
  // ---------------------------------------------------------------------------

  /** The metadata the vector store keeps with each chunk (upload time left out). */
  datatype ChunkMetadata = ChunkMetadata(
    documentId: string,
    title: string,
    chunk: nat,
    accessRoles: seq<Role>,
    department: string,
    uploadedBy: string)

  /** One entry of the vector store: its id, its text and its metadata. */
  datatype StoredChunk = StoredChunk(id: string, text: string, metadata: ChunkMetadata)

  /** What a successful upload produces: the document record and the chunks added to the store. */
  datatype Upload = Upload(document: Document, records: seq<StoredChunk>)

  /** Longest stored preview, in characters, before "..." is appended. */
  const PreviewLength: nat := 1000

  /** The content preview stored with a document. */
  function Preview(text: string): (p: string)
    // the first 1000 characters of the text (all of it when shorter), then "..."
    ensures |p| - 3 == (if |text| <= PreviewLength then |text| else PreviewLength)
    ensures p[..|p| - 3] == text[..|p| - 3] && p[|p| - 3..] == "..."
  {
    (if |text| <= PreviewLength then text else text[..PreviewLength]) + "..."
  }

  /** The title given, or the file's base name when none (or an empty one) is given. */
  function EffectiveTitle(title: Option<string>, fileBaseName: string): (t: string)
    // a non-empty title is kept as given; otherwise the base name stands in
    ensures title.Some? && title.value != "" ==> t == title.value
    ensures title.None? || title.value == "" ==> t == fileBaseName
    ensures t == "" ==> fileBaseName == ""
  {
    if title.None? || title.value == "" then fileBaseName else title.value
  }

  /** The store entries for `pieces`, the splitter's output, in order. */
  function ChunkRecords(docId: string, title: string, roles: seq<Role>, uploader: User, pieces: seq<string>)
    : (records: seq<StoredChunk>)
    ensures |records| == |pieces|
    ensures forall i :: 0 <= i < |pieces| ==>
      records[i] == StoredChunk(ChunkId(docId, i), pieces[i],
                                ChunkMetadata(docId, title, i, roles, uploader.department, uploader.username))
  {
    seq(|pieces|, i requires 0 <= i < |pieces| =>
      StoredChunk(ChunkId(docId, i), pieces[i],
                  ChunkMetadata(docId, title, i, roles, uploader.department, uploader.username)))
  }

  /**
   * `process_pdf` as a value: `text` is the extracted text, `pageCount` the number of pages,
   * `pieces` the splitter's chunks and `docId` the generated uuid.
   */
  function PlanUpload(filePath: string, fileBaseName: string, uploader: User, title: Option<string>,
                      requested: Option<seq<Role>>, text: string, pageCount: nat, pieces: seq<string>,
                      docId: string)
    : (r: Result<Upload, UploadError>)
    // refused exactly when the role check refuses, and for the same reason
    ensures r.Err? <==> ResolveAccessRoles(uploader.role, requested).Err?
    ensures r.Err? ==> r.error == ResolveAccessRoles(uploader.role, requested).error
    // an accepted upload stores the resolved access list, the effective title, the preview,
    // the source path, page count and uploader's department, and the uploader's name
    ensures r.Ok? ==>
      var roles, t := ResolveAccessRoles(uploader.role, requested).value, EffectiveTitle(title, fileBaseName);
      && r.value.document.id == docId
      && r.value.document.title == t
      && r.value.document.content == Preview(text)
      && r.value.document.metadata == DocumentMetadata(filePath, pageCount, uploader.department)
      && r.value.document.accessRoles == roles
      && r.value.document.uploadedBy == uploader.username
      && r.value.records == ChunkRecords(docId, t, roles, uploader, pieces)
  {
    match ResolveAccessRoles(uploader.role, requested)
    case Err(e) => Err(e)
    case Ok(roles) =>
      var t := EffectiveTitle(title, fileBaseName);
      var document := Document(docId, t, Preview(text), DocumentMetadata(filePath, pageCount, uploader.department),
                               roles, uploader.username);
      Ok(Upload(document, ChunkRecords(docId, t, roles, uploader, pieces)))
  }

  /** An accepted upload only grants roles at or below the uploader's, to the document and to every chunk. */
  lemma UploadRolesBounded(filePath: string, fileBaseName: string, uploader: User, title: Option<string>,
                           requested: Option<seq<Role>>, text: string, pageCount: nat, pieces: seq<string>,
                           docId: string)
    requires PlanUpload(filePath, fileBaseName, uploader, title, requested, text, pageCount, pieces, docId).Ok?
    ensures var u := PlanUpload(filePath, fileBaseName, uploader, title, requested, text, pageCount, pieces, docId).value;
      && (forall role :: role in u.document.accessRoles ==> role.Rank() <= uploader.role.Rank())
      && (forall c :: c in u.records ==> c.metadata.accessRoles == u.document.accessRoles)
  {
  }

  /**
   * The chunks of an accepted upload: one per piece, in order, with distinct ids, all tagged
   * with the document's id, title, roles and the uploader's department, and each id parses back
   * to the document id.
   */
  lemma UploadRecordsWellFormed(filePath: string, fileBaseName: string, uploader: User, title: Option<string>,
                                requested: Option<seq<Role>>, text: string, pageCount: nat, pieces: seq<string>,
                                docId: string)
    requires '_' !in docId
    requires PlanUpload(filePath, fileBaseName, uploader, title, requested, text, pageCount, pieces, docId).Ok?
    ensures var u := PlanUpload(filePath, fileBaseName, uploader, title, requested, text, pageCount, pieces, docId).value;
      && |u.records| == |pieces|
      && (forall i :: 0 <= i < |pieces| ==> u.records[i].text == pieces[i])
      && (forall i, j :: 0 <= i < j < |pieces| ==> u.records[i].id != u.records[j].id)
      && (forall c :: c in u.records ==>
            && c.metadata.documentId == docId == u.document.id
            && ParseDocId(c.id) == docId
            && c.metadata.title == u.document.title
            && c.metadata.accessRoles == u.document.accessRoles
            && c.metadata.department == uploader.department)
  {
    var u := PlanUpload(filePath, fileBaseName, uploader, title, requested, text, pageCount, pieces, docId).value;
    forall i, j | 0 <= i < j < |pieces| ensures u.records[i].id != u.records[j].id {
      ChunkIdsDistinct(docId, |pieces|, i, j);
    }
    forall c | c in u.records ensures ParseDocId(c.id) == docId {
      var i :| 0 <= i < |u.records| && u.records[i] == c;
      ChunkIdRoundTrip(docId, i);
    }
  }

  // ---------------------------------------------------------------------------
  // Search filter
  // ---------------------------------------------------------------------------

  /** A ranked hit of the vector store: chunk id, chunk text and chunk metadata. */
  datatype Hit = Hit(id: string, text: string, metadata: ChunkMetadata)

  /** One entry of the search answer (relevance score left out). */
  datatype SearchResult = SearchResult(documentId: string, title: string, chunk: string, metadata: ChunkMetadata)

  /** The role check and, for everyone but executives, the department check that a hit must pass. */
  predicate Visible(user: User, m: ChunkMetadata)
    // executives see every chunk; anyone else only chunks of their department that list their role
    ensures Visible(user, m) <==>
      user.role == Executive || (user.role in m.accessRoles && m.department == user.department)
  {
    HasAccessToDocument(user.role, m.accessRoles) && (user.role == Executive || m.department == user.department)
  }

  /** The answer entry built from a single hit. */
  function ResultOf(h: Hit): (r: SearchResult)
    ensures r.documentId == ParseDocId(h.id) && r.title == h.metadata.title && r.chunk == h.text
  {
    SearchResult(ParseDocId(h.id), h.metadata.title, h.text, h.metadata)
  }

  /** The document ids of a list of answers. */
  function DocIds(results: seq<SearchResult>): set<string> {
    set k | 0 <= k < |results| :: results[k].documentId
  }

  /**
   * How many entries the loops stop at: they compare the count with n only after appending,
   * so a bound below 1 still lets one entry through.
   */
  function StopAt(n: int): (c: nat)
    ensures n >= 1 ==> c == n
    ensures n < 1 ==> c == 1
  {
    if n >= 1 then n else 1
  }

  /**
   * The positions, from `from` on, of the hits the filter keeps when `room` more answers are
   * allowed and the documents in `seen` are already answered: a hit is kept when its document
   * is new and it passes the role and department checks, and the filter stops once the room
   * is used up.
   */
  function Picks(user: User, hits: seq<Hit>, from: nat, room: nat, seen: set<string>): (ps: seq<nat>)
    requires from <= |hits|
    ensures forall k :: 0 <= k < |ps| ==> from <= ps[k] < |hits|
    decreases |hits| - from
  {
    if from == |hits| || room == 0 then []
    else
      var docId := ParseDocId(hits[from].id);
      if docId !in seen && Visible(user, hits[from].metadata) then
        [from] + Picks(user, hits, from + 1, room - 1, seen + {docId})
      else
        Picks(user, hits, from + 1, room, seen)
  }

  /**
   * The kept hits: at most `room` of them, within range, each visible and of a document not
   * yet answered, in ranking order, and never the same document twice.
   */
  lemma {:induction false} PicksShape(user: User, hits: seq<Hit>, from: nat, room: nat, seen: set<string>)
    requires from <= |hits|
    ensures var ps := Picks(user, hits, from, room, seen);
      && |ps| <= room
      && (forall k :: 0 <= k < |ps| ==>
            from <= ps[k] < |hits| && Visible(user, hits[ps[k]].metadata) && ParseDocId(hits[ps[k]].id) !in seen)
      && (forall k, l :: 0 <= k < l < |ps| ==>
            ps[k] < ps[l] && ParseDocId(hits[ps[k]].id) != ParseDocId(hits[ps[l]].id))
    decreases |hits| - from
  {
    if from < |hits| && room != 0 {
      var docId := ParseDocId(hits[from].id);
      if docId !in seen && Visible(user, hits[from].metadata) {
        PicksShape(user, hits, from + 1, room - 1, seen + {docId});
      } else {
        PicksShape(user, hits, from + 1, room, seen);
      }
    }
  }

  /** The answers built from the kept positions. */
  function ResultsAt(hits: seq<Hit>, ps: seq<nat>): (results: seq<SearchResult>)
    requires forall k :: 0 <= k < |ps| ==> ps[k] < |hits|
    ensures |results| == |ps|
    ensures forall k :: 0 <= k < |ps| ==> results[k] == ResultOf(hits[ps[k]])
  {
    seq(|ps|, k requires 0 <= k < |ps| => ResultOf(hits[ps[k]]))
  }

  /**
   * The answers the filter gives from position `from` on, with `room` more answers allowed and
   * the documents in `seen` already answered: the same walk as `Picks`, building the answers.
   */
  function Filter(user: User, hits: seq<Hit>, from: nat, room: nat, seen: set<string>): seq<SearchResult>
    requires from <= |hits|
    decreases |hits| - from
  {
    if from == |hits| || room == 0 then []
    else
      var docId := ParseDocId(hits[from].id);
      if docId !in seen && Visible(user, hits[from].metadata) then
        [ResultOf(hits[from])] + Filter(user, hits, from + 1, room - 1, seen + {docId})
      else
        Filter(user, hits, from + 1, room, seen)
  }

  /** The answers are exactly those built from the kept positions. */
  lemma {:induction false} FilterFromPicks(user: User, hits: seq<Hit>, from: nat, room: nat, seen: set<string>)
    requires from <= |hits|
    ensures Filter(user, hits, from, room, seen) == ResultsAt(hits, Picks(user, hits, from, room, seen))
    decreases |hits| - from
  {
    if from < |hits| && room != 0 {
      var docId := ParseDocId(hits[from].id);
      if docId !in seen && Visible(user, hits[from].metadata) {
        var rest := Picks(user, hits, from + 1, room - 1, seen + {docId});
        FilterFromPicks(user, hits, from + 1, room - 1, seen + {docId});
        assert ResultsAt(hits, [from] + rest) == [ResultOf(hits[from])] + ResultsAt(hits, rest);
      } else {
        FilterFromPicks(user, hits, from + 1, room, seen);
      }
    }
  }

  /** The answer of `search_documents` for the ranked `hits`. */
  function SearchFilter(user: User, hits: seq<Hit>, topK: int): (results: seq<SearchResult>)
    // one answer per kept hit, in ranking order
    ensures results == ResultsAt(hits, Picks(user, hits, 0, StopAt(topK), {}))
  {
    FilterFromPicks(user, hits, 0, StopAt(topK), {});
    Filter(user, hits, 0, StopAt(topK), {})
  }

  /** No visible hit of a kept hit's document is ranked above it (after `from`). */
  lemma {:induction false} PicksBestRanked(user: User, hits: seq<Hit>, from: nat, room: nat, seen: set<string>,
                                           k: nat, j: nat)
    requires from <= |hits|
    requires k < |Picks(user, hits, from, room, seen)|
    requires from <= j < Picks(user, hits, from, room, seen)[k]
    requires ParseDocId(hits[j].id) == ParseDocId(hits[Picks(user, hits, from, room, seen)[k]].id)
    ensures !Visible(user, hits[j].metadata)
    decreases |hits| - from
  {
    var ps := Picks(user, hits, from, room, seen);
    var docId := ParseDocId(hits[from].id);
    if docId !in seen && Visible(user, hits[from].metadata) {
      var rest := Picks(user, hits, from + 1, room - 1, seen + {docId});
      assert ps == [from] + rest;
      if j == from {
        // answer k > 0 comes from the rest, whose documents all differ from the one at `from`
        PicksShape(user, hits, from + 1, room - 1, seen + {docId});
        assert false;
      } else {
        PicksBestRanked(user, hits, from + 1, room - 1, seen + {docId}, k - 1, j);
      }
    } else {
      var rest := Picks(user, hits, from + 1, room, seen);
      assert ps == rest;
      if j == from && docId in seen {
        // answer k's document is not in `seen`, yet it is the document at `from`
        PicksShape(user, hits, from + 1, room, seen);
        assert false;
      } else if j != from {
        PicksBestRanked(user, hits, from + 1, room, seen, k, j);
      }
    }
  }

  /**
   * A visible hit of a document not answered before is only dropped once the room is used up,
   * past the last kept hit: a hit that comes earlier, or any hit when room is left, has its
   * document among the kept hits, at the position `k` returned.
   */
  lemma {:induction false} PicksComplete(user: User, hits: seq<Hit>, from: nat, room: nat, seen: set<string>, j: nat)
    returns (k: nat)
    requires from <= j < |hits|
    requires Visible(user, hits[j].metadata) && ParseDocId(hits[j].id) !in seen
    requires var ps := Picks(user, hits, from, room, seen);
      |ps| < room || (ps != [] && j <= ps[|ps| - 1])
    ensures var ps := Picks(user, hits, from, room, seen);
      k < |ps| && ParseDocId(hits[ps[k]].id) == ParseDocId(hits[j].id)
    decreases |hits| - from
  {
    var ps := Picks(user, hits, from, room, seen);
    if room == 0 {
      assert false;
    }
    var docId := ParseDocId(hits[from].id);
    if docId !in seen && Visible(user, hits[from].metadata) {
      var rest := Picks(user, hits, from + 1, room - 1, seen + {docId});
      assert ps == [from] + rest;
      if ParseDocId(hits[j].id) == docId {
        k := 0;
        assert ps[k] == from;
      } else {
        assert |rest| < room - 1 || (rest != [] && j <= rest[|rest| - 1]);
        var k' := PicksComplete(user, hits, from + 1, room - 1, seen + {docId}, j);
        k := k' + 1;
        assert ps[k] == rest[k'];
      }
    } else {
      // hit j would have been kept at `from`
      assert j != from;
      assert ps == Picks(user, hits, from + 1, room, seen);
      k := PicksComplete(user, hits, from + 1, room, seen, j);
    }
  }

  /** At most top_k answers (one when top_k < 1), and never more than there are hits. */
  lemma SearchBounded(user: User, hits: seq<Hit>, topK: int)
    ensures topK >= 1 ==> |SearchFilter(user, hits, topK)| <= topK
    ensures |SearchFilter(user, hits, topK)| <= StopAt(topK)
    ensures |SearchFilter(user, hits, topK)| <= |hits|
  {
    PicksShape(user, hits, 0, StopAt(topK), {});
    var ps := Picks(user, hits, 0, StopAt(topK), {});
    PicksIncreasingBound(ps, |hits|);
  }

  /** Strictly increasing positions below `bound` are at most `bound` many. */
  lemma {:induction false} PicksIncreasingBound(ps: seq<nat>, bound: nat)
    requires forall k :: 0 <= k < |ps| ==> ps[k] < bound
    requires forall k, l :: 0 <= k < l < |ps| ==> ps[k] < ps[l]
    ensures |ps| <= bound
  {
    if ps != [] {
      var last := ps[|ps| - 1];
      PicksIncreasingBound(ps[..|ps| - 1], last);
    }
  }

  /**
   * Each answer is built from a single hit that the caller may see, and the answers keep the
   * vector store's ranking order: answer k comes from hit `ps[k]`, with `ps` increasing.
   */
  lemma SearchAnswersFromVisibleHits(user: User, hits: seq<Hit>, topK: int)
    ensures var results, ps := SearchFilter(user, hits, topK), Picks(user, hits, 0, StopAt(topK), {});
      && |ps| == |results|
      && (forall k :: 0 <= k < |ps| ==>
            && results[k] == ResultOf(hits[ps[k]])
            && HasAccessToDocument(user.role, hits[ps[k]].metadata.accessRoles)
            && (user.role != Executive ==> hits[ps[k]].metadata.department == user.department))
      && (forall k, l :: 0 <= k < l < |ps| ==> ps[k] < ps[l])
  {
    PicksShape(user, hits, 0, StopAt(topK), {});
  }

  /** No document is answered twice. */
  lemma SearchNoDuplicateDocuments(user: User, hits: seq<Hit>, topK: int)
    ensures var results := SearchFilter(user, hits, topK);
      forall k, l :: 0 <= k < l < |results| ==> results[k].documentId != results[l].documentId
  {
    PicksShape(user, hits, 0, StopAt(topK), {});
  }

  /** Each answer is the best-ranked chunk of its document that the caller may see. */
  lemma SearchBestRanked(user: User, hits: seq<Hit>, topK: int)
    ensures var results, ps := SearchFilter(user, hits, topK), Picks(user, hits, 0, StopAt(topK), {});
      |ps| == |results| &&
      forall k, j :: 0 <= k < |ps| && 0 <= j < ps[k] && ParseDocId(hits[j].id) == results[k].documentId ==>
        !Visible(user, hits[j].metadata)
  {
    var results, ps := SearchFilter(user, hits, topK), Picks(user, hits, 0, StopAt(topK), {});
    assert |ps| == |results|;
    forall k, j | 0 <= k < |ps| && 0 <= j < ps[k] && ParseDocId(hits[j].id) == results[k].documentId
      ensures !Visible(user, hits[j].metadata)
    {
      PicksBestRanked(user, hits, 0, StopAt(topK), {}, k, j);
    }
  }

  /**
   * A visible hit has its document answered when fewer than top_k answers were found, or when it
   * comes no later than the last kept hit.
   */
  lemma SearchAnswersVisible(user: User, hits: seq<Hit>, topK: int, j: nat)
    requires j < |hits| && Visible(user, hits[j].metadata)
    requires var ps := Picks(user, hits, 0, StopAt(topK), {});
      |ps| < StopAt(topK) || (ps != [] && j <= ps[|ps| - 1])
    ensures ParseDocId(hits[j].id) in DocIds(SearchFilter(user, hits, topK))
  {
    var results, ps := SearchFilter(user, hits, topK), Picks(user, hits, 0, StopAt(topK), {});
    var k := PicksComplete(user, hits, 0, StopAt(topK), {}, j);
    assert results[k].documentId == ParseDocId(hits[j].id);
  }

  /** A visible hit of a document that is not answered was only dropped because top_k answers were already found before it. */
  lemma SearchComplete(user: User, hits: seq<Hit>, topK: int, j: nat)
    requires j < |hits| && Visible(user, hits[j].metadata)
    requires ParseDocId(hits[j].id) !in DocIds(SearchFilter(user, hits, topK))
    ensures var results, ps := SearchFilter(user, hits, topK), Picks(user, hits, 0, StopAt(topK), {});
      |results| == StopAt(topK) && |ps| == |results| && j > ps[|ps| - 1]
  {
    var ps := Picks(user, hits, 0, StopAt(topK), {});
    SearchBounded(user, hits, topK);
    if |ps| < StopAt(topK) || (ps != [] && j <= ps[|ps| - 1]) {
      SearchAnswersVisible(user, hits, topK, j);
      assert false;
    }
  }

  /** `search_documents`' filter loop over the ranked hits, proved to give the answers `SearchFilter` specifies. */
  method SearchDocuments(user: User, hits: seq<Hit>, topK: int) returns (results: seq<SearchResult>)
    ensures results == SearchFilter(user, hits, topK)
  {
    results := [];
    var seen: set<string> := {};
    var i := 0;
    while i < |hits|
      invariant 0 <= i <= |hits|
      invariant |results| < StopAt(topK)
      invariant results + Filter(user, hits, i, StopAt(topK) - |results|, seen) == SearchFilter(user, hits, topK)
    {
      var hit := hits[i];
      var originalDocId := ParseDocId(hit.id);
      if originalDocId in seen {
        i := i + 1;
        continue;
      }
      if HasAccessToDocument(user.role, hit.metadata.accessRoles) {
        if user.role != Executive && hit.metadata.department != user.department {
          i := i + 1;
          continue;
        }
        ghost var later := Filter(user, hits, i + 1, StopAt(topK) - |results| - 1, seen + {originalDocId});
        assert (results + [ResultOf(hit)]) + later == results + ([ResultOf(hit)] + later);
        results := results + [ResultOf(hit)];
        seen := seen + {originalDocId};
        if |results| >= topK {
          break;
        }
      }
      i := i + 1;
    }
  }

  // ---------------------------------------------------------------------------
  // Delete
  // ---------------------------------------------------------------------------

  /** The permission part of `delete_document`, for a document whose metadata exists. */
  function MayDelete(role: Role, accessRoles: seq<Role>): (r: bool)
    // allowed exactly when the caller is not an employee and no listed role outranks the caller
    ensures r <==> role != Employee && forall a :: a in accessRoles ==> a.Rank() <= role.Rank()
  {
    if role == Employee then false
    else if role == Manager && Executive in accessRoles then false
    else true
  }

  /** The store after removing every chunk tagged with `docId`. */
  function WithoutDocument(chunks: seq<StoredChunk>, docId: string): (r: seq<StoredChunk>)
    // chunks of the document are gone; every other chunk is kept, as often as it occurred
    ensures forall c :: multiset(r)[c] == if c.metadata.documentId == docId then 0 else multiset(chunks)[c]
    ensures |r| <= |chunks|
  {
    if chunks == [] then []
    else
      var rest := WithoutDocument(chunks[1..], docId);
      assert chunks == [chunks[0]] + chunks[1..];
      if chunks[0].metadata.documentId == docId then rest else [chunks[0]] + rest
  }

  /** Removing a document's chunks after they were appended leaves the other chunks as they were, in order. */
  lemma {:induction false} WithoutDocumentAppended(chunks: seq<StoredChunk>, added: seq<StoredChunk>, docId: string)
    requires forall c :: c in added ==> c.metadata.documentId == docId
    ensures WithoutDocument(chunks + added, docId) == WithoutDocument(chunks, docId)
  {
    if chunks == [] {
      WithoutDocumentAll(added, docId);
      assert chunks + added == added;
    } else {
      assert (chunks + added)[1..] == chunks[1..] + added;
      WithoutDocumentAppended(chunks[1..], added, docId);
    }
  }

  lemma WithoutDocumentAll(chunks: seq<StoredChunk>, docId: string)
    requires forall c :: c in chunks ==> c.metadata.documentId == docId
    ensures WithoutDocument(chunks, docId) == []
  {
  }

  lemma {:induction false} WithoutDocumentAbsent(chunks: seq<StoredChunk>, docId: string)
    requires forall c :: c in chunks ==> c.metadata.documentId != docId
    ensures WithoutDocument(chunks, docId) == chunks
  {
    if chunks != [] {
      assert chunks[0] in chunks;
      WithoutDocumentAbsent(chunks[1..], docId);
    }
  }

  /** Every stored chunk belongs to a document whose metadata is stored. */
  ghost predicate Consistent(chunks: seq<StoredChunk>, documents: map<string, Document>) {
    forall c :: c in chunks ==> c.metadata.documentId in documents
  }

  /** A delete keeps the store consistent: no chunk of the removed document is left behind. */
  lemma DeleteKeepsConsistent(chunks: seq<StoredChunk>, documents: map<string, Document>, docId: string)
    requires Consistent(chunks, documents)
    ensures Consistent(WithoutDocument(chunks, docId), documents - {docId})
  {
  }

  /** An accepted upload keeps the store consistent. */
  lemma UploadKeepsConsistent(chunks: seq<StoredChunk>, documents: map<string, Document>, u: Upload)
    requires Consistent(chunks, documents)
    requires forall c :: c in u.records ==> c.metadata.documentId == u.document.id
    ensures Consistent(chunks + u.records, documents[u.document.id := u.document])
  {
  }

  /**
   * Every non-employee may delete what they could upload; employees delete nothing,
   * not even their own uploads.
   */
  lemma UploaderMayDeleteOwnUpload(filePath: string, fileBaseName: string, uploader: User, title: Option<string>,
                                   requested: Option<seq<Role>>, text: string, pageCount: nat, pieces: seq<string>,
                                   docId: string)
    requires PlanUpload(filePath, fileBaseName, uploader, title, requested, text, pageCount, pieces, docId).Ok?
    ensures var u := PlanUpload(filePath, fileBaseName, uploader, title, requested, text, pageCount, pieces, docId).value;
      MayDelete(uploader.role, u.document.accessRoles) <==> uploader.role != Employee
  {
  }

  /** The delete permission does not follow read access: a manager may delete a document only employees can read. */
  lemma ManagerMayDeleteUnreadable()
    ensures MayDelete(Manager, [Employee]) && !HasAccessToDocument(Manager, [Employee])
  {
  }

  // ---------------------------------------------------------------------------
  // The document store: the vector collection and the per-document metadata files
  // ---------------------------------------------------------------------------

  class DocumentStore {
    /** The vector collection's entries. */
    var chunks: seq<StoredChunk>
    /** The metadata files, by document id. */
    var documents: map<string, Document>

    constructor ()
      ensures chunks == [] && documents == map[]
      ensures Consistent(chunks, documents)
    {
      chunks, documents := [], map[];
    }

    /** `process_pdf`: on a refused role list nothing is stored; otherwise the metadata and the chunks are. */
    method ProcessPdf(filePath: string, fileBaseName: string, uploader: User, title: Option<string>,
                      requested: Option<seq<Role>>, text: string, pageCount: nat, pieces: seq<string>,
                      docId: string)
      returns (r: Result<Document, UploadError>)
      modifies this
      ensures match PlanUpload(filePath, fileBaseName, uploader, title, requested, text, pageCount, pieces, docId)
        case Err(e) => r == Err(e) && chunks == old(chunks) && documents == old(documents)
        case Ok(u) => r == Ok(u.document) && documents == old(documents)[docId := u.document]
                      && chunks == old(chunks) + u.records
      ensures Consistent(old(chunks), old(documents)) ==> Consistent(chunks, documents)
    {
      var resolved := ResolveAccessRoles(uploader.role, requested);
      if resolved.Err? {
        return Err(resolved.error);
      }
      var roles := resolved.value;
      var t := EffectiveTitle(title, fileBaseName);
      var document := Document(docId, t, Preview(text), DocumentMetadata(filePath, pageCount, uploader.department),
                               roles, uploader.username);
      documents := documents[docId := document];
      var records := ChunkRecords(docId, t, roles, uploader, pieces);
      chunks := chunks + records;
      r := Ok(document);
    }

    /** `delete_document`: answers whether the document was deleted. */
    method DeleteDocument(docId: string, user: User) returns (deleted: bool)
      modifies this
      ensures deleted <==> docId in old(documents) && MayDelete(user.role, old(documents)[docId].accessRoles)
      ensures deleted ==> chunks == WithoutDocument(old(chunks), docId) && documents == old(documents) - {docId}
      ensures !deleted ==> chunks == old(chunks) && documents == old(documents)
      ensures Consistent(old(chunks), old(documents)) ==> Consistent(chunks, documents)
    {
      if docId !in documents {
        return false;
      }
      var document := documents[docId];
      if user.role == Employee {
        return false;
      }
      if user.role == Manager && Executive in document.accessRoles {
        return false;
      }
      ghost var before := chunks;
      chunks := WithoutDocument(chunks, docId);
      documents := documents - {docId};
      if Consistent(old(chunks), old(documents)) {
        DeleteKeepsConsistent(before, old(documents), docId);
      }
      return true;
    }
  }

  /**
   * Uploading a document under a fresh id and then deleting it restores both the
   * chunks and the metadata of the store.
   */
  lemma UploadThenDeleteRestores(chunks: seq<StoredChunk>, documents: map<string, Document>,
                                 filePath: string, fileBaseName: string, uploader: User, title: Option<string>,
                                 requested: Option<seq<Role>>, text: string, pageCount: nat, pieces: seq<string>,
                                 docId: string)
    requires docId !in documents
    requires Consistent(chunks, documents)
    requires PlanUpload(filePath, fileBaseName, uploader, title, requested, text, pageCount, pieces, docId).Ok?
    ensures var u := PlanUpload(filePath, fileBaseName, uploader, title, requested, text, pageCount, pieces, docId).value;
      && WithoutDocument(chunks + u.records, docId) == chunks
      && documents[docId := u.document] - {docId} == documents
  {
    var u := PlanUpload(filePath, fileBaseName, uploader, title, requested, text, pageCount, pieces, docId).value;
    WithoutDocumentAppended(chunks, u.records, docId);
    WithoutDocumentAbsent(chunks, docId);
  }

  // ---------------------------------------------------------------------------
  // Audit log
  // ---------------------------------------------------------------------------

  /** `get_audit_logs` over the log file's entries (`log` is [] when the file is missing). */
  method GetAuditLogs(user: User, log: seq<AuditLog>, limit: int) returns (logs: seq<AuditLog>)
    ensures user.role != Executive ==> logs == []
    // executives get the oldest entries, at most `limit` of them (one when limit < 1)
    ensures user.role == Executive ==>
      |logs| == (if |log| < StopAt(limit) then |log| else StopAt(limit)) && logs == log[..|logs|]
  {
    if user.role != Executive {
      return [];
    }
    logs := [];
    var i := 0;
    while i < |log|
      invariant 0 <= i <= |log|
      invariant logs == log[..i]
      invariant i < StopAt(limit)
    {
      logs := logs + [log[i]];
      i := i + 1;
      if |logs| >= limit {
        break;
      }
    }
  }
}
