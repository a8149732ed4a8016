/** The binary vector-index format (src/codebase.rs).

    A string is its UTF-8 bytes; UTF-8 validity and the lossy repair of invalid bytes are
    parameters.  A 32-bit float is its bit pattern.  Encoders put a value in front of a tail, so
    that a reader gives back exactly that value and that tail. */
module VectorDb {
  import opened Prelude

  type Byte = b: int | 0 <= b < 256

  type Bytes = seq<Byte>

  const TWO_32 := 0x1_0000_0000

  type U32 = n: int | 0 <= n < 0x1_0000_0000

  type U64 = n: int | 0 <= n < 0x1_0000_0000_0000_0000

  datatype FileRegistry = FileRegistry(filePath: Bytes, lastModified: U64, size: U64)

  datatype DbChunk = DbChunk(filePath: Bytes, content: Bytes, startLine: U32, endLine: U32, embedding: seq<U32>)

  datatype VectorDb = VectorDb(workspacePath: Bytes, embeddingSource: Bytes, files: seq<FileRegistry>, chunks: seq<DbChunk>)

  /** What the reader refuses to exceed. */
  datatype Limits = Limits(text: nat, files: nat, chunks: nat, embedding: nat)

  const SAFETY := Limits(10 * 1024 * 1024, 1_000_000, 1_000_000, 8192)

  /** "SYSPILOT_VDB_3" */
  const MAGIC: Bytes := [83, 89, 83, 80, 73, 76, 79, 84, 95, 86, 68, 66, 95, 51]

  // ---- Writing ------------------------------------------------------------------------------------------

  /** `w` little-endian bytes of `n`, higher bytes dropped. */
  function PutLe(n: nat, w: nat, tail: Bytes): Bytes {
    if w == 0 then tail else [n % 256] + PutLe(n / 256, w - 1, tail)
  }

  /** The length is cast to u32. */
  function PutCount(n: nat, tail: Bytes): Bytes {
    PutLe(n % TWO_32, 4, tail)
  }

  function PutText(s: Bytes, tail: Bytes): Bytes {
    PutCount(|s|, s + tail)
  }

  function PutFile(f: FileRegistry, tail: Bytes): Bytes {
    PutText(f.filePath, PutLe(f.lastModified, 8, PutLe(f.size, 8, tail)))
  }

  function PutFiles(files: seq<FileRegistry>, tail: Bytes): Bytes {
    if files == [] then tail else PutFile(files[0], PutFiles(files[1..], tail))
  }

  function PutWords(words: seq<U32>, tail: Bytes): Bytes {
    if words == [] then tail else PutLe(words[0], 4, PutWords(words[1..], tail))
  }

  function PutChunk(c: DbChunk, tail: Bytes): Bytes {
    PutText(c.filePath, PutText(c.content, PutLe(c.startLine, 4, PutLe(c.endLine, 4,
      PutCount(|c.embedding|, PutWords(c.embedding, tail))))))
  }

  function PutChunks(chunks: seq<DbChunk>, tail: Bytes): Bytes {
    if chunks == [] then tail else PutChunk(chunks[0], PutChunks(chunks[1..], tail))
  }

  function PutDb(db: VectorDb, tail: Bytes): Bytes {
    MAGIC + PutText(db.workspacePath, PutText(db.embeddingSource,
      PutCount(|db.files|, PutFiles(db.files, PutCount(|db.chunks|, PutChunks(db.chunks, tail))))))
  }

  /** The bytes `save_to_binary` writes. */
  function Encode(db: VectorDb): Bytes {
    PutDb(db, [])
  }

  // ---- Reading ------------------------------------------------------------------------------------------

  /** A reader yields a value and the bytes after it, or fails. */
  type Read<T> = Option<(T, Bytes)>

  function GetBytes(b: Bytes, n: nat): Read<Bytes> {
    if |b| < n then None else Some((b[..n], b[n..]))
  }

  function GetLe(b: Bytes, w: nat): Read<nat> {
    if w == 0 then Some((0, b)) else
    if b == [] then None else
    match GetLe(b[1..], w - 1)
    case None => None
    case Some((n, rest)) => Some((b[0] + 256 * n, rest))
  }

  function GetCount(b: Bytes, limit: nat): Read<nat> {
    match GetLe(b, 4)
    case None => None
    case Some((n, rest)) => if n > limit then None else Some((n, rest))
  }

  function GetText(l: Limits, b: Bytes): Read<Bytes> {
    match GetCount(b, l.text)
    case None => None
    case Some((n, rest)) => GetBytes(rest, n)
  }

  predicate Fits(n: nat, w: nat) {
    if w == 0 then n == 0 else Fits(n / 256, w - 1)
  }

  lemma FitsWords(n: nat)
    ensures n < TWO_32 <==> Fits(n, 4)
    ensures n < TWO_64 <==> Fits(n, 8)
  {
    FitsMore(n, 4);
    FitsMore(n, 8);
  }

  function Power256(w: nat): (p: nat)
    ensures p > 0
  {
    if w == 0 then 1 else 256 * Power256(w - 1)
  }

  lemma {:induction false} FitsPower(n: nat, w: nat)
    ensures Fits(n, w) <==> n < Power256(w)
  {
    if w > 0 {
      FitsPower(n / 256, w - 1);
      assert n / 256 < Power256(w - 1) <==> n < 256 * Power256(w - 1);
    }
  }

  lemma FitsMore(n: nat, w: nat)
    ensures w == 4 ==> (Fits(n, w) <==> n < TWO_32)
    ensures w == 8 ==> (Fits(n, w) <==> n < TWO_64)
  {
    FitsPower(n, w);
    assert Power256(4) == TWO_32;
    assert Power256(8) == 256 * (256 * (256 * (256 * Power256(4))));
  }

  function GetFile(l: Limits, b: Bytes): Read<FileRegistry> {
    match GetText(l, b)
    case None => None
    case Some((filePath, b1)) =>
      match GetLe(b1, 8)
      case None => None
      case Some((lastModified, b2)) =>
        LeFits(b1, 8);
        match GetLe(b2, 8)
        case None => None
        case Some((size, b3)) =>
          LeFits(b2, 8);
          Some((FileRegistry(filePath, lastModified, size), b3))
  }

  function GetFiles(l: Limits, b: Bytes, n: nat): Read<seq<FileRegistry>>
    decreases n
  {
    if n == 0 then Some(([], b)) else
    match GetFile(l, b)
    case None => None
    case Some((f, b1)) =>
      match GetFiles(l, b1, n - 1)
      case None => None
      case Some((fs, b2)) => Some(([f] + fs, b2))
  }

  function GetWord(b: Bytes): Read<U32> {
    match GetLe(b, 4)
    case None => None
    case Some((n, rest)) => LeFits(b, 4); Some((n, rest))
  }

  function GetWords(b: Bytes, n: nat): Read<seq<U32>>
    decreases n
  {
    if n == 0 then Some(([], b)) else
    match GetWord(b)
    case None => None
    case Some((w, b1)) =>
      match GetWords(b1, n - 1)
      case None => None
      case Some((ws, b2)) => Some(([w] + ws, b2))
  }

  function GetEmbedding(l: Limits, b: Bytes): Read<seq<U32>> {
    match GetCount(b, l.embedding)
    case None => None
    case Some((n, b1)) => GetWords(b1, n)
  }

  function GetChunk(l: Limits, b: Bytes): Read<DbChunk> {
    match GetText(l, b)
    case None => None
    case Some((filePath, b1)) =>
      match GetText(l, b1)
      case None => None
      case Some((content, b2)) =>
        match GetWord(b2)
        case None => None
        case Some((startLine, b3)) =>
          match GetWord(b3)
          case None => None
          case Some((endLine, b4)) =>
            match GetEmbedding(l, b4)
            case None => None
            case Some((embedding, b5)) => Some((DbChunk(filePath, content, startLine, endLine, embedding), b5))
  }

  function GetChunks(l: Limits, b: Bytes, n: nat): Read<seq<DbChunk>>
    decreases n
  {
    if n == 0 then Some(([], b)) else
    match GetChunk(l, b)
    case None => None
    case Some((c, b1)) =>
      match GetChunks(l, b1, n - 1)
      case None => None
      case Some((cs, b2)) => Some(([c] + cs, b2))
  }

  function GetFileList(l: Limits, b: Bytes): Read<seq<FileRegistry>> {
    match GetCount(b, l.files)
    case None => None
    case Some((n, b1)) => GetFiles(l, b1, n)
  }

  function GetChunkList(l: Limits, b: Bytes): Read<seq<DbChunk>> {
    match GetCount(b, l.chunks)
    case None => None
    case Some((n, b1)) => GetChunks(l, b1, n)
  }

  /** The header, up to and including the embedding source. */
  function GetHeader(l: Limits, b: Bytes): Read<(Bytes, Bytes)> {
    if !(MAGIC <= b) then None else
    match GetText(l, b[|MAGIC|..])
    case None => None
    case Some((workspacePath, b1)) =>
      match GetText(l, b1)
      case None => None
      case Some((embeddingSource, b2)) => Some(((workspacePath, embeddingSource), b2))
  }

  /** The reader on raw strings, before invalid UTF-8 is repaired. */
  function GetDb(l: Limits, b: Bytes): Read<VectorDb> {
    match GetHeader(l, b)
    case None => None
    case Some(((workspacePath, embeddingSource), b1)) =>
      match GetFileList(l, b1)
      case None => None
      case Some((files, b2)) =>
        match GetChunkList(l, b2)
        case None => None
        case Some((chunks, b3)) => Some((VectorDb(workspacePath, embeddingSource, files, chunks), b3))
  }

  // ---- Both directions, level by level --------------------------------------------------------------------

  lemma {:induction false} GetPutLe(n: nat, w: nat, tail: Bytes)
    requires Fits(n, w)
    ensures GetLe(PutLe(n, w, tail), w) == Some((n, tail))
  {
    if w > 0 {
      GetPutLe(n / 256, w - 1, tail);
      assert PutLe(n, w, tail)[1..] == PutLe(n / 256, w - 1, tail);
    }
  }

  lemma {:induction false} PutGetLe(b: Bytes, w: nat)
    requires GetLe(b, w).Some?
    ensures var (n, rest) := GetLe(b, w).value; Fits(n, w) && b == PutLe(n, w, rest)
  {
    if w > 0 {
      PutGetLe(b[1..], w - 1);
      var (m, rest) := GetLe(b[1..], w - 1).value;
      assert b == [b[0]] + b[1..];
      assert (b[0] + 256 * m) / 256 == m && (b[0] + 256 * m) % 256 == b[0];
    }
  }

  lemma LeFits(b: Bytes, w: nat)
    requires GetLe(b, w).Some? && (w == 4 || w == 8)
    ensures w == 4 ==> GetLe(b, w).value.0 < TWO_32
    ensures w == 8 ==> GetLe(b, w).value.0 < TWO_64
  {
    PutGetLe(b, w);
    FitsWords(GetLe(b, w).value.0);
  }

  ghost predicate Sane(l: Limits) {
    l.text < TWO_32 && l.files < TWO_32 && l.chunks < TWO_32 && l.embedding < TWO_32
  }

  lemma GetPutCount(n: nat, limit: nat, tail: Bytes)
    requires n <= limit < TWO_32
    ensures GetCount(PutCount(n, tail), limit) == Some((n, tail))
  {
    FitsWords(n);
    GetPutLe(n, 4, tail);
  }

  lemma PutGetCount(b: Bytes, limit: nat)
    requires GetCount(b, limit).Some?
    ensures var (n, rest) := GetCount(b, limit).value; n <= limit && b == PutCount(n, rest)
  {
    PutGetLe(b, 4);
    LeFits(b, 4);
  }

  lemma GetPutText(l: Limits, s: Bytes, tail: Bytes)
    requires Sane(l) && |s| <= l.text
    ensures GetText(l, PutText(s, tail)) == Some((s, tail))
  {
    hide GetCount, PutCount;
    GetPutCount(|s|, l.text, s + tail);
  }

  lemma PutGetText(l: Limits, b: Bytes)
    requires GetText(l, b).Some?
    ensures var (s, rest) := GetText(l, b).value; |s| <= l.text && b == PutText(s, rest)
  {
    hide GetCount, PutCount;
    PutGetCount(b, l.text);
    var (n, rest) := GetCount(b, l.text).value;
    assert rest == rest[..n] + rest[n..];
  }

  predicate FileWithin(l: Limits, f: FileRegistry) {
    |f.filePath| <= l.text
  }

  predicate ChunkWithin(l: Limits, c: DbChunk) {
    |c.filePath| <= l.text && |c.content| <= l.text && |c.embedding| <= l.embedding
  }

  /** The limits under which what is written can be read back. */
  predicate Within(l: Limits, db: VectorDb) {
    && |db.workspacePath| <= l.text && |db.embeddingSource| <= l.text
    && |db.files| <= l.files && |db.chunks| <= l.chunks
    && (forall f | f in db.files :: FileWithin(l, f))
    && (forall c | c in db.chunks :: ChunkWithin(l, c))
  }

  lemma GetPutFile(l: Limits, f: FileRegistry, tail: Bytes)
    requires Sane(l) && FileWithin(l, f)
    ensures GetFile(l, PutFile(f, tail)) == Some((f, tail))
  {
    hide GetText, PutText, GetLe, PutLe, Fits;
    var t2 := PutLe(f.size, 8, tail);
    var t1 := PutLe(f.lastModified, 8, t2);
    GetPutText(l, f.filePath, t1);
    FitsWords(f.lastModified);
    FitsWords(f.size);
    GetPutLe(f.lastModified, 8, t2);
    GetPutLe(f.size, 8, tail);
  }

  lemma PutGetFile(l: Limits, b: Bytes)
    requires GetFile(l, b).Some?
    ensures var (f, rest) := GetFile(l, b).value; FileWithin(l, f) && b == PutFile(f, rest)
  {
    hide GetText, PutText, GetLe, PutLe, Fits;
    PutGetText(l, b);
    var b1 := GetText(l, b).value.1;
    PutGetLe(b1, 8);
    PutGetLe(GetLe(b1, 8).value.1, 8);
  }

  lemma {:induction false} GetPutFiles(l: Limits, files: seq<FileRegistry>, tail: Bytes)
    requires Sane(l) && forall f | f in files :: FileWithin(l, f)
    ensures GetFiles(l, PutFiles(files, tail), |files|) == Some((files, tail))
  {
    hide GetFile, PutFile, FileWithin, Sane;
    if files != [] {
      assert [files[0]] + files[1..] == files;
      GetPutFile(l, files[0], PutFiles(files[1..], tail));
      GetPutFiles(l, files[1..], tail);
    }
  }

  lemma {:induction false} PutGetFiles(l: Limits, b: Bytes, n: nat)
    requires GetFiles(l, b, n).Some?
    ensures var (files, rest) := GetFiles(l, b, n).value;
            |files| == n && b == PutFiles(files, rest) && forall f | f in files :: FileWithin(l, f)
    decreases n
  {
    hide GetFile, PutFile, FileWithin;
    if n > 0 {
      PutGetFile(l, b);
      var (f, b1) := GetFile(l, b).value;
      PutGetFiles(l, b1, n - 1);
      var fs := GetFiles(l, b1, n - 1).value.0;
      assert ([f] + fs)[1..] == fs;
    }
  }

  lemma GetPutWord(w: U32, tail: Bytes)
    ensures GetWord(PutLe(w, 4, tail)) == Some((w, tail))
  {
    hide GetLe, PutLe, Fits;
    FitsWords(w);
    GetPutLe(w, 4, tail);
  }

  lemma PutGetWord(b: Bytes)
    requires GetWord(b).Some?
    ensures var (w, rest) := GetWord(b).value; b == PutLe(w, 4, rest)
  {
    hide GetLe, PutLe, Fits;
    PutGetLe(b, 4);
  }

  lemma {:induction false} GetPutWords(words: seq<U32>, tail: Bytes)
    ensures GetWords(PutWords(words, tail), |words|) == Some((words, tail))
  {
    hide GetWord, PutLe;
    if words != [] {
      assert [words[0]] + words[1..] == words;
      GetPutWord(words[0], PutWords(words[1..], tail));
      GetPutWords(words[1..], tail);
    }
  }

  lemma {:induction false} PutGetWords(b: Bytes, n: nat)
    requires GetWords(b, n).Some?
    ensures var (words, rest) := GetWords(b, n).value; |words| == n && b == PutWords(words, rest)
    decreases n
  {
    hide GetWord, PutLe;
    if n > 0 {
      PutGetWord(b);
      var (w, b1) := GetWord(b).value;
      PutGetWords(b1, n - 1);
      var ws := GetWords(b1, n - 1).value.0;
      assert ([w] + ws)[1..] == ws;
    }
  }

  lemma GetPutChunk(l: Limits, c: DbChunk, tail: Bytes)
    requires Sane(l) && ChunkWithin(l, c)
    ensures GetChunk(l, PutChunk(c, tail)) == Some((c, tail))
  {
    hide GetText, PutText, GetWord, PutLe, GetCount, PutCount, GetWords, PutWords;
    var t5 := PutWords(c.embedding, tail);
    var t4 := PutCount(|c.embedding|, t5);
    var t3 := PutLe(c.endLine, 4, t4);
    var t2 := PutLe(c.startLine, 4, t3);
    var t1 := PutText(c.content, t2);
    GetPutText(l, c.filePath, t1);
    GetPutText(l, c.content, t2);
    GetPutWord(c.startLine, t3);
    GetPutWord(c.endLine, t4);
    GetPutCount(|c.embedding|, l.embedding, t5);
    GetPutWords(c.embedding, tail);
  }

  lemma PutGetChunk(l: Limits, b: Bytes)
    requires GetChunk(l, b).Some?
    ensures var (c, rest) := GetChunk(l, b).value; ChunkWithin(l, c) && b == PutChunk(c, rest)
  {
    hide GetText, PutText, GetWord, PutLe, GetCount, PutCount, GetWords, PutWords;
    PutGetText(l, b);
    var b1 := GetText(l, b).value.1;
    PutGetText(l, b1);
    var b2 := GetText(l, b1).value.1;
    PutGetWord(b2);
    var b3 := GetWord(b2).value.1;
    PutGetWord(b3);
    var b4 := GetWord(b3).value.1;
    PutGetCount(b4, l.embedding);
    var (n, b5) := GetCount(b4, l.embedding).value;
    PutGetWords(b5, n);
  }

  lemma {:induction false} GetPutChunks(l: Limits, chunks: seq<DbChunk>, tail: Bytes)
    requires Sane(l) && forall c | c in chunks :: ChunkWithin(l, c)
    ensures GetChunks(l, PutChunks(chunks, tail), |chunks|) == Some((chunks, tail))
  {
    hide GetChunk, PutChunk, ChunkWithin, Sane;
    if chunks != [] {
      assert [chunks[0]] + chunks[1..] == chunks;
      GetPutChunk(l, chunks[0], PutChunks(chunks[1..], tail));
      GetPutChunks(l, chunks[1..], tail);
    }
  }

  lemma {:induction false} PutGetChunks(l: Limits, b: Bytes, n: nat)
    requires GetChunks(l, b, n).Some?
    ensures var (chunks, rest) := GetChunks(l, b, n).value;
            |chunks| == n && b == PutChunks(chunks, rest) && forall c | c in chunks :: ChunkWithin(l, c)
    decreases n
  {
    hide GetChunk, PutChunk, ChunkWithin;
    if n > 0 {
      PutGetChunk(l, b);
      var (c, b1) := GetChunk(l, b).value;
      PutGetChunks(l, b1, n - 1);
      var cs := GetChunks(l, b1, n - 1).value.0;
      assert ([c] + cs)[1..] == cs;
    }
  }

  lemma GetPutDb(l: Limits, db: VectorDb, tail: Bytes)
    requires Sane(l) && Within(l, db)
    ensures GetDb(l, PutDb(db, tail)) == Some((db, tail))
  {
    hide GetText, PutText, GetCount, PutCount, GetFiles, PutFiles, GetChunks, PutChunks, FileWithin, ChunkWithin;
    var t5 := PutChunks(db.chunks, tail);
    var t4 := PutCount(|db.chunks|, t5);
    var t3 := PutFiles(db.files, t4);
    var t2 := PutCount(|db.files|, t3);
    var t1 := PutText(db.embeddingSource, t2);
    var t0 := PutText(db.workspacePath, t1);
    GetPutText(l, db.workspacePath, t1);
    GetPutText(l, db.embeddingSource, t2);
    GetPutCount(|db.files|, l.files, t3);
    GetPutFiles(l, db.files, t4);
    GetPutCount(|db.chunks|, l.chunks, t5);
    GetPutChunks(l, db.chunks, tail);
    assert (MAGIC + t0)[|MAGIC|..] == t0;
  }

  /** Every accepted input is the encoding of what was read, followed by what was left; and what was
      read is within the limits. */
  lemma PutGetDb(l: Limits, b: Bytes)
    requires GetDb(l, b).Some?
    ensures var (db, rest) := GetDb(l, b).value; Within(l, db) && b == PutDb(db, rest)
  {
    hide GetText, PutText, GetCount, PutCount, GetFiles, PutFiles, GetChunks, PutChunks, FileWithin, ChunkWithin;
    var b0 := b[|MAGIC|..];
    assert b == MAGIC + b0;
    PutGetText(l, b0);
    var b1 := GetText(l, b0).value.1;
    PutGetText(l, b1);
    var b2 := GetText(l, b1).value.1;
    PutGetCount(b2, l.files);
    var (n, b3) := GetCount(b2, l.files).value;
    PutGetFiles(l, b3, n);
    var b4 := GetFiles(l, b3, n).value.1;
    PutGetCount(b4, l.chunks);
    var (m, b5) := GetCount(b4, l.chunks).value;
    PutGetChunks(l, b5, m);
  }

  // ---- Encoding in front of a tail is encoding, then the tail ------------------------------------------------

  lemma {:induction false} PutLeTail(n: nat, w: nat, a: Bytes, b: Bytes)
    ensures PutLe(n, w, a + b) == PutLe(n, w, a) + b
  {
    if w > 0 {
      PutLeTail(n / 256, w - 1, a, b);
    }
  }

  lemma PutTextTail(s: Bytes, a: Bytes, b: Bytes)
    ensures PutText(s, a + b) == PutText(s, a) + b
  {
    PutLeTail(|s| % TWO_32, 4, s + a, b);
    assert s + (a + b) == (s + a) + b;
  }

  lemma {:induction false} PutFilesTail(files: seq<FileRegistry>, a: Bytes, b: Bytes)
    ensures PutFiles(files, a + b) == PutFiles(files, a) + b
  {
    hide PutText, PutLe;
    if files != [] {
      var f, rest := files[0], PutFiles(files[1..], a);
      PutFilesTail(files[1..], a, b);
      PutLeTail(f.size, 8, rest, b);
      PutLeTail(f.lastModified, 8, PutLe(f.size, 8, rest), b);
      PutTextTail(f.filePath, PutLe(f.lastModified, 8, PutLe(f.size, 8, rest)), b);
    }
  }

  lemma {:induction false} PutWordsTail(words: seq<U32>, a: Bytes, b: Bytes)
    ensures PutWords(words, a + b) == PutWords(words, a) + b
  {
    if words != [] {
      PutWordsTail(words[1..], a, b);
      PutLeTail(words[0], 4, PutWords(words[1..], a), b);
    }
  }

  lemma PutChunkTail(c: DbChunk, a: Bytes, b: Bytes)
    ensures PutChunk(c, a + b) == PutChunk(c, a) + b
  {
    hide PutText, PutLe, PutWords;
    var t5 := PutWords(c.embedding, a);
    var t4 := PutCount(|c.embedding|, t5);
    var t3 := PutLe(c.endLine, 4, t4);
    var t2 := PutLe(c.startLine, 4, t3);
    PutWordsTail(c.embedding, a, b);
    PutLeTail(|c.embedding| % TWO_32, 4, t5, b);
    PutLeTail(c.endLine, 4, t4, b);
    PutLeTail(c.startLine, 4, t3, b);
    PutTextTail(c.content, t2, b);
    PutTextTail(c.filePath, PutText(c.content, t2), b);
  }

  lemma {:induction false} PutChunksTail(chunks: seq<DbChunk>, a: Bytes, b: Bytes)
    ensures PutChunks(chunks, a + b) == PutChunks(chunks, a) + b
  {
    hide PutChunk;
    if chunks != [] {
      PutChunksTail(chunks[1..], a, b);
      PutChunkTail(chunks[0], PutChunks(chunks[1..], a), b);
    }
  }

  lemma PutDbTail(db: VectorDb, b: Bytes)
    ensures PutDb(db, b) == Encode(db) + b
  {
    hide PutText, PutLe, PutFiles, PutChunks;
    var t5 := PutChunks(db.chunks, []);
    var t4 := PutCount(|db.chunks|, t5);
    var t3 := PutFiles(db.files, t4);
    var t2 := PutCount(|db.files|, t3);
    var t1 := PutText(db.embeddingSource, t2);
    var t0 := PutText(db.workspacePath, t1);
    assert [] + b == b;
    PutChunksTail(db.chunks, [], b);
    PutLeTail(|db.chunks| % TWO_32, 4, t5, b);
    PutFilesTail(db.files, t4, b);
    PutLeTail(|db.files| % TWO_32, 4, t3, b);
    PutTextTail(db.embeddingSource, t2, b);
    PutTextTail(db.workspacePath, t1, b);
    assert (MAGIC + t0) + b == MAGIC + (t0 + b);
  }

  // ---- Strings as the reader returns them --------------------------------------------------------------------

  function RepairFile(lossy: Bytes -> Bytes, f: FileRegistry): FileRegistry {
    f.(filePath := lossy(f.filePath))
  }

  function RepairChunk(lossy: Bytes -> Bytes, c: DbChunk): DbChunk {
    c.(filePath := lossy(c.filePath), content := lossy(c.content))
  }

  function Repair(lossy: Bytes -> Bytes, db: VectorDb): VectorDb {
    VectorDb(
      lossy(db.workspacePath), lossy(db.embeddingSource),
      seq(|db.files|, i requires 0 <= i < |db.files| => RepairFile(lossy, db.files[i])),
      seq(|db.chunks|, i requires 0 <= i < |db.chunks| => RepairChunk(lossy, db.chunks[i])))
  }

  /** `decode_binary`, with the bytes it leaves unread. */
  function Decode(lossy: Bytes -> Bytes, b: Bytes): Read<VectorDb> {
    match GetDb(SAFETY, b)
    case None => None
    case Some((raw, rest)) => Some((Repair(lossy, raw), rest))
  }

  /** Every string of the database is valid UTF-8. */
  ghost predicate AllValid(utf8: Bytes -> bool, db: VectorDb) {
    && utf8(db.workspacePath) && utf8(db.embeddingSource)
    && (forall f | f in db.files :: utf8(f.filePath))
    && (forall c | c in db.chunks :: utf8(c.filePath) && utf8(c.content))
  }

  /** Repairing leaves valid text alone and at most triples its length (U+FFFD takes three bytes). */
  ghost predicate Repairs(lossy: Bytes -> Bytes, utf8: Bytes -> bool) {
    (forall s :: utf8(s) ==> lossy(s) == s) && (forall s :: |lossy(s)| <= 3 * |s|)
  }

  lemma RepairValid(lossy: Bytes -> Bytes, utf8: Bytes -> bool, db: VectorDb)
    requires Repairs(lossy, utf8) && AllValid(utf8, db)
    ensures Repair(lossy, db) == db
  {
    var r := Repair(lossy, db);
    forall i | 0 <= i < |db.files|
      ensures r.files[i] == db.files[i]
    {
      assert db.files[i] in db.files;
    }
    forall i | 0 <= i < |db.chunks|
      ensures r.chunks[i] == db.chunks[i]
    {
      assert db.chunks[i] in db.chunks;
    }
  }

  /** Limits that no value the reader repaired can exceed. */
  const WIDE := Limits(30 * 1024 * 1024, 1_000_000, 1_000_000, 8192)

  lemma RepairedWithinWide(lossy: Bytes -> Bytes, utf8: Bytes -> bool, raw: VectorDb)
    requires Repairs(lossy, utf8) && Within(SAFETY, raw)
    ensures Within(WIDE, Repair(lossy, raw)) && Within(WIDE, raw)
  {
    var r := Repair(lossy, raw);
    forall f | f in r.files
      ensures FileWithin(WIDE, f)
    {
      var i :| 0 <= i < |r.files| && r.files[i] == f;
      assert raw.files[i] in raw.files;
    }
    forall c | c in r.chunks
      ensures ChunkWithin(WIDE, c)
    {
      var i :| 0 <= i < |r.chunks| && r.chunks[i] == c;
      assert raw.chunks[i] in raw.chunks;
    }
    forall f | f in raw.files
      ensures FileWithin(WIDE, f)
    {
      assert FileWithin(SAFETY, f);
    }
    forall c | c in raw.chunks
      ensures ChunkWithin(WIDE, c)
    {
      assert ChunkWithin(SAFETY, c);
    }
  }

  /** Reading what was written gives the same database back and leaves exactly the trailing bytes,
      if and only if the database is within the reader's limits (a length that wraps around its
      32-bit field included). */
  lemma RoundTripExactly(lossy: Bytes -> Bytes, utf8: Bytes -> bool, db: VectorDb, tail: Bytes)
    requires Repairs(lossy, utf8) && AllValid(utf8, db)
    ensures Decode(lossy, Encode(db) + tail) == Some((db, tail)) <==> Within(SAFETY, db)
  {
    hide GetDb, PutDb, Repairs, AllValid, Within, Repair;
    PutDbTail(db, tail);
    var b := PutDb(db, tail);
    if Within(SAFETY, db) {
      GetPutDb(SAFETY, db, tail);
      RepairValid(lossy, utf8, db);
    }
    if Decode(lossy, b) == Some((db, tail)) {
      var (raw, rest) := GetDb(SAFETY, b).value;
      PutGetDb(SAFETY, b);
      RepairedWithinWide(lossy, utf8, raw);
      GetPutDb(WIDE, raw, rest);
      GetPutDb(WIDE, db, tail);
    }
  }

  /** Lengths that fit their 32-bit fields. */
  const FIELDS := Limits(TWO_32 - 1, TWO_32 - 1, TWO_32 - 1, TWO_32 - 1)

  /** A database over the reader's limits is written all the same, and refused when it is read. */
  lemma OverLimitIsRefused(lossy: Bytes -> Bytes, db: VectorDb, tail: Bytes)
    requires Within(FIELDS, db)
    ensures Decode(lossy, Encode(db) + tail).Some? <==> Within(SAFETY, db)
  {
    hide GetDb, PutDb, Within, Repair;
    PutDbTail(db, tail);
    var b := PutDb(db, tail);
    if Within(SAFETY, db) {
      GetPutDb(SAFETY, db, tail);
    }
    if GetDb(SAFETY, b).Some? {
      var (raw, rest) := GetDb(SAFETY, b).value;
      PutGetDb(SAFETY, b);
      SafetyFits(raw);
      GetPutDb(FIELDS, raw, rest);
      GetPutDb(FIELDS, db, tail);
    }
  }

  lemma SafetyFits(db: VectorDb)
    requires Within(SAFETY, db)
    ensures Within(FIELDS, db)
  {
    forall f | f in db.files
      ensures FileWithin(FIELDS, f)
    {
      assert FileWithin(SAFETY, f);
    }
    forall c | c in db.chunks
      ensures ChunkWithin(FIELDS, c)
    {
      assert ChunkWithin(SAFETY, c);
    }
  }

  /** Conversely, every accepted input whose strings are valid UTF-8 starts with the encoding of the
      database read from it. */
  lemma AcceptedIsEncoding(lossy: Bytes -> Bytes, utf8: Bytes -> bool, b: Bytes)
    requires Repairs(lossy, utf8) && Decode(lossy, b).Some?
    requires AllValid(utf8, GetDb(SAFETY, b).value.0)
    ensures var (db, rest) := Decode(lossy, b).value; Within(SAFETY, db) && b == Encode(db) + rest
  {
    hide GetDb, PutDb, Repairs, AllValid, Within, Repair;
    var (raw, rest) := GetDb(SAFETY, b).value;
    PutGetDb(SAFETY, b);
    PutDbTail(raw, rest);
    RepairValid(lossy, utf8, raw);
  }

  // ---- The stream loops -------------------------------------------------------------------------------------

  lemma PutTextParts(s: Bytes)
    ensures PutText(s, []) == PutCount(|s|, []) + s
  {
    hide PutLe;
    PutLeTail(|s| % TWO_32, 4, [], s);
    assert [] + s == s == s + [];
  }

  lemma PutFileParts(f: FileRegistry, rest: Bytes)
    ensures PutFile(f, rest) == PutText(f.filePath, []) + PutLe(f.lastModified, 8, []) + PutLe(f.size, 8, []) + rest
  {
    hide PutText, PutLe;
    var t2 := PutLe(f.size, 8, rest);
    var t1 := PutLe(f.lastModified, 8, t2);
    assert [] + rest == rest && [] + t2 == t2 && [] + t1 == t1;
    PutLeTail(f.size, 8, [], rest);
    PutLeTail(f.lastModified, 8, [], t2);
    PutTextTail(f.filePath, [], t1);
    Assoc4(PutText(f.filePath, []), PutLe(f.lastModified, 8, []), PutLe(f.size, 8, []), rest);
  }

  lemma Assoc4(a: Bytes, b: Bytes, c: Bytes, d: Bytes)
    ensures a + (b + (c + d)) == a + b + c + d
  {
  }

  lemma PutChunkParts(c: DbChunk, rest: Bytes)
    ensures PutChunk(c, rest)
            == PutText(c.filePath, []) + PutText(c.content, []) + PutLe(c.startLine, 4, []) + PutLe(c.endLine, 4, [])
               + PutCount(|c.embedding|, []) + PutWords(c.embedding, []) + rest
  {
    hide PutText, PutLe, PutWords;
    var t5 := PutWords(c.embedding, rest);
    var t4 := PutCount(|c.embedding|, t5);
    var t3 := PutLe(c.endLine, 4, t4);
    var t2 := PutLe(c.startLine, 4, t3);
    var t1 := PutText(c.content, t2);
    assert [] + rest == rest && [] + t5 == t5 && [] + t4 == t4 && [] + t3 == t3 && [] + t2 == t2 && [] + t1 == t1;
    PutWordsTail(c.embedding, [], rest);
    PutLeTail(|c.embedding| % TWO_32, 4, [], t5);
    PutLeTail(c.endLine, 4, [], t4);
    PutLeTail(c.startLine, 4, [], t3);
    PutTextTail(c.content, [], t2);
    PutTextTail(c.filePath, [], t1);
    Assoc4(PutLe(c.endLine, 4, []), PutCount(|c.embedding|, []), PutWords(c.embedding, []), rest);
    var tail := PutLe(c.endLine, 4, []) + PutCount(|c.embedding|, []) + PutWords(c.embedding, []);
    Assoc4(PutText(c.filePath, []), PutText(c.content, []), PutLe(c.startLine, 4, []), tail + rest);
    Assoc4(PutText(c.filePath, []) + PutText(c.content, []) + PutLe(c.startLine, 4, []), PutLe(c.endLine, 4, []),
      PutCount(|c.embedding|, []) + PutWords(c.embedding, []), rest);
  }

  /** The stream `save_to_binary` writes into. */
  class ByteWriter {
    var written: Bytes

    constructor ()
      ensures written == []
    {
      written := [];
    }

    method WriteAll(b: Bytes)
      modifies this
      ensures written == old(written) + b
    {
      written := written + b;
    }

    method WriteText(s: Bytes)
      modifies this
      ensures written == old(written) + PutText(s, [])
    {
      hide PutCount, PutText;
      PutTextParts(s);
      WriteAll(PutCount(|s|, []));
      WriteAll(s);
    }

    method WriteFiles(files: seq<FileRegistry>)
      modifies this
      ensures written == old(written) + PutFiles(files, [])
    {
      hide PutText, PutLe, PutFile;
      ghost var goal := written + PutFiles(files, []);
      assert files[0..] == files;
      for i := 0 to |files|
        invariant goal == written + PutFiles(files[i..], [])
      {
        var f := files[i];
        assert files[i..][1..] == files[i + 1..];
        PutFileParts(f, PutFiles(files[i + 1..], []));
        WriteText(f.filePath);
        WriteAll(PutLe(f.lastModified, 8, []));
        WriteAll(PutLe(f.size, 8, []));
      }
    }

    method WriteWords(words: seq<U32>)
      modifies this
      ensures written == old(written) + PutWords(words, [])
    {
      hide PutLe;
      ghost var goal := written + PutWords(words, []);
      assert words[0..] == words;
      for i := 0 to |words|
        invariant goal == written + PutWords(words[i..], [])
      {
        assert words[i..][1..] == words[i + 1..];
        ghost var rest := PutWords(words[i + 1..], []);
        assert [] + rest == rest;
        PutLeTail(words[i], 4, [], rest);
        WriteAll(PutLe(words[i], 4, []));
      }
    }

    method WriteChunks(chunks: seq<DbChunk>)
      modifies this
      ensures written == old(written) + PutChunks(chunks, [])
    {
      hide PutText, PutLe, PutCount, PutWords, PutChunk;
      ghost var goal := written + PutChunks(chunks, []);
      assert chunks[0..] == chunks;
      for i := 0 to |chunks|
        invariant goal == written + PutChunks(chunks[i..], [])
      {
        var c := chunks[i];
        assert chunks[i..][1..] == chunks[i + 1..];
        PutChunkParts(c, PutChunks(chunks[i + 1..], []));
        WriteText(c.filePath);
        WriteText(c.content);
        WriteAll(PutLe(c.startLine, 4, []));
        WriteAll(PutLe(c.endLine, 4, []));
        WriteAll(PutCount(|c.embedding|, []));
        WriteWords(c.embedding);
      }
    }

    /** The whole file, on a stream that starts empty. */
    method WriteDb(db: VectorDb)
      modifies this
      ensures written == old(written) + Encode(db)
    {
      hide PutText, PutCount, PutFiles, PutChunks, Encode;
      PutDbParts(db);
      WriteAll(MAGIC);
      WriteText(db.workspacePath);
      WriteText(db.embeddingSource);
      WriteAll(PutCount(|db.files|, []));
      WriteFiles(db.files);
      WriteAll(PutCount(|db.chunks|, []));
      WriteChunks(db.chunks);
    }
  }

  lemma PutDbParts(db: VectorDb)
    ensures Encode(db)
            == MAGIC + PutText(db.workspacePath, []) + PutText(db.embeddingSource, []) + PutCount(|db.files|, [])
               + PutFiles(db.files, []) + PutCount(|db.chunks|, []) + PutChunks(db.chunks, [])
  {
    hide PutText, PutLe, PutFiles, PutChunks;
    var t5 := PutChunks(db.chunks, []);
    var t4 := PutCount(|db.chunks|, t5);
    var t3 := PutFiles(db.files, t4);
    var t2 := PutCount(|db.files|, t3);
    var t1 := PutText(db.embeddingSource, t2);
    assert [] + t5 == t5 && [] + t4 == t4 && [] + t3 == t3 && [] + t2 == t2 && [] + t1 == t1;
    PutLeTail(|db.chunks| % TWO_32, 4, [], t5);
    PutFilesTail(db.files, [], t4);
    PutLeTail(|db.files| % TWO_32, 4, [], t3);
    PutTextTail(db.embeddingSource, [], t2);
    PutTextTail(db.workspacePath, [], t1);
    Assoc4(PutCount(|db.files|, []), PutFiles(db.files, []), PutCount(|db.chunks|, []), t5);
    var tail := PutCount(|db.files|, []) + PutFiles(db.files, []) + PutCount(|db.chunks|, []);
    Assoc4(MAGIC, PutText(db.workspacePath, []), PutText(db.embeddingSource, []), tail + t5);
    Assoc4(MAGIC + PutText(db.workspacePath, []) + PutText(db.embeddingSource, []), PutCount(|db.files|, []),
      PutFiles(db.files, []) + PutCount(|db.chunks|, []), t5);
  }

  /** A partial result in front of what is still to be read. */
  function Onto<T>(sofar: seq<T>, r: Read<seq<T>>): Read<seq<T>> {
    match r
    case None => None
    case Some((xs, rest)) => Some((sofar + xs, rest))
  }

  lemma OntoNothing<T>(r: Read<seq<T>>)
    ensures Onto([], r) == r
  {
    match r
    case None =>
    case Some((xs, _)) => assert [] + xs == xs;
  }

  lemma FilesStep(l: Limits, sofar: seq<FileRegistry>, b: Bytes, n: nat)
    requires n > 0
    ensures Onto(sofar, GetFiles(l, b, n))
            == match GetFile(l, b)
               case None => None
               case Some((f, b1)) => Onto(sofar + [f], GetFiles(l, b1, n - 1))
  {
    hide GetFile;
    match GetFile(l, b)
    case None =>
    case Some((f, b1)) =>
      match GetFiles(l, b1, n - 1)
      case None =>
      case Some((fs, _)) => assert sofar + ([f] + fs) == (sofar + [f]) + fs;
  }

  lemma ChunksStep(l: Limits, sofar: seq<DbChunk>, b: Bytes, n: nat)
    requires n > 0
    ensures Onto(sofar, GetChunks(l, b, n))
            == match GetChunk(l, b)
               case None => None
               case Some((c, b1)) => Onto(sofar + [c], GetChunks(l, b1, n - 1))
  {
    hide GetChunk;
    match GetChunk(l, b)
    case None =>
    case Some((c, b1)) =>
      match GetChunks(l, b1, n - 1)
      case None =>
      case Some((cs, _)) => assert sofar + ([c] + cs) == (sofar + [c]) + cs;
  }

  /** The stream `decode_binary` reads from. */
  class ByteReader {
    var remaining: Bytes

    constructor (b: Bytes)
      ensures remaining == b
    {
      remaining := b;
    }

    /** `read_exact`: all `n` bytes or an error, after which the stream is given up. */
    method ReadExact(n: nat) returns (r: Option<Bytes>)
      modifies this
      ensures match GetBytes(old(remaining), n)
              case None => r == None
              case Some((b, rest)) => r == Some(b) && remaining == rest
    {
      if |remaining| < n {
        return None;
      }
      r := Some(remaining[..n]);
      remaining := remaining[n..];
    }

    method ReadLe(w: nat) returns (r: Option<nat>)
      modifies this
      ensures match GetLe(old(remaining), w)
              case None => r == None
              case Some((n, rest)) => r == Some(n) && remaining == rest
    {
      LeFromBytes(remaining, w);
      var bytes := ReadExact(w);
      if bytes.None? {
        return None;
      }
      var n := LeValue(bytes.value);
      r := Some(n);
    }

    method ReadText(l: Limits) returns (r: Option<Bytes>)
      modifies this
      ensures match GetText(l, old(remaining))
              case None => r == None
              case Some((s, rest)) => r == Some(s) && remaining == rest
    {
      hide GetLe;
      var len := ReadLe(4);
      if len.None? || len.value > l.text {
        return None;
      }
      r := ReadExact(len.value);
    }

    method ReadFile(l: Limits) returns (r: Option<FileRegistry>)
      modifies this
      ensures match GetFile(l, old(remaining))
              case None => r == None
              case Some((f, rest)) => r == Some(f) && remaining == rest
    {
      hide GetLe, GetText;
      var filePath := ReadText(l);
      if filePath.None? {
        return None;
      }
      ghost var b1 := remaining;
      var lastModified := ReadLe(8);
      if lastModified.None? {
        return None;
      }
      LeFits(b1, 8);
      ghost var b2 := remaining;
      var size := ReadLe(8);
      if size.None? {
        return None;
      }
      LeFits(b2, 8);
      r := Some(FileRegistry(filePath.value, lastModified.value, size.value));
    }

    method ReadFiles(l: Limits) returns (r: Option<seq<FileRegistry>>)
      modifies this
      ensures match GetFileList(l, old(remaining))
              case None => r == None
              case Some((files, rest)) => r == Some(files) && remaining == rest
    {
      hide GetLe, GetFile;
      var count := ReadLe(4);
      if count.None? || count.value > l.files {
        return None;
      }
      var files := [];
      ghost var goal := GetFiles(l, remaining, count.value);
      OntoNothing(goal);
      for i := 0 to count.value
        invariant goal == Onto(files, GetFiles(l, remaining, count.value - i))
      {
        FilesStep(l, files, remaining, count.value - i);
        var f := ReadFile(l);
        if f.None? {
          return None;
        }
        files := files + [f.value];
      }
      assert files + [] == files;
      r := Some(files);
    }

    method ReadWord() returns (r: Option<U32>)
      modifies this
      ensures match GetWord(old(remaining))
              case None => r == None
              case Some((n, rest)) => r == Some(n) && remaining == rest
    {
      hide GetLe;
      ghost var b := remaining;
      var n := ReadLe(4);
      if n.None? {
        return None;
      }
      LeFits(b, 4);
      r := Some(n.value);
    }

    /** All the embedding's bytes at once, then word by word. */
    method ReadEmbedding(l: Limits) returns (r: Option<seq<U32>>)
      modifies this
      ensures match GetEmbedding(l, old(remaining))
              case None => r == None
              case Some((words, rest)) => r == Some(words) && remaining == rest
    {
      hide GetLe, GetWords;
      var n := ReadLe(4);
      if n.None? || n.value > l.embedding {
        return None;
      }
      WordsFromBytes(remaining, n.value);
      var bytes := ReadExact(4 * n.value);
      if bytes.None? {
        return None;
      }
      var words := WordValues(bytes.value, n.value);
      r := Some(words);
    }

    method ReadChunk(l: Limits) returns (r: Option<DbChunk>)
      modifies this
      ensures match GetChunk(l, old(remaining))
              case None => r == None
              case Some((c, rest)) => r == Some(c) && remaining == rest
    {
      hide GetText, GetWord, GetEmbedding;
      var filePath := ReadText(l);
      if filePath.None? {
        return None;
      }
      var content := ReadText(l);
      if content.None? {
        return None;
      }
      var startLine := ReadWord();
      if startLine.None? {
        return None;
      }
      var endLine := ReadWord();
      if endLine.None? {
        return None;
      }
      var embedding := ReadEmbedding(l);
      if embedding.None? {
        return None;
      }
      r := Some(DbChunk(filePath.value, content.value, startLine.value, endLine.value, embedding.value));
    }

    method ReadChunks(l: Limits) returns (r: Option<seq<DbChunk>>)
      modifies this
      ensures match GetChunkList(l, old(remaining))
              case None => r == None
              case Some((chunks, rest)) => r == Some(chunks) && remaining == rest
    {
      hide GetLe, GetChunk;
      var count := ReadLe(4);
      if count.None? || count.value > l.chunks {
        return None;
      }
      var chunks := [];
      ghost var goal := GetChunks(l, remaining, count.value);
      OntoNothing(goal);
      for i := 0 to count.value
        invariant goal == Onto(chunks, GetChunks(l, remaining, count.value - i))
      {
        ChunksStep(l, chunks, remaining, count.value - i);
        var c := ReadChunk(l);
        if c.None? {
          return None;
        }
        chunks := chunks + [c.value];
      }
      assert chunks + [] == chunks;
      r := Some(chunks);
    }

    method ReadDb(l: Limits) returns (r: Option<VectorDb>)
      modifies this
      ensures match GetDb(l, old(remaining))
              case None => r == None
              case Some((db, rest)) => r == Some(db) && remaining == rest
    {
      hide GetText, GetFileList, GetChunkList;
      var magic := ReadExact(|MAGIC|);
      if magic.None? || magic.value != MAGIC {
        return None;
      }
      var workspacePath := ReadText(l);
      if workspacePath.None? {
        return None;
      }
      var embeddingSource := ReadText(l);
      if embeddingSource.None? {
        return None;
      }
      var files := ReadFiles(l);
      if files.None? {
        return None;
      }
      var chunks := ReadChunks(l);
      if chunks.None? {
        return None;
      }
      r := Some(VectorDb(workspacePath.value, embeddingSource.value, files.value, chunks.value));
    }
  }

  function Value(b: Bytes): nat {
    if b == [] then 0 else b[0] + 256 * Value(b[1..])
  }

  /** `from_le_bytes`. */
  method LeValue(b: Bytes) returns (n: nat)
    ensures n == Value(b)
  {
    n := 0;
    var i: nat := |b|;
    while i > 0
      invariant i <= |b| && n == Value(b[i..])
    {
      i := i - 1;
      assert b[i..][1..] == b[i + 1..];
      n := b[i] + 256 * n;
    }
    assert b[0..] == b;
  }

  lemma {:induction false} LeFromBytes(b: Bytes, w: nat)
    ensures GetLe(b, w) == if |b| < w then None else Some((Value(b[..w]), b[w..]))
  {
    if w > 0 && b != [] {
      LeFromBytes(b[1..], w - 1);
      if |b| >= w {
        assert b[..w][1..] == b[1..][..w - 1] && b[1..][w - 1..] == b[w..];
      }
    }
  }

  /** Words of four bytes each. */
  method WordValues(b: Bytes, n: nat) returns (words: seq<U32>)
    requires |b| == 4 * n
    ensures GetWords(b, n) == Some((words, []))
  {
    hide GetLe, GetWord;
    words := [];
    assert b[0..] == b;
    OntoNothing(GetWords(b, n));
    for i := 0 to n
      invariant GetWords(b, n) == Onto(words, GetWords(b[4 * i..], n - i))
    {
      var here := b[4 * i..];
      var word := LeValue(here[..4]);
      LeFromBytes(here, 4);
      WordOfValue(here);
      WordsStep(words, here, n - i);
      assert here[4..] == b[4 * (i + 1)..];
      words := words + [word];
    }
    assert b[4 * n..] == [] && words + [] == words;
  }

  lemma WordOfValue(b: Bytes)
    requires |b| >= 4
    ensures Value(b[..4]) < TWO_32 && GetWord(b) == Some((Value(b[..4]), b[4..]))
  {
    hide GetLe, Value;
    LeFromBytes(b, 4);
    LeFits(b, 4);
  }

  lemma WordsStep(sofar: seq<U32>, b: Bytes, n: nat)
    requires n > 0
    ensures Onto(sofar, GetWords(b, n))
            == match GetWord(b)
               case None => None
               case Some((w, b1)) => Onto(sofar + [w], GetWords(b1, n - 1))
  {
    hide GetWord;
    match GetWord(b)
    case None =>
    case Some((w, b1)) =>
      match GetWords(b1, n - 1)
      case None =>
      case Some((ws, _)) => assert sofar + ([w] + ws) == (sofar + [w]) + ws;
  }

  /** Reading words one at a time takes four bytes each. */
  lemma {:induction false} WordsFromBytes(b: Bytes, n: nat)
    ensures GetWords(b, n) == match GetBytes(b, 4 * n)
                              case None => None
                              case Some((taken, rest)) => match GetWords(taken, n)
                                                          case None => None
                                                          case Some((words, _)) => Some((words, rest))
    ensures |b| >= 4 * n ==> GetWords(b[..4 * n], n).Some?
    decreases n
  {
    hide GetLe;
    if n > 0 {
      if |b| < 4 {
        LeFromBytes(b, 4);
      } else {
        WordOfValue(b);
        WordsFromBytes(b[4..], n - 1);
        if |b| >= 4 * n {
          var taken := b[..4 * n];
          WordOfValue(taken);
          assert taken[..4] == b[..4];
          assert taken[4..] == b[4..][..4 * (n - 1)];
          assert b[4..][4 * (n - 1)..] == b[4 * n..];
        }
      }
    }
  }

  // ---- The layout, byte by byte ---------------------------------------------------------------------------

  /** The file starts with this text. */
  lemma MagicText()
    ensures |MAGIC| == 14 && forall i | 0 <= i < 14 :: MAGIC[i] == "SYSPILOT_VDB_3"[i] as int
  {
  }

  /** The reader's limits. */
  lemma LimitsExactly(db: VectorDb)
    ensures Within(SAFETY, db) <==>
              && |db.workspacePath| <= 10_485_760 && |db.embeddingSource| <= 10_485_760
              && |db.files| <= 1_000_000 && |db.chunks| <= 1_000_000
              && (forall f | f in db.files :: |f.filePath| <= 10_485_760)
              && (forall c | c in db.chunks ::
                    |c.filePath| <= 10_485_760 && |c.content| <= 10_485_760 && |c.embedding| <= 8192)
  {
  }
}
