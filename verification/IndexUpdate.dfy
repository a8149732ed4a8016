/** Incremental update of the vector index (src/codebase.rs).

    The stored index is the bytes of its file.  The chunker and the embedding model are parameters:
    a file with a given path, modification time and size always has the same pieces when it can be
    read, none when it cannot, and a text always has the same vector under one embedding source. */
module IndexUpdate {
  import opened Prelude
  import V = VectorDb

  type Bytes = V.Bytes

  type Vector = seq<V.U32>

  datatype Piece = Piece(content: Bytes, startLine: V.U32, endLine: V.U32)

  datatype World = World(
    lossy: Bytes -> Bytes,
    pieces: V.FileRegistry -> seq<Piece>,
    embed: (Bytes, Bytes) -> Vector)

  datatype SaveOutcome = Saved | FailedBeforeRename | FailedAfterRename

  /** One call: its arguments, the files it finds, those among them it cannot read, what the embedding
      service answers to each batch, and how its file operations end. */
  datatype Run = Run(
    force: bool, workspace: Bytes, source: Bytes,
    files: seq<V.FileRegistry>, unread: set<Bytes>,
    service: (nat, seq<Bytes>) -> seq<Vector>,
    quarantines: bool, save: SaveOutcome)

  const EMPTY := V.VectorDb([], [], [], [])

  const BATCH := 50

  datatype Load = Missing | Loaded(db: V.VectorDb) | Corrupt

  // ---- The pieces of one update -----------------------------------------------------------------------------

  function LoadOutcome(w: World, disk: Option<Bytes>): Load {
    match disk
    case None => Missing
    case Some(b) =>
      match V.Decode(w.lossy, b)
      case None => Corrupt
      case Some((db, _)) => Loaded(db)
  }

  /** The index an update starts from; none when the stored one is corrupt. */
  function Opened(w: World, disk: Option<Bytes>, run: Run): Option<V.VectorDb> {
    if run.force then Some(EMPTY) else
    match LoadOutcome(w, disk)
    case Missing => Some(EMPTY)
    case Loaded(db) => Some(if db.embeddingSource != [] && db.embeddingSource != run.source then EMPTY else db)
    case Corrupt => None
  }

  /** The registry built from the file list: the last entry of a path wins. */
  function Registered(files: seq<V.FileRegistry>, path: Bytes): Option<V.FileRegistry> {
    if files == [] then None else
    var last := files[|files| - 1];
    if last.filePath == path then Some(last) else Registered(files[..|files| - 1], path)
  }

  predicate NeedsIndex(registry: seq<V.FileRegistry>, f: V.FileRegistry) {
    match Registered(registry, f.filePath)
    case None => true
    case Some(r) => r.lastModified != f.lastModified || r.size != f.size
  }

  function ToIndex(registry: seq<V.FileRegistry>, found: seq<V.FileRegistry>): seq<V.FileRegistry> {
    if found == [] then [] else
    var n := |found| - 1;
    ToIndex(registry, found[..n]) + if NeedsIndex(registry, found[n]) then [found[n]] else []
  }

  function Paths(files: seq<V.FileRegistry>): set<Bytes> {
    set f | f in files :: f.filePath
  }

  /** `retain`: the entries whose path is in the set, or those whose path is not. */
  function KeepFiles(files: seq<V.FileRegistry>, paths: set<Bytes>, inside: bool): seq<V.FileRegistry> {
    if files == [] then [] else
    (if (files[0].filePath in paths) == inside then [files[0]] else []) + KeepFiles(files[1..], paths, inside)
  }

  function KeepChunks(chunks: seq<V.DbChunk>, paths: set<Bytes>, inside: bool): seq<V.DbChunk> {
    if chunks == [] then [] else
    (if (chunks[0].filePath in paths) == inside then [chunks[0]] else []) + KeepChunks(chunks[1..], paths, inside)
  }

  /** The chunks of one file, not embedded yet; none for one that cannot be read. */
  function FileChunks(w: World, unread: set<Bytes>, f: V.FileRegistry): (r: seq<V.DbChunk>)
    ensures forall c | c in r :: c.filePath == f.filePath
  {
    var ps := if f.filePath in unread then [] else w.pieces(f);
    seq(|ps|, i requires 0 <= i < |ps| => V.DbChunk(f.filePath, ps[i].content, ps[i].startLine, ps[i].endLine, []))
  }

  function NewChunks(w: World, unread: set<Bytes>, files: seq<V.FileRegistry>): seq<V.DbChunk> {
    if files == [] then [] else
    NewChunks(w, unread, files[..|files| - 1]) + FileChunks(w, unread, files[|files| - 1])
  }

  function Texts(chunks: seq<V.DbChunk>): (r: seq<Bytes>)
    ensures |r| == |chunks|
  {
    seq(|chunks|, i requires 0 <= i < |chunks| => chunks[i].content)
  }

  /** The answers to batches of 50 texts, one after the other. */
  function AllVectors(service: (nat, seq<Bytes>) -> seq<Vector>, texts: seq<Bytes>, k: nat): seq<Vector>
    decreases |texts|
  {
    if texts == [] then [] else
    var n := if |texts| < BATCH then |texts| else BATCH;
    service(k, texts[..n]) + AllVectors(service, texts[n..], k + 1)
  }

  function Embedded(chunks: seq<V.DbChunk>, vectors: seq<Vector>): (r: seq<V.DbChunk>)
    requires |vectors| == |chunks|
    ensures |r| == |chunks|
  {
    seq(|chunks|, i requires 0 <= i < |chunks| => chunks[i].(embedding := vectors[i]))
  }

  /** The index an update wants to save; none when the number of vectors does not match. */
  function Refreshed(w: World, db: V.VectorDb, run: Run): Option<V.VectorDb> {
    var todo := ToIndex(db.files, run.files);
    var active, done := Paths(run.files), Paths(todo);
    var files := KeepFiles(KeepFiles(db.files, active, true), done, false) + todo;
    var chunks := KeepChunks(KeepChunks(db.chunks, active, true), done, false);
    var added := NewChunks(w, run.unread, todo);
    var vectors := AllVectors(run.service, Texts(added), 0);
    if |vectors| != |added| then None else
    Some(V.VectorDb(run.workspace, run.source, files, chunks + Embedded(added, vectors)))
  }

  /** The stored bytes and the answer after one call. */
  function Update(w: World, disk: Option<Bytes>, run: Run): (Option<Bytes>, bool) {
    match Opened(w, disk, run)
    case None => (if run.quarantines then None else disk, false)
    case Some(db) =>
      if ToIndex(db.files, run.files) == [] then (disk, true) else
      match Refreshed(w, db, run)
      case None => (disk, false)
      case Some(next) =>
        match run.save
        case Saved => (Some(V.Encode(next)), true)
        case FailedBeforeRename => (disk, false)
        case FailedAfterRename => (Some(V.Encode(next)), false)
  }

  // ---- The procedure ------------------------------------------------------------------------------------------

  class VectorIndex {
    /** The index file. */
    var disk: Option<Bytes>

    constructor ()
      ensures disk == None
    {
      disk := None;
    }

    method UpdateIndex(w: World, run: Run) returns (ok: bool)
      modifies this
      ensures (disk, ok) == Update(w, old(disk), run)
    {
      hide ToIndex, NewChunks, KeepFiles, KeepChunks, AllVectors, LoadOutcome, Paths;
      var db := EMPTY;
      if !run.force {
        match LoadOutcome(w, disk)
        case Missing =>
        case Loaded(loaded) =>
          db := loaded;
        case Corrupt =>
          if run.quarantines {
            disk := None;
          }
          return false;
      }
      if db.embeddingSource != [] && db.embeddingSource != run.source {
        db := EMPTY;
      }
      var todo := FindChanged(db.files, run.files);
      var active := Paths(run.files);
      var files := KeepFiles(db.files, active, true);
      var chunks := KeepChunks(db.chunks, active, true);
      if todo == [] {
        return true;
      }
      var done := Paths(todo);
      chunks := KeepChunks(chunks, done, false);
      files := KeepFiles(files, done, false);
      var added := ChunkAll(w, run.unread, todo);
      files := files + todo;
      if added != [] {
        var vectors := FetchAll(run.service, Texts(added));
        if |vectors| != |added| {
          return false;
        }
        chunks := chunks + Embedded(added, vectors);
      } else {
        NothingToEmbed(run.service);
        assert chunks + Embedded(added, []) == chunks;
      }
      match run.save
      case Saved =>
        disk := Some(V.Encode(V.VectorDb(run.workspace, run.source, files, chunks)));
        return true;
      case FailedBeforeRename =>
        return false;
      case FailedAfterRename =>
        disk := Some(V.Encode(V.VectorDb(run.workspace, run.source, files, chunks)));
        return false;
    }
  }

  lemma NothingToEmbed(service: (nat, seq<Bytes>) -> seq<Vector>)
    ensures AllVectors(service, Texts([]), 0) == []
  {
  }

  method FindChanged(registry: seq<V.FileRegistry>, found: seq<V.FileRegistry>) returns (todo: seq<V.FileRegistry>)
    ensures todo == ToIndex(registry, found)
  {
    todo := [];
    for i := 0 to |found|
      invariant todo == ToIndex(registry, found[..i])
    {
      assert found[..i + 1][..i] == found[..i];
      if NeedsIndex(registry, found[i]) {
        todo := todo + [found[i]];
      }
    }
    assert found[..|found|] == found;
  }

  method ChunkAll(w: World, unread: set<Bytes>, todo: seq<V.FileRegistry>) returns (added: seq<V.DbChunk>)
    ensures added == NewChunks(w, unread, todo)
  {
    hide FileChunks;
    added := [];
    for i := 0 to |todo|
      invariant added == NewChunks(w, unread, todo[..i])
    {
      assert todo[..i + 1][..i] == todo[..i];
      added := added + FileChunks(w, unread, todo[i]);
    }
    assert todo[..|todo|] == todo;
  }

  method FetchAll(service: (nat, seq<Bytes>) -> seq<Vector>, texts: seq<Bytes>) returns (vectors: seq<Vector>)
    ensures vectors == AllVectors(service, texts, 0)
  {
    vectors := [];
    var i, k := 0, 0;
    assert texts[0..] == texts;
    while i < |texts|
      invariant i <= |texts|
      invariant AllVectors(service, texts, 0) == vectors + AllVectors(service, texts[i..], k)
    {
      var n := if |texts| - i < BATCH then |texts| - i else BATCH;
      assert texts[i..][..n] == texts[i..i + n] && texts[i..][n..] == texts[i + n..];
      vectors := vectors + service(k, texts[i..i + n]);
      i, k := i + n, k + 1;
    }
  }

  // ---- What a correct index is -------------------------------------------------------------------------------

  ghost predicate Distinct(files: seq<V.FileRegistry>) {
    forall i, j :: 0 <= i < j < |files| ==> files[i].filePath != files[j].filePath
  }

  /** The chunks an index holds for one file, in order. */
  function ChunksOf(chunks: seq<V.DbChunk>, path: Bytes): seq<V.DbChunk> {
    if chunks == [] then [] else
    (if chunks[0].filePath == path then [chunks[0]] else []) + ChunksOf(chunks[1..], path)
  }

  /** Every chunk with the vector of its own text. */
  function WithVectors(w: World, source: Bytes, chunks: seq<V.DbChunk>): (r: seq<V.DbChunk>)
    ensures |r| == |chunks|
  {
    seq(|chunks|, i requires 0 <= i < |chunks| => chunks[i].(embedding := w.embed(source, chunks[i].content)))
  }

  /** What a file's chunks have to be, if it was read when it was indexed. */
  function Expected(w: World, source: Bytes, blind: set<Bytes>, f: V.FileRegistry): seq<V.DbChunk> {
    WithVectors(w, source, FileChunks(w, blind, f))
  }

  /** An index in which every registered file has exactly its own chunks, or none if it could not be
      read when it was indexed, and nothing else is stored. */
  ghost predicate Consistent(w: World, blind: set<Bytes>, db: V.VectorDb) {
    && Distinct(db.files)
    && (db.embeddingSource == [] ==> db.files == [] && db.chunks == [])
    && (forall c | c in db.chunks :: c.filePath in Paths(db.files))
    && (forall f | f in db.files :: ChunksOf(db.chunks, f.filePath) == Expected(w, db.embeddingSource, blind, f))
  }

  /** A batch is answered with the vectors of its texts in order, or with too few vectors. */
  ghost predicate Faithful(w: World, source: Bytes, service: (nat, seq<Bytes>) -> seq<Vector>) {
    forall k: nat, texts: seq<Bytes> ::
      && |service(k, texts)| <= |texts|
      && (|service(k, texts)| == |texts| ==>
            service(k, texts) == seq(|texts|, i requires 0 <= i < |texts| => w.embed(source, texts[i])))
  }

  ghost predicate GoodRun(w: World, run: Run) {
    run.source != [] && Distinct(run.files) && Faithful(w, run.source, run.service)
  }

  // ---- Counting vectors is enough for a faithful service ---------------------------------------------------------

  lemma {:induction false} FaithfulVectors(
      w: World, source: Bytes, service: (nat, seq<Bytes>) -> seq<Vector>, texts: seq<Bytes>, k: nat)
    requires Faithful(w, source, service)
    ensures |AllVectors(service, texts, k)| <= |texts|
    ensures |AllVectors(service, texts, k)| == |texts| ==>
              forall i :: 0 <= i < |texts| ==> AllVectors(service, texts, k)[i] == w.embed(source, texts[i])
    decreases |texts|
  {
    if texts != [] {
      var n := if |texts| < BATCH then |texts| else BATCH;
      FaithfulVectors(w, source, service, texts[n..], k + 1);
      var head, rest := service(k, texts[..n]), AllVectors(service, texts[n..], k + 1);
      if |head + rest| == |texts| {
        forall i | 0 <= i < |texts|
          ensures (head + rest)[i] == w.embed(source, texts[i])
        {
          if i >= n {
            assert texts[n..][i - n] == texts[i];
          }
        }
      }
    }
  }

  /** The first vectors of every answer are those of the batch's texts in order; there may be fewer, or
      more behind them. */
  ghost predicate AnswersInOrder(w: World, source: Bytes, service: (nat, seq<Bytes>) -> seq<Vector>) {
    forall k: nat, batch: seq<Bytes>, i: nat | i < |batch| && i < |service(k, batch)| ::
      service(k, batch)[i] == w.embed(source, batch[i])
  }

  /** What comes behind them is the vector of none of the texts. */
  ghost predicate ForeignSurplus(w: World, source: Bytes, service: (nat, seq<Bytes>) -> seq<Vector>, texts: seq<Bytes>) {
    forall k: nat, batch: seq<Bytes>, i: nat | |batch| <= i < |service(k, batch)| ::
      IsForeign(w, source, texts, service(k, batch)[i])
  }

  predicate IsForeign(w: World, source: Bytes, texts: seq<Bytes>, v: Vector) {
    forall t | t in texts :: v != w.embed(source, t)
  }

  function BatchSize(texts: seq<Bytes>): (n: nat)
    ensures n <= |texts| && (texts != [] ==> n > 0)
  {
    if |texts| < BATCH then |texts| else BATCH
  }

  /** Every batch is answered with as many vectors as it has texts: the check the code does not make. */
  predicate EachFull(service: (nat, seq<Bytes>) -> seq<Vector>, texts: seq<Bytes>, k: nat)
    decreases |texts|
  {
    texts == []
    || (&& |service(k, texts[..BatchSize(texts)])| == BatchSize(texts)
        && EachFull(service, texts[BatchSize(texts)..], k + 1))
  }

  /** Some batch is answered with too many. */
  predicate SomeSurplus(service: (nat, seq<Bytes>) -> seq<Vector>, texts: seq<Bytes>, k: nat)
    decreases |texts|
  {
    texts != []
    && (|| |service(k, texts[..BatchSize(texts)])| > BatchSize(texts)
        || SomeSurplus(service, texts[BatchSize(texts)..], k + 1))
  }

  lemma {:induction false} Totals(service: (nat, seq<Bytes>) -> seq<Vector>, texts: seq<Bytes>, k: nat)
    requires !SomeSurplus(service, texts, k)
    ensures |AllVectors(service, texts, k)| <= |texts|
    ensures |AllVectors(service, texts, k)| == |texts| <==> EachFull(service, texts, k)
    decreases |texts|
  {
    if texts != [] {
      Totals(service, texts[BatchSize(texts)..], k + 1);
    }
  }

  lemma {:induction false} OwnIfFull(
      w: World, source: Bytes, service: (nat, seq<Bytes>) -> seq<Vector>, texts: seq<Bytes>, k: nat)
    requires AnswersInOrder(w, source, service) && EachFull(service, texts, k)
    ensures |AllVectors(service, texts, k)| == |texts|
    ensures forall i :: 0 <= i < |texts| ==> AllVectors(service, texts, k)[i] == w.embed(source, texts[i])
    decreases |texts|
  {
    if texts != [] {
      var n := BatchSize(texts);
      OwnIfFull(w, source, service, texts[n..], k + 1);
      forall i | 0 <= i < |texts|
        ensures AllVectors(service, texts, k)[i] == w.embed(source, texts[i])
      {
        if i < n {
          assert texts[..n][i] == texts[i];
        } else {
          assert texts[n..][i - n] == texts[i];
        }
      }
    }
  }

  lemma {:induction false} SurplusShows(
      w: World, source: Bytes, service: (nat, seq<Bytes>) -> seq<Vector>, all: seq<Bytes>, texts: seq<Bytes>, k: nat)
      returns (i: nat)
    requires ForeignSurplus(w, source, service, all) && SomeSurplus(service, texts, k)
    ensures i < |AllVectors(service, texts, k)| && IsForeign(w, source, all, AllVectors(service, texts, k)[i])
    decreases |texts|
  {
    hide IsForeign;
    var n := BatchSize(texts);
    var head := service(k, texts[..n]);
    if |head| > n {
      i := n;
    } else {
      var j := SurplusShows(w, source, service, all, texts[n..], k + 1);
      i := |head| + j;
    }
  }

  /** When the total matches, every text got its own vector if and only if every batch was answered in
      full, for a service that answers in order and whose surplus is the vector of none of the texts.
      A check batch by batch decides it; the check of the total does not. */
  lemma CountExactly(w: World, source: Bytes, service: (nat, seq<Bytes>) -> seq<Vector>, texts: seq<Bytes>)
    requires AnswersInOrder(w, source, service) && ForeignSurplus(w, source, service, texts)
    requires |AllVectors(service, texts, 0)| == |texts|
    ensures (forall i :: 0 <= i < |texts| ==> AllVectors(service, texts, 0)[i] == w.embed(source, texts[i]))
            <==> EachFull(service, texts, 0)
  {
    hide AllVectors, EachFull, SomeSurplus, AnswersInOrder, ForeignSurplus;
    if EachFull(service, texts, 0) {
      OwnIfFull(w, source, service, texts, 0);
    } else if SomeSurplus(service, texts, 0) {
      var i := SurplusShows(w, source, service, texts, texts, 0);
      assert texts[i] in texts;
    } else {
      Totals(service, texts, 0);
    }
  }

  /** A service that answers one vector too many to a batch and one too few to the next passes the
      count, and equal texts end up with different vectors. */
  lemma MiscountedBatchesPass(a: Vector, b: Vector, text: Bytes)
    ensures var texts: seq<Bytes> := seq(51, i requires 0 <= i < 51 => text);
            exists service: (nat, seq<Bytes>) -> seq<Vector> ::
              && |service(0, texts[..BATCH])| == BATCH + 1 && service(1, texts[BATCH..]) == []
              && |AllVectors(service, texts, 0)| == |texts|
              && AllVectors(service, texts, 0)[0] == b && AllVectors(service, texts, 0)[1] == a
  {
    var texts: seq<Bytes> := seq(51, i requires 0 <= i < 51 => text);
    var answer: seq<Vector> := [b] + seq(50, i requires 0 <= i < 50 => a);
    var service: (nat, seq<Bytes>) -> seq<Vector> := (k: nat, batch: seq<Bytes>) => if k == 0 then answer else [];
    assert AllVectors(service, texts[50..], 1) == [] + AllVectors(service, texts[50..][1..], 2);
    assert AllVectors(service, texts, 0) == answer + [];
  }

  // ---- One refresh ---------------------------------------------------------------------------------------------

  lemma {:induction false} RegisteredFinds(files: seq<V.FileRegistry>, path: Bytes)
    requires Distinct(files)
    ensures path !in Paths(files) ==> Registered(files, path) == None
    ensures forall r | r in files && r.filePath == path :: Registered(files, path) == Some(r)
    ensures Registered(files, path).Some? ==> Registered(files, path).value in files && Registered(files, path).value.filePath == path
  {
    if files != [] {
      var n := |files| - 1;
      RegisteredFinds(files[..n], path);
      forall r | r in files && r.filePath == path
        ensures Registered(files, path) == Some(r)
      {
        var i :| 0 <= i < |files| && files[i] == r;
        if i < n {
          assert files[..n][i] == r;
        }
      }
    }
  }

  lemma {:induction false} ToIndexIn(registry: seq<V.FileRegistry>, found: seq<V.FileRegistry>)
    requires Distinct(found)
    ensures Distinct(ToIndex(registry, found))
    ensures forall f :: f in ToIndex(registry, found) <==> f in found && NeedsIndex(registry, f)
  {
    hide NeedsIndex;
    if found != [] {
      var n := |found| - 1;
      var before := ToIndex(registry, found[..n]);
      ToIndexIn(registry, found[..n]);
      if NeedsIndex(registry, found[n]) {
        forall i | 0 <= i < |before|
          ensures before[i].filePath != found[n].filePath
        {
          assert before[i] in found[..n];
        }
      }
      assert found == found[..n] + [found[n]];
    }
  }

  lemma {:induction false} KeepFilesIn(files: seq<V.FileRegistry>, paths: set<Bytes>, inside: bool)
    ensures forall f :: f in KeepFiles(files, paths, inside) <==> f in files && (f.filePath in paths) == inside
    ensures Distinct(files) ==> Distinct(KeepFiles(files, paths, inside))
  {
    if files != [] {
      KeepFilesIn(files[1..], paths, inside);
      assert files == [files[0]] + files[1..];
      var rest := KeepFiles(files[1..], paths, inside);
      if Distinct(files) {
        forall i | 0 <= i < |rest|
          ensures rest[i].filePath != files[0].filePath
        {
          assert rest[i] in files[1..];
        }
      }
    }
  }

  lemma {:induction false} KeepChunksIn(chunks: seq<V.DbChunk>, paths: set<Bytes>, inside: bool, path: Bytes)
    ensures forall c :: c in KeepChunks(chunks, paths, inside) <==> c in chunks && (c.filePath in paths) == inside
    ensures ChunksOf(KeepChunks(chunks, paths, inside), path)
            == if (path in paths) == inside then ChunksOf(chunks, path) else []
  {
    if chunks != [] {
      KeepChunksIn(chunks[1..], paths, inside, path);
      assert chunks == [chunks[0]] + chunks[1..];
      var head := if (chunks[0].filePath in paths) == inside then [chunks[0]] else [];
      ChunksOfConcat(head, KeepChunks(chunks[1..], paths, inside), path);
    }
  }

  lemma {:induction false} ChunksOfConcat(a: seq<V.DbChunk>, b: seq<V.DbChunk>, path: Bytes)
    ensures ChunksOf(a + b, path) == ChunksOf(a, path) + ChunksOf(b, path)
  {
    if a == [] {
      assert a + b == b;
    } else {
      assert (a + b)[1..] == a[1..] + b;
      ChunksOfConcat(a[1..], b, path);
    }
  }

  lemma {:induction false} ChunksOfOneFile(chunks: seq<V.DbChunk>, path: Bytes, own: Bytes)
    requires forall c | c in chunks :: c.filePath == own
    ensures ChunksOf(chunks, path) == if path == own then chunks else []
  {
    if chunks != [] {
      ChunksOfOneFile(chunks[1..], path, own);
      assert chunks == [chunks[0]] + chunks[1..];
    }
  }

  lemma {:induction false} ChunksOfVectors(w: World, source: Bytes, chunks: seq<V.DbChunk>, path: Bytes)
    ensures ChunksOf(WithVectors(w, source, chunks), path) == WithVectors(w, source, ChunksOf(chunks, path))
  {
    if chunks != [] {
      ChunksOfVectors(w, source, chunks[1..], path);
      assert WithVectors(w, source, chunks)[1..] == WithVectors(w, source, chunks[1..]);
    }
  }

  lemma {:induction false} NewChunksAbsent(w: World, unread: set<Bytes>, files: seq<V.FileRegistry>, path: Bytes)
    requires forall i :: 0 <= i < |files| ==> files[i].filePath != path
    ensures ChunksOf(NewChunks(w, unread, files), path) == []
  {
    hide FileChunks, ChunksOf;
    ChunksOfNone(path);
    if files != [] {
      var n := |files| - 1;
      NewChunksAbsent(w, unread, files[..n], path);
      ChunksOfConcat(NewChunks(w, unread, files[..n]), FileChunks(w, unread, files[n]), path);
      ChunksOfOneFile(FileChunks(w, unread, files[n]), path, files[n].filePath);
    }
  }

  lemma ChunksOfNone(path: Bytes)
    ensures ChunksOf([], path) == []
  {
  }

  /** New chunks are grouped by file, each file's being its own. */
  lemma {:induction false} NewChunksOf(w: World, unread: set<Bytes>, files: seq<V.FileRegistry>, i: nat)
    requires Distinct(files) && i < |files|
    ensures ChunksOf(NewChunks(w, unread, files), files[i].filePath) == FileChunks(w, unread, files[i])
  {
    hide FileChunks, ChunksOf;
    var n := |files| - 1;
    var path := files[i].filePath;
    ChunksOfConcat(NewChunks(w, unread, files[..n]), FileChunks(w, unread, files[n]), path);
    ChunksOfOneFile(FileChunks(w, unread, files[n]), path, files[n].filePath);
    if i < n {
      NewChunksOf(w, unread, files[..n], i);
    } else {
      NewChunksAbsent(w, unread, files[..n], path);
    }
  }

  lemma {:induction false} NewChunksIn(w: World, unread: set<Bytes>, files: seq<V.FileRegistry>, c: V.DbChunk)
    requires c in NewChunks(w, unread, files)
    ensures c.filePath in Paths(files)
  {
    hide FileChunks;
    var n := |files| - 1;
    if c in NewChunks(w, unread, files[..n]) {
      NewChunksIn(w, unread, files[..n], c);
    }
  }

  lemma AddedAreEmbedded(w: World, run: Run, added: seq<V.DbChunk>)
    requires Faithful(w, run.source, run.service)
    requires |AllVectors(run.service, Texts(added), 0)| == |added|
    ensures Embedded(added, AllVectors(run.service, Texts(added), 0)) == WithVectors(w, run.source, added)
  {
    hide Faithful, AllVectors;
    FaithfulVectors(w, run.source, run.service, Texts(added), 0);
  }

  /** The registry a refresh saves. */
  function NextFiles(db: V.VectorDb, run: Run): seq<V.FileRegistry> {
    var todo := ToIndex(db.files, run.files);
    KeepFiles(KeepFiles(db.files, Paths(run.files), true), Paths(todo), false) + todo
  }

  lemma FilesAreFound(db: V.VectorDb, run: Run)
    requires Distinct(db.files) && Distinct(run.files)
    ensures Distinct(NextFiles(db, run))
    ensures forall f :: f in NextFiles(db, run) <==> f in run.files
  {
    hide ToIndex, KeepFiles, NeedsIndex, Registered;
    var todo := ToIndex(db.files, run.files);
    var active, done := Paths(run.files), Paths(todo);
    var kept := KeepFiles(KeepFiles(db.files, active, true), done, false);
    KeepFilesIn(db.files, active, true);
    KeepFilesIn(KeepFiles(db.files, active, true), done, false);
    ToIndexIn(db.files, run.files);
    forall f | f in kept
      ensures f in run.files
    {
      KeptIsUnchanged(db, run, f);
    }
    forall f | f in run.files && f !in todo
      ensures f in kept
    {
      UnchangedIsKept(db, run, f);
    }
    forall i, j | 0 <= i < |kept| && 0 <= j < |todo|
      ensures kept[i].filePath != todo[j].filePath
    {
      assert kept[i] in kept && todo[j] in todo;
    }
  }

  /** An entry that is kept is that of a file found unchanged. */
  lemma KeptIsUnchanged(db: V.VectorDb, run: Run, f: V.FileRegistry)
    requires Distinct(db.files) && Distinct(run.files)
    requires f in db.files && f.filePath in Paths(run.files) && f.filePath !in Paths(ToIndex(db.files, run.files))
    ensures f in run.files
  {
    hide Registered, ToIndex;
    ToIndexIn(db.files, run.files);
    var g :| g in run.files && g.filePath == f.filePath;
    RegisteredFinds(db.files, g.filePath);
    assert g !in ToIndex(db.files, run.files);
  }

  /** A file that needs no indexing is registered as it was found, and kept. */
  lemma UnchangedIsKept(db: V.VectorDb, run: Run, f: V.FileRegistry)
    requires Distinct(db.files) && Distinct(run.files)
    requires f in run.files && f !in ToIndex(db.files, run.files)
    ensures f in db.files && f.filePath !in Paths(ToIndex(db.files, run.files))
  {
    hide Registered, ToIndex;
    ToIndexIn(db.files, run.files);
    RegisteredFinds(db.files, f.filePath);
    forall g | g in ToIndex(db.files, run.files)
      ensures g.filePath != f.filePath
    {
      DistinctPaths(run.files, f, g);
    }
  }

  lemma DistinctPaths(files: seq<V.FileRegistry>, f: V.FileRegistry, g: V.FileRegistry)
    requires Distinct(files) && f in files && g in files && f != g
    ensures f.filePath != g.filePath
  {
  }

  /** The chunks a refresh keeps. */
  function KeptChunks(db: V.VectorDb, run: Run): seq<V.DbChunk> {
    KeepChunks(KeepChunks(db.chunks, Paths(run.files), true), Paths(ToIndex(db.files, run.files)), false)
  }

  lemma KeptChunksOf(db: V.VectorDb, run: Run, path: Bytes)
    ensures ChunksOf(KeptChunks(db, run), path)
            == if path in Paths(run.files) && path !in Paths(ToIndex(db.files, run.files))
               then ChunksOf(db.chunks, path) else []
    ensures forall c :: c in KeptChunks(db, run) <==>
              c in db.chunks && c.filePath in Paths(run.files) && c.filePath !in Paths(ToIndex(db.files, run.files))
  {
    hide KeepChunks, ChunksOf, ToIndex;
    var active, done := Paths(run.files), Paths(ToIndex(db.files, run.files));
    KeepChunksIn(db.chunks, active, true, path);
    KeepChunksIn(KeepChunks(db.chunks, active, true), done, false, path);
  }

  /** The files without chunks because they could not be read when they were indexed last. */
  function NextBlind(db: V.VectorDb, run: Run, blind: set<Bytes>): set<Bytes> {
    var done := Paths(ToIndex(db.files, run.files));
    (blind - done) + run.unread * done
  }

  lemma SameReading(w: World, a: set<Bytes>, b: set<Bytes>, f: V.FileRegistry)
    requires f.filePath in a <==> f.filePath in b
    ensures FileChunks(w, a, f) == FileChunks(w, b, f)
  {
  }

  /** The chunks a refresh saves for a file it found. */
  lemma ChunksAreExpected(w: World, blind: set<Bytes>, db: V.VectorDb, run: Run, f: V.FileRegistry)
    requires Consistent(w, blind, db) && Distinct(run.files) && (db.embeddingSource != [] ==> db.embeddingSource == run.source)
    requires f in run.files
    ensures var added := NewChunks(w, run.unread, ToIndex(db.files, run.files));
            ChunksOf(KeptChunks(db, run) + WithVectors(w, run.source, added), f.filePath)
            == Expected(w, run.source, NextBlind(db, run, blind), f)
  {
    hide ToIndex, NewChunks, KeptChunks, ChunksOf, FileChunks, Registered, WithVectors, NeedsIndex;
    var todo := ToIndex(db.files, run.files);
    var added := NewChunks(w, run.unread, todo);
    ToIndexIn(db.files, run.files);
    ChunksOfConcat(KeptChunks(db, run), WithVectors(w, run.source, added), f.filePath);
    ChunksOfVectors(w, run.source, added, f.filePath);
    KeptChunksOf(db, run, f.filePath);
    if f !in todo {
      UnchangedIsKept(db, run, f);
      forall i | 0 <= i < |todo|
        ensures todo[i].filePath != f.filePath
      {
        assert todo[i] in todo;
      }
      NewChunksAbsent(w, run.unread, todo, f.filePath);
      NoVectors(w, run.source);
      SameReading(w, blind, NextBlind(db, run, blind), f);
    } else {
      var i :| 0 <= i < |todo| && todo[i] == f;
      NewChunksOf(w, run.unread, todo, i);
      SameReading(w, run.unread, NextBlind(db, run, blind), f);
    }
  }

  lemma NoVectors(w: World, source: Bytes)
    ensures WithVectors(w, source, []) == []
  {
  }

  /** Every chunk a refresh saves belongs to a file it found. */
  lemma ChunksAreRegistered(w: World, db: V.VectorDb, run: Run, c: V.DbChunk)
    requires Distinct(run.files)
    requires c in KeptChunks(db, run) + WithVectors(w, run.source, NewChunks(w, run.unread, ToIndex(db.files, run.files)))
    ensures c.filePath in Paths(run.files)
  {
    hide ToIndex, NewChunks, KeptChunks, NeedsIndex;
    var todo := ToIndex(db.files, run.files);
    ToIndexIn(db.files, run.files);
    KeptChunksOf(db, run, c.filePath);
    var added := NewChunks(w, run.unread, todo);
    if c !in KeptChunks(db, run) {
      var i :| 0 <= i < |added| && WithVectors(w, run.source, added)[i] == c;
      NewChunksIn(w, run.unread, todo, added[i]);
    }
  }

  /** What a successful refresh saves is consistent and registers exactly the files that were found. */
  lemma RefreshedIsConsistent(w: World, blind: set<Bytes>, db: V.VectorDb, run: Run)
    requires Consistent(w, blind, db) && GoodRun(w, run) && (db.embeddingSource != [] ==> db.embeddingSource == run.source)
    requires Refreshed(w, db, run).Some?
    ensures var next := Refreshed(w, db, run).value;
            && Consistent(w, NextBlind(db, run, blind), next)
            && next.embeddingSource == run.source && next.workspacePath == run.workspace
            && forall f :: f in next.files <==> f in run.files
  {
    hide FileChunks, Faithful, NewChunks, AllVectors, KeepFiles, KeepChunks, ToIndex, ChunksOf, NeedsIndex, Embedded,
      WithVectors, Expected, NextBlind;
    var next := Refreshed(w, db, run).value;
    var added := NewChunks(w, run.unread, ToIndex(db.files, run.files));
    AddedAreEmbedded(w, run, added);
    assert next.files == NextFiles(db, run);
    assert next.chunks == KeptChunks(db, run) + WithVectors(w, run.source, added);
    FilesAreFound(db, run);
    forall f | f in next.files
      ensures ChunksOf(next.chunks, f.filePath) == Expected(w, run.source, NextBlind(db, run, blind), f)
    {
      ChunksAreExpected(w, blind, db, run, f);
    }
    forall c | c in next.chunks
      ensures c.filePath in Paths(next.files)
    {
      ChunksAreRegistered(w, db, run, c);
      assert Paths(run.files) == Paths(next.files);
    }
  }

  // ---- Any series of runs --------------------------------------------------------------------------------------

  /** The stored index is missing, unreadable or consistent. */
  ghost predicate Sound(w: World, blind: set<Bytes>, disk: Option<Bytes>) {
    match LoadOutcome(w, disk)
    case Missing => true
    case Corrupt => true
    case Loaded(db) => Consistent(w, blind, db)
  }

  /** What this call would write, if it comes to that: strings are valid UTF-8 and lengths fit 32 bits. */
  ghost predicate Writable(w: World, disk: Option<Bytes>, run: Run) {
    match Opened(w, disk, run)
    case None => true
    case Some(db) =>
      match Refreshed(w, db, run)
      case None => true
      case Some(next) => V.Within(V.FIELDS, next) && V.Repair(w.lossy, next) == next
  }

  /** Bytes written are read back as the same index, or refused because it is over the limits. */
  lemma SavedLoads(w: World, db: V.VectorDb)
    requires V.Within(V.FIELDS, db) && V.Repair(w.lossy, db) == db
    ensures LoadOutcome(w, Some(V.Encode(db))) == if V.Within(V.SAFETY, db) then Loaded(db) else Corrupt
  {
    hide V.Within, V.Repair, V.GetDb, V.Encode;
    V.OverLimitIsRefused(w.lossy, db, []);
    assert V.Encode(db) + [] == V.Encode(db);
    if V.Within(V.SAFETY, db) {
      V.PutDbTail(db, []);
      V.GetPutDb(V.SAFETY, db, []);
    }
  }

  lemma OpenedIsConsistent(w: World, blind: set<Bytes>, disk: Option<Bytes>, run: Run)
    requires Sound(w, blind, disk) && Opened(w, disk, run).Some?
    ensures var db := Opened(w, disk, run).value;
            Consistent(w, blind, db) && (db.embeddingSource != [] ==> db.embeddingSource == run.source)
  {
    hide LoadOutcome, Expected, ChunksOf;
  }

  /** The files left without chunks once this call is over. */
  function UpdateBlind(w: World, disk: Option<Bytes>, blind: set<Bytes>, run: Run): set<Bytes> {
    match Opened(w, disk, run)
    case None => blind
    case Some(db) =>
      if ToIndex(db.files, run.files) == [] || Refreshed(w, db, run).None? || run.save == FailedBeforeRename then blind
      else NextBlind(db, run, blind)
  }

  /** Every run keeps the stored index sound. */
  lemma UpdateKeepsSound(w: World, blind: set<Bytes>, disk: Option<Bytes>, run: Run)
    requires Sound(w, blind, disk) && GoodRun(w, run) && Writable(w, disk, run)
    ensures Sound(w, UpdateBlind(w, disk, blind, run), Update(w, disk, run).0)
  {
    hide LoadOutcome, Consistent, Refreshed, Opened, GoodRun, V.Encode, V.Within, V.Repair, ToIndex, NextBlind;
    match Opened(w, disk, run)
    case None => NothingStored(w);
    case Some(db) =>
      OpenedIsConsistent(w, blind, disk, run);
      match Refreshed(w, db, run)
      case None =>
      case Some(next) =>
        RefreshedIsConsistent(w, blind, db, run);
        SavedLoads(w, next);
  }

  lemma NothingStored(w: World)
    ensures LoadOutcome(w, None) == Missing
  {
  }

  /** The stored index after a series of runs. */
  function After(w: World, disk: Option<Bytes>, runs: seq<Run>): Option<Bytes> {
    if runs == [] then disk else Update(w, After(w, disk, runs[..|runs| - 1]), runs[|runs| - 1]).0
  }

  ghost predicate GoodRuns(w: World, disk: Option<Bytes>, runs: seq<Run>) {
    forall i :: 0 <= i < |runs| ==> GoodRun(w, runs[i]) && Writable(w, After(w, disk, runs[..i]), runs[i])
  }

  function BlindAfter(w: World, blind: set<Bytes>, disk: Option<Bytes>, runs: seq<Run>): set<Bytes> {
    if runs == [] then blind else
    var n := |runs| - 1;
    UpdateBlind(w, After(w, disk, runs[..n]), BlindAfter(w, blind, disk, runs[..n]), runs[n])
  }

  /** Where every file could be read, none is left without its chunks. */
  lemma {:induction false} NoneBlind(w: World, disk: Option<Bytes>, runs: seq<Run>)
    requires forall r | r in runs :: r.unread == {}
    ensures BlindAfter(w, {}, disk, runs) == {}
  {
    hide After, Opened, Refreshed, ToIndex;
    if runs != [] {
      assert runs[|runs| - 1] in runs;
      NoneBlind(w, disk, runs[..|runs| - 1]);
    }
  }

  lemma {:induction false} RunsKeepSound(w: World, blind: set<Bytes>, disk: Option<Bytes>, runs: seq<Run>)
    requires Sound(w, blind, disk) && GoodRuns(w, disk, runs)
    ensures Sound(w, BlindAfter(w, blind, disk, runs), After(w, disk, runs))
  {
    hide Sound, GoodRun, Writable, Update, UpdateBlind;
    if runs != [] {
      var n := |runs| - 1;
      forall i | 0 <= i < n
        ensures GoodRun(w, runs[..n][i]) && Writable(w, After(w, disk, runs[..n][..i]), runs[..n][i])
      {
        assert runs[..n][..i] == runs[..i];
      }
      RunsKeepSound(w, blind, disk, runs[..n]);
      UpdateKeepsSound(w, BlindAfter(w, blind, disk, runs[..n]), After(w, disk, runs[..n]), runs[n]);
    }
  }

  /** Two consistent indexes of the same files under one embedding source hold the same chunks, except
      of a file that has some and was not read for the first of them. */
  lemma SameChunks(w: World, blind: set<Bytes>, a: V.VectorDb, b: V.VectorDb, path: Bytes)
    requires Consistent(w, blind, a) && Consistent(w, {}, b) && a.embeddingSource == b.embeddingSource
    requires forall f :: f in a.files <==> f in b.files
    ensures ChunksOf(a.chunks, path) == ChunksOf(b.chunks, path) <==> path !in blind || ChunksOf(b.chunks, path) == []
  {
    hide ChunksOf, WithVectors, FileChunks;
    if path in Paths(a.files) {
      var f :| f in a.files && f.filePath == path;
      Unread(w, blind, a.embeddingSource, f);
    } else {
      NoChunks(a.chunks, path);
      NoChunks(b.chunks, path);
    }
  }

  lemma Unread(w: World, blind: set<Bytes>, source: Bytes, f: V.FileRegistry)
    ensures f.filePath in blind ==> Expected(w, source, blind, f) == []
    ensures f.filePath !in blind ==> Expected(w, source, blind, f) == Expected(w, source, {}, f)
  {
  }

  lemma {:induction false} NoChunks(chunks: seq<V.DbChunk>, path: Bytes)
    requires forall c | c in chunks :: c.filePath != path
    ensures ChunksOf(chunks, path) == []
  {
    if chunks != [] {
      NoChunks(chunks[1..], path);
    }
  }

  /** A call that indexes: the index it opened, and the one it saves. */
  ghost predicate Indexes(w: World, disk: Option<Bytes>, run: Run, next: V.VectorDb) {
    && Opened(w, disk, run).Some?
    && ToIndex(Opened(w, disk, run).value.files, run.files) != []
    && Refreshed(w, Opened(w, disk, run).value, run) == Some(next)
    && run.save == Saved
  }

  /** After any series of runs from an empty disk, a successful run that found a new or changed file
      saves for every path the chunks that a forced rebuild of the same files saves, and the same
      registry, unless the file has chunks and could not be read when it was indexed last; the next
      call loads it exactly when it is within the reader's limits. */
  lemma IncrementalIsRebuild(w: World, runs: seq<Run>, run: Run, rebuild: Run, other: Option<Bytes>, next: V.VectorDb, full: V.VectorDb)
    requires GoodRuns(w, None, runs + [run])
    requires Indexes(w, After(w, None, runs), run, next)
    requires rebuild.force && rebuild.files == run.files && rebuild.source == run.source && rebuild.unread == {}
    requires GoodRun(w, rebuild) && Indexes(w, other, rebuild, full)
    ensures Update(w, After(w, None, runs), run) == (Some(V.Encode(next)), true)
    ensures Update(w, other, rebuild) == (Some(V.Encode(full)), true)
    ensures forall path ::
              ChunksOf(next.chunks, path) == ChunksOf(full.chunks, path)
              <==> path !in BlindAfter(w, {}, None, runs + [run]) || ChunksOf(full.chunks, path) == []
    ensures (forall r | r in runs + [run] :: r.unread == {}) ==>
              forall path :: ChunksOf(next.chunks, path) == ChunksOf(full.chunks, path)
    ensures forall f :: f in next.files <==> f in full.files
    ensures LoadOutcome(w, Some(V.Encode(next))) == if V.Within(V.SAFETY, next) then Loaded(next) else Corrupt
  {
    hide Opened, Refreshed, GoodRun, ToIndex, LoadOutcome, Consistent, V.Encode, V.Within, V.Repair, Sound, Update, After,
      ChunksOf, NextBlind, BlindAfter, UpdateBlind;
    var disk := After(w, None, runs);
    LastRun(w, runs, run);
    RunsKeepSound(w, {}, None, runs);
    var blind := BlindAfter(w, {}, None, runs);
    OpenedIsConsistent(w, blind, disk, run);
    RefreshedIsConsistent(w, blind, Opened(w, disk, run).value, run);
    LastBlind(w, runs, run, next);
    OpenedByForce(w, other, rebuild);
    RefreshedIsConsistent(w, {}, EMPTY, rebuild);
    NothingUnread(EMPTY, rebuild);
    forall path
      ensures ChunksOf(next.chunks, path) == ChunksOf(full.chunks, path)
              <==> path !in BlindAfter(w, {}, None, runs + [run]) || ChunksOf(full.chunks, path) == []
    {
      SameChunks(w, BlindAfter(w, {}, None, runs + [run]), next, full, path);
    }
    if forall r | r in runs + [run] :: r.unread == {} {
      NoneBlind(w, None, runs + [run]);
    }
    SavedLoads(w, next);
    IndexingSaves(w, disk, run, next);
    IndexingSaves(w, other, rebuild, full);
  }

  lemma LastBlind(w: World, runs: seq<Run>, run: Run, next: V.VectorDb)
    requires Indexes(w, After(w, None, runs), run, next)
    ensures BlindAfter(w, {}, None, runs + [run])
            == NextBlind(Opened(w, After(w, None, runs), run).value, run, BlindAfter(w, {}, None, runs))
  {
    hide Opened, Refreshed, ToIndex, After, NextBlind;
    assert (runs + [run])[..|runs|] == runs;
  }

  lemma NothingUnread(db: V.VectorDb, run: Run)
    requires run.unread == {}
    ensures NextBlind(db, run, {}) == {}
  {
  }

  lemma IndexingSaves(w: World, disk: Option<Bytes>, run: Run, next: V.VectorDb)
    requires Indexes(w, disk, run, next)
    ensures Update(w, disk, run) == (Some(V.Encode(next)), true)
  {
    hide Opened, Refreshed, V.Encode, ToIndex;
  }

  lemma OpenedByForce(w: World, disk: Option<Bytes>, run: Run)
    requires run.force
    ensures Opened(w, disk, run) == Some(EMPTY) && forall blind :: Consistent(w, blind, EMPTY)
  {
  }

  lemma LastRun(w: World, runs: seq<Run>, run: Run)
    requires GoodRuns(w, None, runs + [run])
    ensures (forall blind :: Sound(w, blind, None)) && GoodRuns(w, None, runs) && GoodRun(w, run) && Writable(w, After(w, None, runs), run)
  {
    hide GoodRun, Writable, After;
    var all := runs + [run];
    assert all[..|runs|] == runs && all[|runs|] == run;
    forall i | 0 <= i < |runs|
      ensures GoodRun(w, runs[i]) && Writable(w, After(w, None, runs[..i]), runs[i])
    {
      assert all[i] == runs[i] && all[..i] == runs[..i];
    }
  }

  /** A run with nothing to index succeeds and writes nothing: every file it found has its chunks
      already, as far as it could be read, and those of deleted files stay until the next save. */
  lemma NothingToIndex(w: World, blind: set<Bytes>, disk: Option<Bytes>, run: Run)
    requires Sound(w, blind, disk) && GoodRun(w, run) && Opened(w, disk, run).Some?
    requires ToIndex(Opened(w, disk, run).value.files, run.files) == []
    ensures Update(w, disk, run) == (disk, true)
    ensures run.files != [] ==>
              && LoadOutcome(w, disk).Loaded? && LoadOutcome(w, disk).db.embeddingSource == run.source
              && forall f | f in run.files ::
                   ChunksOf(LoadOutcome(w, disk).db.chunks, f.filePath) == Expected(w, run.source, blind, f)
  {
    hide LoadOutcome, ToIndex, ChunksOf, Expected;
    var db := Opened(w, disk, run).value;
    forall f | f in run.files
      ensures f in db.files
    {
      UnchangedIsKept(db, run, f);
    }
    if run.files != [] {
      assert run.files[0] in db.files;
    }
  }

  /** The stored bytes change only in three ways, and a failed run leaves them alone unless it moved a
      corrupt index away or failed after replacing the file. */
  lemma FailedRunChanges(w: World, disk: Option<Bytes>, run: Run)
    requires !Update(w, disk, run).1
    ensures Update(w, disk, run).0 != disk <==>
              || (Opened(w, disk, run).None? && run.quarantines)
              || (&& Opened(w, disk, run).Some? && run.save == FailedAfterRename
                  && ToIndex(Opened(w, disk, run).value.files, run.files) != []
                  && Refreshed(w, Opened(w, disk, run).value, run).Some?
                  && disk != Some(V.Encode(Refreshed(w, Opened(w, disk, run).value, run).value)))
  {
    hide Refreshed, V.Encode, ToIndex, V.Decode;
  }

  /** What a run saves has, for each file that could be read when it was indexed last, one chunk for each of
      its pieces, in order, with the piece's text and lines and the vector of that text; and none for the
      other files. */
  lemma SavedChunks(w: World, blind: set<Bytes>, db: V.VectorDb, run: Run, f: V.FileRegistry)
    requires Consistent(w, blind, db) && GoodRun(w, run) && (db.embeddingSource != [] ==> db.embeddingSource == run.source)
    requires Refreshed(w, db, run).Some? && f in run.files
    ensures var chunks := ChunksOf(Refreshed(w, db, run).value.chunks, f.filePath);
            if f.filePath in NextBlind(db, run, blind) then chunks == []
            else
              && |chunks| == |w.pieces(f)|
              && forall i | 0 <= i < |chunks| ::
                   var piece := w.pieces(f)[i];
                   chunks[i] == V.DbChunk(f.filePath, piece.content, piece.startLine, piece.endLine,
                                          w.embed(run.source, piece.content))
  {
    hide Refreshed, GoodRun, NextBlind, ChunksOf;
    RefreshedIsConsistent(w, blind, db, run);
    var next := Refreshed(w, db, run).value;
    assert f in next.files;
    assert ChunksOf(next.chunks, f.filePath) == Expected(w, run.source, NextBlind(db, run, blind), f);
  }

  /** The registry has just this path, time and size for the file (its last entry for the path). */
  ghost predicate UpToDate(registry: seq<V.FileRegistry>, f: V.FileRegistry) {
    exists i :: && 0 <= i < |registry| && registry[i] == f
                && forall j | i < j < |registry| :: registry[j].filePath != f.filePath
  }

  lemma {:induction false} RegisteredAt(registry: seq<V.FileRegistry>, path: Bytes) returns (i: Option<nat>)
    ensures i.None? ==> Registered(registry, path) == None && forall r | r in registry :: r.filePath != path
    ensures i.Some? ==>
              && i.value < |registry| && Registered(registry, path) == Some(registry[i.value])
              && registry[i.value].filePath == path
              && forall j | i.value < j < |registry| :: registry[j].filePath != path
  {
    if registry == [] {
      i := None;
    } else {
      var n := |registry| - 1;
      if registry[n].filePath == path {
        i := Some(n);
      } else {
        i := RegisteredAt(registry[..n], path);
        assert registry == registry[..n] + [registry[n]];
      }
    }
  }

  /** A file needs to be indexed exactly when the registry is not up to date about it. */
  lemma UpToDateExactly(registry: seq<V.FileRegistry>, f: V.FileRegistry)
    ensures UpToDate(registry, f) <==> !NeedsIndex(registry, f)
  {
    hide Registered;
    var i := RegisteredAt(registry, f.filePath);
    if k :| 0 <= k < |registry| && registry[k] == f && forall j | k < j < |registry| :: registry[j].filePath != f.filePath {
      assert registry[k] in registry;
      assert i == Some(k);
    }
    if i.Some? && registry[i.value] == f {
      assert UpToDate(registry, f);
    }
  }

  lemma {:induction false} NothingToDo(registry: seq<V.FileRegistry>, found: seq<V.FileRegistry>)
    ensures ToIndex(registry, found) == [] <==> forall f | f in found :: UpToDate(registry, f)
  {
    hide NeedsIndex, UpToDate;
    if found != [] {
      var n := |found| - 1;
      NothingToDo(registry, found[..n]);
      UpToDateExactly(registry, found[n]);
      assert found == found[..n] + [found[n]];
    }
  }

  /** A run starts from an empty index when it is forced, finds none, or finds one of another embedding
      source; from the stored one otherwise.  It succeeds exactly when it can start, and then either every
      file is up to date, or the vectors are as many as the new chunks and the save goes through. */
  lemma SucceedsExactly(w: World, disk: Option<Bytes>, run: Run)
    ensures var stored := if disk.Some? then V.Decode(w.lossy, disk.value) else None;
            var corrupt := disk.Some? && stored.None?;
            var reused := && !run.force && stored.Some?
                          && (stored.value.0.embeddingSource == [] || stored.value.0.embeddingSource == run.source);
            var start := if reused then stored.value.0 else V.VectorDb([], [], [], []);
            Update(w, disk, run).1
            <==> && (run.force || !corrupt)
                 && ((forall f | f in run.files :: UpToDate(start.files, f))
                     || (&& run.save == Saved
                         && var texts := Texts(NewChunks(w, run.unread, ToIndex(start.files, run.files)));
                            |AllVectors(run.service, texts, 0)| == |texts|))
  {
    hide V.Decode, V.Encode, ToIndex, NewChunks, AllVectors, KeepFiles, KeepChunks, UpToDate, Paths;
    if Opened(w, disk, run).Some? {
      NothingToDo(Opened(w, disk, run).value.files, run.files);
    }
  }
}
