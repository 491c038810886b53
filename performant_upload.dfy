/** The bookkeeping of the "performant upload" tool: which credential the client is
    built from, which files of a local folder are uploaded, how one file is cut into
    upload-session appends at consecutive offsets, the finish argument that commits
    it, and how a batch pairs files with the session ids the server handed out. The
    Dropbox calls themselves are not modelled: the session ids and the finish-batch
    responses are parameters, and an append is recorded instead of sent. */
module PerformantUpload {

  import opened Wrappers
  import opened PyText

  newtype byte = x: int | 0 <= x < 256

  const MB: nat := 1024 * 1024

  /** The chunk size of concurrent upload sessions must be a multiple of this. */
  const ChunkSizeUnit: nat := 4 * MB

  /** The most sessions one finish batch may commit. */
  const MaxBatchSize: nat := 1000

  function Min(a: int, b: int): int {
    if a < b then a else b
  }

  // ------------------------------------------------------------ get_client

  /** The `AUTHORIZATION` section of the configuration; `None` when a key is absent. */
  datatype Authorization = Authorization(
    accessToken: Option<string>,
    refreshToken: Option<string>,
    appKey: Option<string>,
    appSecret: Option<string>)

  /** The credential a client is built from. */
  datatype Client =
    | RefreshTokenClient(refreshToken: string, appKey: string, appSecret: Option<string>)
    | AccessTokenClient(accessToken: string)

  datatype ClientError = NoCredentials | AppKeyRequired

  /** Chooses the credential: a refresh token (which needs an app key) wins over an
      access token, and having neither is an error. */
  function GetClient(auth: Authorization): (r: Result<Client, ClientError>)
    ensures r == Failure(NoCredentials) <==> !Truthy(auth.accessToken) && !Truthy(auth.refreshToken)
    ensures r == Failure(AppKeyRequired) <==> Truthy(auth.refreshToken) && !Truthy(auth.appKey)
    ensures (r.Success? && r.value.RefreshTokenClient?) <==> Truthy(auth.refreshToken) && Truthy(auth.appKey)
    ensures r.Success? && r.value.RefreshTokenClient? ==>
              r.value == RefreshTokenClient(auth.refreshToken.value, auth.appKey.value, auth.appSecret)
    ensures r.Success? && r.value.AccessTokenClient? ==>
              !Truthy(auth.refreshToken) && Truthy(auth.accessToken) && r.value.accessToken == auth.accessToken.value
  {
    if !(Truthy(auth.accessToken) || Truthy(auth.refreshToken)) then
      Failure(NoCredentials)
    else if Truthy(auth.refreshToken) then
      if !Truthy(auth.appKey) then Failure(AppKeyRequired)
      else Success(RefreshTokenClient(auth.refreshToken.value, auth.appKey.value, auth.appSecret))
    else
      Success(AccessTokenClient(auth.accessToken.value))
  }

  // --------------------------------------------------------- collect_files

  /** One name listed in the local folder, and whether it names a regular file. */
  datatype DirEntry = DirEntry(name: string, isFile: bool)

  /** System files that are never uploaded. */
  const IgnoredNames: seq<string> := [".DS_Store", ".localized", ".gitignore"]

  predicate Collected(e: DirEntry) {
    e.isFile && e.name !in IgnoredNames
  }

  /** `os.path.join(folder, name)` on POSIX: an absolute name replaces the folder,
      otherwise one `/` separates them unless the folder is empty or ends in one. */
  function JoinPath(folder: string, name: string): string {
    if |name| > 0 && name[0] == '/' then name
    else if folder == [] || folder[|folder| - 1] == '/' then folder + name
    else folder + "/" + name
  }

  /** The joined paths of the collected entries, in listing order. */
  function CollectedPaths(folder: string, entries: seq<DirEntry>): (r: seq<string>)
    ensures forall p :: p in r <==> exists e :: e in entries && Collected(e) && p == JoinPath(folder, e.name)
  {
    if entries == [] then []
    else
      var rest := CollectedPaths(folder, entries[1..]);
      assert forall e :: e in entries <==> e == entries[0] || e in entries[1..];
      if Collected(entries[0]) then [JoinPath(folder, entries[0].name)] + rest else rest
  }

  /** The files to upload: the paths of the regular, non-system files of the folder,
      sorted. */
  function CollectFiles(folder: string, entries: seq<DirEntry>): (r: seq<string>)
    ensures SortedStrings(r)
    ensures multiset(r) == multiset(CollectedPaths(folder, entries))
    ensures forall p :: p in r <==> exists e :: e in entries && Collected(e) && p == JoinPath(folder, e.name)
  {
    var paths := CollectedPaths(folder, entries);
    var r := SortStrings(paths);
    assert forall p :: p in r <==> p in multiset(r);
    assert forall p :: p in paths <==> p in multiset(paths);
    r
  }

  // --------------------------------------------------- commit path of a file

  /** `s.lstrip("/")`. */
  function StripLeadingSlashes(s: string): (r: string)
    ensures |r| <= |s| && r == s[|s| - |r|..]
    ensures forall i :: 0 <= i < |s| - |r| ==> s[i] == '/'
    ensures r == [] || r[0] != '/'
  {
    if s != [] && s[0] == '/' then StripLeadingSlashes(s[1..]) else s
  }

  /** `os.path.basename(p)`: what follows the last `/`. */
  function Basename(p: string): (r: string)
    ensures '/' !in r
    ensures |r| <= |p| && r == p[|p| - |r|..]
    ensures |r| < |p| ==> p[|p| - |r| - 1] == '/'
  {
    if p == [] || p[|p| - 1] == '/' then []
    else
      var r := Basename(p[..|p| - 1]) + [p[|p| - 1]];
      assert p == p[..|p| - 1] + [p[|p| - 1]];
      r
  }

  /** The path a file is committed to: the remote folder without its leading
      slashes, between slashes, then the file's base name. */
  function CommitPath(remotePath: string, sourcePath: string): string {
    "/" + StripLeadingSlashes(remotePath) + "/" + Basename(sourcePath)
  }

  /** The base name of anything ending in `/name` is `name`. */
  lemma {:induction false} BasenameAfterSlash(prefix: string, name: string)
    requires '/' !in name
    ensures Basename(prefix + "/" + name) == name
  {
    if name != [] {
      var s := prefix + "/" + name;
      assert s[..|s| - 1] == prefix + "/" + name[..|name| - 1];
      BasenameAfterSlash(prefix, name[..|name| - 1]);
      assert name == name[..|name| - 1] + [name[|name| - 1]];
    }
  }

  /** A commit path is absolute, names the remote folder with no doubled leading
      slash unless the folder is empty, and ends in the base name of the local file. */
  lemma CommitPathShape(remotePath: string, sourcePath: string)
    ensures var path := CommitPath(remotePath, sourcePath);
      && path[0] == '/'
      && (StripLeadingSlashes(remotePath) != [] ==> path[1] != '/')
      && Basename(path) == Basename(sourcePath)
  {
    BasenameAfterSlash("/" + StripLeadingSlashes(remotePath), Basename(sourcePath));
  }

  // ------------------------------------------------------------ file reads

  /** How many bytes `read(size)` returns when `remaining` are left: all of them
      for a negative size, otherwise at most `size`. */
  function ReadLength(size: int, remaining: nat): nat {
    if size < 0 then remaining else Min(size, remaining)
  }

  /** A local file opened for binary reading, with its current position (`tell()`). */
  class LocalFile {
    const content: seq<byte>
    var position: nat

    ghost predicate Valid()
      reads this
    {
      position <= |content|
    }

    constructor Open(content: seq<byte>)
      ensures Valid() && this.content == content && position == 0
    {
      this.content := content;
      position := 0;
    }

    /** `read(size)`: the next bytes, advancing the position past them. */
    method Read(size: int) returns (data: seq<byte>)
      requires Valid()
      modifies this
      ensures Valid()
      ensures position == old(position) + ReadLength(size, |content| - old(position))
      ensures data == content[old(position)..position]
    {
      var next := position + ReadLength(size, |content| - position);
      data := content[position..next];
      position := next;
    }
  }

  // ------------------------------------------------ upload_session_appends

  datatype Cursor = Cursor(sessionId: string, offset: nat)

  /** One `files_upload_session_append_v2` call: where, what, and whether it closes the session. */
  datatype Append = Append(cursor: Cursor, data: seq<byte>, close: bool)

  /** The `UploadSessionFinishArg` of a file: its session cursor and commit path. */
  datatype FinishArg = FinishArg(cursor: Cursor, commitPath: string)

  /** The appends the read loop issues from `position` on: one per read of
      `chunkSize` bytes while the position is before the end of the file, the one
      that reaches the end closing the session. */
  function PlanFrom(sessionId: string, content: seq<byte>, chunkSize: int, position: nat): seq<Append>
    requires position <= |content| && chunkSize != 0
    decreases |content| - position
  {
    if position == |content| then []
    else
      var next := position + ReadLength(chunkSize, |content| - position);
      [Append(Cursor(sessionId, position), content[position..next], next == |content|)]
        + PlanFrom(sessionId, content, chunkSize, next)
  }

  /** The appends for a whole file: the read loop for a non-empty file, a single
      closing append without data at offset 0 for an empty one. A zero chunk size
      never advances the read loop, so only an empty file may use it. */
  function AppendPlan(sessionId: string, content: seq<byte>, chunkSize: int): seq<Append>
    requires content == [] || chunkSize != 0
  {
    if |content| > 0 then PlanFrom(sessionId, content, chunkSize, 0)
    else [Append(Cursor(sessionId, 0), [], true)]
  }

  /** One step of the read loop: the append at `position`, then the rest. */
  lemma PlanFromUnfold(sessionId: string, content: seq<byte>, chunkSize: int, position: nat)
    requires position < |content| && chunkSize != 0
    ensures var next := position + ReadLength(chunkSize, |content| - position);
      PlanFrom(sessionId, content, chunkSize, position)
      == [Append(Cursor(sessionId, position), content[position..next], next == |content|)]
         + PlanFrom(sessionId, content, chunkSize, next)
  {
  }

  /** The bytes the appends carry, in order. */
  function Payload(appends: seq<Append>): seq<byte> {
    if appends == [] then [] else appends[0].data + Payload(appends[1..])
  }

  /** The appends from `position` on carry exactly the rest of the file. */
  lemma {:induction false} PlanFromPayload(sessionId: string, content: seq<byte>, chunkSize: int, position: nat)
    requires position <= |content| && chunkSize != 0
    ensures Payload(PlanFrom(sessionId, content, chunkSize, position)) == content[position..]
    decreases |content| - position
  {
    if position < |content| {
      var next := position + ReadLength(chunkSize, |content| - position);
      PlanFromPayload(sessionId, content, chunkSize, next);
      assert content[position..] == content[position..next] + content[next..];
    }
  }

  /** The chunks tile the file: concatenated, they are the file's bytes. */
  lemma AppendPlanTiles(sessionId: string, content: seq<byte>, chunkSize: int)
    requires content == [] || chunkSize != 0
    ensures Payload(AppendPlan(sessionId, content, chunkSize)) == content
  {
    if |content| > 0 {
      PlanFromPayload(sessionId, content, chunkSize, 0);
    }
  }

  /** The appends from `position` on all use the session, start at `position`, sit
      back to back inside the file, carry data, and only the last one closes. */
  lemma {:induction false} PlanFromShape(sessionId: string, content: seq<byte>, chunkSize: int, position: nat)
    requires position <= |content| && chunkSize != 0
    ensures var p := PlanFrom(sessionId, content, chunkSize, position);
      && (|p| == 0 <==> position == |content|)
      && (|p| > 0 ==> p[0].cursor.offset == position)
      && (forall i :: 0 <= i < |p| ==>
            && p[i].cursor.sessionId == sessionId
            && position <= p[i].cursor.offset < |content|
            && 0 < |p[i].data|
            && p[i].cursor.offset + |p[i].data| <= |content|
            && (p[i].close <==> i == |p| - 1))
      && (forall i :: 0 <= i < |p| - 1 ==> p[i + 1].cursor.offset == p[i].cursor.offset + |p[i].data|)
      && (|p| > 0 ==> p[|p| - 1].cursor.offset + |p[|p| - 1].data| == |content|)
    decreases |content| - position
  {
    if position < |content| {
      var next := position + ReadLength(chunkSize, |content| - position);
      PlanFromShape(sessionId, content, chunkSize, next);
      var p := PlanFrom(sessionId, content, chunkSize, position);
      var q := PlanFrom(sessionId, content, chunkSize, next);
      assert p == [p[0]] + q;
      assert forall i :: 1 <= i < |p| ==> p[i] == q[i - 1];
    }
  }

  /** The shape of a whole file's appends: at least one, starting at offset 0, back
      to back, covering the file, all of the session, only the last closing; an
      empty file gets one empty closing append, and every append of a non-empty
      file carries data (so a file whose size is a multiple of the chunk size gets
      no trailing empty append). */
  lemma AppendPlanShape(sessionId: string, content: seq<byte>, chunkSize: int)
    requires content == [] || chunkSize != 0
    ensures var p := AppendPlan(sessionId, content, chunkSize);
      && |p| > 0
      && p[0].cursor.offset == 0
      && (forall i :: 0 <= i < |p| ==> p[i].cursor.sessionId == sessionId && (p[i].close <==> i == |p| - 1))
      && (forall i :: 0 <= i < |p| - 1 ==> p[i + 1].cursor.offset == p[i].cursor.offset + |p[i].data|)
      && p[|p| - 1].cursor.offset + |p[|p| - 1].data| == |content|
      && (content == [] ==> p == [Append(Cursor(sessionId, 0), [], true)])
      && (content != [] ==> forall i :: 0 <= i < |p| ==> 0 < |p[i].data| && p[i].cursor.offset < |content|)
  {
    if |content| > 0 {
      PlanFromShape(sessionId, content, chunkSize, 0);
    }
  }

  lemma MulStep(i: int, c: int)
    ensures (i - 1) * c + c == i * c
  {
  }

  lemma MulLessCancel(a: int, b: int, c: int)
    requires c > 0 && a * c < b * c
    ensures a < b
  {
  }

  lemma MulLeCancel(a: int, b: int, c: int)
    requires c > 0 && a * c <= b * c
    ensures a <= b
  {
  }

  lemma MulSub(a: int, b: int, c: int)
    ensures a * c - b * c == (a - b) * c
  {
  }

  lemma MulAtLeastOnce(a: int, c: int)
    requires c > 0 && a >= 1
    ensures a * c >= c
  {
  }

  /** With a positive chunk size `c`, the `i`-th append from `position` on sits at
      `position + i * c` and carries `min(c, bytes left)`. */
  lemma {:induction false} PlanFromAt(sessionId: string, content: seq<byte>, chunkSize: int, position: nat, i: nat)
    requires position <= |content| && chunkSize > 0
    requires i < |PlanFrom(sessionId, content, chunkSize, position)|
    ensures var a := PlanFrom(sessionId, content, chunkSize, position)[i];
      && a.cursor.offset == position + i * chunkSize
      && |a.data| == Min(chunkSize, |content| - a.cursor.offset)
    decreases i
  {
    var next := position + ReadLength(chunkSize, |content| - position);
    var p := PlanFrom(sessionId, content, chunkSize, position);
    var q := PlanFrom(sessionId, content, chunkSize, next);
    assert p == [p[0]] + q;
    if i > 0 {
      assert next < |content|;
      assert p[i] == q[i - 1];
      PlanFromAt(sessionId, content, chunkSize, next, i - 1);
      MulStep(i, chunkSize);
    }
  }

  /** With a positive chunk size `c`, the number `m` of appends from `position` on is
      the least with `m * c` covering the rest of the file. */
  lemma {:induction false} PlanFromCount(sessionId: string, content: seq<byte>, chunkSize: int, position: nat)
    requires position < |content| && chunkSize > 0
    ensures var m := |PlanFrom(sessionId, content, chunkSize, position)|;
      (m - 1) * chunkSize < |content| - position <= m * chunkSize
    decreases |content| - position
  {
    var next := position + ReadLength(chunkSize, |content| - position);
    var m := |PlanFrom(sessionId, content, chunkSize, position)|;
    var q := PlanFrom(sessionId, content, chunkSize, next);
    assert m == 1 + |q|;
    if next < |content| {
      PlanFromCount(sessionId, content, chunkSize, next);
      MulStep(m, chunkSize);
      MulStep(m - 1, chunkSize);
    } else {
      assert |q| == 0;
    }
  }

  /** A file of `k * c` bytes (k >= 1) is sent as exactly `k` full chunks of `c`
      bytes, at offsets `0, c, ..., (k - 1) * c`. */
  lemma ExactMultipleChunks(sessionId: string, content: seq<byte>, chunkSize: int, k: nat)
    requires chunkSize > 0 && k >= 1 && |content| == k * chunkSize
    ensures var p := AppendPlan(sessionId, content, chunkSize);
      && |p| == k
      && forall i :: 0 <= i < k ==> p[i].cursor.offset == i * chunkSize && |p[i].data| == chunkSize
  {
    MulAtLeastOnce(k, chunkSize);
    var p := AppendPlan(sessionId, content, chunkSize);
    PlanFromCount(sessionId, content, chunkSize, 0);
    MulLessCancel(|p| - 1, k, chunkSize);
    MulLeCancel(k, |p|, chunkSize);
    forall i | 0 <= i < k
      ensures p[i].cursor.offset == i * chunkSize && |p[i].data| == chunkSize
    {
      PlanFromAt(sessionId, content, chunkSize, 0, i);
      MulSub(k, i, chunkSize);
      MulAtLeastOnce(k - i, chunkSize);
    }
  }

  /** A negative chunk size reads the whole file at once: one closing append. */
  lemma NegativeChunkSizeReadsAll(sessionId: string, content: seq<byte>, chunkSize: int)
    requires chunkSize < 0 && content != []
    ensures AppendPlan(sessionId, content, chunkSize) == [Append(Cursor(sessionId, 0), content, true)]
  {
    var n := |content|;
    assert ReadLength(chunkSize, n) == n;
    assert PlanFrom(sessionId, content, chunkSize, n) == [];
    assert content[0..n] == content;
  }

  /** Issues the appends of one file of an upload session and builds its finish
      argument: the cursor ends at the file size, the commit path is the remote
      folder and the file's base name. */
  method UploadSessionAppends(sessionId: string, sourcePath: string, remotePath: string,
                              content: seq<byte>, chunkSize: int)
    returns (appends: seq<Append>, finish: FinishArg)
    requires content == [] || chunkSize != 0
    ensures appends == AppendPlan(sessionId, content, chunkSize)
    ensures finish == FinishArg(Cursor(sessionId, |content|), CommitPath(remotePath, sourcePath))
  {
    var localFile := new LocalFile.Open(content);
    var fileSize := |content|;
    appends := [];
    if fileSize > 0 {
      while localFile.position < fileSize
        invariant localFile.Valid() && localFile.content == content
        invariant appends + PlanFrom(sessionId, content, chunkSize, localFile.position)
                  == PlanFrom(sessionId, content, chunkSize, 0)
        decreases fileSize - localFile.position
      {
        var cursor := Cursor(sessionId, localFile.position);
        var data := localFile.Read(chunkSize);
        var close := localFile.position == fileSize;
        PlanFromUnfold(sessionId, content, chunkSize, cursor.offset);
        appends := appends + [Append(cursor, data, close)];
      }
      assert localFile.position == fileSize;
      assert PlanFrom(sessionId, content, chunkSize, fileSize) == [];
      assert appends + [] == appends;
    } else {
      appends := [Append(Cursor(sessionId, 0), [], true)];
    }
    // The destination name and folder do not depend on the reads.
    var destFileName := Basename(sourcePath);
    var destFolder := StripLeadingSlashes(remotePath);
    var offset := localFile.position;
    assert offset == fileSize;
    finish := FinishArg(Cursor(sessionId, offset), "/" + destFolder + "/" + destFileName);
  }

  // ---------------------------------------------------------- upload_files

  /** A local file to upload: its path and its bytes. */
  datatype SourceFile = SourceFile(path: string, content: seq<byte>)

  /** The `PATHS` and `LIMITS` settings the batch depends on. */
  datatype UploadConfig = UploadConfig(remotePath: string, chunkSize: int)

  /** The per-file outcome of committing a finish batch. */
  datatype CommitOutcome = CommitSucceeded(pathLower: string) | CommitFailed(reason: string)

  /** What `files_upload_session_finish_batch` launches. */
  datatype FinishLaunch =
    | FinishAsyncJob(asyncJobId: string)
    | FinishComplete(entries: seq<CommitOutcome>)
    | FinishOther

  /** What one `files_upload_session_finish_batch_check` poll reports. */
  datatype FinishJobStatus = JobInProgress | JobComplete(entries: seq<CommitOutcome>) | JobFailed

  datatype UploadError =
    | TooManyFiles
    | ChunkSizeNotMultiple
    | ZeroChunkSize
    | MissingSessionId
    | UnknownFinishResult
    | FinishJobFailed
    | FinishJobUnsettled

  /** What a successful batch did: the appends of each file, the finish entries in
      file order, the commit outcomes, and the byte count reported. */
  datatype BatchUpload = BatchUpload(
    appends: seq<seq<Append>>,
    entries: seq<FinishArg>,
    commits: seq<CommitOutcome>,
    uploadedSize: nat)

  /** The batch-size assertion as the source writes it: it measures the list of
      finish entries, which is still empty when it runs. */
  predicate BatchSizeAssertionAsWritten(entries: seq<FinishArg>) {
    |entries| <= MaxBatchSize
  }

  /** A batch of more than 1000 files passes the assertion as written. */
  lemma OversizedBatchPassesAsWritten(files: seq<SourceFile>)
    requires |files| == MaxBatchSize + 1
    ensures BatchSizeAssertionAsWritten([])
    ensures !BatchSizeAcceptable(files)
  {
  }

  /** The batch-size check as intended: at most 1000 files per batch. */
  predicate BatchSizeAcceptable(files: seq<SourceFile>) {
    |files| <= MaxBatchSize
  }

  /** The chunk-size assertion as the source writes it. */
  predicate ChunkSizeAssertionAsWritten(chunkSize: int) {
    chunkSize % ChunkSizeUnit == 0
  }

  /** A chunk size of 0 passes the assertion as written, yet a read of 0 bytes never
      moves the file position, so the append loop never leaves a non-empty file. */
  lemma ZeroChunkSizePassesAsWritten(remaining: nat)
    requires remaining > 0
    ensures ChunkSizeAssertionAsWritten(0)
    ensures ReadLength(0, remaining) == 0
    ensures !ValidChunkSize(0)
  {
  }

  /** The chunk-size check as intended: the assertion as written, and a size other
      than 0. A negative multiple of 4 MiB passes as in the source, and its reads
      take the whole rest of the file. */
  predicate ValidChunkSize(chunkSize: int) {
    ChunkSizeAssertionAsWritten(chunkSize) && chunkSize != 0
  }

  /** Under the intended check every read makes progress, so every file has an append
      plan: a positive size reads at most that many bytes, a negative one reads the rest. */
  lemma ValidChunkSizeAdvances(chunkSize: int, remaining: nat)
    requires ValidChunkSize(chunkSize) && remaining > 0
    ensures 0 < ReadLength(chunkSize, remaining)
    ensures chunkSize > 0 ==> ReadLength(chunkSize, remaining) <= chunkSize
    ensures chunkSize < 0 ==> ReadLength(chunkSize, remaining) == remaining
  {
  }

  /** A negative multiple of 4 MiB passes the intended check, as it passes the
      source's assertion, and uploads each non-empty file as one closing append. */
  lemma NegativeMultipleAccepted(sessionId: string, content: seq<byte>)
    requires content != []
    ensures ValidChunkSize(-(ChunkSizeUnit as int))
    ensures AppendPlan(sessionId, content, -(ChunkSizeUnit as int)) == [Append(Cursor(sessionId, 0), content, true)]
  {
    NegativeChunkSizeReadsAll(sessionId, content, -(ChunkSizeUnit as int));
  }

  /** The total size of the files. */
  function TotalBytes(files: seq<SourceFile>): nat {
    if files == [] then 0
    else TotalBytes(files[..|files| - 1]) + |files[|files| - 1].content|
  }

  lemma TotalBytesPrefix(files: seq<SourceFile>, n: nat)
    requires n < |files|
    ensures TotalBytes(files[..n + 1]) == TotalBytes(files[..n]) + |files[n].content|
  {
    assert files[..n + 1][..n] == files[..n];
  }

  /** The first poll that is no longer in progress, if any. */
  function SettledStatus(polls: seq<FinishJobStatus>): (r: Option<FinishJobStatus>)
    ensures r.None? <==> forall k :: 0 <= k < |polls| ==> polls[k].JobInProgress?
    ensures r.Some? ==> exists k :: 0 <= k < |polls| && polls[k] == r.value && !r.value.JobInProgress?
                                    && forall j :: 0 <= j < k ==> polls[j].JobInProgress?
  {
    if polls == [] then None
    else if polls[0].JobInProgress? then
      assert forall k :: 1 <= k < |polls| ==> polls[k] == polls[1..][k - 1];
      SettledStatus(polls[1..])
    else Some(polls[0])
  }

  /** How the finish batch ends: a completed launch gives its entries, an unknown
      launch is an error, and an async job gives the entries of the first poll that
      is no longer in progress (an error when that poll failed, or when every poll
      of the list is still in progress). */
  function FinishOutcome(launch: FinishLaunch, polls: seq<FinishJobStatus>): Result<seq<CommitOutcome>, UploadError> {
    match launch
    case FinishComplete(entries) => Success(entries)
    case FinishOther => Failure(UnknownFinishResult)
    case FinishAsyncJob(_) =>
      match SettledStatus(polls)
      case None => Failure(FinishJobUnsettled)
      case Some(JobComplete(entries)) => Success(entries)
      case Some(_) => Failure(FinishJobFailed)
  }

  /** A poll still in progress is skipped. */
  lemma SettledStatusSkip(polls: seq<FinishJobStatus>, i: nat)
    requires i < |polls| && polls[i].JobInProgress?
    ensures SettledStatus(polls[i..]) == SettledStatus(polls[i + 1..])
  {
    assert polls[i..][1..] == polls[i + 1..];
  }

  /** Dispatches on the finish-batch launch, polling an async job until it is no
      longer in progress. */
  method AwaitFinishBatch(launch: FinishLaunch, polls: seq<FinishJobStatus>)
    returns (r: Result<seq<CommitOutcome>, UploadError>)
    ensures r == FinishOutcome(launch, polls)
    ensures r.Success? <==> launch.FinishComplete? || (launch.FinishAsyncJob? && SettledStatus(polls).Some? && SettledStatus(polls).value.JobComplete?)
  {
    match launch {
      case FinishComplete(entries) =>
        r := Success(entries);
      case FinishOther =>
        r := Failure(UnknownFinishResult);
      case FinishAsyncJob(_) =>
        var i := 0;
        while i < |polls| && polls[i].JobInProgress?
          invariant 0 <= i <= |polls|
          invariant SettledStatus(polls) == SettledStatus(polls[i..])
        {
          SettledStatusSkip(polls, i);
          i := i + 1;
        }
        if i == |polls| {
          assert polls[i..] == [];
          r := Failure(FinishJobUnsettled);
        } else {
          assert SettledStatus(polls[i..]) == Some(polls[i]);
          match polls[i] {
            case JobComplete(entries) => r := Success(entries);
            case _ => r := Failure(FinishJobFailed);
          }
        }
    }
  }

  /** File `i` of a batch was uploaded through session `sessionId`: its appends are
      the file's append plan and its finish entry closes at the file's size and
      commits to its destination path. */
  predicate SessionUploaded(sessionId: string, file: SourceFile, config: UploadConfig,
                            appends: seq<Append>, entry: FinishArg)
  {
    && ValidChunkSize(config.chunkSize)
    && appends == AppendPlan(sessionId, file.content, config.chunkSize)
    && entry == FinishArg(Cursor(sessionId, |file.content|), CommitPath(config.remotePath, file.path))
  }

  /** Runs one upload session per file, file `i` through session id `i`, and
      collects the finish entries in file order with the total of their offsets. */
  method UploadSessions(files: seq<SourceFile>, config: UploadConfig, sessionIds: seq<string>)
    returns (appends: seq<seq<Append>>, entries: seq<FinishArg>, uploadedSize: nat)
    requires ValidChunkSize(config.chunkSize) && |files| <= |sessionIds|
    ensures |appends| == |files| && |entries| == |files|
    ensures forall i :: 0 <= i < |files| ==>
              SessionUploaded(sessionIds[i], files[i], config, appends[i], entries[i])
    ensures uploadedSize == TotalBytes(files)
  {
    appends, entries, uploadedSize := [], [], 0;
    for index := 0 to |files|
      invariant |appends| == index && |entries| == index
      invariant forall i :: 0 <= i < index ==>
                  SessionUploaded(sessionIds[i], files[i], config, appends[i], entries[i])
      invariant uploadedSize == TotalBytes(files[..index])
    {
      var plan, entry := UploadSessionAppends(sessionIds[index], files[index].path, config.remotePath,
                                              files[index].content, config.chunkSize);
      ghost var (appends0, entries0) := (appends, entries);
      appends := appends + [plan];
      entries := entries + [entry];
      forall i | 0 <= i <= index
        ensures SessionUploaded(sessionIds[i], files[i], config, appends[i], entries[i])
      {
        if i < index {
          assert appends[i] == appends0[i] && entries[i] == entries0[i];
        }
      }
      TotalBytesPrefix(files, index);
      uploadedSize := uploadedSize + entry.cursor.offset;
    }
    assert files[..|files|] == files;
  }

  /** Uploads a batch: checks the batch and chunk sizes, runs the upload sessions
      and finishes the batch. The result is the batch's appends, finish entries,
      commit outcomes and uploaded byte count. */
  method UploadFiles(files: seq<SourceFile>, config: UploadConfig, sessionIds: seq<string>,
                     launch: FinishLaunch, polls: seq<FinishJobStatus>)
    returns (r: Result<BatchUpload, UploadError>)
    ensures !BatchSizeAcceptable(files) ==> r == Failure(TooManyFiles)
    ensures (BatchSizeAcceptable(files) && !ChunkSizeAssertionAsWritten(config.chunkSize))
              ==> r == Failure(ChunkSizeNotMultiple)
    ensures BatchSizeAcceptable(files) && config.chunkSize == 0 ==> r == Failure(ZeroChunkSize)
    ensures (BatchSizeAcceptable(files) && ValidChunkSize(config.chunkSize) && |sessionIds| < |files|)
              ==> r == Failure(MissingSessionId)
    ensures (BatchSizeAcceptable(files) && ValidChunkSize(config.chunkSize) && |files| <= |sessionIds|)
              ==> (r.Success? <==> FinishOutcome(launch, polls).Success?)
    ensures (BatchSizeAcceptable(files) && ValidChunkSize(config.chunkSize) && |files| <= |sessionIds|
             && FinishOutcome(launch, polls).Failure?)
              ==> r == Failure(FinishOutcome(launch, polls).error)
    ensures r.Success? ==>
              && BatchSizeAcceptable(files) && ValidChunkSize(config.chunkSize)
              && |r.value.appends| == |files| && |r.value.entries| == |files|
              && (forall i :: 0 <= i < |files| ==>
                    SessionUploaded(sessionIds[i], files[i], config, r.value.appends[i], r.value.entries[i]))
              && r.value.uploadedSize == TotalBytes(files)
              && FinishOutcome(launch, polls) == Success(r.value.commits)
  {
    if !BatchSizeAcceptable(files) {
      return Failure(TooManyFiles);
    }
    if !ChunkSizeAssertionAsWritten(config.chunkSize) {
      return Failure(ChunkSizeNotMultiple);
    }
    if config.chunkSize == 0 {
      return Failure(ZeroChunkSize);
    }
    if |sessionIds| < |files| {
      return Failure(MissingSessionId);
    }
    var appends, entries, uploadedSize := UploadSessions(files, config, sessionIds);
    var commits := AwaitFinishBatch(launch, polls);
    if commits.Failure? {
      return Failure(commits.error);
    }
    r := Success(BatchUpload(appends, entries, commits.value, uploadedSize));
  }
}
