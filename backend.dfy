/**
 * The decision logic of the Node backend (frontend/backend.js): the key held in
 * process.env, how a child process of the engine is started and how its exit is
 * turned into a result, how each API request maps onto one engine invocation, the
 * names given to uploads, the file listing over the two storage roots, and the
 * extension-based preview and content dispatch.
 *
 * The filesystem, the child process and the base64 encoder are not run: what they
 * would report is passed in as data (a path-existence oracle, directory scans, read
 * results, the sequence of stdout/stderr chunks and the exit code).
 */
module Backend {
  import opened Text

  // ===========================================================================
  // Key store: process.env.ENCRYPTION_KEY

  /** The value handed to every child when process.env.ENCRYPTION_KEY is unset or empty. */
  const FallbackChildKey: string := "5"

  /** The `key` field of a set-key request body as JSON delivers it. */
  datatype BodyValue = Missing | Str(s: string) | NonString

  /** A JSON reply: HTTP status, the `success` flag, `message`, and `output` when present. */
  datatype Reply = Reply(status: nat, success: bool, message: string, output: Option<string>)

  /** `key && typeof key === 'string'`: a string, and not the (falsy) empty one. */
  predicate IsValidKey(v: BodyValue) {
    v.Str? && v.s != ""
  }

  /** The reply of POST /api/set-key. */
  function SetKeyReply(v: BodyValue): (r: Reply)
    ensures r.success <==> IsValidKey(v)
    ensures r.success ==> r.status == 200 && r.message == "Key set successfully"
    ensures !r.success ==> r.status == 400 && r.message == "Key must be a valid string"
    ensures r.output == None
  {
    if IsValidKey(v) then Reply(200, true, "Key set successfully", None)
    else Reply(400, false, "Key must be a valid string", None)
  }

  /** process.env.ENCRYPTION_KEY after one set-key request. */
  function KeyAfterRequest(env: Option<string>, v: BodyValue): (e: Option<string>)
    ensures IsValidKey(v) ==> e == Some(v.s)
    ensures !IsValidKey(v) ==> e == env
  {
    if IsValidKey(v) then Some(v.s) else env
  }

  /** `process.env.ENCRYPTION_KEY || '5'`: the key every child is started with. */
  function ChildKeyOf(env: Option<string>): (k: string)
    ensures k != ""
    ensures env.Some? && env.value != "" ==> k == env.value
    ensures env.None? || env.value == "" ==> k == FallbackChildKey
  {
    if env.Some? && env.value != "" then env.value else FallbackChildKey
  }

  /** process.env.ENCRYPTION_KEY after a series of set-key requests, in order. */
  function KeyAfterRequests(env: Option<string>, reqs: seq<BodyValue>): Option<string>
    decreases |reqs|
  {
    if reqs == [] then env else KeyAfterRequest(KeyAfterRequests(env, reqs[..|reqs| - 1]), reqs[|reqs| - 1])
  }

  /** The key of the last request that set-key accepted, if there was one. */
  function LastAcceptedKey(reqs: seq<BodyValue>): (k: Option<string>)
    ensures k.Some? ==> k.value != ""
    decreases |reqs|
  {
    if reqs == [] then None
    else if IsValidKey(reqs[|reqs| - 1]) then Some(reqs[|reqs| - 1].s)
    else LastAcceptedKey(reqs[..|reqs| - 1])
  }

  /** Every child sees the key of the last accepted set-key request; with none accepted,
      it sees what the server started with, or "5". Rejected requests leave no trace. */
  lemma {:induction false} ChildSeesLastAcceptedKey(env: Option<string>, reqs: seq<BodyValue>)
    ensures LastAcceptedKey(reqs).Some? ==>
              ChildKeyOf(KeyAfterRequests(env, reqs)) == LastAcceptedKey(reqs).value
    ensures LastAcceptedKey(reqs).None? ==>
              ChildKeyOf(KeyAfterRequests(env, reqs)) == ChildKeyOf(env)
    decreases |reqs|
  {
    if reqs != [] {
      ChildSeesLastAcceptedKey(env, reqs[..|reqs| - 1]);
    }
  }

  // ===========================================================================
  // Process invoker: executeCppExecutable

  const EnginePath: string := "build/encrypt_decrypt.exe"

  /** One call of executeCppExecutable: the single positional argument and the
      optional input (null by default). */
  datatype Invocation = Invocation(command: string, input: Option<string>)

  /** What the child does, as the 'data', 'close' and 'error' events report it.
      `code` is None when the child was ended by a signal (Node reports null). */
  datatype ChildRun =
    | Closed(stdoutChunks: seq<string>, stderrChunks: seq<string>, code: Option<int>)
    | SpawnFailed(message: string)

  /** How the promise settles. */
  datatype Settled = Resolved(output: string, error: string) | Rejected(message: string)

  /** What is spawned: the executable, argv after it, the child's ENCRYPTION_KEY, and
      the text written to its stdin before it is closed (None: stdin left untouched). */
  datatype Spawn = Spawn(executable: string, args: seq<string>, encryptionKey: string, stdin: Option<string>)

  /** `if (input)`: stdin is written and closed only for a non-empty input. */
  function StdinWritten(input: Option<string>): (w: Option<string>)
    ensures w.Some? <==> input.Some? && input.value != ""
    ensures w.Some? ==> w == input
  {
    if input.Some? && input.value != "" then input else None
  }

  /** The stream text: the chunks in arrival order, joined. */
  function Concat(chunks: seq<string>): string
    decreases |chunks|
  {
    if chunks == [] then "" else chunks[0] + Concat(chunks[1..])
  }

  lemma {:induction false} ConcatSnoc(chunks: seq<string>, c: string)
    ensures Concat(chunks + [c]) == Concat(chunks) + c
    decreases |chunks|
  {
    if chunks == [] {
      assert [] + [c] == [c];
    } else {
      assert (chunks + [c])[1..] == chunks[1..] + [c];
      ConcatSnoc(chunks[1..], c);
    }
  }

  /** `stdout += data.toString()` over the 'data' events. */
  method Accumulate(chunks: seq<string>) returns (text: string)
    ensures text == Concat(chunks)
  {
    text := "";
    var i := 0;
    while i < |chunks|
      invariant 0 <= i <= |chunks|
      invariant text == Concat(chunks[..i])
    {
      ConcatSnoc(chunks[..i], chunks[i]);
      assert chunks[..i + 1] == chunks[..i] + [chunks[i]];
      text := text + chunks[i];
      i := i + 1;
    }
    assert chunks[..i] == chunks;
  }

  /** `${code}` for the exit code, "null" for a signal. */
  function CodeText(code: Option<int>): string {
    if code.Some? then IntToString(code.value) else "null"
  }

  /** The 'close' and 'error' handlers: exit code 0 resolves with both streams, any
      other code rejects naming the code and carrying stderr, a spawn error rejects
      with that error's own message. */
  function Settle(run: ChildRun): (s: Settled)
  {
    match run
    case SpawnFailed(m) => Rejected(m)
    case Closed(out, err, code) =>
      if code == Some(0) then Resolved(Concat(out), Concat(err))
      else Rejected("Process exited with code " + CodeText(code) + ": " + Concat(err))
  }

  /** Success exactly on exit code 0; a non-zero exit surfaces everything the engine
      wrote to stderr at the end of the message, after the code. */
  lemma SettleOutcome(run: ChildRun)
    ensures Settle(run).Resolved? <==> run.Closed? && run.code == Some(0)
    ensures Settle(run).Resolved? ==>
              Settle(run).output == Concat(run.stdoutChunks) && Settle(run).error == Concat(run.stderrChunks)
    ensures run.Closed? && run.code != Some(0) ==>
              StartsWith(Settle(run).message, "Process exited with code ")
              && EndsWith(Settle(run).message, Concat(run.stderrChunks))
    ensures run.SpawnFailed? ==> Settle(run) == Rejected(run.message)
  {
    if run.Closed? && run.code != Some(0) {
      var m := Settle(run).message;
      var pre := "Process exited with code " + CodeText(run.code) + ": ";
      assert m == pre + Concat(run.stderrChunks);
      assert m[..25] == "Process exited with code ";
    }
  }

  // ===========================================================================
  // Route handlers that invoke the engine

  datatype ApiRequest =
    | CreateTestFiles
    | EncryptFile(filePath: string)
    | DecryptFile(filePath: string)
    | EncryptAll
    | DecryptAll

  /** The invocation a request leads to, or None when the route answers 404 first
      (a single-file request whose path does not exist). */
  function Plan(req: ApiRequest, pathExists: string -> bool): (p: Option<Invocation>)
  {
    match req
    case CreateTestFiles => Some(Invocation("create-test-files", None))
    case EncryptFile(f) => if pathExists(f) then Some(Invocation("", Some(f + "\nencrypt\n"))) else None
    case DecryptFile(f) => if pathExists(f) then Some(Invocation("", Some(f + "\ndecrypt\n"))) else None
    case EncryptAll => Some(Invocation("process-all", None))
    case DecryptAll => Some(Invocation("decrypt-all", None))
  }

  function SuccessMessage(req: ApiRequest): string {
    match req
    case CreateTestFiles => "Test files created successfully"
    case EncryptFile(_) => "File encrypted successfully"
    case DecryptFile(_) => "File decrypted successfully"
    case EncryptAll => "All files encrypted successfully"
    case DecryptAll => "All files decrypted successfully"
  }

  /** The reply of an engine route, given the plan and how the child's run settled. */
  function RouteReply(req: ApiRequest, pathExists: string -> bool, run: ChildRun): (r: Reply)
  {
    if Plan(req, pathExists).None? then Reply(404, false, "File not found", None)
    else
      match Settle(run)
      case Resolved(out, _) => Reply(200, true, SuccessMessage(req), Some(out))
      case Rejected(m) => Reply(500, false, m, None)
  }

  /** The request-to-invocation protocol: single-file requests name the file and the
      direction on stdin with an empty argument, and are refused without spawning when
      the file is missing; the other three pass a fixed argument and write nothing. */
  lemma PlanShape(req: ApiRequest, pathExists: string -> bool)
    ensures (req.EncryptFile? || req.DecryptFile?) && !pathExists(req.filePath) ==>
              Plan(req, pathExists) == None && RouteReply(req, pathExists, SpawnFailed("")).status == 404
    ensures req.EncryptFile? && pathExists(req.filePath) ==>
              Plan(req, pathExists) == Some(Invocation("", Some(req.filePath + "\nencrypt\n")))
    ensures req.DecryptFile? && pathExists(req.filePath) ==>
              Plan(req, pathExists) == Some(Invocation("", Some(req.filePath + "\ndecrypt\n")))
    ensures req.CreateTestFiles? || req.EncryptAll? || req.DecryptAll? ==>
              Plan(req, pathExists).Some? && StdinWritten(Plan(req, pathExists).value.input) == None
    ensures Plan(req, pathExists).Some? ==>
              (StdinWritten(Plan(req, pathExists).value.input).Some? <==> req.EncryptFile? || req.DecryptFile?)
  {
  }

  /** A route succeeds exactly when it spawned the engine and the engine exited with 0;
      failures are 404 (missing file, nothing spawned) or 500 with the settled message. */
  lemma RouteOutcome(req: ApiRequest, pathExists: string -> bool, run: ChildRun)
    ensures RouteReply(req, pathExists, run).success <==>
              Plan(req, pathExists).Some? && run.Closed? && run.code == Some(0)
    ensures RouteReply(req, pathExists, run).success ==>
              RouteReply(req, pathExists, run).output == Some(Concat(run.stdoutChunks))
    ensures !RouteReply(req, pathExists, run).success ==>
              RouteReply(req, pathExists, run).status == (if Plan(req, pathExists).None? then 404 else 500)
  {
    SettleOutcome(run);
  }

  /**
   * The server's process-wide state: process.env.ENCRYPTION_KEY, which set-key
   * replaces and every child process is started with.
   */
  class Server {
    var encryptionKey: Option<string>

    /** `initial` is ENCRYPTION_KEY in the environment the server was started in. */
    constructor (initial: Option<string>)
      ensures encryptionKey == initial
    {
      encryptionKey := initial;
    }

    function ChildKey(): string
      reads this
    {
      ChildKeyOf(encryptionKey)
    }

    /** POST /api/set-key, with setEncryptionKey. */
    method SetKey(v: BodyValue) returns (r: Reply)
      modifies this
      ensures r == SetKeyReply(v)
      ensures encryptionKey == KeyAfterRequest(old(encryptionKey), v)
    {
      if v.Str? && v.s != "" {
        encryptionKey := Some(v.s);
        r := Reply(200, true, "Key set successfully", None);
      } else {
        r := Reply(400, false, "Key must be a valid string", None);
      }
    }

    /** executeCppExecutable(command, input) against a child that behaves as `run`:
        what is spawned, and how the promise settles. */
    method Execute(inv: Invocation, run: ChildRun) returns (spawned: Spawn, s: Settled)
      ensures spawned == Spawn(EnginePath, [inv.command], ChildKey(), StdinWritten(inv.input))
      ensures s == Settle(run)
    {
      var key := if encryptionKey.Some? && encryptionKey.value != "" then encryptionKey.value else "5";
      var stdin := if inv.input.Some? && inv.input.value != "" then inv.input else None;
      spawned := Spawn(EnginePath, [inv.command], key, stdin);
      match run {
        case SpawnFailed(m) =>
          s := Rejected(m);
        case Closed(outChunks, errChunks, code) =>
          var out := Accumulate(outChunks);
          var err := Accumulate(errChunks);
          if code == Some(0) {
            s := Resolved(out, err);
          } else {
            s := Rejected("Process exited with code " + CodeText(code) + ": " + err);
          }
      }
    }

    /** One engine route: at most one spawn, always with the current key. */
    method Handle(req: ApiRequest, pathExists: string -> bool, run: ChildRun)
      returns (r: Reply, spawned: Option<Spawn>)
      ensures spawned.None? <==> Plan(req, pathExists).None?
      ensures spawned.Some? ==>
                spawned.value.encryptionKey == ChildKey()
                && spawned.value.args == [Plan(req, pathExists).value.command]
                && spawned.value.stdin == StdinWritten(Plan(req, pathExists).value.input)
      ensures r == RouteReply(req, pathExists, run)
    {
      var plan := Plan(req, pathExists);
      if plan.None? {
        return Reply(404, false, "File not found", None), None;
      }
      var sp, s := Execute(plan.value, run);
      spawned := Some(sp);
      match s {
        case Resolved(out, _) => r := Reply(200, true, SuccessMessage(req), Some(out));
        case Rejected(m) => r := Reply(500, false, m, None);
      }
    }
  }

  // ===========================================================================
  // Upload ingest: the multer `filename` callback and the upload route

  /** The characters the upload name keeps: [a-zA-Z0-9.-]. */
  predicate AllowedInName(c: char) {
    IsUpper(c) || IsLower(c) || IsDigit(c) || c == '.' || c == '-'
  }

  /** `replace(/[^a-zA-Z0-9.-]/g, '_')`. */
  function Sanitize(name: string): (r: string)
    ensures |r| == |name|
    ensures forall i :: 0 <= i < |r| ==> AllowedInName(r[i]) || r[i] == '_'
    ensures forall i :: 0 <= i < |name| && AllowedInName(name[i]) ==> r[i] == name[i]
    ensures forall i :: 0 <= i < |name| && !AllowedInName(name[i]) ==> r[i] == '_'
  {
    seq(|name|, i requires 0 <= i < |name| => if AllowedInName(name[i]) then name[i] else '_')
  }

  lemma SanitizeIdempotent(name: string)
    ensures Sanitize(Sanitize(name)) == Sanitize(name)
  {
  }

  /** The stored file name: the millisecond timestamp, '_', the sanitised name. */
  function StoredName(timestamp: nat, originalName: string): string {
    NatToString(timestamp) + "_" + Sanitize(originalName)
  }

  datatype UploadedFile = UploadedFile(originalName: string, size: nat)

  datatype UploadReply =
    | NoFileUploaded
    | Uploaded(name: string, path: string, size: nat)

  /** POST /api/upload-file, given the file multer stored (if any) at `timestamp`. */
  function UploadReplyFor(file: Option<UploadedFile>, timestamp: nat): UploadReply {
    if file.None? then NoFileUploaded
    else Uploaded(file.value.originalName, "uploads/" + StoredName(timestamp, file.value.originalName), file.value.size)
  }

  /** The returned path is the stored name directly under uploads/: the stored name has
      no '/' and so cannot leave the upload root. */
  lemma UploadStaysInRoot(file: UploadedFile, timestamp: nat)
    ensures UploadReplyFor(Some(file), timestamp).path == "uploads/" + StoredName(timestamp, file.originalName)
    ensures '/' !in StoredName(timestamp, file.originalName)
    ensures Basename(UploadReplyFor(Some(file), timestamp).path) == StoredName(timestamp, file.originalName)
  {
    var stored := StoredName(timestamp, file.originalName);
    var path := "uploads/" + stored;
    assert forall c :: c in stored ==> c == '_' || IsDigit(c) || AllowedInName(c);
    assert '/' !in stored;
    var k := LastIndexOf(path, '/');
    assert path[7] == '/';
    assert k.Some? && k.value == 7 by {
      forall j | 7 < j < |path| ensures path[j] != '/' {
        assert path[j] == stored[j - 8];
      }
    }
    assert path[8..] == stored;
  }

  /** Uploads at different milliseconds get different stored names, whatever the
      original names: the timestamp ends at the first '_'. */
  lemma DistinctTimestampsDistinctNames(t1: nat, t2: nat, n1: string, n2: string)
    requires t1 != t2
    ensures StoredName(t1, n1) != StoredName(t2, n2)
  {
    var x, y := NatToString(t1), NatToString(t2);
    var s1, s2 := StoredName(t1, n1), StoredName(t2, n2);
    if |x| < |y| {
      assert s1[|x|] == '_' && s2[|x|] == y[|x|];
    } else if |y| < |x| {
      assert s2[|y|] == '_' && s1[|y|] == x[|y|];
    } else {
      NatToStringInjective(t1, t2);
      assert s1[..|x|] == x && s2[..|y|] == y;
    }
  }

  /** The stored name is NOT collision-free: two uploads in the same millisecond whose
      names sanitise alike ("a b.txt" and "a_b.txt", or the same name twice) get the
      same stored name, and the later one overwrites the earlier. */
  lemma SameMillisecondCollision(t: nat)
    ensures StoredName(t, "a b.txt") == StoredName(t, "a_b.txt")
  {
    assert Sanitize("a b.txt") == "a_b.txt";
    assert Sanitize("a_b.txt") == "a_b.txt";
  }

  // ===========================================================================
  // File registry: GET /api/files

  /** The roots scanned, in order. */
  const ScannedRoots: seq<string> := ["test", "uploads"]

  /** What fs.stat reports for one directory entry; None when it throws. */
  datatype Stat = Stat(isFile: bool, size: nat, mtime: int)

  datatype DirEntry = DirEntry(name: string, stat: Option<Stat>)

  /** One root as the filesystem presents it: missing (fs.pathExists is false),
      unreadable (fs.readdir throws), or its entries in readdir order. */
  datatype RootScan = Absent | Unreadable | Listed(entries: seq<DirEntry>)

  datatype FileRecord = FileRecord(name: string, path: string, size: nat, modified: int, fileType: string)

  /** `path.extname(file).toLowerCase().substring(1) || 'unknown'`. */
  function FileType(name: string): string {
    TypeOfExtension(Extname(name))
  }

  /** The type for an extension x: lower-cased, without its first character, or
      "unknown" when that leaves nothing. */
  function TypeOfExtension(x: string): string {
    var e := ToLower(x);
    if |e| <= 1 then "unknown" else e[1..]
  }

  /** The type is never empty and never holds a '.': it is the lower-cased extension
      without its dot, or "unknown" when there is no extension beyond a bare '.'. */
  lemma FileTypeShape(name: string)
    ensures FileType(name) != "" && '.' !in FileType(name)
    ensures |Extname(name)| > 1 ==> ToLower(Extname(name)) == "." + FileType(name)
    ensures |Extname(name)| <= 1 ==> FileType(name) == "unknown"
  {
    ExtnameShape(name);
    ExtensionTypeShape(Extname(name));
  }

  /** The same facts for any extension text: empty, or a dot with no further dot. */
  lemma ExtensionTypeShape(x: string)
    requires x == [] || (x[0] == '.' && '.' !in x[1..])
    ensures TypeOfExtension(x) != "" && '.' !in TypeOfExtension(x)
    ensures |x| > 1 ==> ToLower(x) == "." + TypeOfExtension(x)
    ensures |x| <= 1 ==> TypeOfExtension(x) == "unknown"
  {
    var e := ToLower(x);
    if |x| > 1 {
      LowerTail(x);
      assert e == [e[0]] + e[1..];
    } else {
      assert "unknown"[0] == 'u';
      assert forall i :: 0 <= i < |"unknown"| ==> "unknown"[i] != '.';
    }
  }

  /** Lower-casing an extension keeps its dot and adds none after it. */
  lemma LowerTail(x: string)
    requires |x| > 1 && x[0] == '.' && '.' !in x[1..]
    ensures ToLower(x)[0] == '.' && ToLower(x)[1..] == ToLower(x[1..])
    ensures '.' !in ToLower(x)[1..]
  {
    var e := ToLower(x);
    forall i | 0 <= i < |e[1..]|
      ensures e[1..][i] == ToLower(x[1..])[i] && e[1..][i] != '.'
    {
      assert x[1..][i] != '.';
    }
  }

  function RecordOf(root: string, name: string, st: Stat): FileRecord {
    FileRecord(name, root + "/" + name, st.size, st.mtime, FileType(name))
  }

  /** The records one readable root contributes: its regular files, in readdir order,
      up to the first entry whose fs.stat throws (the records pushed before it stay,
      the rest of that root is skipped by the catch). */
  function RootRecords(root: string, entries: seq<DirEntry>): (rs: seq<FileRecord>)
    ensures |rs| <= |entries|
    ensures forall k :: 0 <= k < |rs| ==>
              rs[k].path == root + "/" + rs[k].name && rs[k].fileType == FileType(rs[k].name)
    decreases |entries|
  {
    if entries == [] then []
    else
      match entries[0].stat
      case None => []
      case Some(st) =>
        var rest := RootRecords(root, entries[1..]);
        if st.isFile then [RecordOf(root, entries[0].name, st)] + rest else rest
  }

  function RootContribution(root: string, scan: RootScan): seq<FileRecord> {
    match scan
    case Absent => []
    case Unreadable => []
    case Listed(entries) => RootRecords(root, entries)
  }

  /** The whole listing: each root's contribution, in root order. */
  function Listing(roots: seq<(string, RootScan)>): seq<FileRecord>
    decreases |roots|
  {
    if roots == [] then [] else RootContribution(roots[0].0, roots[0].1) + Listing(roots[1..])
  }

  lemma {:induction false} ListingAppend(a: seq<(string, RootScan)>, b: seq<(string, RootScan)>)
    ensures Listing(a + b) == Listing(a) + Listing(b)
    decreases |a|
  {
    if a != [] {
      assert (a + b)[1..] == a[1..] + b;
      assert (a + b)[0] == a[0];
      ListingAppend(a[1..], b);
    } else {
      assert a + b == b;
    }
  }

  /** The two-root listing is the test root's records followed by the uploads root's;
      a missing or unreadable root contributes nothing and does not disturb the other. */
  lemma TwoRootListing(test: RootScan, uploads: RootScan)
    ensures Listing([("test", test), ("uploads", uploads)])
            == RootContribution("test", test) + RootContribution("uploads", uploads)
    ensures (test.Absent? || test.Unreadable?) ==>
              Listing([("test", test), ("uploads", uploads)]) == RootContribution("uploads", uploads)
  {
    var roots := [("test", test), ("uploads", uploads)];
    assert roots[1..] == [("uploads", uploads)];
    assert Listing(roots[1..][1..]) == [];
    assert Listing(roots[1..]) == RootContribution("uploads", uploads);
  }

  /** The entries fs.stat calls regular files, in order. */
  function FilesOf(entries: seq<DirEntry>): (fs: seq<DirEntry>)
    ensures forall k :: 0 <= k < |fs| ==> fs[k] in entries && fs[k].stat.Some? && fs[k].stat.value.isFile
    decreases |entries|
  {
    if entries == [] then []
    else if entries[0].stat.Some? && entries[0].stat.value.isFile then [entries[0]] + FilesOf(entries[1..])
    else FilesOf(entries[1..])
  }

  /** One record per given regular file, in order. */
  function RecordsOf(root: string, files: seq<DirEntry>): seq<FileRecord>
    requires forall k :: 0 <= k < |files| ==> files[k].stat.Some?
    decreases |files|
  {
    if files == [] then [] else [RecordOf(root, files[0].name, files[0].stat.value)] + RecordsOf(root, files[1..])
  }

  /** When every stat succeeds, a root lists exactly its regular files, in order. */
  lemma {:induction false} RootRecordsAllStatted(root: string, entries: seq<DirEntry>)
    requires forall k :: 0 <= k < |entries| ==> entries[k].stat.Some?
    ensures RootRecords(root, entries) == RecordsOf(root, FilesOf(entries))
    decreases |entries|
  {
    if entries != [] {
      RootRecordsAllStatted(root, entries[1..]);
    }
  }

  /** A throwing fs.stat ends the root: the records of the entries before it stay, and
      nothing after it is listed, whatever those entries are. */
  lemma {:induction false} RootRecordsStopsAtThrow(root: string, pre: seq<DirEntry>, e: DirEntry, post: seq<DirEntry>)
    requires forall k :: 0 <= k < |pre| ==> pre[k].stat.Some?
    requires e.stat.None?
    ensures RootRecords(root, pre + [e] + post) == RecordsOf(root, FilesOf(pre))
    decreases |pre|
  {
    var all := pre + [e] + post;
    if pre == [] {
      assert all[0] == e;
    } else {
      assert all[0] == pre[0];
      assert all[1..] == pre[1..] + [e] + post;
      RootRecordsStopsAtThrow(root, pre[1..], e, post);
    }
  }

  /** The inner loop of the /api/files handler over one readable root: push each
      regular file's record, and leave the root at the first entry whose stat throws. */
  method PushRootRecords(files: seq<FileRecord>, root: string, entries: seq<DirEntry>)
    returns (files': seq<FileRecord>)
    ensures files' == files + RootRecords(root, entries)
  {
    files' := files;
    var j := 0;
    while j < |entries|
      invariant 0 <= j <= |entries|
      invariant files' + RootRecords(root, entries[j..]) == files + RootRecords(root, entries)
    {
      var entry := entries[j];
      assert entries[j..][1..] == entries[j + 1..];
      if entry.stat.None? {
        break;
      }
      var st := entry.stat.value;
      if st.isFile {
        files' := files' + [FileRecord(entry.name, root + "/" + entry.name, st.size, st.mtime, FileType(entry.name))];
      }
      j := j + 1;
    }
  }

  /** The listing from root i on is root i's contribution, then the rest. */
  lemma ListingStep(roots: seq<(string, RootScan)>, i: nat)
    requires i < |roots|
    ensures Listing(roots[i..]) == RootContribution(roots[i].0, roots[i].1) + Listing(roots[i + 1..])
  {
    assert roots[i..][0] == roots[i];
    assert roots[i..][1..] == roots[i + 1..];
  }

  /** The outer loop of the /api/files handler: the roots in order, each pushing its
      records; a missing or unreadable root pushes nothing. */
  method ScanRoots(roots: seq<(string, RootScan)>) returns (files: seq<FileRecord>)
    ensures files == Listing(roots)
  {
    files := [];
    var i := 0;
    while i < |roots|
      invariant 0 <= i <= |roots|
      invariant files + Listing(roots[i..]) == Listing(roots)
    {
      ListingStep(roots, i);
      var root := roots[i].0;
      var scan := roots[i].1;
      ghost var before := files;
      ghost var rest := Listing(roots[i + 1..]);
      if scan.Listed? {
        files := PushRootRecords(files, root, scan.entries);
        AppendAssoc(before, RootRecords(root, scan.entries), rest);
      } else {
        assert RootContribution(root, scan) == [];
        assert [] + rest == rest;
      }
      i := i + 1;
    }
    assert roots[i..] == [];
  }

  /** The /api/files handler over its two roots, test and uploads. */
  method ListFiles(test: RootScan, uploads: RootScan) returns (files: seq<FileRecord>)
    ensures files == RootContribution("test", test) + RootContribution("uploads", uploads)
  {
    files := ScanRoots([("test", test), ("uploads", uploads)]);
    TwoRootListing(test, uploads);
  }

  // ===========================================================================
  // Preview resolver: GET /api/file-preview/<path>

  /** fs.stat of an existing path: the size, or the message of the error it threw. */
  datatype StatResult = StatOk(size: nat) | StatFailed(message: string)

  /** fs.readFile followed by base64 encoding: the encoded text, or a read error. */
  datatype Base64Read = Base64Ok(encoded: string) | Base64Failed

  datatype PreviewReply =
    | PreviewNotFound
    | ImagePreview(data: string, size: nat)
    | PdfPreview(path: string, size: nat)
    | DocumentPreview(kind: string, path: string, size: nat, name: string, data: string, mimeType: string)
    | NoPreview
    | PreviewError(message: string)

  function PreviewStatus(r: PreviewReply): nat {
    match r
    case PreviewNotFound => 404
    case PreviewError(_) => 500
    case _ => 200
  }

  function PreviewSuccess(r: PreviewReply): bool {
    r.ImagePreview? || r.PdfPreview? || r.DocumentPreview?
  }

  const ImageExtensions: seq<string> := [".png", ".jpg", ".jpeg", ".gif", ".bmp", ".svg", ".webp"]

  const DocumentExtensions: seq<string> := [".ppt", ".pptx", ".doc", ".docx"]

  /** The format class an extension selects, with the MIME type to attach. */
  datatype Format =
    | ImageFormat(mime: string)
    | PdfFormat
    | DocumentFormat(kind: string, mime: string)
    | OtherFormat

  /** The image MIME chain: each listed extension's type, image/png otherwise. */
  function ImageMime(ext: string): (m: string)
    ensures StartsWith(m, "image/")
  {
    if ext == ".png" then "image/png"
    else if ext == ".jpg" || ext == ".jpeg" then "image/jpeg"
    else if ext == ".gif" then "image/gif"
    else if ext == ".bmp" then "image/bmp"
    else if ext == ".svg" then "image/svg+xml"
    else if ext == ".webp" then "image/webp"
    else "image/png"
  }

  /** The Office MIME chain: PowerPoint for .ppt/.pptx, Word otherwise. */
  function DocumentMime(ext: string): string {
    if ext == ".ppt" || ext == ".pptx" then
      (if ext == ".ppt" then "application/vnd.ms-powerpoint"
       else "application/vnd.openxmlformats-officedocument.presentationml.presentation")
    else if ext == ".doc" then "application/msword"
    else "application/vnd.openxmlformats-officedocument.wordprocessingml.document"
  }

  /** The `type` of an Office preview: "ppt" for the PowerPoint extensions, "doc"
      otherwise. */
  function DocumentKind(ext: string): (kind: string)
    ensures kind == "ppt" || kind == "doc"
    ensures kind == "ppt" <==> ext == ".ppt" || ext == ".pptx"
  {
    if ext == ".ppt" || ext == ".pptx" then "ppt" else "doc"
  }

  /** No extension belongs to two classes. */
  lemma ExtensionClassesDisjoint(ext: string)
    ensures ext in DocumentExtensions ==> ext !in ImageExtensions && ext != ".pdf"
    ensures ext == ".pdf" ==> ext !in ImageExtensions
  {
  }

  /** The format class the preview handler picks: the image list first, then .pdf,
      then the Office list; anything else has no preview. */
  function FormatOf(ext: string): (f: Format)
    ensures f.ImageFormat? <==> ext in ImageExtensions
    ensures f.PdfFormat? <==> ext == ".pdf"
    ensures f.DocumentFormat? <==> ext in DocumentExtensions
    ensures f.ImageFormat? ==> StartsWith(f.mime, "image/")
    ensures f.DocumentFormat? ==> f.kind == DocumentKind(ext) && f.mime == DocumentMime(ext)
  {
    ExtensionClassesDisjoint(ext);
    if ext in ImageExtensions then ImageFormat(ImageMime(ext))
    else if ext == ".pdf" then PdfFormat
    else if ext in DocumentExtensions then
      DocumentFormat(DocumentKind(ext), DocumentMime(ext))
    else OtherFormat
  }

  function DataUri(mime: string, encoded: string): string {
    "data:" + mime + ";base64," + encoded
  }

  /** The preview handler on the requested relative path. */
  function Preview(relPath: string, found: bool, stat: StatResult, read: Base64Read): PreviewReply {
    if !found then PreviewNotFound
    else
      match stat
      case StatFailed(m) => PreviewError(m)
      case StatOk(size) =>
        match FormatOf(ToLower(Extname(relPath)))
        case ImageFormat(mime) =>
          (match read
           case Base64Failed => PreviewError("Error reading image file")
           case Base64Ok(enc) => ImagePreview(DataUri(mime, enc), size))
        case PdfFormat => PdfPreview(relPath, size)
        case DocumentFormat(kind, mime) =>
          (match read
           case Base64Failed => PreviewError("Error reading file")
           case Base64Ok(enc) => DocumentPreview(kind, relPath, size, Basename(relPath), DataUri(mime, enc), mime))
        case OtherFormat => NoPreview
  }

  /** A missing path is 404, whatever its extension. */
  lemma PreviewMissing(relPath: string, stat: StatResult, read: Base64Read)
    ensures Preview(relPath, false, stat, read) == PreviewNotFound
    ensures PreviewStatus(Preview(relPath, false, stat, read)) == 404
  {
  }

  /** A data URI of an image type starts with "data:image/". */
  lemma ImageDataUri(m: string, enc: string)
    requires StartsWith(m, "image/")
    ensures StartsWith(DataUri(m, enc), "data:image/")
  {
    assert DataUri(m, enc)[..11] == "data:" + m[..6];
  }

  /** The seven image extensions give an image data URI with the chain's MIME type. */
  lemma PreviewImage(relPath: string, size: nat, enc: string)
    requires ToLower(Extname(relPath)) in ImageExtensions
    ensures var mime := ImageMime(ToLower(Extname(relPath)));
            Preview(relPath, true, StatOk(size), Base64Ok(enc)) == ImagePreview(DataUri(mime, enc), size)
    ensures StartsWith(Preview(relPath, true, StatOk(size), Base64Ok(enc)).data, "data:image/")
  {
    var ext := ToLower(Extname(relPath));
    assert FormatOf(ext) == ImageFormat(ImageMime(ext));
    ImageDataUri(ImageMime(ext), enc);
  }

  /** .pdf gives the requested path only, without reading the file. */
  lemma PreviewPdf(relPath: string, size: nat, read: Base64Read)
    requires ToLower(Extname(relPath)) == ".pdf"
    ensures Preview(relPath, true, StatOk(size), read) == PdfPreview(relPath, size)
  {
  }

  /** .ppt/.pptx are kind "ppt", .doc/.docx kind "doc", each with its Office MIME type. */
  lemma PreviewDocument(relPath: string, size: nat, enc: string)
    requires ToLower(Extname(relPath)) in DocumentExtensions
    ensures var ext := ToLower(Extname(relPath));
            var r := Preview(relPath, true, StatOk(size), Base64Ok(enc));
            && r.DocumentPreview?
            && (r.kind == "ppt" <==> ext == ".ppt" || ext == ".pptx")
            && r.mimeType == DocumentMime(ext)
            && r.data == DataUri(DocumentMime(ext), enc)
  {
  }

  /** Any other extension is answered with success:false and no error status. */
  lemma PreviewUnsupported(relPath: string, stat: StatResult, read: Base64Read)
    requires var ext := ToLower(Extname(relPath));
             ext !in ImageExtensions && ext != ".pdf" && ext !in DocumentExtensions
    ensures stat.StatOk? ==> Preview(relPath, true, stat, read) == NoPreview
    ensures !PreviewSuccess(Preview(relPath, true, stat, read))
  {
  }

  // ===========================================================================
  // Raw content: GET /api/file-content/<path>

  const TextExtensions: seq<string> := [".txt", ".json", ".xml", ".csv", ".log", ".md", ".js", ".html", ".css"]

  /** fs.readFile(path, 'utf8'): the text, or an I/O error. */
  datatype TextRead = TextOk(content: string) | TextFailed

  datatype ContentReply =
    | ContentNotFound
    | Content(content: string, isBinary: bool)
    | ContentError(message: string)

  /** Hundredths of a KiB, rounded half up: n with n/100 nearest to size/1024. */
  function HundredthsOfKiB(size: nat): (n: nat)
    ensures n * 1024 <= size * 100 + 512 < n * 1024 + 1024
  {
    (size * 100 + 512) / 1024
  }

  /** `(size / 1024).toFixed(2)`. */
  function KiBFixed2(size: nat): (s: string)
  {
    var n := HundredthsOfKiB(size);
    var frac := n % 100;
    NatToString(n / 100) + "." + (if frac < 10 then "0" else "") + NatToString(frac)
  }

  lemma KiBFixed2Shape(size: nat)
    ensures var s := KiBFixed2(size);
            var n := HundredthsOfKiB(size);
            |s| >= 4 && s[|s| - 3] == '.'
            && s[..|s| - 3] == NatToString(n / 100)
            && ParseNat(s[..|s| - 3]) * 100 + ParseNat(s[|s| - 2..]) == n
  {
    var n := HundredthsOfKiB(size);
    var frac := n % 100;
    var f := (if frac < 10 then "0" else "") + NatToString(frac);
    var s := KiBFixed2(size);
    assert |f| == 2;
    assert s == NatToString(n / 100) + "." + f;
    assert s[..|s| - 3] == NatToString(n / 100);
    assert s[|s| - 2..] == f;
    ParseNatToString(n / 100);
    ParseNatToString(frac);
    if frac < 10 {
      assert f[..1] == "0";
      assert ParseNat(f[..1]) == 0;
    }
  }

  function BinaryPlaceholder(ext: string, size: nat): string {
    "[Binary file: " + (if ext == "" then "unknown" else ext) + " - " + KiBFixed2(size) + " KB]"
  }

  /** The content handler on the requested relative path. */
  function FileContent(relPath: string, found: bool, read: TextRead, stat: StatResult): (r: ContentReply)
  {
    if !found then ContentNotFound
    else
      var ext := ToLower(Extname(relPath));
      if ext in TextExtensions then
        match read
        case TextOk(text) => Content(text, false)
        case TextFailed => Content("[Binary file - cannot display as text]", true)
      else
        match stat
        case StatFailed(m) => ContentError(m)
        case StatOk(size) => Content(BinaryPlaceholder(ext, size), true)
  }

  /** Text comes back verbatim, flagged as text, exactly for the nine allow-listed
      extensions whose read succeeds; everything else that exists is a bracketed
      placeholder flagged binary; a missing path is 404. */
  lemma ContentRule(relPath: string, found: bool, read: TextRead, size: nat)
    ensures !found ==> FileContent(relPath, found, read, StatOk(size)) == ContentNotFound
    ensures found ==> FileContent(relPath, found, read, StatOk(size)).Content?
    ensures found ==>
              (!FileContent(relPath, found, read, StatOk(size)).isBinary
               <==> ToLower(Extname(relPath)) in TextExtensions && read.TextOk?)
    ensures found && ToLower(Extname(relPath)) in TextExtensions && read.TextOk? ==>
              FileContent(relPath, found, read, StatOk(size)).content == read.content
    ensures found && FileContent(relPath, found, read, StatOk(size)).isBinary ==>
              StartsWith(FileContent(relPath, found, read, StatOk(size)).content, "[Binary file")
              && FileContent(relPath, found, read, StatOk(size)).content[|FileContent(relPath, found, read, StatOk(size)).content| - 1] == ']'
  {
    var r := FileContent(relPath, found, read, StatOk(size));
    if found && r.isBinary {
      var ext := ToLower(Extname(relPath));
      if ext in TextExtensions {
        assert r.content == "[Binary file - cannot display as text]";
      } else {
        assert r.content == BinaryPlaceholder(ext, size);
      }
      assert r.content[..12] == "[Binary file";
    }
  }
}
