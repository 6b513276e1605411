/**
 * The browser client (frontend/script.js, class EncryptyorFrontend): the fields it
 * updates in place (the key typed in, the single-flight flag, the operation log and
 * the statistics) and the pure classifiers it renders from (key strength, key mask,
 * file-list filter, progress label).
 *
 * fetch is not performed: the backend's answer to each request is an input, and the
 * methods return the request they would send. Clock readings (timestamps, durations)
 * are inputs too. The DOM is not modelled.
 */
module Frontend {
  import opened Text
  import Backend

  // ===========================================================================
  // Key strength and key status

  predicate HasUpper(s: string) { exists i :: 0 <= i < |s| && IsUpper(s[i]) }
  predicate HasLower(s: string) { exists i :: 0 <= i < |s| && IsLower(s[i]) }
  predicate HasDigit(s: string) { exists i :: 0 <= i < |s| && IsDigit(s[i]) }

  datatype Strength = Weak | Medium | Strong

  /** The classification of updateKeyStrength for a non-empty key. */
  function StrengthOf(key: string): Strength {
    if |key| >= 16 && HasUpper(key) && HasLower(key) && HasDigit(key) then Strong
    else if |key| >= 8 then Medium
    else Weak
  }

  /** The text of the strength indicator: empty for an empty key, otherwise the
      classification with its first letter capitalised. */
  function StrengthLabel(key: string): string {
    if key == "" then ""
    else match StrengthOf(key)
      case Strong => "Strong"
      case Medium => "Medium"
      case Weak => "Weak"
  }

  /** Each label, both directions. */
  lemma StrengthLabelRule(key: string)
    ensures StrengthLabel(key) == "" <==> key == ""
    ensures StrengthLabel(key) == "Strong" <==>
              |key| >= 16 && HasUpper(key) && HasLower(key) && HasDigit(key)
    ensures StrengthLabel(key) == "Medium" <==>
              8 <= |key| && !(|key| >= 16 && HasUpper(key) && HasLower(key) && HasDigit(key))
    ensures StrengthLabel(key) == "Weak" <==> 0 < |key| < 8
  {
  }

  /** A key of 16 characters or more without a digit is only medium. */
  lemma LongKeyWithoutDigitIsMedium(key: string)
    requires |key| >= 16 && !HasDigit(key)
    ensures StrengthLabel(key) == "Medium"
  {
  }

  function Repeat(c: char, n: nat): (s: string)
    ensures |s| == n && forall i :: 0 <= i < n ==> s[i] == c
  {
    seq(n, i => c)
  }

  /** The masked key updateKeyStatus shows after "Key set: ". */
  function MaskKey(key: string): string {
    if |key| > 10 then key[..4] + "..." + key[|key| - 4..] else Repeat('*', |key|)
  }

  /** The status line's text. */
  function KeyStatusText(key: string): string {
    if key == "" then "No key set (using default)" else "Key set: " + MaskKey(key)
  }

  /** What the mask reveals: a long key shows exactly its first and last four characters
      and hides the |key| - 8 >= 3 in between; a short key shows only its length. */
  lemma MaskReveals(key: string)
    ensures |key| > 10 ==>
              |MaskKey(key)| == 11 && MaskKey(key)[..4] == key[..4] && MaskKey(key)[4..7] == "..."
              && MaskKey(key)[7..] == key[|key| - 4..]
    ensures |key| <= 10 ==>
              |MaskKey(key)| == |key| && forall i :: 0 <= i < |key| ==> MaskKey(key)[i] == '*'
    ensures key == "" <==> KeyStatusText(key) == "No key set (using default)"
  {
    if key != "" {
      assert KeyStatusText(key)[..9] == "Key set: ";
    }
  }

  // ===========================================================================
  // Operation log and statistics

  datatype LogEntry = LogEntry(timestamp: string, message: string, kind: string)

  const LogCapacity: nat := 50
  const TimingCapacity: nat := 100

  /** logOperation: unshift the entry, then keep the first 50. */
  function PushLog(log: seq<LogEntry>, e: LogEntry): seq<LogEntry> {
    var l := [e] + log;
    if |l| > LogCapacity then l[..LogCapacity] else l
  }

  lemma PushLogShape(log: seq<LogEntry>, e: LogEntry)
    ensures 1 <= |PushLog(log, e)| <= LogCapacity
    ensures PushLog(log, e)[0] == e
    ensures PushLog(log, e)[1..] == log[..if |log| < LogCapacity then |log| else LogCapacity - 1]
  {
  }

  function Reverse<T>(s: seq<T>): (r: seq<T>)
    ensures |r| == |s|
    decreases |s|
  {
    if s == [] then [] else Reverse(s[1..]) + [s[0]]
  }

  function Take<T>(s: seq<T>, n: nat): seq<T> {
    if |s| <= n then s else s[..n]
  }

  /** The log after logging each of `entries` in turn. */
  function LogAfter(log: seq<LogEntry>, entries: seq<LogEntry>): seq<LogEntry>
    decreases |entries|
  {
    if entries == [] then log else PushLog(LogAfter(log, entries[..|entries| - 1]), entries[|entries| - 1])
  }

  /** Starting from a log of at most 50 entries, the log is the 50 most recent
      entries, newest first. */
  lemma {:induction false} LogIsNewestFirst(log: seq<LogEntry>, entries: seq<LogEntry>)
    requires |log| <= LogCapacity
    ensures LogAfter(log, entries) == Take(Reverse(entries) + log, LogCapacity)
    decreases |entries|
  {
    if entries == [] {
      assert Reverse(entries) == [];
      assert [] + log == log;
    } else {
      var init, last := entries[..|entries| - 1], entries[|entries| - 1];
      LogIsNewestFirst(log, init);
      ReverseSnoc(init, last);
      assert entries == init + [last];
      var rest := Reverse(init) + log;
      calc {
        LogAfter(log, entries);
        PushLog(Take(rest, LogCapacity), last);
        Take([last] + Take(rest, LogCapacity), LogCapacity);
        { TakeCons(last, rest, LogCapacity); }
        Take([last] + rest, LogCapacity);
        Take(Reverse(entries) + log, LogCapacity);
      }
    }
  }

  lemma {:induction false} ReverseSnoc<T>(s: seq<T>, x: T)
    ensures Reverse(s + [x]) == [x] + Reverse(s)
    decreases |s|
  {
    if s == [] {
      assert [] + [x] == [x];
    } else {
      assert (s + [x])[1..] == s[1..] + [x];
      ReverseSnoc(s[1..], x);
    }
  }

  lemma TakeCons<T>(x: T, s: seq<T>, n: nat)
    requires n >= 1
    ensures Take([x] + Take(s, n), n) == Take([x] + s, n)
  {
    if |s| > n {
      assert ([x] + s[..n])[..n] == ([x] + s)[..n];
    }
  }

  /** updateStats' window: push the duration, then drop the oldest when over 100. */
  function PushTime(times: seq<int>, d: int): seq<int> {
    var t := times + [d];
    if |t| > TimingCapacity then t[1..] else t
  }

  /** Keep the last n of s. */
  function Last<T>(s: seq<T>, n: nat): seq<T> {
    if |s| <= n then s else s[|s| - n..]
  }

  function TimesAfter(times: seq<int>, ds: seq<int>): seq<int>
    decreases |ds|
  {
    if ds == [] then times else PushTime(TimesAfter(times, ds[..|ds| - 1]), ds[|ds| - 1])
  }

  /** Starting from a window of at most 100, the window is always the last 100 of all
      durations recorded, in arrival order. */
  lemma {:induction false} TimesAreLatest(times: seq<int>, ds: seq<int>)
    requires |times| <= TimingCapacity
    ensures TimesAfter(times, ds) == Last(times + ds, TimingCapacity)
    decreases |ds|
  {
    if ds == [] {
      assert times + ds == times;
    } else {
      var init, d := ds[..|ds| - 1], ds[|ds| - 1];
      TimesAreLatest(times, init);
      assert times + ds == (times + init) + [d];
      var all := times + init;
      var w := Last(all, TimingCapacity);
      if |all| >= TimingCapacity {
        assert (w + [d])[1..] == (all + [d])[|all + [d]| - TimingCapacity..];
      }
    }
  }

  // ===========================================================================
  // File-list filter and progress label

  /** The filter predicate of loadFileList. */
  predicate Keep(f: Backend.FileRecord, filter: string, query: string) {
    && (filter == "txt" ==> f.fileType == "txt" || EndsWith(f.name, ".txt"))
    && (filter == "test" ==> Contains(f.name, "test_file_"))
    && (filter == "image" ==> ToLower(LastSegment(f.name, '.')) in ["png", "jpg", "jpeg", "gif", "bmp", "svg", "webp"])
    && (filter == "pdf" ==> EndsWith(ToLower(f.name), ".pdf"))
    && (query != "" ==> Contains(ToLower(f.name), ToLower(query)))
  }

  /** Array.prototype.filter with Keep. */
  function FilterFiles(files: seq<Backend.FileRecord>, filter: string, query: string): (r: seq<Backend.FileRecord>)
    ensures |r| <= |files|
    ensures forall f :: f in r <==> f in files && Keep(f, filter, query)
    decreases |files|
  {
    if files == [] then []
    else
      var rest := FilterFiles(files[1..], filter, query);
      assert forall f :: f in files <==> f == files[0] || f in files[1..];
      if Keep(files[0], filter, query) then [files[0]] + rest else rest
  }

  /** Filtering keeps the order: it distributes over concatenation. */
  lemma {:induction false} FilterAppend(a: seq<Backend.FileRecord>, b: seq<Backend.FileRecord>, filter: string, query: string)
    ensures FilterFiles(a + b, filter, query) == FilterFiles(a, filter, query) + FilterFiles(b, filter, query)
    decreases |a|
  {
    if a == [] {
      assert a + b == b;
    } else {
      assert (a + b)[1..] == a[1..] + b;
      assert (a + b)[0] == a[0];
      FilterAppend(a[1..], b, filter, query);
    }
  }

  /** The filtered list shows the test root's files before the uploads root's. */
  lemma FilteredListingKeepsRootOrder(test: Backend.RootScan, uploads: Backend.RootScan, filter: string, query: string)
    ensures FilterFiles(Backend.Listing([("test", test), ("uploads", uploads)]), filter, query)
            == FilterFiles(Backend.RootContribution("test", test), filter, query)
               + FilterFiles(Backend.RootContribution("uploads", uploads), filter, query)
  {
    Backend.TwoRootListing(test, uploads);
    FilterAppend(Backend.RootContribution("test", test), Backend.RootContribution("uploads", uploads), filter, query);
  }

  /** updateProgress' caption. */
  function ProgressLabel(percent: real): (caption: string)
    ensures caption == "Ready" <==> percent == 0.0
    ensures caption == "Processing..." <==> percent != 0.0 && percent < 100.0
    ensures caption == "Completed" <==> percent >= 100.0
  {
    if percent == 0.0 then "Ready" else if percent < 100.0 then "Processing..." else "Completed"
  }

  // ===========================================================================
  // The client object

  /** The backend's answer as the client sees it: the parsed JSON `success` and
      `message`, or an error thrown by fetch or by response.json(). */
  datatype Answer = Answered(success: bool, message: string) | Thrown(message: string)

  /** A request the client sends: the endpoint and the JSON body's one field. */
  datatype Request = Request(endpoint: string, body: string)

  datatype BatchKind = CreateTestFilesBatch | EncryptAllBatch | DecryptAllBatch

  function BatchEndpoint(k: BatchKind): string {
    match k
    case CreateTestFilesBatch => "create-test-files"
    case EncryptAllBatch => "encrypt-all"
    case DecryptAllBatch => "decrypt-all"
  }

  function BatchStartMessage(k: BatchKind): string {
    match k
    case CreateTestFilesBatch => "Starting test file creation..."
    case EncryptAllBatch => "Starting batch encryption with multiprocessing..."
    case DecryptAllBatch => "Starting batch decryption with multiprocessing..."
  }

  function BatchEndEntry(k: BatchKind, a: Answer, ts: string): LogEntry {
    if a.Answered? && a.success then
      match k
      case CreateTestFilesBatch => LogEntry(ts, "Successfully created 100 test files", "success")
      case EncryptAllBatch => LogEntry(ts, "All files encrypted successfully!", "success")
      case DecryptAllBatch => LogEntry(ts, "All files decrypted successfully!", "success")
    else
      match k
      case CreateTestFilesBatch => LogEntry(ts, "Error creating test files: " + a.message, "error")
      case EncryptAllBatch => LogEntry(ts, "Error during batch encryption: " + a.message, "error")
      case DecryptAllBatch => LogEntry(ts, "Error during batch decryption: " + a.message, "error")
  }

  /** The file endpoint executeRealOperation posts to. */
  function FileEndpoint(action: string): string {
    if action == "encrypt" then "encrypt-file" else "decrypt-file"
  }

  class Client {
    var currentKey: string
    var isProcessing: bool
    var operationLog: seq<LogEntry>
    var encrypted: nat
    var decrypted: nat
    var totalProcessed: nat
    var processingTimes: seq<int>

    /** The bounds the two buffers keep. */
    ghost predicate Valid()
      reads this
    {
      |operationLog| <= LogCapacity && |processingTimes| <= TimingCapacity
    }

    constructor ()
      ensures Valid()
      ensures currentKey == "" && !isProcessing && operationLog == []
      ensures encrypted == 0 && decrypted == 0 && totalProcessed == 0 && processingTimes == []
    {
      currentKey := "";
      isProcessing := false;
      operationLog := [];
      encrypted, decrypted, totalProcessed := 0, 0, 0;
      processingTimes := [];
    }

    /** The key input's 'input' listener: the typed text becomes currentKey as it is. */
    method OnKeyInput(value: string)
      modifies this
      ensures currentKey == value
      ensures isProcessing == old(isProcessing) && operationLog == old(operationLog)
      ensures encrypted == old(encrypted) && decrypted == old(decrypted)
      ensures totalProcessed == old(totalProcessed) && processingTimes == old(processingTimes)
    {
      currentKey := value;
    }

    method LogOperation(message: string, kind: string, timestamp: string)
      modifies this
      ensures operationLog == PushLog(old(operationLog), LogEntry(timestamp, message, kind))
      ensures currentKey == old(currentKey) && isProcessing == old(isProcessing)
      ensures encrypted == old(encrypted) && decrypted == old(decrypted)
      ensures totalProcessed == old(totalProcessed) && processingTimes == old(processingTimes)
      ensures |operationLog| <= LogCapacity
    {
      operationLog := [LogEntry(timestamp, message, kind)] + operationLog;
      if |operationLog| > 50 {
        operationLog := operationLog[..50];
      }
    }

    method UpdateStats(action: string, duration: int)
      requires Valid()
      modifies this
      ensures Valid()
      ensures encrypted == old(encrypted) + (if action == "encrypt" then 1 else 0)
      ensures decrypted == old(decrypted) + (if action == "encrypt" then 0 else 1)
      ensures totalProcessed == old(totalProcessed) + 1
      ensures processingTimes == PushTime(old(processingTimes), duration)
      ensures currentKey == old(currentKey) && isProcessing == old(isProcessing)
      ensures operationLog == old(operationLog)
    {
      if action == "encrypt" {
        encrypted := encrypted + 1;
      } else {
        decrypted := decrypted + 1;
      }
      totalProcessed := totalProcessed + 1;
      processingTimes := processingTimes + [duration];
      if |processingTimes| > 100 {
        processingTimes := processingTimes[1..];
      }
    }

    /** setEncryptionKey: trim the input; send nothing for an empty key; adopt the key
        only when the backend answers success. */
    method SetEncryptionKey(input: string, answer: Answer, timestamp: string) returns (sent: Option<Request>)
      requires Valid()
      modifies this
      ensures Valid()
      ensures sent.None? <==> Trim(input) == ""
      ensures sent.Some? ==> sent.value == Request("set-key", Trim(input))
      ensures currentKey == (if sent.Some? && answer.Answered? && answer.success then Trim(input) else old(currentKey))
      ensures operationLog ==
                if sent.None? || (answer.Answered? && !answer.success) then old(operationLog)
                else if answer.Answered? then PushLog(old(operationLog), LogEntry(timestamp, "Encryption key set successfully", "success"))
                else PushLog(old(operationLog), LogEntry(timestamp, "Error setting key: " + answer.message, "error"))
      ensures isProcessing == old(isProcessing) && processingTimes == old(processingTimes)
      ensures encrypted == old(encrypted) && decrypted == old(decrypted) && totalProcessed == old(totalProcessed)
    {
      var newKey := Trim(input);
      if newKey == "" {
        return None;
      }
      sent := Some(Request("set-key", newKey));
      match answer {
        case Answered(success, _) =>
          if success {
            currentKey := newKey;
            LogOperation("Encryption key set successfully", "success", timestamp);
          }
        case Thrown(m) =>
          LogOperation("Error setting key: " + m, "error", timestamp);
      }
    }

    /** executeRealOperation up to the fetch: refused while another is in flight,
        otherwise raises the flag, logs the start and sends the request. */
    method BeginOperation(action: string, filePath: string, timestamp: string) returns (sent: Option<Request>)
      requires Valid()
      modifies this
      ensures Valid()
      ensures sent.None? <==> old(isProcessing)
      ensures old(isProcessing) ==> operationLog == old(operationLog)
      ensures !old(isProcessing) ==>
                && sent == Some(Request(FileEndpoint(action), filePath))
                && operationLog == PushLog(old(operationLog), LogEntry(timestamp, "Starting " + action + " operation on: " + filePath, "info"))
      ensures isProcessing
      ensures currentKey == old(currentKey) && processingTimes == old(processingTimes)
      ensures encrypted == old(encrypted) && decrypted == old(decrypted) && totalProcessed == old(totalProcessed)
    {
      if isProcessing {
        return None;
      }
      isProcessing := true;
      LogOperation("Starting " + action + " operation on: " + filePath, "info", timestamp);
      sent := Some(Request(FileEndpoint(action), filePath));
    }

    /** executeRealOperation after the answer: on success log and count it; on failure
        log the error; in every case (the `finally`) lower the flag. */
    method FinishOperation(action: string, filePath: string, answer: Answer, duration: int, timestamp: string)
      requires Valid()
      modifies this
      ensures Valid()
      ensures !isProcessing
      ensures answer.Answered? && answer.success ==>
                && operationLog == PushLog(old(operationLog), LogEntry(timestamp, "Successfully " + action + "ed: " + filePath, "success"))
                && encrypted == old(encrypted) + (if action == "encrypt" then 1 else 0)
                && decrypted == old(decrypted) + (if action == "encrypt" then 0 else 1)
                && totalProcessed == old(totalProcessed) + 1
                && processingTimes == PushTime(old(processingTimes), duration)
      ensures !(answer.Answered? && answer.success) ==>
                && operationLog == PushLog(old(operationLog), LogEntry(timestamp, "Error " + action + "ing file: " + answer.message, "error"))
                && encrypted == old(encrypted) && decrypted == old(decrypted)
                && totalProcessed == old(totalProcessed) && processingTimes == old(processingTimes)
      ensures currentKey == old(currentKey)
    {
      if answer.Answered? && answer.success {
        LogOperation("Successfully " + action + "ed: " + filePath, "success", timestamp);
        UpdateStats(action, duration);
      } else {
        LogOperation("Error " + action + "ing file: " + answer.message, "error", timestamp);
      }
      isProcessing := false;
    }

    /** createTestFiles, encryptAllFiles, decryptAllFiles: no guard, no flag; a
        successful batch counts as 100 files of its direction. */
    method BatchOperation(kind: BatchKind, answer: Answer, startStamp: string, endStamp: string)
      returns (sent: Request)
      requires Valid()
      modifies this
      ensures Valid()
      ensures sent == Request(BatchEndpoint(kind), "")
      ensures isProcessing == old(isProcessing)
      ensures operationLog == PushLog(PushLog(old(operationLog), LogEntry(startStamp, BatchStartMessage(kind), "info")),
                                      BatchEndEntry(kind, answer, endStamp))
      ensures var ok := answer.Answered? && answer.success;
              && encrypted == old(encrypted) + (if ok && kind == EncryptAllBatch then 100 else 0)
              && decrypted == old(decrypted) + (if ok && kind == DecryptAllBatch then 100 else 0)
              && totalProcessed == old(totalProcessed) + (if ok && kind != CreateTestFilesBatch then 100 else 0)
      ensures currentKey == old(currentKey) && processingTimes == old(processingTimes)
    {
      LogOperation(BatchStartMessage(kind), "info", startStamp);
      ghost var started := operationLog;
      sent := Request(BatchEndpoint(kind), "");
      CountBatch(kind, answer.Answered? && answer.success);
      var entry := BatchEndEntry(kind, answer, endStamp);
      LogOperation(entry.message, entry.kind, endStamp);
      assert LogEntry(endStamp, entry.message, entry.kind) == entry;
    }

    /** The statistics a batch adds when it succeeds: 100 files of its direction. */
    method CountBatch(kind: BatchKind, ok: bool)
      modifies this
      ensures encrypted == old(encrypted) + (if ok && kind == EncryptAllBatch then 100 else 0)
      ensures decrypted == old(decrypted) + (if ok && kind == DecryptAllBatch then 100 else 0)
      ensures totalProcessed == old(totalProcessed) + (if ok && kind != CreateTestFilesBatch then 100 else 0)
      ensures currentKey == old(currentKey) && isProcessing == old(isProcessing)
      ensures operationLog == old(operationLog) && processingTimes == old(processingTimes)
    {
      if ok {
        if kind == EncryptAllBatch {
          encrypted := encrypted + 100;
          totalProcessed := totalProcessed + 100;
        } else if kind == DecryptAllBatch {
          decrypted := decrypted + 100;
          totalProcessed := totalProcessed + 100;
        }
      }
    }
  }
}
