/**
 * The engine's entry point (main.cpp): the command chosen by argv[1], the interactive
 * path that reads a file name and an action from standard input, the two batch
 * builders that queue test/test_file_1.txt … test_file_100.txt, and createTestFiles.
 *
 * The filesystem is an input: for each path, what GetFileAttributesA reports and
 * whether the file stream opens (`Probe`), and for createTestFiles whether the output
 * stream opens. Console output is not modelled.
 */
module Engine {
  import opened Text
  import opened Processes

  datatype Command = CreateTestFilesCommand | ProcessAllCommand | DecryptAllCommand | InteractiveCommand

  /** main's choice: the three batch commands by exact match on argv[1]; anything else,
      or no argument at all, is the interactive path. */
  function Dispatch(argv: seq<string>): Command {
    if |argv| > 1 && argv[1] == "create-test-files" then CreateTestFilesCommand
    else if |argv| > 1 && argv[1] == "process-all" then ProcessAllCommand
    else if |argv| > 1 && argv[1] == "decrypt-all" then DecryptAllCommand
    else InteractiveCommand
  }

  lemma DispatchRule(argv: seq<string>)
    ensures Dispatch(argv) == CreateTestFilesCommand <==> |argv| > 1 && argv[1] == "create-test-files"
    ensures Dispatch(argv) == ProcessAllCommand <==> |argv| > 1 && argv[1] == "process-all"
    ensures Dispatch(argv) == DecryptAllCommand <==> |argv| > 1 && argv[1] == "decrypt-all"
    ensures Dispatch(argv) == InteractiveCommand <==>
              |argv| <= 1 || argv[1] !in ["create-test-files", "process-all", "decrypt-all"]
  {
  }

  /** The interactive action: exactly "encrypt" encrypts; every other text decrypts. */
  function ActionOf(s: string): (a: Action)
    ensures a == Encrypt <==> s == "encrypt"
  {
    if s == "encrypt" then Encrypt else Decrypt
  }

  /** std::getline on the remaining input: the text up to the first '\n' (or to the
      end), and the input after that '\n'. At the end of input the line is empty. */
  function Getline(input: string): (r: (string, string))
    ensures '\n' !in r.0
    ensures '\n' in input ==> input == r.0 + "\n" + r.1
    ensures '\n' !in input ==> r.0 == input && r.1 == ""
    decreases |input|
  {
    if input == [] then ("", "")
    else if input[0] == '\n' then ("", input[1..])
    else
      var (line, rest) := Getline(input[1..]);
      ([input[0]] + line, rest)
  }

  /** Getline returns a line written with its terminator unchanged, and leaves what
      followed it. */
  lemma {:induction false} GetlineInverse(line: string, rest: string)
    requires '\n' !in line
    ensures Getline(line + "\n" + rest) == (line, rest)
    decreases |line|
  {
    var input := line + "\n" + rest;
    if line == [] {
      assert input == "\n" + rest;
    } else {
      assert input[0] == line[0];
      assert input[1..] == line[1..] + "\n" + rest;
      GetlineInverse(line[1..], rest);
      assert [line[0]] + line[1..] == line;
    }
  }

  /** What the engine learns about a path: GetFileAttributesA fails, or names a
      directory, or names a file whose stream does or does not open. */
  datatype Probe = NotFound | IsDirectory | RegularFile(opens: bool)

  predicate Queueable(p: Probe) {
    p == RegularFile(true)
  }

  /** The name of test file i. */
  function TestFileName(i: nat): string {
    "test/test_file_" + NatToString(i) + ".txt"
  }

  /** Distinct indices name distinct files. */
  lemma TestFileNamesDistinct(i: nat, j: nat)
    requires i != j
    ensures TestFileName(i) != TestFileName(j)
  {
    var a, b := NatToString(i), NatToString(j);
    NatToStringInjective(i, j);
    if |a| == |b| {
      var k :| 0 <= k < |a| && a[k] != b[k];
      assert TestFileName(i)[15 + k] == a[k];
      assert TestFileName(j)[15 + k] == b[k];
    } else {
      assert |TestFileName(i)| == 19 + |a|;
    }
  }

  /** The tasks a batch builder has queued after visiting indices 1..n. */
  function QueuedTestFiles(fs: string -> Probe, action: Action, n: nat): (tasks: seq<Task>)
    ensures |tasks| <= n
    decreases n
  {
    if n == 0 then []
    else
      QueuedTestFiles(fs, action, n - 1)
      + (if Queueable(fs(TestFileName(n))) then [Task(TestFileName(n), action)] else [])
  }

  /** A test file is queued exactly when its index is within 1..n and its file exists,
      is not a directory and opens; every queued task carries the builder's action. */
  lemma {:induction false} QueuedTestFilesMembers(fs: string -> Probe, action: Action, n: nat)
    ensures forall t :: t in QueuedTestFiles(fs, action, n) ==> t.action == action
    ensures forall i: nat ::
              (Task(TestFileName(i), action) in QueuedTestFiles(fs, action, n)
               <==> 1 <= i <= n && Queueable(fs(TestFileName(i))))
    decreases n
  {
    if n > 0 {
      QueuedTestFilesMembers(fs, action, n - 1);
      forall i: nat | i != n
        ensures TestFileName(i) != TestFileName(n)
      {
        TestFileNamesDistinct(i, n);
      }
    }
  }

  /** The queue follows ascending index order: a task queued earlier has a smaller
      index. */
  lemma {:induction false} QueuedTestFilesAscending(fs: string -> Probe, action: Action, n: nat)
    ensures forall x, y :: 0 <= x < y < |QueuedTestFiles(fs, action, n)| ==>
              exists i: nat, j: nat :: 1 <= i < j <= n
                && QueuedTestFiles(fs, action, n)[x] == Task(TestFileName(i), action)
                && QueuedTestFiles(fs, action, n)[y] == Task(TestFileName(j), action)
    decreases n
  {
    if n > 0 {
      var prev := QueuedTestFiles(fs, action, n - 1);
      var q := QueuedTestFiles(fs, action, n);
      QueuedTestFilesAscending(fs, action, n - 1);
      QueuedIndexBound(fs, action, n - 1);
      forall x, y | 0 <= x < y < |q|
        ensures exists i: nat, j: nat :: 1 <= i < j <= n
                  && q[x] == Task(TestFileName(i), action) && q[y] == Task(TestFileName(j), action)
      {
        if y < |prev| {
          assert q[x] == prev[x] && q[y] == prev[y];
        } else {
          assert q[y] == Task(TestFileName(n), action);
          assert q[x] == prev[x];
          var i: nat :| 1 <= i <= n - 1 && prev[x] == Task(TestFileName(i), action);
          assert 1 <= i < n;
        }
      }
    } else {
      assert QueuedTestFiles(fs, action, n) == [];
    }
  }

  /** Every queued task is test file i for some 1 <= i <= n. */
  lemma {:induction false} QueuedIndexBound(fs: string -> Probe, action: Action, n: nat)
    ensures forall x :: 0 <= x < |QueuedTestFiles(fs, action, n)| ==>
              exists i: nat :: 1 <= i <= n && QueuedTestFiles(fs, action, n)[x] == Task(TestFileName(i), action)
    decreases n
  {
    if n > 0 {
      var prev := QueuedTestFiles(fs, action, n - 1);
      var q := QueuedTestFiles(fs, action, n);
      QueuedIndexBound(fs, action, n - 1);
      forall x | 0 <= x < |q|
        ensures exists i: nat :: 1 <= i <= n && q[x] == Task(TestFileName(i), action)
      {
        if x < |prev| {
          assert q[x] == prev[x];
        } else {
          assert q[x] == Task(TestFileName(n), action);
        }
      }
    } else {
      assert QueuedTestFiles(fs, action, n) == [];
    }
  }

  /** processAllTestFiles and decryptAllTestFiles up to executeTasksWithMultiprocessing:
      visit 1..100 in order and queue each test file that exists, is not a directory
      and opens. */
  method BuildBatch(fs: string -> Probe, action: Action) returns (pm: ProcessManagement)
    ensures fresh(pm)
    ensures pm.taskQueue == QueuedTestFiles(fs, action, 100)
    ensures pm.processHandles == []
  {
    pm := new ProcessManagement();
    for i := 1 to 101
      invariant pm.taskQueue == QueuedTestFiles(fs, action, i - 1)
      invariant pm.processHandles == []
    {
      var filename := "test/test_file_" + NatToString(i) + ".txt";
      var attributes := fs(filename);
      if attributes != NotFound && attributes != IsDirectory {
        if attributes.opens {
          var _ := pm.SubmitToQueue(Task(filename, action));
        }
      }
    }
  }

  /** The outcome of one engine run as far as the model follows it. */
  datatype RunResult = RunResult(
    exitCode: int,
    written: seq<(string, string)>,       // createTestFiles: files written, with contents
    cryptionCalls: seq<string>,           // interactive: texts handed to executeCryption
    commandLines: seq<string>,            // batch: child command lines launched
    batches: seq<Batch>)                  // batch: the waits issued

  /** The text createTestFiles streams into test file i (before any newline
      translation by the text-mode stream). */
  function TestFileContent(i: nat): string {
    "This is test file number " + NatToString(i) + " for encryption/decryption testing.\n"
    + "Content: Lorem ipsum dolor sit amet, consectetur adipiscing elit.\n"
    + "Random data: " + NatToString((i * 123) % 1000) + "\n"
  }

  /** The "Random data" value lies in 0..999 and so prints in at most three digits. */
  lemma {:induction false} RandomDataDigits(i: nat)
    ensures 0 <= (i * 123) % 1000 <= 999
    ensures |NatToString((i * 123) % 1000)| <= 3
  {
    var v := (i * 123) % 1000;
    if v >= 10 {
      assert NatToString(v) == NatToString(v / 10) + [DigitChar(v % 10)];
      if v / 10 >= 10 {
        assert NatToString(v / 10) == NatToString(v / 100) + [DigitChar((v / 10) % 10)];
      }
    }
  }

  /** The text streamed into test file i is 142 to 144 characters longer than the
      printed index, and it ends in its "Random data" line: the digits before the
      final line break read back as (i · 123) mod 1000, a value below 1000. */
  lemma TestFileContentTail(i: nat)
    ensures var c := TestFileContent(i);
            var d := NatToString((i * 123) % 1000);
            && 142 + |NatToString(i)| <= |c| <= 144 + |NatToString(i)|
            && |c| >= |d| + 14
            && c[|c| - |d| - 14..|c| - |d| - 1] == "Random data: "
            && AllDigits(c[|c| - |d| - 1..|c| - 1])
            && ParseNat(c[|c| - |d| - 1..|c| - 1]) == (i * 123) % 1000 < 1000
            && c[|c| - 1] == '\n'
  {
    var v := (i * 123) % 1000;
    var d := NatToString(v);
    var head := "This is test file number " + NatToString(i) + " for encryption/decryption testing.\n"
                + "Content: Lorem ipsum dolor sit amet, consectetur adipiscing elit.\n";
    var c := TestFileContent(i);
    assert c == head + "Random data: " + d + "\n";
    RandomDataDigits(i);
    assert |head| == 127 + |NatToString(i)|;
    assert c[|c| - |d| - 14..|c| - |d| - 1] == "Random data: ";
    assert c[|c| - |d| - 1..|c| - 1] == d;
    ParseNatToString(v);
  }

  /** The files createTestFiles writes for indices 1..n, given which output streams
      open. */
  function TestFilesWritten(opens: string -> bool, n: nat): (w: seq<(string, string)>)
    ensures |w| <= n
    decreases n
  {
    if n == 0 then []
    else
      TestFilesWritten(opens, n - 1)
      + (if opens(TestFileName(n)) then [(TestFileName(n), TestFileContent(n))] else [])
  }

  /** When every stream opens, createTestFiles writes exactly 100 files, one per
      index, with distinct names. */
  lemma {:induction false} AllTestFilesWritten(opens: string -> bool, n: nat)
    requires forall p :: opens(p)
    ensures |TestFilesWritten(opens, n)| == n
    ensures forall i :: 0 <= i < n ==> TestFilesWritten(opens, n)[i] == (TestFileName(i + 1), TestFileContent(i + 1))
    decreases n
  {
    if n > 0 {
      AllTestFilesWritten(opens, n - 1);
    }
  }

  method CreateTestFiles(opens: string -> bool) returns (written: seq<(string, string)>)
    ensures written == TestFilesWritten(opens, 100)
  {
    written := [];
    for i := 1 to 101
      invariant written == TestFilesWritten(opens, i - 1)
    {
      var filename := "test/test_file_" + NatToString(i) + ".txt";
      if opens(filename) {
        written := written + [(filename, TestFileContent(i))];
      }
    }
  }

  /** The interactive path: read a file name and an action; queue and execute one task
      when the file exists, is not a directory and opens; otherwise queue nothing. */
  method Interactive(stdin: string, fs: string -> Probe, toString: Task -> string) returns (cryptionCalls: seq<string>)
    ensures var (filename, rest) := Getline(stdin);
            var action := Getline(rest).0;
            cryptionCalls == if Queueable(fs(filename)) then [toString(Task(filename, ActionOf(action)))] else []
  {
    var (filename, rest) := Getline(stdin);
    var action := Getline(rest).0;
    cryptionCalls := [];
    var attributes := fs(filename);
    if attributes != NotFound && attributes != IsDirectory {
      var pm := new ProcessManagement();
      if attributes.opens {
        var taskAction := if action == "encrypt" then Encrypt else Decrypt;
        var _ := pm.SubmitToQueue(Task(filename, taskAction));
        cryptionCalls := pm.ExecuteTasks(toString);
      }
    }
  }

  /** main. `outcomes` are the CreateProcessA results for the tasks a batch command
      queues; `waitFails` the WAIT_FAILED results of its waits. */
  method Run(argv: seq<string>, stdin: string, fs: string -> Probe, opens: string -> bool,
             toString: Task -> string, outcomes: seq<Option<Handle>>, waitFails: nat -> bool)
    returns (r: RunResult)
    requires Dispatch(argv) == ProcessAllCommand ==> |outcomes| == |QueuedTestFiles(fs, Encrypt, 100)|
    requires Dispatch(argv) == DecryptAllCommand ==> |outcomes| == |QueuedTestFiles(fs, Decrypt, 100)|
    ensures r.exitCode == 0
    ensures Dispatch(argv) == CreateTestFilesCommand ==> r.written == TestFilesWritten(opens, 100)
    ensures Dispatch(argv) != CreateTestFilesCommand ==> r.written == []
    ensures Dispatch(argv) == ProcessAllCommand ==>
              && r.commandLines == CommandLines(Map(toString, QueuedTestFiles(fs, Encrypt, 100)))
              && r.batches == WaitBatches(|Launched(outcomes)|, waitFails)
    ensures Dispatch(argv) == DecryptAllCommand ==>
              && r.commandLines == CommandLines(Map(toString, QueuedTestFiles(fs, Decrypt, 100)))
              && r.batches == WaitBatches(|Launched(outcomes)|, waitFails)
    ensures Dispatch(argv) == InteractiveCommand ==>
              && r.commandLines == [] && r.batches == []
              && var (filename, rest) := Getline(stdin);
                 r.cryptionCalls == if Queueable(fs(filename)) then [toString(Task(filename, ActionOf(Getline(rest).0)))] else []
    ensures Dispatch(argv) != InteractiveCommand ==> r.cryptionCalls == []
  {
    match Dispatch(argv) {
      case CreateTestFilesCommand =>
        var written := CreateTestFiles(opens);
        return RunResult(0, written, [], [], []);
      case ProcessAllCommand =>
        var pm := BuildBatch(fs, Encrypt);
        var commandLines, batches, _ := pm.ExecuteTasksWithMultiprocessing(toString, outcomes, waitFails);
        return RunResult(0, [], [], commandLines, batches);
      case DecryptAllCommand =>
        var pm := BuildBatch(fs, Decrypt);
        var commandLines, batches, _ := pm.ExecuteTasksWithMultiprocessing(toString, outcomes, waitFails);
        return RunResult(0, [], [], commandLines, batches);
      case InteractiveCommand =>
        var calls := Interactive(stdin, fs, toString);
        return RunResult(0, [], calls, [], []);
    }
  }
}
