/**
 * How the web server and the engine fit together: the argument and stdin text the
 * server's routes hand to build/encrypt_decrypt.exe, read back by the engine's main,
 * and the ENCRYPTION_KEY the server puts into the child's environment, read back by
 * the engine's ReadEnv.
 */
module Protocol {
  import opened Text
  import Backend
  import Engine
  import Processes
  import ReadEnv

  /** The argv the engine's main sees for one invocation: the executable, then the
      single argument the server passes. */
  function EngineArgv(inv: Backend.Invocation): (argv: seq<string>)
    ensures |argv| == 2 && argv[0] == Backend.EnginePath && argv[1] == inv.command
  {
    [Backend.EnginePath, inv.command]
  }

  /** The task the interactive path reads from stdin: a file name line, then an
      action line. */
  function InteractiveTask(stdin: string): (t: Processes.Task)
    ensures '\n' !in t.filePath
    ensures t.action == Processes.Encrypt <==> Engine.Getline(Engine.Getline(stdin).1).0 == "encrypt"
  {
    var (filename, rest) := Engine.Getline(stdin);
    Processes.Task(filename, Engine.ActionOf(Engine.Getline(rest).0))
  }

  /** The stdin text of a single-file request names exactly the file and the direction
      the request asked for, provided the path holds no line break. */
  lemma SingleFilePayload(f: string, word: string)
    requires '\n' !in f
    requires word == "encrypt" || word == "decrypt"
    ensures InteractiveTask(f + "\n" + word + "\n") ==
              Processes.Task(f, if word == "encrypt" then Processes.Encrypt else Processes.Decrypt)
  {
    assert f + "\n" + word + "\n" == f + "\n" + (word + "\n");
    Engine.GetlineInverse(f, word + "\n");
    assert word + "\n" == word + "\n" + "";
    Engine.GetlineInverse(word, "");
  }

  /** The three batch routes select the engine command they name. */
  lemma BatchRequestReachesEngine(req: Backend.ApiRequest, pathExists: string -> bool)
    requires req.CreateTestFiles? || req.EncryptAll? || req.DecryptAll?
    ensures Backend.Plan(req, pathExists).Some?
    ensures var argv := EngineArgv(Backend.Plan(req, pathExists).value);
            && (req.CreateTestFiles? ==> Engine.Dispatch(argv) == Engine.CreateTestFilesCommand)
            && (req.EncryptAll? ==> Engine.Dispatch(argv) == Engine.ProcessAllCommand)
            && (req.DecryptAll? ==> Engine.Dispatch(argv) == Engine.DecryptAllCommand)
  {
  }

  /** A single-file route that spawns the engine reaches its interactive path, and the
      stdin it writes carries the requested file and direction, provided the path holds
      no line break. */
  lemma SingleFileRequestReachesEngine(req: Backend.ApiRequest, pathExists: string -> bool)
    requires req.EncryptFile? || req.DecryptFile?
    requires pathExists(req.filePath) && '\n' !in req.filePath
    ensures Backend.Plan(req, pathExists).Some?
    ensures var inv := Backend.Plan(req, pathExists).value;
            && Engine.Dispatch(EngineArgv(inv)) == Engine.InteractiveCommand
            && Backend.StdinWritten(inv.input).Some?
            && InteractiveTask(Backend.StdinWritten(inv.input).value) ==
                 Processes.Task(req.filePath, if req.EncryptFile? then Processes.Encrypt else Processes.Decrypt)
  {
    var inv := Backend.Plan(req, pathExists).value;
    assert inv.command == "";
    assert |inv.command| == 0;
    assert Engine.Dispatch(EngineArgv(inv)) == Engine.InteractiveCommand;
    if req.EncryptFile? {
      assert inv.input.value == req.filePath + "\n" + "encrypt" + "\n";
      SingleFilePayload(req.filePath, "encrypt");
    } else {
      assert inv.input.value == req.filePath + "\n" + "decrypt" + "\n";
      SingleFilePayload(req.filePath, "decrypt");
    }
  }

  /** The key the engine encrypts with after a series of set-key requests: the child's
      ReadEnv captures what the server put into its environment, which is the last
      accepted key, or else the server's starting key or "5". The engine's own default
      key is therefore never used unless a client or the environment chose that very
      text. */
  lemma EngineKeyAfterRequests(env: Option<string>, reqs: seq<Backend.BodyValue>)
    ensures var k := ReadEnv.GetEnv(ReadEnv.Capture(Some(Backend.ChildKeyOf(Backend.KeyAfterRequests(env, reqs)))));
            && k != ""
            && (Backend.LastAcceptedKey(reqs).Some? ==> k == Backend.LastAcceptedKey(reqs).value)
            && (Backend.LastAcceptedKey(reqs).None? ==> k == Backend.ChildKeyOf(env))
            && (k == ReadEnv.EngineDefaultKey ==>
                  Backend.LastAcceptedKey(reqs) == Some(ReadEnv.EngineDefaultKey)
                  || (Backend.LastAcceptedKey(reqs).None? && env == Some(ReadEnv.EngineDefaultKey)))
  {
    Backend.ChildSeesLastAcceptedKey(env, reqs);
  }
}
