/**
 * The engine's key lookup (src/app/fileHandling/ReadEnv.cpp). A ReadEnv captures the
 * ENCRYPTION_KEY environment variable once, when it is constructed, and afterwards
 * only hands that captured text out again.
 */
module ReadEnv {
  import opened Text

  const EngineDefaultKey: string := "default-encryption-key"

  /** The one field of the C++ class, written by the constructor only. */
  datatype ReadEnv = ReadEnv(envKey: string)

  /** The constructor: `env` is what getenv("ENCRYPTION_KEY") finds at that moment
      (None for a null pointer). A present value is kept as it is, even when empty. */
  function Capture(env: Option<string>): (r: ReadEnv)
    ensures env.Some? ==> r.envKey == env.value
    ensures env.None? ==> r.envKey == EngineDefaultKey
  {
    if env.Some? then ReadEnv(env.value) else ReadEnv(EngineDefaultKey)
  }

  /** ReadEnv::getenv. */
  function GetEnv(r: ReadEnv): (key: string)
    ensures key == r.envKey
  {
    r.envKey
  }

  /** The key the engine uses is decided by presence, not by content: an empty value
      stays empty, and only an absent variable yields the built-in default. */
  lemma KeyDecidedByPresence(env: Option<string>)
    ensures GetEnv(Capture(env)) == EngineDefaultKey <==> env.None? || env.value == EngineDefaultKey
    ensures env == Some("") ==> GetEnv(Capture(env)) == ""
  {
  }

  /** Two captures agree exactly when the environment agreed, apart from an explicit
      value equal to the default: what a ReadEnv returns depends on nothing but the
      value present at construction. */
  lemma CaptureDeterminedByEnvironment(e1: Option<string>, e2: Option<string>)
    requires e1.Some? && e2.Some?
    ensures GetEnv(Capture(e1)) == GetEnv(Capture(e2)) <==> e1 == e2
  {
  }
}
