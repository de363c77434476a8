/** The client's configuration: how many commands may be pipelined on the
    connection and the read/write timeout, with the check NewClient applies
    before it starts. */
module ClientConfig {
  import opened Wrappers
  import opened Text

  /** `MaxPipeline` and `Timeout`; a Go `time.Duration` is a count of
      nanoseconds in 64 bits. */
  datatype Config = Config(maxPipeline: int64, timeout: int64)

  datatype ConfigError = MaxPipelineNotPositive | TimeoutNotPositive

  const SECOND: int64 := 1_000_000_000

  /** Both settings must be positive; the pipeline bound is checked first. */
  function Validate(c: Config): (o: Outcome<ConfigError>)
    ensures o.Pass? <==> c.maxPipeline > 0 && c.timeout > 0
    ensures c.maxPipeline <= 0 ==> o == Fail(MaxPipelineNotPositive)
    ensures c.maxPipeline > 0 && c.timeout <= 0 ==> o == Fail(TimeoutNotPositive)
  {
    if c.maxPipeline <= 0 then Fail(MaxPipelineNotPositive)
    else if c.timeout <= 0 then Fail(TimeoutNotPositive)
    else Pass
  }

  /** 8192 pipelined commands and a five-second timeout. */
  function DefaultConfig(): Config
  {
    Config(8192, 5 * SECOND)
  }

  /** The default configuration passes its own check. */
  lemma DefaultConfigValid()
    ensures Validate(DefaultConfig()).Pass?
    ensures DefaultConfig().timeout == 5 * SECOND
  {
  }

  /** The configuration NewClient runs with: the default when none is given,
      otherwise the given one if it passes the check, and the check's error if
      it does not. */
  function ClientConfiguration(given: Option<Config>): (r: Result<Config, ConfigError>)
    ensures given.None? ==> r == Ok(DefaultConfig())
    ensures given.Some? ==> (r.Ok? <==> Validate(given.value).Pass?)
    ensures given.Some? && r.Ok? ==> r.value == given.value
    ensures r.Err? ==> given.Some? && Validate(given.value) == Fail(r.error)
    ensures r.Ok? ==> Validate(r.value).Pass?
  {
    var c := if given.None? then DefaultConfig() else given.value;
    match Validate(c)
    case Fail(e) => Err(e)
    case Pass => Ok(c)
  }
}
