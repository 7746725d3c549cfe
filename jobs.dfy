/**
 * What one configuration pass over the `ness.job` namespace does, as values:
 * the outcome of configuring one job (ConfigureJobResult) and the state the
 * pass reaches after a sequence of keys (RunKeys).  The imperative module in
 * ness_quartz_module.dfy is proved to compute exactly these.
 */
module Jobs {
  import opened Wrappers
  import opened StringUtils
  import opened Configurations

  /** What loading a class by name and casting it to Job yields. */
  datatype ClassKind = JobClass | NonJobClass

  /**
   * The collaborators the module calls but whose code is not modelled:
   * the class loader (a name absent from `classes` is not found), the
   * time-span parser (TimeSpan's milliseconds, None where it rejects the
   * text) and the configuration's boolean conversion (None where it rejects).
   */
  datatype Environment = Environment(
    classes: map<string, ClassKind>,
    timeSpanMillis: string -> Option<int>,
    toBoolean: string -> Option<bool>)

  /** The fields a QuartzJobBinder holds when it is registered. */
  datatype JobDescriptor = JobDescriptor(
    jobClass: string,
    name: Option<string>,
    delay: Option<int>,
    repeat: Option<int>,
    group: Option<string>,
    enabled: Option<bool>)

  /** The two failures configureJob catches and reports through addError. */
  datatype ConfigError = ClassNotFound(className: string) | NotAJob(className: string)

  /** The failures configureJob lets escape; each ends the whole pass. */
  datatype Failure =
    | MissingClassKey(jobName: string)
    | BadTimeSpan(jobName: string, key: string, text: string)
    | BadBoolean(jobName: string, text: string)

  /** The warnings the pass logs. */
  datatype Warning = InvalidKey(key: string) | NoEnabledKey(jobName: string)

  /** How configuring one job ends. */
  datatype JobOutcome =
    | Registered(descriptor: JobDescriptor)
    | Rejected(error: ConfigError)
    | Threw(failure: Failure)

  /** An optional field of a job: not configured, configured and readable, or configured but unreadable. */
  datatype Field<T> = Absent | Present(value: T) | Malformed(text: string)
  {
    function ToOption(): Option<T>
    {
      if Present? then Some(value) else None
    }
  }

  /** parseDuration: the milliseconds of the time span written under `key`. */
  function ParseDuration(env: Environment, jobConfig: SubsetView, key: string): Option<int>
    requires jobConfig.ContainsKey(key)
  {
    env.timeSpanMillis(jobConfig.GetString(key).value)
  }

  function ReadDuration(env: Environment, jobConfig: SubsetView, key: string): Field<int>
  {
    if !jobConfig.ContainsKey(key) then Absent
    else match ParseDuration(env, jobConfig, key)
      case Some(millis) => Present(millis)
      case None => Malformed(jobConfig.GetString(key).value)
  }

  function ReadBoolean(env: Environment, jobConfig: SubsetView, key: string): Field<bool>
  {
    if !jobConfig.ContainsKey(key) then Absent
    else match env.toBoolean(jobConfig.GetString(key).value)
      case Some(b) => Present(b)
      case None => Malformed(jobConfig.GetString(key).value)
  }

  /**
   * configureJob(jobName, jobConfig): a missing `class` value fails the
   * state check; an unknown or non-Job class is rejected; otherwise the
   * delay, then the repeat, then the enabled flag are read, and the first
   * unreadable one escapes; if none does, the descriptor is registered.
   */
  function ConfigureJobResult(env: Environment, jobName: string, jobConfig: SubsetView): JobOutcome
  {
    match jobConfig.GetString("class")
    case None => Threw(MissingClassKey(jobName))
    case Some(className) =>
      if className !in env.classes then Rejected(ClassNotFound(className))
      else if env.classes[className] == NonJobClass then Rejected(NotAJob(className))
      else
        var delay := ReadDuration(env, jobConfig, "delay");
        var repeat := ReadDuration(env, jobConfig, "repeat");
        var enabled := ReadBoolean(env, jobConfig, "enabled");
        if delay.Malformed? then Threw(BadTimeSpan(jobName, "delay", delay.text))
        else if repeat.Malformed? then Threw(BadTimeSpan(jobName, "repeat", repeat.text))
        else if enabled.Malformed? then Threw(BadBoolean(jobName, enabled.text))
        else Registered(JobDescriptor(className, Some(jobName), delay.ToOption(), repeat.ToOption(),
                                      jobConfig.GetString("group"), enabled.ToOption()))
  }

  /** What the pass has produced so far; `failure` is the exception that ended it, if any. */
  datatype PassState = PassState(
    registered: seq<JobDescriptor>,
    errors: seq<ConfigError>,
    warnings: seq<Warning>,
    failure: Option<Failure>)

  const Start: PassState := PassState([], [], [], None)

  /** The effect of one configureJob call on the pass. */
  function Record(st: PassState, jobName: string, outcome: JobOutcome): PassState
  {
    match outcome
    case Registered(d) =>
      st.(registered := st.registered + [d],
          warnings := st.warnings + (if d.enabled.None? then [NoEnabledKey(jobName)] else []))
    case Rejected(e) => st.(errors := st.errors + [e])
    case Threw(f) => st.(failure := Some(f))
  }

  /** A two-segment key whose second segment is "class". */
  predicate IsClassKey(key: string)
  {
    var parts := Split(key);
    |parts| == 2 && parts[1] == "class"
  }

  /** The outcome of the configureJob call a class key triggers. */
  function ClassKeyOutcome(env: Environment, cfg: Configuration, key: string): JobOutcome
    requires IsClassKey(key)
  {
    var name := Split(key)[0];
    ConfigureJobResult(env, name, cfg.Subset(name))
  }

  /** One iteration of configureJobs. */
  function StepKey(env: Environment, cfg: Configuration, st: PassState, key: string): PassState
  {
    var parts := Split(key);
    if |parts| != 2 then st.(warnings := st.warnings + [InvalidKey(key)])
    else if parts[1] == "class" then Record(st, parts[0], ConfigureJobResult(env, parts[0], cfg.Subset(parts[0])))
    else st
  }

  /** configureJobs over `keys`, from `st`; an escaped failure ends the loop. */
  function RunKeys(env: Environment, cfg: Configuration, keys: seq<string>, st: PassState): PassState
    decreases |keys|
  {
    if keys == [] || st.failure.Some? then st
    else RunKeys(env, cfg, keys[1..], StepKey(env, cfg, st, keys[0]))
  }
}
