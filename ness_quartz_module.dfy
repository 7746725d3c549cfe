/**
 * The scheduler module's configuration pass: configureJobs walks the keys of
 * the job namespace and configureJob turns each `<name>.class` entry into a
 * registered descriptor or an accumulated error.  The module's registrations,
 * errors and warnings are fields the methods append to; an exception that
 * escapes configureJob is returned as a Failure and ends the pass.
 */
module NessQuartz {
  import opened Wrappers
  import opened StringUtils
  import opened Configurations
  import opened Jobs
  import opened QuartzJobBinders

  class NessQuartzModule {
    var registered: seq<JobDescriptor>
    var errors: seq<ConfigError>
    var warnings: seq<Warning>

    /** The pass state the fields stand for, while nothing has escaped. */
    function State(): PassState
      reads this
    {
      PassState(registered, errors, warnings, None)
    }

    constructor ()
      ensures State() == Start
    {
      registered, errors, warnings := [], [], [];
    }

    /** configureJob: the module's state afterwards is exactly ConfigureJobResult recorded into the old state. */
    method ConfigureJob(env: Environment, jobName: string, jobConfig: SubsetView) returns (thrown: Option<Failure>)
      modifies this
      ensures PassState(registered, errors, warnings, thrown)
              == Record(old(State()), jobName, ConfigureJobResult(env, jobName, jobConfig))
    {
      thrown := None;
      var className := jobConfig.GetString("class");
      if className.None? {
        thrown := Some(MissingClassKey(jobName));
        return;
      }
      var cn := className.value;
      if cn !in env.classes {
        errors := errors + [ClassNotFound(cn)];
        return;
      }
      if env.classes[cn] == NonJobClass {
        errors := errors + [NotAJob(cn)];
        return;
      }

      var binder := new QuartzJobBinder(cn);
      binder.Name(jobName);

      if jobConfig.ContainsKey("delay") {
        var millis := ParseDuration(env, jobConfig, "delay");
        if millis.None? {
          thrown := Some(BadTimeSpan(jobName, "delay", jobConfig.GetString("delay").value));
          return;
        }
        binder.Delay(millis.value);
      }

      if jobConfig.ContainsKey("repeat") {
        var millis := ParseDuration(env, jobConfig, "repeat");
        if millis.None? {
          thrown := Some(BadTimeSpan(jobName, "repeat", jobConfig.GetString("repeat").value));
          return;
        }
        binder.Repeat(millis.value);
      }

      if jobConfig.ContainsKey("group") {
        binder.Group(jobConfig.GetString("group").value);
      }

      if jobConfig.ContainsKey("enabled") {
        var text := jobConfig.GetString("enabled").value;
        var b := env.toBoolean(text);
        if b.None? {
          thrown := Some(BadBoolean(jobName, text));
          return;
        }
        binder.Enabled(b.value);
      } else {
        warnings := warnings + [NoEnabledKey(jobName)];
      }

      var descriptor := binder.Register();
      registered := registered + [descriptor];
    }

    /** configureJobs: the module's state afterwards, with what escaped, is RunKeys over the configuration's keys. */
    method ConfigureJobs(env: Environment, jobConfig: Configuration) returns (thrown: Option<Failure>)
      modifies this
      ensures PassState(registered, errors, warnings, thrown)
              == RunKeys(env, jobConfig, jobConfig.keys, old(State()))
    {
      thrown := None;
      var keys := jobConfig.keys;
      var i := 0;
      while i < |keys|
        invariant 0 <= i <= |keys|
        invariant thrown == None
        invariant RunKeys(env, jobConfig, keys, old(State())) == RunKeys(env, jobConfig, keys[i..], State())
      {
        var key := keys[i];
        assert keys[i..][0] == key && keys[i..][1..] == keys[i + 1..];
        ghost var before := State();
        var parts := Split(key);
        if |parts| != 2 {
          warnings := warnings + [InvalidKey(key)];
          i := i + 1;
          continue;
        }
        if parts[1] == "class" {
          thrown := ConfigureJob(env, parts[0], jobConfig.Subset(parts[0]));
          assert StepKey(env, jobConfig, before, key) == PassState(registered, errors, warnings, thrown);
          if thrown.Some? {
            return;
          }
        }
        i := i + 1;
      }
      assert keys[i..] == [];
    }
  }
}
